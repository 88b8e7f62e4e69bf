/** The commit gate: one tracker of every rank's answer to one prepare. */
module PrepareTracker {
  import opened Wrappers
  import opened Fleet

  datatype PrepareReply = Prepared | Refused(reason: string)

  /** A reply as it comes in, from anyone, about any epoch. */
  datatype Message = Message(epoch: string, node: NodeId, reply: PrepareReply)

  datatype State = State(epoch: string, ranks: seq<NodeId>, replies: map<NodeId, PrepareReply>)

  function Heard(s: State, m: Message): (State, bool) {
    if m.epoch != s.epoch || m.node !in s.ranks then (s, false)
    else (s.(replies := s.replies[m.node := m.reply]), true)
  }

  predicate Complete(s: State) {
    forall n | n in s.ranks :: n in s.replies
  }

  function Refusals(s: State): map<NodeId, string> {
    map n | n in s.replies && s.replies[n].Refused? :: s.replies[n].reason
  }

  function Ready(s: State): set<NodeId> {
    set n | n in s.replies && s.replies[n].Prepared?
  }

  predicate MayCommit(s: State) {
    Complete(s) && Refusals(s) == map[]
  }

  class Tracker {
    const epoch: string
    const ranks: seq<NodeId>
    var replies: map<NodeId, PrepareReply>

    function Now(): State
      reads this
    {
      State(epoch, ranks, replies)
    }

    constructor (epoch: string, ranks: seq<NodeId>)
      ensures Now() == State(epoch, ranks, map[])
    {
      this.epoch, this.ranks, replies := epoch, ranks, map[];
    }

    method Record(m: Message) returns (counted: bool)
      modifies this
      ensures (Now(), counted) == Heard(old(Now()), m)
    {
      if m.epoch != epoch || m.node !in ranks {
        return false;
      }
      replies := replies[m.node := m.reply];
      return true;
    }
  }

  function HeardAll(epoch: string, ranks: seq<NodeId>, ms: seq<Message>): State {
    if ms == [] then State(epoch, ranks, map[]) else Heard(HeardAll(epoch, ranks, ms[..|ms| - 1]), ms[|ms| - 1]).0
  }

  /** What a node last said about this epoch. */
  function LastSaid(epoch: string, node: NodeId, ms: seq<Message>): Option<PrepareReply> {
    if ms == [] then None
    else
      var m := ms[|ms| - 1];
      if m.epoch == epoch && m.node == node then Some(m.reply) else LastSaid(epoch, node, ms[..|ms| - 1])
  }

  lemma {:induction false} RepliesAreLastSaid(epoch: string, ranks: seq<NodeId>, ms: seq<Message>)
    ensures var s := HeardAll(epoch, ranks, ms);
      && s.epoch == epoch && s.ranks == ranks
      && (forall n | n in s.replies :: n in ranks && LastSaid(epoch, n, ms) == Some(s.replies[n]))
      && (forall n | n in ranks && LastSaid(epoch, n, ms).Some? :: n in s.replies)
  {
    if ms != [] {
      RepliesAreLastSaid(epoch, ranks, ms[..|ms| - 1]);
    }
  }

  /** Whatever arrives and in whatever order, the commit may go ahead exactly when every
      rank's last word on this very epoch is that it is prepared; strangers, other epochs
      and silence never count. Who must be released is who last said so. */
  lemma CommitsExactly(epoch: string, ranks: seq<NodeId>, ms: seq<Message>)
    ensures MayCommit(HeardAll(epoch, ranks, ms)) <==>
      forall n | n in ranks :: LastSaid(epoch, n, ms) == Some(Prepared)
    ensures forall n :: n in Ready(HeardAll(epoch, ranks, ms)) <==> n in ranks && LastSaid(epoch, n, ms) == Some(Prepared)
  {
    RepliesAreLastSaid(epoch, ranks, ms);
    var s := HeardAll(epoch, ranks, ms);
    if MayCommit(s) {
      forall n | n in ranks
        ensures LastSaid(epoch, n, ms) == Some(Prepared)
      {
        assert n in s.replies && n !in Refusals(s);
      }
    } else if Complete(s) {
      var n :| n in Refusals(s);
      assert n in ranks;
    }
  }

  predicate SaidNo(said: Option<PrepareReply>) {
    said.Some? && said.value.Refused?
  }

  /** Who refused is who last said so, with the reason last given; and every rank has answered
      exactly when each has said something about this epoch. */
  lemma RefusedExactly(epoch: string, ranks: seq<NodeId>, ms: seq<Message>, s: State)
    requires s == HeardAll(epoch, ranks, ms)
    ensures forall n | n in Refusals(s) :: n in ranks && LastSaid(epoch, n, ms) == Some(Refused(Refusals(s)[n]))
    ensures forall n | n in ranks && SaidNo(LastSaid(epoch, n, ms)) :: n in Refusals(s)
    ensures Complete(s) <==> forall n | n in ranks :: LastSaid(epoch, n, ms) != None
  {
    RepliesAreLastSaid(epoch, ranks, ms);
    if Complete(s) {
      forall n | n in ranks
        ensures LastSaid(epoch, n, ms) != None
      {
        assert n in s.replies;
      }
    }
  }
}
