/** What the ranks are sent while ceremonies overlap. A commit goes from rank to rank with
    anything in between; which ranks an epoch has was settled when it was prepared. */
module OverlapSent {
  import opened Fleet
  import opened RankNet
  import opened Overlap

  datatype Sent = Sent(node: NodeId, epoch: Epoch)

  /** The slots and ceremonies, how many ranks each commit has got to, every commit message
      sent, and the epochs an abort has taken. */
  datatype Sending = Sending(slots: State, told: map<nat, nat>, sent: seq<Sent>, aborted: set<Epoch>)

  datatype Act = Slot(op: Overlap.Op) | Tell(id: nat)

  predicate Begins(s: State, op: Overlap.Op) {
    op.BeginCommit? && op.id !in s.ongoing && Overlap.Holds(s.pending, op.epoch)
  }

  function Tells(targets: Epoch -> seq<NodeId>, n: Sending, id: nat): Sending {
    if id !in n.slots.ongoing || !n.slots.ongoing[id].Committing? || id !in n.told then n
    else
      var e := n.slots.ongoing[id].epoch;
      if n.told[id] >= |targets(e)| then n
      else n.(sent := n.sent + [Sent(targets(e)[n.told[id]], e)], told := n.told[id := n.told[id] + 1])
  }

  function Next(targets: Epoch -> seq<NodeId>, n: Sending, act: Act): Sending {
    match act
    case Slot(op) =>
      n.(slots := Overlap.Step(n.slots, op),
         told := if Begins(n.slots, op) then n.told[op.id := 0] else n.told,
         aborted := if op.AbortHeld? && Overlap.Holds(n.slots.pending, op.epoch) then n.aborted + {op.epoch} else n.aborted)
    case Tell(id) => Tells(targets, n, id)
  }

  function Running(targets: Epoch -> seq<NodeId>, acts: seq<Act>): Sending {
    if acts == [] then Sending(IDLE, map[], [], {})
    else Next(targets, Running(targets, acts[..|acts| - 1]), acts[|acts| - 1])
  }

  /** The ranks sent a commit of that epoch, in order. */
  function SentOf(sent: seq<Sent>, e: Epoch): seq<NodeId> {
    if sent == [] then []
    else
      var last := sent[|sent| - 1];
      SentOf(sent[..|sent| - 1], e) + if last.epoch == e then [last.node] else []
  }

  lemma SentMore(sent: seq<Sent>, m: Sent, e: Epoch)
    ensures SentOf(sent + [m], e) == SentOf(sent, e) + if m.epoch == e then [m.node] else []
  {
    assert (sent + [m])[..|sent|] == sent;
  }

  /** A commit under way has told the first ranks of its epoch, which nobody else commits. */
  ghost predicate CommitOk(targets: Epoch -> seq<NodeId>, n: Sending, id: nat)
    requires id in n.slots.ongoing
  {
    var e := n.slots.ongoing[id].epoch;
    && id in n.told && n.told[id] <= |targets(e)| && SentOf(n.sent, e) == targets(e)[..n.told[id]]
    && e in n.slots.taken && e !in n.aborted
  }

  ghost predicate Commits(targets: Epoch -> seq<NodeId>, n: Sending) {
    && (forall i | i in n.slots.ongoing && n.slots.ongoing[i].Committing? :: CommitOk(targets, n, i))
    && (forall i, j | i in n.slots.ongoing && j in n.slots.ongoing && i != j
          && n.slots.ongoing[i].Committing? && n.slots.ongoing[j].Committing? ::
          n.slots.ongoing[i].epoch != n.slots.ongoing[j].epoch)
  }

  ghost predicate InOrder(targets: Epoch -> seq<NodeId>, n: Sending) {
    && (forall e :: SentOf(n.sent, e) <= targets(e))
    && (forall e | e !in n.slots.taken || e in n.aborted :: SentOf(n.sent, e) == [])
    && (forall e | e in n.aborted :: e in n.slots.taken)
  }

  ghost predicate Inv(targets: Epoch -> seq<NodeId>, n: Sending) {
    Ledger(n.slots) && Commits(targets, n) && InOrder(targets, n)
  }

  lemma TellKeepsInv(targets: Epoch -> seq<NodeId>, n: Sending, id: nat)
    requires Inv(targets, n)
    ensures Inv(targets, Tells(targets, n, id))
  {
    var t := Tells(targets, n, id);
    if t != n {
      var e := n.slots.ongoing[id].epoch;
      assert CommitOk(targets, n, id);
      var m := Sent(targets(e)[n.told[id]], e);
      forall f
        ensures SentOf(t.sent, f) == SentOf(n.sent, f) + if f == e then [m.node] else []
      {
        SentMore(n.sent, m, f);
      }
      assert targets(e)[..n.told[id] + 1] == targets(e)[..n.told[id]] + [m.node];
      forall i | i in t.slots.ongoing && t.slots.ongoing[i].Committing?
        ensures CommitOk(targets, t, i)
      {
        assert CommitOk(targets, n, i);
      }
    }
  }

  /** What a slot operation does to commits under way and to what has been taken. */
  lemma SlotMoves(n: State, op: Overlap.Op, t: State)
    requires Ledger(n) && t == Overlap.Step(n, op)
    ensures forall i | i in t.ongoing && t.ongoing[i].Committing? ::
      (i in n.ongoing && t.ongoing[i] == n.ongoing[i])
      || (Begins(n, op) && i == op.id && t.ongoing[i].epoch == op.epoch)
    ensures forall e | e in n.taken :: e in t.taken
    ensures forall e | e in t.taken && e !in n.taken :: op.BeginCommit? || op.AbortHeld?
    ensures Begins(n, op) ==> op.epoch !in n.taken && op.epoch in t.taken
    ensures op.AbortHeld? && Overlap.Holds(n.pending, op.epoch) ==> op.epoch !in n.taken && op.epoch in t.taken
  {
  }

  lemma SlotKeepsInv(targets: Epoch -> seq<NodeId>, n: Sending, op: Overlap.Op)
    requires Inv(targets, n)
    ensures Inv(targets, Next(targets, n, Slot(op)))
  {
    var t := Next(targets, n, Slot(op));
    if IsEnd(op) {
      EndedKeepsLedger(n.slots, op);
    } else {
      BegunKeepsLedger(n.slots, op);
    }
    SlotMoves(n.slots, op, t.slots);
    forall i | i in t.slots.ongoing && t.slots.ongoing[i].Committing?
      ensures CommitOk(targets, t, i)
    {
      if i in n.slots.ongoing && t.slots.ongoing[i] == n.slots.ongoing[i] {
        assert CommitOk(targets, n, i);
      } else {
        assert targets(op.epoch)[..0] == [];
      }
    }
  }

  lemma {:induction false} RunKeepsInv(targets: Epoch -> seq<NodeId>, acts: seq<Act>)
    ensures Inv(targets, Running(targets, acts))
  {
    if acts != [] {
      var n, act := Running(targets, acts[..|acts| - 1]), acts[|acts| - 1];
      RunKeepsInv(targets, acts[..|acts| - 1]);
      match act {
        case Slot(op) => SlotKeepsInv(targets, n, op);
        case Tell(id) => TellKeepsInv(targets, n, id);
      }
    }
  }

  /** However ceremonies interleave, the commits of one epoch go to its ranks in their order,
      so to each at most once when they are distinct, and an epoch that was aborted is never
      committed anywhere. */
  lemma CommitsInOrder(targets: Epoch -> seq<NodeId>, acts: seq<Act>, e: Epoch)
    ensures SentOf(Running(targets, acts).sent, e) <= targets(e)
    ensures e in Running(targets, acts).aborted ==> SentOf(Running(targets, acts).sent, e) == []
    ensures (forall i, j | 0 <= i < j < |targets(e)| :: targets(e)[i] != targets(e)[j]) ==>
      forall i, j | 0 <= i < j < |SentOf(Running(targets, acts).sent, e)| ::
        SentOf(Running(targets, acts).sent, e)[i] != SentOf(Running(targets, acts).sent, e)[j]
  {
    RunKeepsInv(targets, acts);
  }
}
