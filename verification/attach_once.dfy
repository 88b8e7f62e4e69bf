/** What attaching promises: over any number of dropped connections, each event once. */
module AttachOnce {
  import opened Wrappers
  import opened Events
  import opened Attach
  import Journal
  import JournalLog

  // ---- Properties of every frame ----------------------------------------------

  predicate Each(frames: seq<Frame>, ok: Frame -> bool) {
    frames == [] || (ok(frames[0]) && Each(frames[1..], ok))
  }

  lemma {:induction false} EachConcat(a: seq<Frame>, b: seq<Frame>, ok: Frame -> bool)
    ensures Each(a + b, ok) <==> Each(a, ok) && Each(b, ok)
  {
    if a == [] {
      assert a + b == b;
    } else {
      EachConcat(a[1..], b, ok);
      assert (a + b)[1..] == a[1..] + b;
    }
  }

  lemma {:induction false} EachWeaker(frames: seq<Frame>, ok: Frame -> bool, weaker: Frame -> bool)
    requires Each(frames, ok) && forall f :: ok(f) ==> weaker(f)
    ensures Each(frames, weaker)
  {
    if frames != [] {
      EachWeaker(frames[1..], ok, weaker);
    }
  }

  lemma EachArrived(frames: seq<Frame>, n: nat, ok: Frame -> bool)
    requires Each(frames, ok)
    ensures Each(Arrived(frames, n), ok)
  {
    if n <= |frames| {
      EachConcat(frames[..n], frames[n..], ok);
      assert frames == frames[..n] + frames[n..];
    }
  }

  predicate Journaled(frame: Frame) {
    frame.EventFrame? && !frame.event.kind.EvHeartbeat?
  }

  /** A journaled event on the wire is that event of the journal, not before `from`. */
  function Genuine(all: seq<Event>, from: nat): Frame -> bool {
    (f: Frame) => Journaled(f) ==>
      from <= f.event.seqNo && 1 <= f.event.seqNo <= |all| && f.event == all[f.event.seqNo - 1]
  }

  function NotDone(): Frame -> bool {
    (f: Frame) => f.EventFrame? ==> !f.event.kind.EvDone?
  }

  /** Nothing follows a `Done` on the wire. */
  predicate EndsAtDone(frames: seq<Frame>) {
    |frames| <= 1 || (NotDone()(frames[0]) && EndsAtDone(frames[1..]))
  }

  lemma {:induction false} NotDoneThen(a: seq<Frame>, b: seq<Frame>)
    requires Each(a, NotDone()) && EndsAtDone(b)
    ensures EndsAtDone(a + b)
  {
    if a == [] {
      assert a + b == b;
    } else {
      NotDoneThen(a[1..], b);
      assert (a + b)[1..] == a[1..] + b;
    }
  }

  lemma PutEach(write: Write, e: Event, ok: Frame -> bool)
    requires ok(EventFrame(e))
    ensures Each(Put(write, e), ok)
  {
    assert Each([], ok);
    assert [EventFrame(e)][1..] == [];
  }

  // ---- What the node writes ---------------------------------------------------

  /** What a replay hands the loop: the journal from `next` to what it has seen. */
  lemma ReplayedSlice(all: seq<Event>, seen: nat, next: nat)
    requires Numbered(all) && next >= 1
    ensures Journal.From(Visible(all, seen), next)
         == if next <= |Visible(all, seen)| then Visible(all, seen)[next - 1..] else []
  {
    JournalLog.FromNumbered(Visible(all, seen), 1, next);
  }

  /** The events are the journal's, one after another from number `next`. */
  ghost predicate FollowOn(all: seq<Event>, events: seq<Event>, next: nat) {
    1 <= next && (events == [] || (next <= |all| && events[0] == all[next - 1] && FollowOn(all, events[1..], next + 1)))
  }

  lemma {:induction false} SliceFollowsOn(all: seq<Event>, events: seq<Event>, next: nat)
    requires 1 <= next && (events != [] ==> next - 1 + |events| <= |all|)
    requires events != [] ==> events == all[next - 1..next - 1 + |events|]
    ensures FollowOn(all, events, next)
  {
    if events != [] {
      assert events[1..] == all[next..next + |events| - 1];
      SliceFollowsOn(all, events[1..], next + 1);
    }
  }

  lemma ReplayFollowsOn(all: seq<Event>, seen: nat, next: nat)
    requires Numbered(all) && next >= 1
    ensures FollowOn(all, Journal.From(Visible(all, seen), next), next)
    ensures next > |Visible(all, seen)| <==> Journal.From(Visible(all, seen), next) == []
  {
    ReplayedSlice(all, seen, next);
    SliceFollowsOn(all, Journal.From(Visible(all, seen), next), next);
  }

  ghost predicate Ended(frames: seq<Frame>, ended: bool) {
    if ended then EndsAtDone(frames) else Each(frames, NotDone())
  }

  lemma {:induction false} SendsGood(all: seq<Event>, events: seq<Event>, writes: nat -> Write, next: nat, sent: Sending)
    requires Numbered(all) && FollowOn(all, events, next) && sent == SendAll(events, writes, next)
    ensures Each(sent.frames, Genuine(all, next)) && next <= sent.next && Ended(sent.frames, sent.ended)
    decreases |events|
  {
    if events != [] {
      var e := events[0];
      var put := Put(writes(next), e);
      PutEach(writes(next), e, Genuine(all, next));
      if !writes(next).TimedOut? && !e.kind.EvDone? {
        var rest := SendAll(events[1..], writes, next + 1);
        SendsGood(all, events[1..], writes, next + 1, rest);
        EachWeaker(rest.frames, Genuine(all, next + 1), Genuine(all, next));
        EachConcat(put, rest.frames, Genuine(all, next));
        PutEach(writes(next), e, NotDone());
        EndedThen(put, rest.frames, rest.ended);
      }
    }
  }

  lemma EndedThen(a: seq<Frame>, b: seq<Frame>, ended: bool)
    requires Each(a, NotDone()) && Ended(b, ended)
    ensures Ended(a + b, ended)
  {
    if ended {
      NotDoneThen(a, b);
    } else {
      EachConcat(a, b, NotDone());
    }
  }

  ghost predicate Good(all: seq<Event>, from: nat, turn: Turn) {
    Each(turn.frames, Genuine(all, from)) && from <= turn.next && Ended(turn.frames, !turn.goesOn)
  }

  /** A quiet tail after frames without a `Done`. */
  lemma {:induction false} OnlyNotDone(frames: seq<Frame>)
    requires Each(frames, NotDone())
    ensures EndsAtDone(frames)
  {
    if |frames| > 1 {
      OnlyNotDone(frames[1..]);
    }
  }

  lemma AfterSendingIsGood(job: string, all: seq<Event>, from: nat, p: Pass, sent: Sending, turn: Turn)
    requires Each(sent.frames, Genuine(all, from)) && from <= sent.next && Ended(sent.frames, sent.ended)
    requires turn == AfterSending(job, p, sent)
    ensures Good(all, from, turn)
  {
    if !sent.ended {
      var write := if p.wake.Tick? then p.wake.write else Lost;
      var farewell := Put(p.farewell, Beat(job, p));
      var beat := Put(write, Beat(job, p));
      PutEach(p.farewell, Beat(job, p), Genuine(all, from));
      PutEach(p.farewell, Beat(job, p), NotDone());
      PutEach(write, Beat(job, p), Genuine(all, from));
      PutEach(write, Beat(job, p), NotDone());
      EachConcat(sent.frames, farewell, Genuine(all, from));
      EachConcat(sent.frames, beat, Genuine(all, from));
      EachConcat(sent.frames, farewell, NotDone());
      EachConcat(sent.frames, beat, NotDone());
      OnlyNotDone(sent.frames);
      OnlyNotDone(sent.frames + farewell);
    }
  }

  lemma PassIsGood(job: string, all: seq<Event>, p: Pass, next: nat, turn: Turn)
    requires Numbered(all) && next >= 1 && turn == OnePass(job, all, p, next)
    ensures Good(all, next, turn)
  {
    if p.granted && p.seen.Some? {
      var events := Journal.From(Visible(all, p.seen.value), next);
      ReplayFollowsOn(all, p.seen.value, next);
      SendsGood(all, events, p.writes, next, SendAll(events, p.writes, next));
      AfterSendingIsGood(job, all, next, p, SendAll(events, p.writes, next), turn);
    } else if !p.granted {
      assert [Refused][1..] == [];
    }
  }

  /** Every journaled event written is the journal's own, from the one asked for, and
      the stream ends right after the first `Done`. */
  lemma {:induction false} ServesTheJournal(job: string, all: seq<Event>, passes: seq<Pass>, next: nat, frames: seq<Frame>)
    requires Numbered(all) && next >= 1 && frames == Served(job, all, passes, next)
    ensures Each(frames, Genuine(all, next)) && EndsAtDone(frames)
    decreases |passes|
  {
    if passes != [] {
      var turn := OnePass(job, all, passes[0], next);
      PassIsGood(job, all, passes[0], next, turn);
      if turn.goesOn {
        var rest := Served(job, all, passes[1..], turn.next);
        ServesTheJournal(job, all, passes[1..], turn.next, rest);
        EachWeaker(rest, Genuine(all, turn.next), Genuine(all, next));
        EachConcat(turn.frames, rest, Genuine(all, next));
        NotDoneThen(turn.frames, rest);
      }
    }
  }

  // ---- What the client receives -----------------------------------------------

  /** Where in the journal the run received begins. */
  function First(c: Client): nat
    requires c.received != []
  {
    if c.received[0].seqNo >= 1 then c.received[0].seqNo - 1 else 0
  }

  ghost predicate NoDoneIn(all: seq<Event>, lo: nat, hi: int) {
    forall i | lo <= i < hi && i < |all| :: !all[i].kind.EvDone?
  }

  /** A contiguous, in-order, duplicate-free run of the journal up to the last event held,
      of which only the last may be a `Done`. */
  ghost predicate RunOf(all: seq<Event>, c: Client) {
    c.received != [] ==>
      && First(c) < c.lastSeq <= |all| && c.received == all[First(c)..c.lastSeq]
      && NoDoneIn(all, First(c), c.lastSeq - 1)
      && (all[c.lastSeq - 1].kind.EvDone? ==> c.ending.Finished?)
  }

  /** Taking the event right after the last one held, or a first one, extends the run. */
  lemma TakeKeepsRun(all: seq<Event>, c: Client, e: Event, after: Client)
    requires Numbered(all) && RunOf(all, c) && c.ending.Open?
    requires 1 <= e.seqNo <= |all| && e == all[e.seqNo - 1] && (c.received != [] ==> e.seqNo == c.lastSeq + 1)
    requires after == Client(c.received + [e], e.seqNo, if e.kind.EvDone? then Finished else Open)
    ensures RunOf(all, after)
  {
    if c.received != [] {
      assert after.received[0] == c.received[0];
      assert all[First(c)..c.lastSeq] + [all[c.lastSeq]] == all[First(c)..c.lastSeq + 1];
    } else {
      assert after.received == [e] == all[e.seqNo - 1..e.seqNo];
    }
  }

  lemma ReadKeepsRun(all: seq<Event>, c: Client, frame: Frame, from: nat, after: Client)
    requires Numbered(all) && RunOf(all, c) && after == Read(c, frame) && Genuine(all, from)(frame)
    requires c.received != [] ==> c.lastSeq != 0
    ensures RunOf(all, after) && (after.received != [] ==> after.lastSeq != 0)
  {
    if after.received != c.received {
      TakeKeepsRun(all, c, frame.event, after);
    }
  }

  lemma {:induction false} ReadAllKeepsRun(all: seq<Event>, c: Client, frames: seq<Frame>, from: nat)
    requires Numbered(all) && RunOf(all, c) && Each(frames, Genuine(all, from))
    ensures RunOf(all, ReadAll(c, frames))
    decreases |frames|
  {
    if frames != [] {
      ReadKeepsRun(all, c, frames[0], from, Read(c, frames[0]));
      ReadAllKeepsRun(all, Read(c, frames[0]), frames[1..], from);
    }
  }

  /** What the client relies on the node for. */
  ghost predicate GoodLink(all: seq<Event>, k: Link) {
    forall next | next >= 1 :: Each(k.serve(next), Genuine(all, next))
  }

  lemma DialledIsGood(job: string, all: seq<Event>, k: Connection)
    requires Numbered(all)
    ensures GoodLink(all, Dialled(job, all, k))
  {
    forall next: nat | next >= 1
      ensures Each(Dialled(job, all, k).serve(next), Genuine(all, next))
    {
      ServesTheJournal(job, all, k.passes, next, Served(job, all, k.passes, next));
    }
  }

  lemma AttachedKeepsRun(all: seq<Event>, c: Client, k: Link)
    requires Numbered(all) && RunOf(all, c) && GoodLink(all, k)
    ensures RunOf(all, Attached(c, k))
  {
    if !c.ending.Finished? {
      EachArrived(k.serve(c.lastSeq + 1), k.arriving, Genuine(all, c.lastSeq + 1));
      ReadAllKeepsRun(all, c.(ending := Open), Arrived(k.serve(c.lastSeq + 1), k.arriving), c.lastSeq + 1);
    }
  }

  lemma {:induction false} AttachingKeepsRun(all: seq<Event>, fromSeq: nat, ks: seq<Link>)
    requires Numbered(all) && forall i | 0 <= i < |ks| :: GoodLink(all, ks[i])
    ensures RunOf(all, Attaching(fromSeq, ks))
  {
    if ks != [] {
      AttachingKeepsRun(all, fromSeq, ks[..|ks| - 1]);
      AttachedKeepsRun(all, Attaching(fromSeq, ks[..|ks| - 1]), ks[|ks| - 1]);
    }
  }

  /** Over any number of connections dropped anywhere, what the client received is a
      contiguous run of the journal that stops right after the first `Done`. */
  lemma ExactlyOnce(job: string, all: seq<Event>, fromSeq: nat, ks: seq<Connection>)
    requires Numbered(all)
    ensures RunOf(all, Attaching(fromSeq, DialAll(job, all, ks)))
  {
    forall i | 0 <= i < |ks|
      ensures GoodLink(all, DialAll(job, all, ks)[i])
    {
      DialledIsGood(job, all, ks[i]);
    }
    AttachingKeepsRun(all, fromSeq, DialAll(job, all, ks));
  }

  // ---- Where the run begins ---------------------------------------------------

  /** The first journaled frame, if there is one, carries number `n`. */
  predicate FirstIs(frames: seq<Frame>, n: nat) {
    frames == [] || if Journaled(frames[0]) then frames[0].event.seqNo == n else FirstIs(frames[1..], n)
  }

  function Quiet(): Frame -> bool {
    (f: Frame) => !Journaled(f)
  }

  /** What became of the first write of event `next`, if the stream got that far. */
  function FirstWrite(job: string, all: seq<Event>, passes: seq<Pass>, next: nat): Option<Write> {
    if passes == [] || !passes[0].granted || passes[0].seen.None? then None
    else if next <= |Visible(all, passes[0].seen.value)| then Some(passes[0].writes(next))
    else if OnePass(job, all, passes[0], next).goesOn then FirstWrite(job, all, passes[1..], next)
    else None
  }

  /** What the fate of the first write makes of the frames. */
  ghost predicate Fated(all: seq<Event>, frames: seq<Frame>, next: nat, fate: Option<Write>) {
    match fate
    case None => Each(frames, Quiet())
    case Some(Sent) => frames != [] && FirstIs(frames, next) && !Each(frames, Quiet())
    case Some(Lost) => Each(frames, Genuine(all, next + 1))
    case Some(TimedOut) => Each(frames, Quiet())
  }

  lemma {:induction false} FirstThen(frames: seq<Frame>, more: seq<Frame>, n: nat)
    ensures Each(frames, Quiet()) ==> FirstIs(frames + more, n) == FirstIs(more, n)
    ensures FirstIs(frames, n) && !Each(frames, Quiet()) ==> FirstIs(frames + more, n)
    ensures Each(frames, Quiet()) ==> FirstIs(frames, n)
  {
    if frames == [] {
      assert frames + more == more;
    } else {
      FirstThen(frames[1..], more, n);
      assert (frames + more)[1..] == frames[1..] + more;
    }
  }

  /** Frames whose fate is settled stay settled when later ones follow. */
  lemma FatedThen(all: seq<Event>, frames: seq<Frame>, more: seq<Frame>, next: nat, fate: Write)
    requires Fated(all, frames, next, Some(fate))
    requires if fate.TimedOut? then Each(more, Quiet()) else Each(more, Genuine(all, next + 1))
    ensures Fated(all, frames + more, next, Some(fate))
  {
    FirstThen(frames, more, next);
    EachConcat(frames, more, Quiet());
    EachConcat(frames, more, Genuine(all, next + 1));
  }

  lemma QuietThen(all: seq<Event>, frames: seq<Frame>, rest: seq<Frame>, next: nat, fate: Option<Write>)
    requires Each(frames, Quiet()) && Fated(all, rest, next, fate)
    ensures Fated(all, frames + rest, next, fate)
  {
    FirstThen(frames, rest, next);
    EachConcat(frames, rest, Quiet());
    EachWeaker(frames, Quiet(), Genuine(all, next + 1));
    EachConcat(frames, rest, Genuine(all, next + 1));
  }

  /** The first event of a replay, sent, lost or timed out, decides what is sent. */
  lemma SendsFirst(all: seq<Event>, events: seq<Event>, writes: nat -> Write, next: nat, sent: Sending)
    requires Numbered(all) && FollowOn(all, events, next) && events != [] && sent == SendAll(events, writes, next)
    ensures Fated(all, sent.frames, next, Some(writes(next)))
    ensures writes(next).TimedOut? ==> sent.ended
    ensures sent.next > next
  {
    var e := events[0];
    if writes(next).Sent? {
      assert sent.frames[0] == EventFrame(e);
    } else if writes(next).Lost? && !e.kind.EvDone? {
      var rest := SendAll(events[1..], writes, next + 1);
      assert sent.frames == [] + rest.frames == rest.frames;
    }
    if !writes(next).TimedOut? && !e.kind.EvDone? {
      SendsGood(all, events[1..], writes, next + 1, SendAll(events[1..], writes, next + 1));
    }
  }

  /** A turn is what was sent, then at most one heartbeat. */
  lemma TurnShape(job: string, p: Pass, sent: Sending, turn: Turn) returns (tail: seq<Frame>)
    requires turn == AfterSending(job, p, sent)
    ensures turn.frames == sent.frames + tail && Each(tail, Quiet()) && turn.next == sent.next
    ensures sent.ended ==> !turn.goesOn
  {
    tail := turn.frames[|sent.frames|..];
    if tail != [] {
      assert tail == [EventFrame(Beat(job, p))] && tail[1..] == [];
    }
  }

  lemma PassFirst(job: string, all: seq<Event>, p: Pass, next: nat, turn: Turn, rest: seq<Frame>)
    requires Numbered(all) && next >= 1 && p.granted && p.seen.Some? && next <= |Visible(all, p.seen.value)|
    requires turn == OnePass(job, all, p, next)
    requires turn.goesOn ==> Each(rest, Genuine(all, turn.next))
    requires !turn.goesOn ==> rest == []
    ensures Fated(all, turn.frames + rest, next, Some(p.writes(next)))
  {
    var events := Journal.From(Visible(all, p.seen.value), next);
    ReplayFollowsOn(all, p.seen.value, next);
    var sent := SendAll(events, p.writes, next);
    SendsFirst(all, events, p.writes, next, sent);
    var tail := TurnShape(job, p, sent, turn);
    EachWeaker(tail, Quiet(), Genuine(all, next + 1));
    FatedThen(all, sent.frames, tail, next, p.writes(next));
    if turn.goesOn {
      EachWeaker(rest, Genuine(all, turn.next), Genuine(all, next + 1));
    }
    FatedThen(all, sent.frames + tail, rest, next, p.writes(next));
  }

  lemma QuietPass(job: string, all: seq<Event>, p: Pass, next: nat, turn: Turn)
    requires Numbered(all) && next >= 1 && p.granted && p.seen.Some? && next > |Visible(all, p.seen.value)|
    requires turn == OnePass(job, all, p, next)
    ensures Each(turn.frames, Quiet()) && turn.next == next
  {
    ReplayFollowsOn(all, p.seen.value, next);
    var tail := TurnShape(job, p, Sending([], next, false), turn);
    assert [] + tail == tail;
  }

  lemma {:induction false} ServedFirst(job: string, all: seq<Event>, passes: seq<Pass>, next: nat, frames: seq<Frame>)
    requires Numbered(all) && next >= 1 && frames == Served(job, all, passes, next)
    ensures Fated(all, frames, next, FirstWrite(job, all, passes, next))
    decreases |passes|
  {
    if passes != [] && passes[0].granted && passes[0].seen.Some? {
      var turn := OnePass(job, all, passes[0], next);
      var rest := if turn.goesOn then Served(job, all, passes[1..], turn.next) else [];
      assert frames == turn.frames + rest;
      if next <= |Visible(all, passes[0].seen.value)| {
        if turn.goesOn {
          PassIsGood(job, all, passes[0], next, turn);
          ServesTheJournal(job, all, passes[1..], turn.next, rest);
        }
        PassFirst(job, all, passes[0], next, turn, rest);
      } else {
        QuietPass(job, all, passes[0], next, turn);
        if turn.goesOn {
          ServedFirst(job, all, passes[1..], next, rest);
          QuietThen(all, turn.frames, rest, next, FirstWrite(job, all, passes[1..], next));
        }
      }
    }
  }

  /** The run begins where it was asked to. */
  ghost predicate Begins(c: Client, fromSeq: nat) {
    if c.received == [] then c.lastSeq == Start(fromSeq) - 1 else c.received[0].seqNo == Start(fromSeq)
  }

  lemma {:induction false} ReadAllBegins(all: seq<Event>, c: Client, frames: seq<Frame>, fromSeq: nat)
    requires Begins(c, fromSeq) && (c.received != [] ==> c.lastSeq != 0)
    requires c.lastSeq == 0 ==> FirstIs(frames, 1)
    ensures Begins(ReadAll(c, frames), fromSeq)
    decreases |frames|
  {
    if frames != [] {
      if c.ending.Open? {
        var after := Read(c, frames[0]);
        assert after.received != c.received && c.received != [] ==> after.received[0] == c.received[0];
        ReadAllBegins(all, after, frames[1..], fromSeq);
      } else {
        ClosedClient(c, frames);
      }
    }
  }

  lemma {:induction false} ClosedClient(c: Client, frames: seq<Frame>)
    requires !c.ending.Open?
    ensures ReadAll(c, frames) == c
    decreases |frames|
  {
    if frames != [] {
      ClosedClient(c, frames[1..]);
    }
  }

  lemma {:induction false} ArrivedFirst(frames: seq<Frame>, n: nat, m: nat)
    requires FirstIs(frames, n)
    ensures FirstIs(Arrived(frames, m), n)
  {
    if frames != [] && 0 < m <= |frames| {
      assert Arrived(frames, m)[0] == frames[0];
      if !Journaled(frames[0]) {
        ArrivedFirst(frames[1..], n, m - 1);
        assert Arrived(frames, m)[1..] == Arrived(frames[1..], m - 1);
      }
    }
  }

  /** The stream from the start begins at event 1. */
  ghost predicate StartsAtOne(k: Link) {
    FirstIs(k.serve(1), 1)
  }

  /** The node's first write of event 1, if it came to that, was not lost. */
  ghost predicate FirstKept(job: string, all: seq<Event>, k: Connection) {
    FirstWrite(job, all, k.passes, 1) != Some(Lost)
  }

  lemma KeptFirst(job: string, all: seq<Event>, k: Connection)
    requires Numbered(all) && FirstKept(job, all, k)
    ensures StartsAtOne(Dialled(job, all, k))
  {
    var frames := Served(job, all, k.passes, 1);
    ServedFirst(job, all, k.passes, 1, frames);
    FirstThen(frames, [], 1);
  }

  lemma AttachedBegins(all: seq<Event>, c: Client, k: Link, fromSeq: nat)
    requires RunOf(all, c) && Begins(c, fromSeq)
    requires fromSeq >= 2 || StartsAtOne(k)
    ensures Begins(Attached(c, k), fromSeq)
  {
    if !c.ending.Finished? {
      if c.lastSeq == 0 {
        ArrivedFirst(k.serve(1), 1, k.arriving);
      }
      ReadAllBegins(all, c.(ending := Open), Arrived(k.serve(c.lastSeq + 1), k.arriving), fromSeq);
    }
  }

  lemma {:induction false} LaterBegins(all: seq<Event>, fromSeq: nat, ks: seq<Link>)
    requires Numbered(all) && fromSeq >= 2 && forall i | 0 <= i < |ks| :: GoodLink(all, ks[i])
    ensures Begins(Attaching(fromSeq, ks), fromSeq)
  {
    if ks != [] {
      AttachingKeepsRun(all, fromSeq, ks[..|ks| - 1]);
      LaterBegins(all, fromSeq, ks[..|ks| - 1]);
      AttachedBegins(all, Attaching(fromSeq, ks[..|ks| - 1]), ks[|ks| - 1], fromSeq);
    }
  }

  lemma {:induction false} ReadAllFrom(all: seq<Event>, c: Client, frames: seq<Frame>, from: nat)
    requires Each(frames, Genuine(all, from))
    requires c.received != [] ==> c.received[0].seqNo >= from
    ensures var after := ReadAll(c, frames); after.received != [] ==> after.received[0].seqNo >= from
    decreases |frames|
  {
    if frames != [] {
      ReadAllFrom(all, Read(c, frames[0]), frames[1..], from);
    }
  }

  /** A client holding nothing cannot notice a lost first event. So from the start, a
      connection that delivers anything delivers event 1 first exactly when the first
      write of event 1 was not lost. */
  lemma FirstLossIsUnnoticed(job: string, all: seq<Event>, k: Connection, c: Client)
    requires Numbered(all) && c == Attached(Client([], 0, Open), Dialled(job, all, k)) && c.received != []
    ensures c.received[0].seqNo == 1 <==> FirstKept(job, all, k)
  {
    var empty := Client([], 0, Open);
    if FirstKept(job, all, k) {
      KeptFirst(job, all, k);
      AttachedBegins(all, empty, Dialled(job, all, k), 1);
    } else {
      var frames := Served(job, all, k.passes, 1);
      ServedFirst(job, all, k.passes, 1, frames);
      EachArrived(frames, k.arriving, Genuine(all, 2));
      ReadAllFrom(all, empty, Arrived(frames, k.arriving), 2);
    }
  }

  lemma {:induction false} ReadAllKeepsFirst(c: Client, frames: seq<Frame>, after: Client)
    requires after == ReadAll(c, frames)
    ensures if c.received == [] then after.received == [] ==> after.lastSeq == c.lastSeq
            else after.received != [] && after.received[0] == c.received[0]
    decreases |frames|
  {
    if frames != [] {
      ReadAllKeepsFirst(Read(c, frames[0]), frames[1..], after);
    }
  }

  lemma AttachedKeepsFirst(c: Client, k: Link, after: Client)
    requires after == Attached(c, k)
    ensures if c.received == [] then after.received == [] ==> after.lastSeq == c.lastSeq
            else after.received != [] && after.received[0] == c.received[0]
  {
    if !c.ending.Finished? {
      ReadAllKeepsFirst(c.(ending := Open), Arrived(k.serve(c.lastSeq + 1), k.arriving), after);
    }
  }

  lemma {:induction false} NothingHeld(fromSeq: nat, ks: seq<Link>)
    requires Attaching(fromSeq, ks).received == []
    ensures Attaching(fromSeq, ks).lastSeq == Start(fromSeq) - 1
  {
    if ks != [] {
      AttachedKeepsFirst(Attaching(fromSeq, ks[..|ks| - 1]), ks[|ks| - 1], Attaching(fromSeq, ks));
      NothingHeld(fromSeq, ks[..|ks| - 1]);
    }
  }

  /** Of the connections of a client that holds something, the first to deliver. */
  function FirstDelivery(fromSeq: nat, ks: seq<Link>): (i: nat)
    requires Attaching(fromSeq, ks).received != []
    ensures i < |ks| && Attaching(fromSeq, ks[..i]).received == [] && Attaching(fromSeq, ks[..i + 1]).received != []
  {
    var n := |ks| - 1;
    assert ks[..n + 1] == ks;
    if Attaching(fromSeq, ks[..n]).received == [] then n
    else
      var i := FirstDelivery(fromSeq, ks[..n]);
      assert ks[..n][..i] == ks[..i] && ks[..n][..i + 1] == ks[..i + 1];
      i
  }

  /** What a client holds first is what the first connection to deliver brought first. */
  lemma {:induction false} FirstIsDelivered(fromSeq: nat, ks: seq<Link>, c: Client)
    requires fromSeq <= 1 && c == Attaching(fromSeq, ks) && c.received != []
    ensures var brought := Attached(Client([], 0, Open), ks[FirstDelivery(fromSeq, ks)]);
      brought.received != [] && brought.received[0] == c.received[0]
  {
    var n := |ks| - 1;
    var before := Attaching(fromSeq, ks[..n]);
    if before.received == [] {
      NothingHeld(fromSeq, ks[..n]);
      assert Attached(before, ks[n]) == Attached(Client([], 0, Open), ks[n]);
    } else {
      FirstIsDelivered(fromSeq, ks[..n], before);
      AttachedKeepsFirst(before, ks[n], c);
    }
  }

  /** The first connection to deliver a journal event, if any did, kept its first write of
      event 1. */
  ghost predicate KeptAtFirst(job: string, all: seq<Event>, fromSeq: nat, ks: seq<Connection>) {
    var links := DialAll(job, all, ks);
    Attaching(fromSeq, links).received == [] || FirstKept(job, all, ks[FirstDelivery(fromSeq, links)])
  }

  /** Over any number of connections the run received begins at the number asked for exactly
      when that was not the start, or nothing came, or the first connection to deliver
      anything did not lose its first write. */
  lemma BeginsWhereAsked(job: string, all: seq<Event>, fromSeq: nat, ks: seq<Connection>)
    requires Numbered(all)
    ensures Begins(Attaching(fromSeq, DialAll(job, all, ks)), fromSeq) <==> fromSeq >= 2 || KeptAtFirst(job, all, fromSeq, ks)
  {
    var links := DialAll(job, all, ks);
    var c := Attaching(fromSeq, links);
    if fromSeq >= 2 {
      forall i | 0 <= i < |ks|
        ensures GoodLink(all, links[i])
      {
        DialledIsGood(job, all, ks[i]);
      }
      LaterBegins(all, fromSeq, links);
    } else if c.received == [] {
      NothingHeld(fromSeq, links);
    } else {
      var k := ks[FirstDelivery(fromSeq, links)];
      FirstIsDelivered(fromSeq, links, c);
      FirstLossIsUnnoticed(job, all, k, Attached(Client([], 0, Open), Dialled(job, all, k)));
    }
  }

  // ---- A deliberate end -------------------------------------------------------

  /** Some `Done` among the first `n` events. */
  ghost predicate HasDone(all: seq<Event>, n: nat) {
    !NoDoneIn(all, 0, n)
  }

  /** A record is readable, and terminal only once its `Done` is journaled. */
  ghost predicate Honest(all: seq<Event>, p: Pass) {
    p.state.Some? && (p.state.value.IsTerminal() ==> HasDone(all, p.told))
  }

  ghost function Truthful(all: seq<Event>): Frame -> bool {
    (f: Frame) => f.EventFrame? && f.event.kind.EvHeartbeat? && f.event.kind.state.IsTerminal() ==>
      HasDone(all, f.event.kind.seqHigh)
  }

  lemma {:induction false} SendsTruthful(all: seq<Event>, events: seq<Event>, writes: nat -> Write, next: nat)
    requires Numbered(all) && FollowOn(all, events, next)
    ensures Each(SendAll(events, writes, next).frames, Truthful(all))
    decreases |events|
  {
    if events != [] {
      var rest := SendAll(events[1..], writes, next + 1);
      SendsTruthful(all, events[1..], writes, next + 1);
      PutEach(writes(next), events[0], Truthful(all));
      EachConcat(Put(writes(next), events[0]), rest.frames, Truthful(all));
    }
  }

  lemma PassTruthful(job: string, all: seq<Event>, p: Pass, next: nat, turn: Turn)
    requires Numbered(all) && next >= 1 && Honest(all, p) && turn == OnePass(job, all, p, next)
    ensures Each(turn.frames, Truthful(all))
  {
    if p.granted && p.seen.Some? {
      var events := Journal.From(Visible(all, p.seen.value), next);
      var sent := SendAll(events, p.writes, next);
      ReplayFollowsOn(all, p.seen.value, next);
      SendsTruthful(all, events, p.writes, next);
      var write := if p.wake.Tick? then p.wake.write else Lost;
      PutEach(p.farewell, Beat(job, p), Truthful(all));
      PutEach(write, Beat(job, p), Truthful(all));
      EachConcat(sent.frames, Put(p.farewell, Beat(job, p)), Truthful(all));
      EachConcat(sent.frames, Put(write, Beat(job, p)), Truthful(all));
    } else if !p.granted {
      assert [Refused][1..] == [];
    }
  }

  ghost predicate AllHonest(all: seq<Event>, passes: seq<Pass>) {
    forall i | 0 <= i < |passes| :: Honest(all, passes[i])
  }

  lemma {:induction false} ServesTruthful(job: string, all: seq<Event>, passes: seq<Pass>, next: nat, frames: seq<Frame>)
    requires Numbered(all) && next >= 1 && AllHonest(all, passes) && frames == Served(job, all, passes, next)
    ensures Each(frames, Truthful(all))
    decreases |passes|
  {
    if passes != [] {
      var turn := OnePass(job, all, passes[0], next);
      PassTruthful(job, all, passes[0], next, turn);
      PassIsGood(job, all, passes[0], next, turn);
      if turn.goesOn {
        var rest := Served(job, all, passes[1..], turn.next);
        ServesTruthful(job, all, passes[1..], turn.next, rest);
        EachConcat(turn.frames, rest, Truthful(all));
      }
    }
  }

  /** A finished client has reached a `Done`. */
  ghost predicate EndedTruly(all: seq<Event>, c: Client) {
    c.ending.Finished? ==> HasDone(all, c.lastSeq)
  }

  lemma ReadEndsTruly(all: seq<Event>, c: Client, frame: Frame, from: nat, after: Client)
    requires EndedTruly(all, c) && Genuine(all, from)(frame) && Truthful(all)(frame) && after == Read(c, frame)
    ensures EndedTruly(all, after)
  {
    if after.ending.Finished? && c.ending.Open? && frame.event.kind.EvHeartbeat? {
      var i :| 0 <= i < frame.event.kind.seqHigh && i < |all| && all[i].kind.EvDone?;
      assert i < c.lastSeq;
    }
  }

  lemma {:induction false} ReadAllEndsTruly(all: seq<Event>, c: Client, frames: seq<Frame>, from: nat)
    requires EndedTruly(all, c) && Each(frames, Genuine(all, from)) && Each(frames, Truthful(all))
    ensures EndedTruly(all, ReadAll(c, frames))
    decreases |frames|
  {
    if frames != [] {
      ReadEndsTruly(all, c, frames[0], from, Read(c, frames[0]));
      ReadAllEndsTruly(all, Read(c, frames[0]), frames[1..], from);
    }
  }

  /** The heartbeats of a link tell the truth. */
  ghost predicate TruthfulLink(all: seq<Event>, k: Link) {
    forall next | next >= 1 :: Each(k.serve(next), Truthful(all))
  }

  lemma DialledIsTruthful(job: string, all: seq<Event>, k: Connection)
    requires Numbered(all) && AllHonest(all, k.passes)
    ensures TruthfulLink(all, Dialled(job, all, k))
  {
    forall next: nat | next >= 1
      ensures Each(Dialled(job, all, k).serve(next), Truthful(all))
    {
      ServesTruthful(job, all, k.passes, next, Served(job, all, k.passes, next));
    }
  }

  lemma AttachedEndsTruly(all: seq<Event>, c: Client, k: Link)
    requires EndedTruly(all, c) && GoodLink(all, k) && TruthfulLink(all, k)
    ensures EndedTruly(all, Attached(c, k))
  {
    if !c.ending.Finished? {
      var next := c.lastSeq + 1;
      EachArrived(k.serve(next), k.arriving, Genuine(all, next));
      EachArrived(k.serve(next), k.arriving, Truthful(all));
      ReadAllEndsTruly(all, c.(ending := Open), Arrived(k.serve(next), k.arriving), next);
    }
  }

  lemma {:induction false} AttachingEndsTruly(all: seq<Event>, fromSeq: nat, ks: seq<Link>)
    requires forall i | 0 <= i < |ks| :: GoodLink(all, ks[i]) && TruthfulLink(all, ks[i])
    ensures EndedTruly(all, Attaching(fromSeq, ks))
  {
    if ks != [] {
      AttachingEndsTruly(all, fromSeq, ks[..|ks| - 1]);
      AttachedEndsTruly(all, Attaching(fromSeq, ks[..|ks| - 1]), ks[|ks| - 1]);
    }
  }

  lemma OneDone(all: seq<Event>, first: nat, last: nat)
    requires last <= |all| && NoDoneIn(all, 0, first) && NoDoneIn(all, first, last - 1) && HasDone(all, last)
    ensures first < last && all[last - 1].kind.EvDone? && !HasDone(all, last - 1)
  {
  }

  lemma FinishedHoldsAll(all: seq<Event>, c: Client, fromSeq: nat)
    requires Numbered(all) && !HasDone(all, Start(fromSeq) - 1)
    requires RunOf(all, c) && Begins(c, fromSeq) && HasDone(all, c.lastSeq)
    ensures Start(fromSeq) <= c.lastSeq <= |all| && c.received == all[Start(fromSeq) - 1..c.lastSeq]
    ensures all[c.lastSeq - 1].kind.EvDone? && !HasDone(all, c.lastSeq - 1)
  {
    if c.received != [] {
      assert First(c) == Start(fromSeq) - 1;
      OneDone(all, First(c), c.lastSeq);
    }
  }

  /** Every event from the one asked for to the first `Done`, which is the last. */
  ghost predicate HoldsAll(all: seq<Event>, fromSeq: nat, c: Client) {
    && Start(fromSeq) <= c.lastSeq <= |all| && c.received == all[Start(fromSeq) - 1..c.lastSeq]
    && all[c.lastSeq - 1].kind.EvDone? && !HasDone(all, c.lastSeq - 1)
  }

  /** What a client finished on the word of honest records has missed: nothing, exactly when
      its run begins where it was asked to. */
  lemma NothingMissed(job: string, all: seq<Event>, fromSeq: nat, ks: seq<Connection>, c: Client)
    requires Numbered(all) && !HasDone(all, Start(fromSeq) - 1)
    requires forall i | 0 <= i < |ks| :: AllHonest(all, ks[i].passes)
    requires c == Attaching(fromSeq, DialAll(job, all, ks)) && c.ending.Finished?
    ensures HoldsAll(all, fromSeq, c) <==> fromSeq >= 2 || KeptAtFirst(job, all, fromSeq, ks)
  {
    ExactlyOnce(job, all, fromSeq, ks);
    BeginsWhereAsked(job, all, fromSeq, ks);
    FinishedReachedDone(job, all, fromSeq, ks, c);
    HoldsAllExactly(all, fromSeq, c);
  }

  lemma HoldsAllExactly(all: seq<Event>, fromSeq: nat, c: Client)
    requires Numbered(all) && !HasDone(all, Start(fromSeq) - 1) && RunOf(all, c) && HasDone(all, c.lastSeq)
    ensures HoldsAll(all, fromSeq, c) <==> Begins(c, fromSeq)
  {
    if HoldsAll(all, fromSeq, c) {
      assert c.received[0] == all[Start(fromSeq) - 1];
    }
    if Begins(c, fromSeq) {
      FinishedHoldsAll(all, c, fromSeq);
    }
  }

  lemma FinishedReachedDone(job: string, all: seq<Event>, fromSeq: nat, ks: seq<Connection>, c: Client)
    requires Numbered(all) && forall i | 0 <= i < |ks| :: AllHonest(all, ks[i].passes)
    requires c == Attaching(fromSeq, DialAll(job, all, ks)) && c.ending.Finished?
    ensures HasDone(all, c.lastSeq)
  {
    forall i | 0 <= i < |ks|
      ensures GoodLink(all, DialAll(job, all, ks)[i]) && TruthfulLink(all, DialAll(job, all, ks)[i])
    {
      DialledIsGood(job, all, ks[i]);
      DialledIsTruthful(job, all, ks[i]);
    }
    AttachingEndsTruly(all, fromSeq, DialAll(job, all, ks));
  }

  // ---- Attaching past the end -------------------------------------------------

  lemma ServedPastTheEnd(job: string, all: seq<Event>, passes: seq<Pass>, p: Pass, next: nat)
    requires Numbered(all) && |all| < next && passes != [] && passes[0] == p
    requires p.granted && p.seen.Some? && StateOf(p).IsTerminal() && p.high <= |all|
    ensures Served(job, all, passes, next) == Put(p.farewell, Beat(job, p))
  {
    ReplayedSlice(all, p.seen.value, next);
    assert SendAll([], p.writes, next) == Sending([], next, false);
    assert [] + Put(p.farewell, Beat(job, p)) == Put(p.farewell, Beat(job, p));
    assert OnePass(job, all, p, next) == Turn(Put(p.farewell, Beat(job, p)), next, false);
  }

  lemma ReadFarewell(job: string, c: Client, p: Pass, arriving: nat, after: Client)
    requires c.ending.Open? && StateOf(p).IsTerminal() && p.told <= c.lastSeq
    requires after == ReadAll(c, Arrived(Put(p.farewell, Beat(job, p)), arriving))
    ensures after == if p.farewell.Sent? && arriving >= 1 then c.(ending := Finished) else c
  {
    var read := Arrived(Put(p.farewell, Beat(job, p)), arriving);
    if p.farewell.Sent? && arriving >= 1 {
      assert read == [EventFrame(Beat(job, p))] && read[1..] == [];
    }
  }

  /** Asked for more than a finished job has: one heartbeat, no journal event, and the
      stream ends after its first pass, on purpose. */
  lemma PastTheEnd(job: string, all: seq<Event>, c: Client, k: Connection, p: Pass)
    requires Numbered(all) && |all| <= c.lastSeq && !c.ending.Finished?
    requires k.passes != [] && k.passes[0] == p
    requires p.granted && p.seen.Some? && StateOf(p).IsTerminal() && p.told <= p.high <= |all|
    ensures Served(job, all, k.passes, c.lastSeq + 1) == Put(p.farewell, Beat(job, p))
    ensures Attached(c, Dialled(job, all, k)) == c.(ending := if p.farewell.Sent? && k.arriving >= 1 then Finished else Open)
  {
    ServedPastTheEnd(job, all, k.passes, p, c.lastSeq + 1);
    ReadFarewell(job, c.(ending := Open), p, k.arriving, Attached(c, Dialled(job, all, k)));
  }

  // ---- An early end -----------------------------------------------------------

  /** A record that says the job is over, or cannot be read and is taken to say so. */
  predicate SaysOver(p: Pass) {
    p.state.None? || p.state.value.IsTerminal()
  }

  /** A pass that finds nothing new, and after which the loop goes on. */
  predicate Waits(p: Pass) {
    p.granted && p.seen.Some? && !SaysOver(p) && (p.wake.Changed? || (p.wake.Tick? && !p.wake.write.TimedOut?))
  }

  /** A pass that tells the client the job is over. */
  predicate Tells(p: Pass) {
    p.granted && p.seen.Some? && SaysOver(p) && p.farewell.Sent?
  }

  predicate EndsAt(passes: seq<Pass>, i: nat) {
    i < |passes| && Tells(passes[i]) && forall j | 0 <= j < i :: Waits(passes[j])
  }

  lemma EndsAtFirst(passes: seq<Pass>)
    requires passes != []
    ensures (exists i :: EndsAt(passes, i)) <==> Tells(passes[0]) || (Waits(passes[0]) && exists i :: EndsAt(passes[1..], i))
  {
    if Tells(passes[0]) {
      assert EndsAt(passes, 0);
    }
    if Waits(passes[0]) {
      if i: nat :| EndsAt(passes[1..], i) {
        forall j | 0 <= j < i + 1
          ensures Waits(passes[j])
        {
          assert j > 0 ==> passes[j] == passes[1..][j - 1];
        }
        assert EndsAt(passes, i + 1);
      }
    }
    if i: nat :| EndsAt(passes, i) && i > 0 {
      assert Waits(passes[0]);
      forall j | 0 <= j < i - 1
        ensures Waits(passes[1..][j])
      {
        assert passes[1..][j] == passes[j + 1];
      }
      assert EndsAt(passes[1..], i - 1);
    }
  }

  /** What a pass tells of the end of the journal is no more than there is. */
  ghost predicate Modest(all: seq<Event>, p: Pass) {
    p.told <= p.high <= |all|
  }

  lemma LevelPass(job: string, all: seq<Event>, p: Pass, turn: Turn)
    requires Numbered(all) && Modest(all, p) && turn == OnePass(job, all, p, |all| + 1)
    ensures turn.next == |all| + 1 && (turn.goesOn <==> Waits(p))
    ensures p.granted && p.seen.Some? && SaysOver(p) ==> turn.frames == Put(p.farewell, Beat(job, p))
    ensures !(p.granted && p.seen.Some? && SaysOver(p)) ==>
      || turn.frames == [] || (turn.frames == [Refused] && !p.granted)
      || (turn.frames == [EventFrame(Beat(job, p))] && !SaysOver(p))
  {
    if p.granted && p.seen.Some? {
      ReplayedSlice(all, p.seen.value, |all| + 1);
      assert SendAll([], p.writes, |all| + 1) == Sending([], |all| + 1, false);
      assert forall fs: seq<Frame> :: [] + fs == fs;
    }
  }

  /** One frame, then the rest. */
  lemma ReadFirst(c: Client, frames: seq<Frame>, more: seq<Frame>)
    requires |frames| <= 1
    ensures ReadAll(c, frames + more) == ReadAll(if frames == [] then c else Read(c, frames[0]), more)
  {
    if frames == [] {
      assert frames + more == more;
    } else {
      assert (frames + more)[1..] == more;
    }
  }

  lemma LevelTurn(job: string, all: seq<Event>, p: Pass, c: Client, turn: Turn)
    requires Numbered(all) && Modest(all, p) && turn == OnePass(job, all, p, |all| + 1)
    requires c.ending.Open? && c.lastSeq == |all|
    ensures |turn.frames| <= 1
    ensures var after := if turn.frames == [] then c else Read(c, turn.frames[0]);
      (after.ending.Finished? <==> Tells(p)) && (Waits(p) ==> after == c)
  {
    LevelPass(job, all, p, turn);
  }

  lemma {:induction false} LevelEnds(job: string, all: seq<Event>, passes: seq<Pass>, c: Client, frames: seq<Frame>)
    requires Numbered(all) && c.ending.Open? && c.lastSeq == |all|
    requires forall i | 0 <= i < |passes| :: Modest(all, passes[i])
    requires frames == Served(job, all, passes, |all| + 1)
    ensures ReadAll(c, frames).ending.Finished? <==> exists i :: EndsAt(passes, i)
    decreases |passes|
  {
    if passes != [] {
      var turn := OnePass(job, all, passes[0], |all| + 1);
      var rest := if turn.goesOn then Served(job, all, passes[1..], |all| + 1) else [];
      LevelPass(job, all, passes[0], turn);
      LevelTurn(job, all, passes[0], c, turn);
      EndsAtFirst(passes);
      ReadFirst(c, turn.frames, rest);
      assert frames == turn.frames + rest;
      if turn.goesOn {
        LevelEnds(job, all, passes[1..], c, rest);
      }
    }
  }

  lemma AllArrives(job: string, all: seq<Event>, c: Client, k: Connection, frames: seq<Frame>)
    requires !c.ending.Finished? && frames == Served(job, all, k.passes, c.lastSeq + 1) && k.arriving >= |frames|
    ensures Attached(c, Dialled(job, all, k)) == ReadAll(c.(ending := Open), frames)
  {
    assert frames[..|frames|] == frames;
  }

  /** A client that is level with the journal is told the job ended exactly when the first
      pass whose record says over, or cannot be read, is reached and its word gets through,
      whether or not the journal has a `Done`. */
  lemma ToldEndedExactly(job: string, all: seq<Event>, c: Client, k: Connection)
    requires Numbered(all) && c.lastSeq == |all| && !c.ending.Finished?
    requires forall i | 0 <= i < |k.passes| :: Modest(all, k.passes[i])
    requires k.arriving >= |Served(job, all, k.passes, |all| + 1)|
    ensures Attached(c, Dialled(job, all, k)).ending.Finished? <==> exists i :: EndsAt(k.passes, i)
  {
    var frames := Served(job, all, k.passes, |all| + 1);
    AllArrives(job, all, c, k, frames);
    LevelEnds(job, all, k.passes, c.(ending := Open), frames);
  }

  /** So while a job has no `Done`, over any connections a client ends on purpose only if some
      pass found a record that says over or cannot be read. */
  lemma EndedEarly(job: string, all: seq<Event>, fromSeq: nat, ks: seq<Connection>)
    requires Numbered(all) && !HasDone(all, |all|)
    requires Attaching(fromSeq, DialAll(job, all, ks)).ending.Finished?
    ensures exists i, j :: 0 <= i < |ks| && 0 <= j < |ks[i].passes| && SaysOver(ks[i].passes[j])
  {
    if forall i, j | 0 <= i < |ks| && 0 <= j < |ks[i].passes| :: !SaysOver(ks[i].passes[j]) {
      forall i | 0 <= i < |ks|
        ensures AllHonest(all, ks[i].passes)
      {
      }
      FinishedReachedDone(job, all, fromSeq, ks, Attaching(fromSeq, DialAll(job, all, ks)));
    }
  }

  /** In particular a client level with a running job is told it ended when its record cannot
      be read. */
  lemma UnreadableRecordEndsStream(job: string, all: seq<Event>, c: Client, p: Pass)
    requires Numbered(all) && c.lastSeq == |all| && !c.ending.Finished?
    requires p.granted && p.seen.Some? && p.state.None? && p.told <= p.high <= |all| && p.farewell.Sent?
    ensures Attached(c, Dialled(job, all, Connection([p], 1))).ending.Finished?
  {
    PastTheEnd(job, all, c, Connection([p], 1), p);
  }
}
