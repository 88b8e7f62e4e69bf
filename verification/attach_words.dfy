/** What one connection writes, frame by frame: exactly which events a pass delivers, what
    it adds about the job's state, when the stream ends, and what a reader holds after. */
module AttachWords {
  import opened Wrappers
  import opened Events
  import opened Attach
  import AttachOnce
  import Journal

  /** The events numbered from `a` up to but not including `b` whose writes went through. */
  function Delivered(all: seq<Event>, writes: nat -> Write, a: nat, b: nat): seq<Frame>
    requires 1 <= a && (b <= a || b <= |all| + 1)
    decreases b - a
  {
    if a >= b then []
    else (if writes(a) == Sent then [EventFrame(all[a - 1])] else []) + Delivered(all, writes, a + 1, b)
  }

  predicate Final(all: seq<Event>, i: nat)
    requires 1 <= i <= |all|
  {
    all[i - 1].kind.EvDone?
  }

  predicate Stops(all: seq<Event>, writes: nat -> Write, i: nat)
    requires 1 <= i <= |all|
  {
    writes(i).TimedOut? || Final(all, i)
  }

  ghost predicate NoStop(all: seq<Event>, writes: nat -> Write, a: nat, b: nat)
    requires 1 <= a && (b <= a || b <= |all| + 1)
  {
    forall i | a <= i < b :: !Stops(all, writes, i)
  }

  function Top(all: seq<Event>, seen: nat): nat {
    if seen <= |all| then seen else |all|
  }

  /** From `a` on, everything seen was passed, or all up to the first stop. */
  ghost predicate WentTo(all: seq<Event>, writes: nat -> Write, a: nat, top: nat, b: nat, ended: bool)
    requires top <= |all|
  {
    && 1 <= a <= b && (b > a ==> b <= top + 1)
    && (if ended then a < b && Stops(all, writes, b - 1) && NoStop(all, writes, a, b - 1)
        else (b == a || NoStop(all, writes, a, b)) && b == if a <= top then top + 1 else a)
  }

  lemma StopsHere(all: seq<Event>, writes: nat -> Write, a: nat)
    requires 1 <= a <= |all|
    ensures Delivered(all, writes, a, a + 1) == Put(writes(a), all[a - 1])
  {
    assert Delivered(all, writes, a + 1, a + 1) == [];
  }

  lemma SendsOn(all: seq<Event>, writes: nat -> Write, a: nat, top: nat, rest: Sending)
    requires 1 <= a <= top <= |all| && !Stops(all, writes, a)
    requires WentTo(all, writes, a + 1, top, rest.next, rest.ended)
    ensures WentTo(all, writes, a, top, rest.next, rest.ended)
    ensures Put(writes(a), all[a - 1]) + Delivered(all, writes, a + 1, rest.next) == Delivered(all, writes, a, rest.next)
  {
  }

  lemma {:induction false} SendsInFull(all: seq<Event>, writes: nat -> Write, a: nat, top: nat, sent: Sending)
    requires Numbered(all) && 1 <= a && top <= |all|
    requires sent == SendAll(if a <= top then all[a - 1..top] else [], writes, a)
    ensures WentTo(all, writes, a, top, sent.next, sent.ended)
    ensures sent.frames == Delivered(all, writes, a, sent.next)
    decreases if a <= top then top - a + 1 else 0
  {
    if a <= top {
      var events := all[a - 1..top];
      assert events[0] == all[a - 1] && events[0].seqNo == a;
      assert events[1..] == if a + 1 <= top then all[a..top] else [];
      if Stops(all, writes, a) {
        StopsHere(all, writes, a);
        assert sent == Sending(Put(writes(a), all[a - 1]), a + 1, true);
      } else {
        var rest := SendAll(events[1..], writes, a + 1);
        SendsInFull(all, writes, a + 1, top, rest);
        SendsOn(all, writes, a, top, rest);
      }
    }
  }

  /** The heartbeat of a pass: a job without a record reads as done. */
  predicate BeatOf(job: string, p: Pass, f: Frame) {
    && f.EventFrame? && f.event.job == job && f.event.seqNo == p.told && f.event.atMs == 0
    && f.event.kind == EvHeartbeat(match p.state case Some(state) => state case None => Done, p.told)
  }

  /** The job is over, or its record cannot be read. */
  predicate Over(p: Pass) {
    p.state == None || p.state == Some(Done)
  }

  /** What follows the events of a pass that nothing stopped. */
  ghost predicate TailIs(job: string, p: Pass, next: nat, tail: seq<Frame>, goesOn: bool) {
    if Over(p) && p.high < next then
      !goesOn && (if p.farewell == Sent then |tail| == 1 && BeatOf(job, p, tail[0]) else tail == [])
    else
      && (goesOn <==> p.wake == Changed || p.wake == Tick(Sent) || p.wake == Tick(Lost))
      && (if p.wake == Tick(Sent) then |tail| == 1 && BeatOf(job, p, tail[0]) else tail == [])
  }

  /** A whole pass: `events` is what it delivers of the journal, `tail` what it adds. */
  ghost predicate PassIs(job: string, all: seq<Event>, p: Pass, next: nat, turn: Turn, ended: bool, tail: seq<Frame>)
    requires 1 <= next
  {
    if !p.granted then turn == Turn([Refused], next, false)
    else if p.seen == None then turn == Turn([], next, false)
    else
      && WentTo(all, p.writes, next, Top(all, p.seen.value), turn.next, ended)
      && turn.frames == Delivered(all, p.writes, next, turn.next) + tail
      && (if ended then tail == [] && !turn.goesOn else TailIs(job, p, turn.next, tail, turn.goesOn))
  }

  function TailOf(job: string, p: Pass, sent: Sending): seq<Frame> {
    if sent.ended then []
    else if Over(p) && p.high < sent.next then Put(p.farewell, Beat(job, p))
    else if p.wake.Tick? then Put(p.wake.write, Beat(job, p))
    else []
  }

  lemma AfterInFull(job: string, p: Pass, sent: Sending, turn: Turn)
    requires turn == AfterSending(job, p, sent)
    ensures turn.frames == sent.frames + TailOf(job, p, sent) && turn.next == sent.next
    ensures if sent.ended then TailOf(job, p, sent) == [] && !turn.goesOn
            else TailIs(job, p, turn.next, TailOf(job, p, sent), turn.goesOn)
  {
    assert sent.frames + [] == sent.frames;
  }

  /** A refused pass says so and ends; one whose journal cannot be read just ends; any other
      delivers the journal from `next` to the last event seen, the first `Done` or the first
      write that timed out, and adds at most one heartbeat, which is its farewell once the
      job is over and all its events were passed. */
  lemma PassInFull(job: string, all: seq<Event>, p: Pass, next: nat, turn: Turn) returns (ended: bool, tail: seq<Frame>)
    requires Numbered(all) && 1 <= next && turn == OnePass(job, all, p, next)
    ensures PassIs(job, all, p, next, turn, ended, tail)
  {
    ended, tail := false, [];
    if p.granted && p.seen.Some? {
      var seen := p.seen.value;
      var top := Top(all, seen);
      AttachOnce.ReplayedSlice(all, seen, next);
      var events := if next <= top then all[next - 1..top] else [];
      assert |Visible(all, seen)| == top && Visible(all, seen)[..] == all[..top];
      assert next <= top ==> Visible(all, seen)[next - 1..] == all[next - 1..top];
      assert events == Journal.From(Visible(all, seen), next);
      var sent := SendAll(events, p.writes, next);
      SendsInFull(all, p.writes, next, top, sent);
      ended := sent.ended;
      tail := TailOf(job, p, sent);
      AfterInFull(job, p, sent, turn);
    }
  }

  // ---- A steady connection ----------------------------------------------------

  function Frames(events: seq<Event>): seq<Frame> {
    seq(|events|, i requires 0 <= i < |events| => EventFrame(events[i]))
  }

  /** A pass that is allowed, reads up to `Top` and is woken by a change. */
  ghost predicate Steady(p: Pass) {
    && p.granted && p.seen.Some? && (forall n: nat :: p.writes(n) == Sent)
    && p.state.Some? && p.state.value != Done && p.wake == Changed
  }

  ghost predicate Growing(all: seq<Event>, passes: seq<Pass>, from: nat) {
    passes == []
    || (Steady(passes[0]) && from <= Top(all, passes[0].seen.value)
        && Growing(all, passes[1..], Top(all, passes[0].seen.value)))
  }

  function LastTop(all: seq<Event>, passes: seq<Pass>): nat
    requires passes != [] && passes[|passes| - 1].seen.Some?
  {
    Top(all, passes[|passes| - 1].seen.value)
  }

  lemma {:induction false} DeliveredAll(all: seq<Event>, writes: nat -> Write, a: nat, b: nat)
    requires 1 <= a <= b <= |all| + 1 && forall n: nat :: writes(n) == Sent
    ensures Delivered(all, writes, a, b) == Frames(all[a - 1..b - 1])
    decreases b - a
  {
    if a < b {
      DeliveredAll(all, writes, a + 1, b);
      assert all[a - 1..b - 1] == [all[a - 1]] + all[a..b - 1];
    }
  }

  lemma {:induction false} LastIsLargest(all: seq<Event>, passes: seq<Pass>, from: nat)
    requires passes != [] && Growing(all, passes, from) && passes[|passes| - 1].seen.Some?
    ensures from <= Top(all, passes[0].seen.value) <= LastTop(all, passes)
  {
    if |passes| > 1 {
      assert passes[1..][|passes| - 2] == passes[|passes| - 1];
      LastIsLargest(all, passes[1..], Top(all, passes[0].seen.value));
    }
  }

  /** Where a reader asking from `a` is brought: to the first final event, or to the last seen. */
  ghost predicate BroughtTo(all: seq<Event>, a: nat, top: nat, b: nat) {
    && 1 <= a <= b <= top + 1 && top <= |all|
    && (forall i | a <= i < b - 1 :: !Final(all, i))
    && (b == top + 1 || (a < b && Final(all, b - 1)))
  }

  /** A steady pass delivers without a gap, and ends exactly at a final event. */
  ghost predicate SteadyTurn(all: seq<Event>, top: nat, a: nat, turn: Turn)
    requires top <= |all|
  {
    && 1 <= a <= turn.next <= top + 1 && turn.frames == Frames(all[a - 1..turn.next - 1])
    && (forall i | a <= i < turn.next - 1 :: !Final(all, i))
    && (if turn.goesOn then turn.next == top + 1 && (a < turn.next ==> !Final(all, turn.next - 1))
        else a < turn.next && Final(all, turn.next - 1))
  }

  lemma SteadyPass(job: string, all: seq<Event>, p: Pass, a: nat, turn: Turn)
    requires Numbered(all) && Steady(p) && 1 <= a <= Top(all, p.seen.value) + 1
    requires turn == OnePass(job, all, p, a)
    ensures SteadyTurn(all, Top(all, p.seen.value), a, turn)
  {
    var ended, tail := PassInFull(job, all, p, a, turn);
    DeliveredAll(all, p.writes, a, turn.next);
    assert turn.frames + [] == turn.frames;
    forall i | a <= i < turn.next - 1
      ensures !Final(all, i)
    {
      assert !Stops(all, p.writes, i);
    }
    if a < turn.next {
      assert Stops(all, p.writes, turn.next - 1) == Final(all, turn.next - 1);
    }
  }

  lemma FramesMeet(all: seq<Event>, a: nat, m: nat, b: nat)
    requires a <= m <= b <= |all|
    ensures Frames(all[a..m]) + Frames(all[m..b]) == Frames(all[a..b])
  {
  }

  lemma NotPast(all: seq<Event>, a: nat, top: nat, last: nat, b: nat, turn: Turn)
    requires top <= last && BroughtTo(all, a, last, b) && SteadyTurn(all, top, a, turn)
    ensures !turn.goesOn ==> b == turn.next
    ensures turn.goesOn ==> BroughtTo(all, turn.next, last, b) && (top == last ==> b == turn.next)
    ensures turn.goesOn ==> turn.frames + Frames(all[turn.next - 1..b - 1]) == Frames(all[a - 1..b - 1])
  {
    if turn.goesOn {
      FramesMeet(all, a - 1, turn.next - 1, b - 1);
    }
  }

  /** Over a connection that holds, with a job that is still running, the wire carries
      exactly the journal from the number asked for: every event seen, each once, in order,
      up to the first final one, and no heartbeat between them. */
  lemma {:induction false} SteadyConnectionDeliversAll(job: string, all: seq<Event>, passes: seq<Pass>, a: nat, from: nat, b: nat)
    requires Numbered(all) && passes != [] && Growing(all, passes, from)
    requires passes[|passes| - 1].seen.Some? && a <= from + 1
    requires BroughtTo(all, a, LastTop(all, passes), b)
    ensures Served(job, all, passes, a) == Frames(all[a - 1..b - 1])
    decreases |passes|
  {
    var p, turn := passes[0], OnePass(job, all, passes[0], a);
    var top := Top(all, p.seen.value);
    LastIsLargest(all, passes, from);
    SteadyPass(job, all, p, a, turn);
    NotPast(all, a, top, LastTop(all, passes), b, turn);
    if turn.goesOn {
      if |passes| > 1 {
        assert passes[1..][|passes| - 2] == passes[|passes| - 1];
        SteadyConnectionDeliversAll(job, all, passes[1..], turn.next, top, b);
      }
      assert Served(job, all, passes[1..], turn.next) == Frames(all[turn.next - 1..b - 1]);
    }
  }

  /** A reader that holds everything before `a` holds everything before `b` once it has read
      them, and knows the stream to be finished exactly when the last one is final. */
  lemma {:induction false} ReadsThemAll(all: seq<Event>, c: Client, a: nat, top: nat, b: nat)
    requires Numbered(all) && c.ending == Open && c.lastSeq + 1 == a && BroughtTo(all, a, top, b)
    ensures var after := ReadAll(c, Frames(all[a - 1..b - 1]));
      && after.received == c.received + all[a - 1..b - 1]
      && after.lastSeq == b - 1
      && after.ending == if a < b && Final(all, b - 1) then Finished else Open
    decreases b - a
  {
    if a < b {
      var frames := Frames(all[a - 1..b - 1]);
      var e := all[a - 1];
      assert frames[0] == EventFrame(e) && frames[1..] == Frames(all[a..b - 1]);
      var next := Read(c, frames[0]);
      assert next == Client(c.received + [e], a, if Final(all, a) then Finished else Open);
      assert all[a - 1..b - 1] == [e] + all[a..b - 1];
      if Final(all, a) {
        assert b == a + 1 && ReadAll(next, frames[1..]) == next;
      } else {
        ReadsThemAll(all, next, a + 1, top, b);
      }
    }
  }
}
