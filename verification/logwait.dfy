/** Waiting for a child: follow its log, collect its exit, and stop it when asked to, when
    it runs too long or when it goes quiet. The first cause to stop it is the one reported. */
module LogWait {
  import opened Wrappers
  import opened Utf8
  import opened LogTail
  import Machine
  import MachineLife

  type RunEnd = Machine.RunEnd

  datatype Signal = Term | Kill

  /** In milliseconds since the child started. */
  datatype Limits = Limits(maxRun: nat, stall: nat, grace: nat)

  /** One turn of the loop: the log as it then opened, what collecting the exit said, the
      cancel flag, and the time. */
  datatype Look = Look(log: Option<seq<Byte>>, readAt: nat, exit: Result<Option<int>, string>, cancelled: bool, now: nat)

  datatype Killing = Killing(end: RunEnd, since: nat)

  datatype Watchdog = Watchdog(tail: Tail, lastOutput: nat, killing: Option<Killing>, signals: seq<Signal>)

  const STARTED := Watchdog(UNREAD, 0, None, [])

  type Waited = Option<Result<RunEnd, string>>

  function Hear(r: Reader, w: Watchdog, look: Look): Watchdog {
    var tail := Poll(r, w.tail, look.log);
    w.(tail := tail, lastOutput := if tail.offset > w.tail.offset then look.readAt else w.lastOutput)
  }

  /** Why to stop a child nobody is stopping yet: a cancel before the ceiling before silence. */
  function Cause(limits: Limits, lastOutput: nat, look: Look): Option<RunEnd> {
    if look.cancelled then Some(Machine.Stopped)
    else if look.now > limits.maxRun then Some(Machine.OverTime(look.now / 1000))
    else if look.now > lastOutput + limits.stall then Some(Machine.Stalled((look.now - lastOutput) / 1000))
    else None
  }

  function Judge(limits: Limits, w: Watchdog, look: Look): Watchdog {
    match w.killing
    case Some(k) => if look.now > k.since + limits.grace then w.(signals := w.signals + [Kill]) else w
    case None =>
      match Cause(limits, w.lastOutput, look)
      case None => w
      case Some(end) => w.(killing := Some(Killing(end, look.now)), signals := w.signals + [Term])
  }

  /** What a collected exit is reported as. */
  function Report(w: Watchdog, code: int): RunEnd {
    match w.killing
    case Some(k) => k.end
    case None => Machine.Exited(code, w.tail.verdict)
  }

  function WaitOf(r: Reader, limits: Limits, w: Watchdog, looks: seq<Look>): (Watchdog, Waited)
    decreases |looks|
  {
    if looks == [] then (w, None)
    else
      var heard := Hear(r, w, looks[0]);
      match looks[0].exit
      case Err(e) => (heard, Some(Err(e)))
      case Ok(Some(code)) => (heard, Some(Ok(Report(heard, code))))
      case Ok(None) => WaitOf(r, limits, Judge(limits, heard, looks[0]), looks[1..])
  }

  class Waiter {
    const limits: Limits
    const follower: Follower
    var lastOutput: nat
    var killing: Option<Killing>
    var signals: seq<Signal>

    ghost function State(): Watchdog
      reads this, follower
    {
      Watchdog(follower.State(), lastOutput, killing, signals)
    }

    constructor (limits: Limits, reader: Reader)
      ensures this.limits == limits && follower.reader == reader && fresh(follower) && State() == STARTED
    {
      this.limits := limits;
      this.follower := new Follower(reader);
      lastOutput, killing, signals := 0, None, [];
    }

    method Listen(look: Look)
      modifies this, follower
      ensures State() == Hear(follower.reader, old(State()), look)
    {
      var before := follower.offset;
      follower.Follow(look.log);
      if follower.offset > before {
        lastOutput := look.readAt;
      }
    }

    method Decide(look: Look)
      modifies this
      ensures State() == Judge(limits, old(State()), look)
    {
      if killing.Some? {
        if look.now > killing.value.since + limits.grace {
          signals := signals + [Kill];
        }
      } else {
        var cause := Cause(limits, lastOutput, look);
        if cause.Some? {
          signals := signals + [Term];
          killing := Some(Killing(cause.value, look.now));
        }
      }
    }

    method Wait(looks: seq<Look>) returns (waited: Waited)
      modifies this, follower
      ensures (State(), waited) == WaitOf(follower.reader, limits, old(State()), looks)
    {
      var todo := looks;
      ghost var goal := WaitOf(follower.reader, limits, State(), looks);
      while todo != []
        invariant goal == WaitOf(follower.reader, limits, State(), todo)
        decreases |todo|
      {
        Listen(todo[0]);
        match todo[0].exit {
          case Err(e) => return Some(Err(e));
          case Ok(Some(code)) =>
            return Some(Ok(if killing.Some? then killing.value.end else Machine.Exited(code, follower.verdict)));
          case Ok(None) =>
        }
        Decide(todo[0]);
        todo := todo[1..];
      }
      return None;
    }
  }

  // ---- What a wait comes to ---------------------------------------------------

  function Logs(looks: seq<Look>): seq<Option<seq<Byte>>> {
    seq(|looks|, i requires 0 <= i < |looks| => looks[i].log)
  }

  /** The looks up to the one at which the exit was collected, or all of them. */
  function Watched(looks: seq<Look>): seq<Look> {
    if looks == [] then []
    else if looks[0].exit != Ok(None) then [looks[0]]
    else [looks[0]] + Watched(looks[1..])
  }

  /** The first cause to stop the child, at a look at which it had not yet exited. */
  function FirstCause(r: Reader, limits: Limits, w: Watchdog, looks: seq<Look>): Option<RunEnd>
    decreases |looks|
  {
    if looks == [] || looks[0].exit != Ok(None) then None
    else
      var heard := Hear(r, w, looks[0]);
      var cause := Cause(limits, heard.lastOutput, looks[0]);
      if cause.Some? then cause else FirstCause(r, limits, heard, looks[1..])
  }

  lemma {:induction false} KillingSticks(r: Reader, limits: Limits, w: Watchdog, looks: seq<Look>)
    requires w.killing.Some?
    ensures var (after, waited) := WaitOf(r, limits, w, looks);
      && after.killing == w.killing
      && (waited.Some? && waited.value.Ok? ==> waited.value.value == w.killing.value.end)
    decreases |looks|
  {
    if looks != [] && looks[0].exit == Ok(None) {
      KillingSticks(r, limits, Judge(limits, Hear(r, w, looks[0]), looks[0]), looks[1..]);
    }
  }

  /** The end reported is the first cause that stopped the child, whatever came later, and
      the child's own exit exactly when there was none. */
  lemma {:induction false} FirstCauseIsReported(r: Reader, limits: Limits, w: Watchdog, looks: seq<Look>)
    requires w.killing.None?
    ensures var (after, waited) := WaitOf(r, limits, w, looks);
      waited.Some? && waited.value.Ok? ==>
        match FirstCause(r, limits, w, looks)
        case Some(end) => waited.value.value == end
        case None =>
          && waited.value.value.Exited? && waited.value.value.verdict == after.tail.verdict
          && Watched(looks) != [] && Watched(looks)[|Watched(looks)| - 1].exit == Ok(Some(waited.value.value.code))
    decreases |looks|
  {
    if looks != [] && looks[0].exit == Ok(None) {
      var heard := Hear(r, w, looks[0]);
      if Cause(limits, heard.lastOutput, looks[0]).Some? {
        KillingSticks(r, limits, Judge(limits, heard, looks[0]), looks[1..]);
      } else {
        FirstCauseIsReported(r, limits, heard, looks[1..]);
      }
    }
  }

  /** Asked to go once, then killed as often as it takes. */
  predicate AskedOnce(signals: seq<Signal>) {
    signals != [] && signals[0] == Term && forall i | 1 <= i < |signals| :: signals[i] == Kill
  }

  lemma {:induction false} KilledAfterAsking(r: Reader, limits: Limits, w: Watchdog, looks: seq<Look>)
    requires w.killing.Some? && AskedOnce(w.signals)
    ensures AskedOnce(WaitOf(r, limits, w, looks).0.signals)
    decreases |looks|
  {
    if looks != [] && looks[0].exit == Ok(None) {
      KilledAfterAsking(r, limits, Judge(limits, Hear(r, w, looks[0]), looks[0]), looks[1..]);
    }
  }

  /** A child nothing was wrong with is left alone; any other is asked to go exactly once. */
  lemma {:induction false} SignalledForCause(r: Reader, limits: Limits, w: Watchdog, looks: seq<Look>)
    requires w.killing.None? && w.signals == []
    ensures var signals := WaitOf(r, limits, w, looks).0.signals;
      if FirstCause(r, limits, w, looks).Some? then AskedOnce(signals) else signals == []
    decreases |looks|
  {
    if looks != [] && looks[0].exit == Ok(None) {
      var heard := Hear(r, w, looks[0]);
      if Cause(limits, heard.lastOutput, looks[0]).Some? {
        KilledAfterAsking(r, limits, Judge(limits, heard, looks[0]), looks[1..]);
      } else {
        SignalledForCause(r, limits, heard, looks[1..]);
      }
    }
  }

  function PollAll(r: Reader, t: Tail, logs: seq<Option<seq<Byte>>>): Tail
    decreases |logs|
  {
    if logs == [] then t else PollAll(r, Poll(r, t, logs[0]), logs[1..])
  }

  lemma PollingMore(r: Reader, seen: seq<Option<seq<Byte>>>, log: Option<seq<Byte>>)
    ensures Polling(r, seen + [log]) == Poll(r, Polling(r, seen), log)
  {
    assert (seen + [log])[..|seen|] == seen;
  }

  lemma OneAcross<T>(a: seq<T>, b: seq<T>)
    requires b != []
    ensures a + b == a + [b[0]] + b[1..]
  {
  }

  lemma {:induction false} PollAllIsPolling(r: Reader, seen: seq<Option<seq<Byte>>>, logs: seq<Option<seq<Byte>>>)
    ensures PollAll(r, Polling(r, seen), logs) == Polling(r, seen + logs)
    decreases |logs|
  {
    if logs == [] {
      assert seen + logs == seen;
    } else {
      PollingMore(r, seen, logs[0]);
      PollAllIsPolling(r, seen + [logs[0]], logs[1..]);
      OneAcross(seen, logs);
    }
  }

  lemma {:induction false} WaitPolls(r: Reader, limits: Limits, w: Watchdog, looks: seq<Look>)
    ensures WaitOf(r, limits, w, looks).0.tail == PollAll(r, w.tail, Logs(Watched(looks)))
    decreases |looks|
  {
    if looks != [] {
      var heard := Hear(r, w, looks[0]);
      var logs := Logs(Watched(looks));
      assert logs[0] == looks[0].log;
      if looks[0].exit == Ok(None) {
        WaitPolls(r, limits, Judge(limits, heard, looks[0]), looks[1..]);
        assert logs[1..] == Logs(Watched(looks[1..]));
      } else {
        assert logs[1..] == [];
      }
    }
  }

  /** A whole wait over a log that only grows: what it emitted is exactly the complete lines
      it had come to by its last look, the verdict of a child that exited is that of the
      last verdict line among them, and nothing but output was emitted. */
  lemma WaitIsLossless(r: Reader, limits: Limits, looks: seq<Look>, after: Watchdog, waited: Waited, texts: seq<string>)
    requires Steady(r.next) && Growing(Logs(Watched(looks)))
    requires (after, waited) == WaitOf(r, limits, STARTED, looks)
    requires texts == Cleaned(r, Lines(r, Seen(Logs(Watched(looks)))))
    ensures Logged(after.tail.emitted) == texts && Progressed(after.tail.emitted) == ProgressOf(r, texts)
    ensures WellBatched(after.tail.emitted) && MachineLife.OnlyOutput(after.tail.emitted)
    ensures waited.Some? && waited.value.Ok? && waited.value.value.Exited? && FirstCause(r, limits, STARTED, looks).None? ==>
      waited.value.value.verdict == LastVerdict(r, texts)
  {
    WaitPolls(r, limits, STARTED, looks);
    PollAllIsPolling(r, [], Logs(Watched(looks)));
    assert [] + Logs(Watched(looks)) == Logs(Watched(looks));
    LosslessTail(r, Logs(Watched(looks)), after.tail, texts);
    FirstCauseIsReported(r, limits, STARTED, looks);
  }
}
