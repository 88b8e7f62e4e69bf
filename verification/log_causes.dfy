/** Why a child is stopped, told from the looks alone: when lines last came, what was asked,
    and what the clock said. */
module LogCauses {
  import opened Wrappers
  import opened Utf8
  import opened LogTail
  import opened LogWait
  import Machine

  /** Look `i` found a complete line that the looks before it had not. */
  predicate Moved(r: Reader, looks: seq<Look>, i: nat)
    requires i < |looks|
  {
    Polling(r, Logs(looks[..i])).offset < Polling(r, Logs(looks[..i + 1])).offset
  }

  ghost predicate NoneMoved(r: Reader, looks: seq<Look>, from: nat, n: nat) {
    n <= |looks| && forall m: nat | from <= m < n :: !Moved(r, looks, m)
  }

  /** Of the first `n` looks, `j` is the last that found a line, read at `t`. */
  ghost predicate LastMove(r: Reader, looks: seq<Look>, n: nat, j: nat, t: nat) {
    j < n <= |looks| && Moved(r, looks, j) && NoneMoved(r, looks, j + 1, n) && looks[j].readAt == t
  }

  /** After the first `n` looks the child was last heard at that time: when the last line was
      read, or at its start. */
  ghost predicate HeardAt(r: Reader, looks: seq<Look>, n: nat, t: nat) {
    (NoneMoved(r, looks, 0, n) && t == 0) || exists j: nat :: LastMove(r, looks, n, j, t)
  }

  /** At look `i` the child has been quiet for longer than it may, since `t`. */
  ghost predicate Quiet(r: Reader, limits: Limits, looks: seq<Look>, i: nat, t: nat) {
    i < |looks| && HeardAt(r, looks, i + 1, t) && looks[i].now > t + limits.stall
  }

  ghost predicate Trouble(r: Reader, limits: Limits, looks: seq<Look>, i: nat) {
    && i < |looks|
    && (looks[i].cancelled || looks[i].now > limits.maxRun || exists t :: Quiet(r, limits, looks, i, t))
  }

  ghost predicate StillUp(looks: seq<Look>, n: nat) {
    n <= |looks| && forall j: nat | j < n :: looks[j].exit == Ok(None)
  }

  /** The first look at which there is a reason to stop the child, which is still up. */
  ghost predicate FirstTrouble(r: Reader, limits: Limits, looks: seq<Look>, k: nat) {
    StillUp(looks, k + 1) && Trouble(r, limits, looks, k) && forall j: nat | j < k :: !Trouble(r, limits, looks, j)
  }

  /** How that is reported: a cancel before the ceiling before silence. */
  ghost predicate ReportedAs(r: Reader, limits: Limits, looks: seq<Look>, k: nat, end: RunEnd) {
    && k < |looks|
    && (end == Machine.Stopped <==> looks[k].cancelled)
    && (end.OverTime? <==> !looks[k].cancelled && looks[k].now > limits.maxRun)
    && (end.OverTime? ==> end.afterS == looks[k].now / 1000)
    && (end.Stalled? <==> !looks[k].cancelled && looks[k].now <= limits.maxRun)
    && (end.Stalled? ==> exists t :: Quiet(r, limits, looks, k, t) && end.afterS == (looks[k].now - t) / 1000)
  }

  /** How many of the looks come after the grace has run out. */
  function Overdue(limits: Limits, looks: seq<Look>, since: nat): nat {
    if looks == [] then 0
    else (if looks[0].now > since + limits.grace then 1 else 0) + Overdue(limits, looks[1..], since)
  }

  // ---- When it was last heard -------------------------------------------------

  lemma HeardOnce(r: Reader, looks: seq<Look>, n: nat, t: nat, u: nat)
    requires HeardAt(r, looks, n, t) && HeardAt(r, looks, n, u)
    ensures t == u
  {
    if i: nat :| LastMove(r, looks, n, i, t) {
      assert Moved(r, looks, i) && !NoneMoved(r, looks, 0, n);
      var j: nat :| LastMove(r, looks, n, j, u);
      LastIsLast(r, looks, n, i, t, j, u);
    }
  }

  lemma LastIsLast(r: Reader, looks: seq<Look>, n: nat, i: nat, t: nat, j: nat, u: nat)
    requires LastMove(r, looks, n, i, t) && LastMove(r, looks, n, j, u)
    ensures i == j && t == u
  {
  }

  lemma NoneMovedMore(r: Reader, looks: seq<Look>, from: nat, n: nat)
    requires n < |looks| && NoneMoved(r, looks, from, n) && !Moved(r, looks, n)
    ensures NoneMoved(r, looks, from, n + 1)
  {
  }

  lemma HeardNext(r: Reader, looks: seq<Look>, n: nat, t: nat)
    requires n < |looks| && HeardAt(r, looks, n, t)
    ensures HeardAt(r, looks, n + 1, if Moved(r, looks, n) then looks[n].readAt else t)
  {
    if Moved(r, looks, n) {
      assert LastMove(r, looks, n + 1, n, looks[n].readAt);
    } else if j: nat :| LastMove(r, looks, n, j, t) {
      NoneMovedMore(r, looks, j + 1, n);
      assert LastMove(r, looks, n + 1, j, t);
    } else {
      NoneMovedMore(r, looks, 0, n);
    }
  }

  // ---- Up to the first trouble ------------------------------------------------

  /** Nothing wrong yet: the loop stands where the looks have brought it. */
  ghost predicate Calm(r: Reader, looks: seq<Look>, n: nat, w: Watchdog) {
    && n <= |looks| && w.tail == Polling(r, Logs(looks[..n]))
    && HeardAt(r, looks, n, w.lastOutput) && w.killing.None? && w.signals == []
  }

  lemma LogsMore(looks: seq<Look>, n: nat)
    requires n < |looks|
    ensures Logs(looks[..n + 1]) == Logs(looks[..n]) + [looks[n].log]
  {
  }

  /** One look more, heard and not yet judged. */
  lemma HearsOn(r: Reader, looks: seq<Look>, n: nat, w: Watchdog, heard: Watchdog)
    requires n < |looks| && Calm(r, looks, n, w) && heard == Hear(r, w, looks[n])
    ensures Calm(r, looks, n + 1, heard)
  {
    LogsMore(looks, n);
    PollingMore(r, Logs(looks[..n]), looks[n].log);
    HeardNext(r, looks, n, w.lastOutput);
  }

  /** What the loop finds wrong with the look it has just heard. */
  lemma CauseIsTrouble(r: Reader, limits: Limits, looks: seq<Look>, n: nat, heard: Watchdog)
    requires n < |looks| && Calm(r, looks, n + 1, heard)
    ensures Cause(limits, heard.lastOutput, looks[n]).Some? <==> Trouble(r, limits, looks, n)
    ensures Cause(limits, heard.lastOutput, looks[n]).Some? ==>
              ReportedAs(r, limits, looks, n, Cause(limits, heard.lastOutput, looks[n]).value)
  {
    var t := heard.lastOutput;
    if looks[n].now > t + limits.stall {
      assert Quiet(r, limits, looks, n, t);
    }
    if u :| Quiet(r, limits, looks, n, u) {
      HeardOnce(r, looks, n + 1, t, u);
    }
  }

  lemma {:induction false} GoesOnCalmly(r: Reader, limits: Limits, looks: seq<Look>, n: nat) returns (w: Watchdog)
    requires StillUp(looks, n) && forall j: nat | j < n :: !Trouble(r, limits, looks, j)
    ensures Calm(r, looks, n, w) && WaitOf(r, limits, STARTED, looks) == WaitOf(r, limits, w, looks[n..])
  {
    if n == 0 {
      w := STARTED;
      assert looks[..0] == [] && looks[0..] == looks && Logs([]) == [];
    } else {
      var before := GoesOnCalmly(r, limits, looks, n - 1);
      w := Hear(r, before, looks[n - 1]);
      HearsOn(r, looks, n - 1, before, w);
      CauseIsTrouble(r, limits, looks, n - 1, w);
      assert looks[n - 1..][0] == looks[n - 1] && looks[n - 1..][1..] == looks[n..];
      assert Judge(limits, w, looks[n - 1]) == w;
    }
  }

  // ---- From there on ----------------------------------------------------------

  /** A child being stopped: the cause stands, and every overdue look kills it. */
  lemma {:induction false} StoppedFrom(r: Reader, limits: Limits, w: Watchdog, looks: seq<Look>, after: Watchdog, waited: Waited)
    requires w.killing.Some? && StillUp(looks, |looks|) && (after, waited) == WaitOf(r, limits, w, looks)
    ensures after.killing == w.killing && waited.None?
    ensures w.signals <= after.signals && forall i | |w.signals| <= i < |after.signals| :: after.signals[i] == Kill
    ensures |after.signals| == |w.signals| + Overdue(limits, looks, w.killing.value.since)
    decreases |looks|
  {
    if looks != [] {
      StoppedFrom(r, limits, Judge(limits, Hear(r, w, looks[0]), looks[0]), looks[1..], after, waited);
    }
  }

  /** Looks up to the exit, and the one that finds it. */
  lemma {:induction false} WaitSplits(r: Reader, limits: Limits, w: Watchdog, looks: seq<Look>, m: nat)
    requires ExitsAt(looks, m)
    ensures var (before, after) := (WaitOf(r, limits, w, looks[..m]).0, WaitOf(r, limits, w, looks));
      && after.0 == Hear(r, before, looks[m])
      && after.1 == Some(match looks[m].exit
                         case Ok(code) => Ok(Report(after.0, if code.Some? then code.value else 0))
                         case Err(e) => Err(e))
    decreases m
  {
    if m > 0 {
      assert looks[0].exit == Ok(None);
      var next := Judge(limits, Hear(r, w, looks[0]), looks[0]);
      WaitSplits(r, limits, next, looks[1..], m - 1);
      assert looks[..m][1..] == looks[1..][..m - 1] && looks[1..][m - 1] == looks[m];
    } else {
      assert looks[..0] == [];
    }
  }

  // ---- A whole wait -----------------------------------------------------------

  /** The look at which the exit was collected, or the asking for it failed. */
  ghost predicate ExitsAt(looks: seq<Look>, m: nat) {
    m < |looks| && StillUp(looks, m) && looks[m].exit != Ok(None)
  }

  /** A child that is still up, with no trouble so far, has not been signalled. */
  lemma LeftAlone(r: Reader, limits: Limits, looks: seq<Look>, w: Watchdog, waited: Waited)
    requires StillUp(looks, |looks|) && forall k: nat | k < |looks| :: !Trouble(r, limits, looks, k)
    requires (w, waited) == WaitOf(r, limits, STARTED, looks)
    ensures waited.None? && w.signals == [] && w.killing.None? && w.tail == Polling(r, Logs(looks))
  {
    var calm := GoesOnCalmly(r, limits, looks, |looks|);
    assert looks[|looks|..] == [] && looks[..|looks|] == looks;
  }

  /** One that is still up, with trouble, was asked to go at the first look that found any, and
      killed at each look since that was past the grace, and at no other. */
  lemma StoppedForTrouble(r: Reader, limits: Limits, looks: seq<Look>, k: nat, w: Watchdog, waited: Waited)
    requires StillUp(looks, |looks|) && FirstTrouble(r, limits, looks, k)
    requires (w, waited) == WaitOf(r, limits, STARTED, looks)
    ensures waited.None? && w.killing.Some? && ReportedAs(r, limits, looks, k, w.killing.value.end)
    ensures w.signals != [] && w.signals[0] == Term && forall i | 0 < i < |w.signals| :: w.signals[i] == Kill
    ensures |w.signals| == 1 + Overdue(limits, looks[k + 1..], looks[k].now)
  {
    var calm := GoesOnCalmly(r, limits, looks, k);
    var heard := Hear(r, calm, looks[k]);
    HearsOn(r, looks, k, calm, heard);
    CauseIsTrouble(r, limits, looks, k, heard);
    assert looks[k..][0] == looks[k] && looks[k..][1..] == looks[k + 1..];
    var next := Judge(limits, heard, looks[k]);
    assert next.signals == [Term];
    StoppedFrom(r, limits, next, looks[k + 1..], w, waited);
  }

  /** What the wait has done by the look that finds the exit is what it did over the looks
      before; the end reported is the trouble it was stopped for, and without trouble the
      exit, with the verdict of the complete lines it had written by then. */
  lemma ReportedExactly(r: Reader, limits: Limits, looks: seq<Look>, m: nat, before: Watchdog, after: Watchdog, waited: Waited)
    requires ExitsAt(looks, m) && before == WaitOf(r, limits, STARTED, looks[..m]).0
    requires (after, waited) == WaitOf(r, limits, STARTED, looks)
    ensures after.signals == before.signals && after.killing == before.killing
    ensures looks[m].exit.Err? ==> waited == Some(Err(looks[m].exit.error))
    ensures looks[m].exit.Ok? && before.killing.Some? ==> waited == Some(Ok(before.killing.value.end))
    ensures looks[m].exit.Ok? && (forall k: nat | k < m :: !Trouble(r, limits, looks[..m], k)) ==>
              waited == Some(Ok(Machine.Exited(looks[m].exit.value.value, Polling(r, Logs(looks[..m + 1])).verdict)))
  {
    WaitSplits(r, limits, STARTED, looks, m);
    if forall k: nat | k < m :: !Trouble(r, limits, looks[..m], k) {
      LeftAlone(r, limits, looks[..m], before, WaitOf(r, limits, STARTED, looks[..m]).1);
      LogsMore(looks, m);
      PollingMore(r, Logs(looks[..m]), looks[m].log);
    }
  }
}
