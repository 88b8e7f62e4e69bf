/** How often one peer may submit: a deque of the times it was let through. */
module RateLimit {
  import opened Wrappers

  const SUBMITS_PER_MINUTE: nat := 30
  const WINDOW: nat := 60_000

  type Queues = map<nat, seq<nat>>

  function Queue(queues: Queues, sender: nat): seq<nat> {
    if sender in queues then queues[sender] else []
  }

  /** Without the times more than a minute old at the front. */
  function Recent(q: seq<nat>, now: nat): seq<nat> {
    if q == [] || now <= q[0] + WINDOW then q else Recent(q[1..], now)
  }

  /** The sender's times after one call, and whether the call was refused. */
  function Call(q: seq<nat>, now: nat): (seq<nat>, bool) {
    var recent := Recent(q, now);
    if |recent| >= SUBMITS_PER_MINUTE then (recent, true) else (recent + [now], false)
  }

  class Limiter {
    var queues: Queues

    constructor ()
      ensures queues == map[]
    {
      queues := map[];
    }

    method RateLimited(sender: nat, now: nat) returns (retryAfterS: Option<nat>)
      modifies this
      ensures var (q, refused) := Call(Queue(old(queues), sender), now);
        && queues == old(queues)[sender := q]
        && retryAfterS == if refused then Some(60) else None
    {
      var q := Queue(queues, sender);
      ghost var recent := Recent(q, now);
      while q != [] && now > q[0] + WINDOW
        invariant Recent(q, now) == recent
        decreases |q|
      {
        q := q[1..];
      }
      if |q| >= SUBMITS_PER_MINUTE {
        queues := queues[sender := q];
        return Some(60);
      }
      queues := queues[sender := q + [now]];
      return None;
    }
  }

  // ---- One sender's history ---------------------------------------------------

  /** Calls come in the order of the clock. */
  ghost predicate InOrder(times: seq<nat>) {
    forall i, j | 0 <= i < j < |times| :: times[i] <= times[j]
  }

  /** The deque after a run of calls. */
  function After(times: seq<nat>): seq<nat> {
    if times == [] then [] else Call(After(times[..|times| - 1]), times[|times| - 1]).0
  }

  /** The times let through, of all the calls. */
  function Passed(times: seq<nat>): seq<nat> {
    if times == [] then []
    else
      var before, now := times[..|times| - 1], times[|times| - 1];
      Passed(before) + if Call(After(before), now).1 then [] else [now]
  }

  lemma {:induction false} RecentIsSuffix(q: seq<nat>, now: nat) returns (k: nat)
    requires InOrder(q)
    ensures k <= |q| && Recent(q, now) == q[k..]
    ensures forall i | 0 <= i < k :: q[i] + WINDOW < now
    ensures forall i | k <= i < |q| :: now <= q[i] + WINDOW
  {
    if q == [] || now <= q[0] + WINDOW {
      k := 0;
      assert q[0..] == q;
      forall i | 0 <= i < |q|
        ensures now <= q[i] + WINDOW
      {
        assert i > 0 ==> q[0] <= q[i];
      }
    } else {
      var j := RecentIsSuffix(q[1..], now);
      k := j + 1;
      assert q[1..][j..] == q[k..];
      forall i | 0 <= i < k
        ensures q[i] + WINDOW < now
      {
        assert i > 0 ==> q[i] == q[1..][i - 1];
      }
      forall i | k <= i < |q|
        ensures now <= q[i] + WINDOW
      {
        assert q[i] == q[1..][i - 1];
      }
    }
  }

  /** What is kept is a suffix of what was let through, and nothing dropped is recent. */
  ghost predicate Keeps(passed: seq<nat>, kept: seq<nat>, now: nat) {
    && |kept| <= |passed| && kept == passed[|passed| - |kept|..]
    && (forall i | 0 <= i < |passed| - |kept| :: passed[i] + WINDOW < now)
    && (forall i | 0 <= i < |passed| :: passed[i] <= now)
    && InOrder(passed)
  }

  lemma RecentKeeps(passed: seq<nat>, kept: seq<nat>, last: nat, now: nat)
    requires Keeps(passed, kept, last) && last <= now
    ensures Keeps(passed, Recent(kept, now), now)
    ensures forall i | 0 <= i < |Recent(kept, now)| :: now <= Recent(kept, now)[i] + WINDOW
  {
    assert InOrder(kept) by {
      forall i, j | 0 <= i < j < |kept|
        ensures kept[i] <= kept[j]
      {
        assert kept[i] == passed[|passed| - |kept| + i] && kept[j] == passed[|passed| - |kept| + j];
      }
    }
    var k := RecentIsSuffix(kept, now);
    var d := |passed| - |kept|;
    assert kept[k..] == passed[d + k..];
    forall i | 0 <= i < d + k
      ensures passed[i] + WINDOW < now
    {
      assert i >= d ==> passed[i] == kept[i - d];
    }
  }

  lemma PassKeeps(passed: seq<nat>, kept: seq<nat>, now: nat)
    requires Keeps(passed, kept, now)
    ensures Keeps(passed + [now], kept + [now], now)
  {
  }

  lemma CallKeeps(passed: seq<nat>, kept: seq<nat>, last: nat, now: nat)
    requires Keeps(passed, kept, last) && last <= now && |kept| <= SUBMITS_PER_MINUTE
    ensures var (after, refused) := Call(kept, now);
      Keeps(passed + if refused then [] else [now], after, now) && |after| <= SUBMITS_PER_MINUTE
  {
    var recent := Recent(kept, now);
    RecentKeeps(passed, kept, last, now);
    if |recent| < SUBMITS_PER_MINUTE {
      PassKeeps(passed, recent, now);
    } else {
      assert passed + [] == passed;
      RecentIsNoLonger(kept, now);
    }
  }

  lemma {:induction false} RecentIsNoLonger(q: seq<nat>, now: nat)
    ensures |Recent(q, now)| <= |q|
  {
    if q != [] && now > q[0] + WINDOW {
      RecentIsNoLonger(q[1..], now);
    }
  }

  function LastOf(times: seq<nat>): nat {
    if times == [] then 0 else times[|times| - 1]
  }

  lemma {:induction false} RunKeeps(times: seq<nat>)
    requires InOrder(times)
    ensures Keeps(Passed(times), After(times), LastOf(times))
    ensures |After(times)| <= SUBMITS_PER_MINUTE
  {
    if times != [] {
      var before := times[..|times| - 1];
      RunKeeps(before);
      CallKeeps(Passed(before), After(before), LastOf(before), LastOf(times));
    }
  }

  // ---- What it is for ---------------------------------------------------------

  /** No more than the limit pass in any closed minute: of any run of passes longer than
      that, the first and the last are more than a minute apart. */
  lemma {:induction false} NeverMoreThanTheLimit(times: seq<nat>, i: nat, j: nat)
    requires InOrder(times) && i < j < |Passed(times)| && j - i >= 30
    ensures Passed(times)[i] + 60_000 < Passed(times)[j]
  {
    var before, now := times[..|times| - 1], times[|times| - 1];
    var passed := Passed(before);
    if j < |passed| {
      NeverMoreThanTheLimit(before, i, j);
    } else {
      RunKeeps(before);
      RecentKeeps(passed, After(before), LastOf(before), now);
    }
  }

  /** A call is refused exactly when the limit's worth of earlier passes lie within the
      last minute: when the pass that many back is no more than a minute old. */
  lemma RefusedExactly(times: seq<nat>, now: nat)
    requires InOrder(times + [now])
    ensures Call(After(times), now).1 <==>
      var passed := Passed(times);
      |passed| >= 30 && now <= passed[|passed| - 30] + 60_000
  {
    assert InOrder(times) by {
      forall i, j | 0 <= i < j < |times|
        ensures times[i] <= times[j]
      {
        assert (times + [now])[i] == times[i] && (times + [now])[j] == times[j];
      }
    }
    RunKeeps(times);
    assert times != [] ==> (times + [now])[|times| - 1] == LastOf(times) && (times + [now])[|times|] == now;
    var passed, recent := Passed(times), Recent(After(times), now);
    RecentKeeps(passed, After(times), LastOf(times), now);
    if |recent| >= SUBMITS_PER_MINUTE {
      assert passed[|passed| - SUBMITS_PER_MINUTE] == recent[|recent| - SUBMITS_PER_MINUTE];
    }
  }
}
