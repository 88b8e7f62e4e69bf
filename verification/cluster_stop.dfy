/** Stopping a cluster, as often as it takes, and tearing down a broken one. */
module ClusterStop {
  import opened Wrappers
  import opened Fleet
  import opened RankNet
  import opened Ceremonies
  import opened ClusterRuns

  ghost function StopTimes(script: Script, d: Driver, m: nat): (r: Driver)
    requires Valid(d)
    ensures Valid(r)
  {
    if m == 0 then d
    else
      var before := StopTimes(script, d, m - 1);
      StopKeepsValid(script, before);
      StopStep(script, before).0
  }

  /** Some stop of that machine was answered "stopped". */
  predicate StoppedIn(said: seq<Exchange>, node: NodeId) {
    exists x | x in said :: x.request.node == node && x.reply.Stopped?
  }

  /** Once a machine has said it stopped, it is not asked again. */
  ghost predicate NeverAgain(said: seq<Exchange>) {
    forall i, j | 0 <= i < j < |said| && said[i].reply.Stopped? :: said[j].request.node != said[i].request.node
  }

  /** What is left of a record after those answers. */
  ghost predicate LeftOf(r: Running, said: seq<Exchange>, now: Option<Running>) {
    if now.None? then forall s | s in r.started :: StoppedIn(said, s.node)
    else
      && now.value.targets == r.targets
      && (forall s :: s in now.value.started <==> s in r.started && !StoppedIn(said, s.node))
  }

  lemma StoppedSplit(a: seq<Exchange>, b: seq<Exchange>, node: NodeId)
    ensures StoppedIn(a + b, node) <==> StoppedIn(a, node) || StoppedIn(b, node)
  {
    assert forall x :: x in a + b <==> x in a || x in b;
  }

  /** One stop of a record, answer by answer. */
  lemma OneStop(script: Script, d: Driver, after: Driver) returns (said: seq<Exchange>)
    requires Valid(d) && d.running.Some? && after == StopStep(script, d).0
    ensures after.net.log == d.net.log + said
    ensures Asked(said, Stops(d.running.value.started, d.running.value.targets))
    ensures LeftOf(d.running.value, said, after.running)
    ensures NeverAgain(said)
  {
    var r := d.running.value;
    said := StopSays(script, d);
    PickMembers(r.started, said, NotStopped);
    forall s | s in r.started
      ensures s in Pick(r.started, said, NotStopped) <==> !StoppedIn(said, s.node)
    {
      var i :| 0 <= i < |r.started| && r.started[i] == s;
      StoppedOnlyBy(r, said, i);
    }
  }

  lemma StoppedOnlyBy(r: Running, said: seq<Exchange>, i: nat)
    requires RunningValid(r) && i < |r.started| && Asked(said, Stops(r.started, r.targets))
    ensures StoppedIn(said, r.started[i].node) <==> said[i].reply.Stopped?
    ensures r.started[i] in Pick(r.started, said, NotStopped) <==> !said[i].reply.Stopped?
  {
    if StoppedIn(said, r.started[i].node) {
      var x :| x in said && x.request.node == r.started[i].node && x.reply.Stopped?;
      var j :| 0 <= j < |said| && said[j] == x;
      assert j == i;
    }
    assert said[i] in said;
    PickMembers(r.started, said, NotStopped);
    if r.started[i] in Pick(r.started, said, NotStopped) {
      var k :| 0 <= k < |r.started| && r.started[k] == r.started[i] && NotStopped(said[k].reply);
      assert k == i;
    }
  }

  lemma StillNeverAgain(r: Running, before: seq<Exchange>, now: Running, said: seq<Exchange>)
    requires RunningValid(now) && LeftOf(r, before, Some(now)) && NeverAgain(before) && NeverAgain(said)
    requires Asked(said, Stops(now.started, now.targets))
    ensures NeverAgain(before + said)
  {
    var both := before + said;
    forall i, j | 0 <= i < j < |both| && both[i].reply.Stopped?
      ensures both[j].request.node != both[i].request.node
    {
      if i < |before| <= j {
        assert both[i] in before && now.started[j - |before|] in now.started;
        assert both[j].request.node == now.started[j - |before|].node;
      } else if i >= |before| {
        assert both[i] == said[i - |before|] && both[j] == said[j - |before|];
      }
    }
  }

  lemma StillLeft(r: Running, before: seq<Exchange>, now: Running, said: seq<Exchange>, next: Option<Running>)
    requires LeftOf(r, before, Some(now)) && LeftOf(now, said, next)
    requires RunningValid(r) && RunningValid(now) && Asked(said, Stops(now.started, now.targets))
    ensures LeftOf(r, before + said, next)
  {
    forall s | s in r.started
      ensures StoppedIn(before + said, s.node) <==> StoppedIn(before, s.node) || (s in now.started && StoppedIn(said, s.node))
    {
      StoppedSplit(before, said, s.node);
      if StoppedIn(said, s.node) {
        var x :| x in said && x.request.node == s.node && x.reply.Stopped?;
        var j :| 0 <= j < |said| && said[j] == x;
        assert now.started[j] in now.started && now.started[j] in r.started;
        SameNodeSameRecord(r.started, s, now.started[j]);
      }
    }
  }

  lemma SameNodeSameRecord(started: seq<RankStarted>, a: RankStarted, b: RankStarted)
    requires DistinctStarted(started) && a in started && b in started && a.node == b.node
    ensures a == b
  {
  }

  /** One more stop on top of a run of them. */
  lemma StopAgain(r: Running, before: seq<Exchange>, now: Running, more: seq<Exchange>, next: Option<Running>)
    requires RunningValid(r) && RunningValid(now) && LeftOf(r, before, Some(now)) && NeverAgain(before)
    requires Asked(more, Stops(now.started, now.targets)) && LeftOf(now, more, next) && NeverAgain(more)
    ensures LeftOf(r, before + more, next) && NeverAgain(before + more)
  {
    StillNeverAgain(r, before, now, more);
    StillLeft(r, before, now, more, next);
  }

  lemma NoStopLeft(script: Script, d: Driver)
    requires Valid(d) && d.running.None?
    ensures StopStep(script, d).0 == d
  {
  }

  /** What one more stop says on top of what was said before, and what it leaves. */
  ghost predicate SaidOnTop(r: Running, log: seq<Exchange>, said: seq<Exchange>, after: Driver) {
    after.net.log == log + said && NeverAgain(said) && LeftOf(r, said, after.running)
  }

  lemma StopOnTop(r: Running, log: seq<Exchange>, before: seq<Exchange>, mid: Driver, more: seq<Exchange>, after: Driver)
    requires RunningValid(r) && mid.running.Some? && RunningValid(mid.running.value)
    requires SaidOnTop(r, log, before, mid) && SaidOnTop(mid.running.value, mid.net.log, more, after)
    requires Asked(more, Stops(mid.running.value.started, mid.running.value.targets))
    ensures SaidOnTop(r, log, before + more, after)
  {
    StopAgain(r, before, mid.running.value, more, after.running);
    assert log + before + more == log + (before + more);
  }

  /** One more stop, whether or not there is still anything to stop. */
  lemma OneMoreStop(script: Script, r: Running, log: seq<Exchange>, said: seq<Exchange>, mid: Driver, after: Driver)
    returns (all: seq<Exchange>)
    requires Valid(mid) && RunningValid(r) && SaidOnTop(r, log, said, mid) && after == StopStep(script, mid).0
    ensures SaidOnTop(r, log, all, after)
  {
    if mid.running.Some? {
      var more := OneStop(script, mid, after);
      StopOnTop(r, log, said, mid, more, after);
      all := said + more;
    } else {
      NoStopLeft(script, mid);
      all := said;
    }
  }

  lemma SaidNothing(d: Driver)
    requires d.running.Some?
    ensures SaidOnTop(d.running.value, d.net.log, [], d)
  {
  }

  lemma {:induction false} StopsSay(script: Script, d: Driver, m: nat, after: Driver) returns (said: seq<Exchange>)
    requires Valid(d) && d.running.Some? && after == StopTimes(script, d, m)
    ensures SaidOnTop(d.running.value, d.net.log, said, after)
  {
    if m == 0 {
      said := [];
      SaidNothing(d);
    } else {
      var mid := StopTimes(script, d, m - 1);
      said := StopsSay(script, d, m - 1, mid);
      said := OneMoreStop(script, d.running.value, d.net.log, said, mid, after);
    }
  }

  /** Over any number of stops in a row, the record holds exactly the ranks that have not
      yet said they stopped, one that has is never asked again, and the record clears
      exactly when the last of them has. */
  lemma StopIsRetryable(script: Script, d: Driver, m: nat) returns (said: seq<Exchange>)
    requires Valid(d) && d.running.Some?
    ensures StopTimes(script, d, m).net.log == d.net.log + said
    ensures LeftOf(d.running.value, said, StopTimes(script, d, m).running)
    ensures NeverAgain(said)
  {
    said := StopsSay(script, d, m, StopTimes(script, d, m));
  }

  lemma DeadExactly(r: Running, asked: seq<Exchange>)
    requires |r.started| == |asked|
    ensures Pick(StartedNodes(r.started), asked, NotLiving) == [] <==> forall x | x in asked :: x.reply == Living(true)
  {
    var dead := Pick(StartedNodes(r.started), asked, NotLiving);
    PickMembers(StartedNodes(r.started), asked, NotLiving);
    if dead != [] {
      assert dead[0] in dead;
      var k :| 0 <= k < |asked| && NotLiving(asked[k].reply);
      assert asked[k] in asked;
    }
  }

  /** Supervision asks every recorded rank. If all answer alive the record stands. If one
      does not, every rank is sent a stop and the record is gone whatever they answer, so
      the next prepare is not refused for a cluster that is already lost. */
  lemma SupervisionNeverWedges(script: Script, d: Driver) returns (asked: seq<Exchange>, stopped: seq<Exchange>)
    requires Valid(d) && d.running.Some?
    ensures Asked(asked, RollCall(d.running.value.started, d.running.value.targets))
    ensures var (after, torn) := SuperviseStep(script, d);
      && (torn.None? <==> forall x | x in asked :: x.reply == Living(true))
      && (torn.None? ==> after.running == d.running && after.net.log == d.net.log + asked)
      && (torn.Some? ==>
            && after.running.None?
            && Asked(stopped, Stops(d.running.value.started, d.running.value.targets))
            && after.net.log == d.net.log + asked + stopped)
  {
    var r := d.running.value;
    asked := Spoken(script, d.net, RollCall(r.started, r.targets));
    stopped := [];
    DeadExactly(r, asked);
    var mid := d.(net := AskAll(script, d.net, RollCall(r.started, r.targets)));
    if Pick(StartedNodes(r.started), asked, NotLiving) != [] {
      stopped := StopSays(script, mid);
    }
  }
}
