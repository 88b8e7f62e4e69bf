/** The driver itself: two slots, and ceremonies that take and replace them around loops
    of requests. Each method is held to the ceremony of the same name in `Ceremonies`. */
module Driving {
  import opened Wrappers
  import opened Fleet
  import opened Resolve
  import opened RankNet
  import opened Ceremonies
  import ClusterSafety

  /** The conversation with every rank, this machine's own included. */
  class RankLink {
    const script: Script
    var net: Net

    constructor (script: Script, world: World)
      ensures this.script == script && net == Net(world, [])
    {
      this.script := script;
      net := Net(world, []);
    }

    method Send(req: Request) returns (reply: Reply)
      modifies this
      ensures net == Ask(script, old(net), req)
      ensures reply == ReplyTo(old(net).world, req, script(|old(net).log|))
      ensures net.log == old(net).log + [Exchange(req, reply)]
    {
      reply := ReplyTo(net.world, req, script(|net.log|));
      net := Ask(script, net, req);
    }
  }

  class ClusterDriver {
    const link: RankLink
    var pending: Option<Pending>
    var running: Option<Running>

    ghost predicate Valid()
      reads this, link
    {
      Ceremonies.Valid(State())
    }

    function State(): Driver
      reads this, link
    {
      Driver(pending, running, link.net)
    }

    constructor (link: RankLink)
      ensures Valid() && this.link == link
      ensures State() == Driver(None, None, link.net)
    {
      this.link := link;
      pending, running := None, None;
    }

    /** One release per target given; whether it arrives is not looked at. */
    method RollBack(epoch: Epoch, targets: seq<Target>)
      modifies link
      ensures link.net == AskAll(link.script, old(link.net), Aborts(targets, epoch))
    {
      ghost var reqs := Aborts(targets, epoch);
      for i := 0 to |targets|
        invariant link.net == AskAll(link.script, old(link.net), reqs[..i])
      {
        var _ := link.Send(Dial(targets[i], Abort(epoch)));
        AskNext(link.script, old(link.net), reqs, i);
      }
      assert reqs[..|targets|] == reqs;
    }

    /** One stop a turn for each record given that has a target; replies are not read. */
    method StopStarted(started: seq<RankStarted>, targets: seq<Target>)
      modifies link
      ensures link.net == AskAll(link.script, old(link.net), StopsFound(started, targets))
      ensures Covered(started, targets) ==> link.net == AskAll(link.script, old(link.net), Stops(started, targets))
    {
      for i := 0 to |started|
        invariant link.net == AskAll(link.script, old(link.net), StopsFound(started[..i], targets))
      {
        ghost var before := StopsFound(started[..i], targets);
        assert started[..i + 1][..i] == started[..i];
        if Known(started[i].node, targets) {
          var req := Dial(TargetOf(targets, started[i].node), Stop(started[i].container));
          var _ := link.Send(req);
          assert StopsFound(started[..i + 1], targets) == before + [req];
          AskNext(link.script, old(link.net), before + [req], |before|);
          assert (before + [req])[..|before|] == before && (before + [req])[..|before| + 1] == before + [req];
        } else {
          assert before + [] == before;
        }
      }
      assert started[..|started|] == started;
      if Covered(started, targets) {
        CoveredAreFound(started, targets);
      }
    }

    /** The reservations, one request a turn, and the targets whose reply was yes. */
    method ReserveAll(p: Pending) returns (answers: seq<RankPrepare>, accepted: seq<Target>)
      modifies link
      ensures link.net == AskAll(link.script, old(link.net), Reservations(p.targets, p.epoch))
      ensures Asked(Said(old(link.net), link.net), Reservations(p.targets, p.epoch))
      ensures answers == Answers(p.targets, Said(old(link.net), link.net))
      ensures accepted == Pick(p.targets, Said(old(link.net), link.net), SaidYes)
    {
      ghost var reqs := Reservations(p.targets, p.epoch);
      ghost var said: seq<Exchange> := [];
      answers, accepted := [], [];
      for i := 0 to |p.targets|
        invariant link.net == AskAll(link.script, old(link.net), reqs[..i])
        invariant |said| == i && link.net.log == old(link.net).log + said
        invariant answers == Answers(p.targets[..i], said)
        invariant accepted == Pick(p.targets[..i], said, SaidYes)
      {
        var t := p.targets[i];
        var reply := link.Send(Dial(t, Prepare(p.epoch, t.assignment)));
        AskNext(link.script, old(link.net), reqs, i);
        PickNext(p.targets, said, Exchange(reqs[i], reply), SaidYes, i);
        AnswersNext(p.targets, said, Exchange(reqs[i], reply), i);
        said := said + [Exchange(reqs[i], reply)];
        var prepared := reply.Prepared?;
        if prepared {
          accepted := accepted + [t];
        }
        answers := answers + [RankPrepare(t.assignment.node, t.name, t.assignment.rank, prepared)];
      }
      assert reqs[..|p.targets|] == reqs && p.targets[..|p.targets|] == p.targets;
      AskAllSays(link.script, old(link.net), reqs);
    }

    /** Reserve every rank, and hold the prepare only if every rank said yes. */
    method ReserveOrRelease(p: Pending) returns (answer: PrepareAnswer)
      modifies this, link
      ensures (State(), answer) == Reserve(link.script, old(State()), p)
    {
      var answers, accepted := ReserveAll(p);
      var mayCommit := forall i | 0 <= i < |answers| :: answers[i].prepared;
      MayCommit(p.targets, Said(old(link.net), link.net));
      if mayCommit {
        pending := Some(p);
      } else {
        RollBack(p.epoch, accepted);
      }
      answer := Answered(p.epoch, answers, mayCommit);
    }

    method PrepareInner(site: Site, sel: Selection, epoch: Epoch) returns (answer: PrepareAnswer)
      requires Valid()
      modifies this, link
      ensures Valid()
      ensures (State(), answer) == PrepareStep(link.script, old(State()), site, sel, epoch)
    {
      if running.Some? {
        return AlreadyRunning(StartedNames(running.value.started));
      }
      var resolved := ResolveSelection(site, sel, epoch);
      if resolved.Err? {
        return Unresolved(resolved.error);
      }
      PrepareKeepsValid(link.script, State(), site, sel, epoch);
      answer := ReserveOrRelease(resolved.value);
    }

    method CommitInner(epoch: Epoch) returns (answer: CommitAnswer)
      requires Valid()
      modifies this, link
      ensures Valid()
      ensures (State(), answer) == CommitStep(link.script, old(State()), epoch)
    {
      if pending.None? {
        return NoPrepare;
      }
      if pending.value.epoch != epoch {
        return OtherEpoch(pending.value.epoch);
      }
      CommitKeepsValid(link.script, State(), epoch);
      answer := CommitHeld();
    }

    /** Commit the held prepare, which this consumes. */
    method CommitHeld() returns (answer: CommitAnswer)
      requires Valid() && pending.Some?
      modifies this, link
      ensures (State(), answer) == CommitStep(link.script, old(State()), old(pending).value.epoch)
    {
      ghost var d := State();
      var p := pending.value;
      pending := None;
      var refused, started := StartAll(p);
      CommitParts(link.script, d, p, link.net, started);
      if refused.Some? {
        answer := UndoStarted(p, refused.value, started);
      } else {
        answer := SettleStarted(p, started);
      }
    }

    /** Commit rank after rank until one refuses, keeping what each one started. */
    method StartAll(p: Pending) returns (refused: Option<nat>, started: seq<RankStarted>)
      modifies link
      ensures refused == FirstRefusal(link.script, old(link.net), p)
      ensures link.net == AfterCommits(link.script, old(link.net), p)
      ensures started == StartedBy(link.script, old(link.net), p)
    {
      ghost var script, net0, reqs := link.script, link.net, Commits(p.targets, p.epoch);
      ghost var said: seq<Exchange> := [];
      refused, started := None, [];
      for i := 0 to |p.targets|
        invariant link.net == AskAll(script, net0, reqs[..i])
        invariant |said| == i && link.net.log == net0.log + said
        invariant started == Launched(p, said, i)
        invariant StartsFrom(script, net0, reqs, 0) == StartsFrom(script, net0, reqs, i)
      {
        var t := p.targets[i];
        var reply := link.Send(Dial(t, Commit(p.epoch)));
        AskNext(script, net0, reqs, i);
        StartedNext(p, said, Exchange(reqs[i], reply), i);
        said := said + [Exchange(reqs[i], reply)];
        StoppedAt(script, net0, p, said, i, link.net);
        if !reply.Started? {
          return Some(i), started;
        }
        var a := t.assignment;
        started := started + [RankStarted(a.node, t.name, a.rank, reply.container,
                                          if a.rank == 0 then Some((a.masterAddr, p.port)) else None)];
      }
      assert reqs[..|p.targets|] == reqs;
      assert Said(net0, link.net) == said;
    }

    method UndoStarted(p: Pending, k: nat, started: seq<RankStarted>) returns (answer: CommitAnswer)
      requires k < |p.targets| && Covered(started, p.targets[..k]) && pending.None?
      modifies link
      ensures State() == UndoFrom(link.script, running, old(link.net), p, started, k)
      ensures answer == CouldNotStart(p.targets[k].name)
    {
      StopStarted(started, p.targets[..k]);
      RollBack(p.epoch, p.targets[k..]);
      answer := CouldNotStart(p.targets[k].name);
    }

    /** Ask one target's rank, the `i`th of the roll call begun in `net0`, and note it if it
        does not answer yes. */
    method AskOne(p: Pending, started: seq<RankStarted>, i: nat, dead: seq<string>, ghost net0: Net,
                  ghost said: seq<Exchange>)
      returns (more: seq<string>, ghost now: seq<Exchange>)
      requires SameNodes(started, p.targets) && DistinctTargets(p.targets) && Covered(started, p.targets)
      requires i < |p.targets|
      requires RollCalled(link.script, net0, link.net, RollCall(started, p.targets), TargetNames(p.targets), i, said, dead)
      modifies link
      ensures RollCalled(link.script, net0, link.net, RollCall(started, p.targets), TargetNames(p.targets), i + 1, now, more)
    {
      ghost var reqs, before := RollCall(started, p.targets), link.net;
      RollCallOf(started, p.targets, i);
      var t := p.targets[i];
      var reply := link.Send(Dial(t, Alive(StartedOf(started, t.assignment.node).container)));
      now := said + [Exchange(reqs[i], reply)];
      RollCalledNext(link.script, net0, before, reqs, TargetNames(p.targets), i, said, dead, Exchange(reqs[i], reply));
      more := if reply != Living(true) then dead + [t.name] else dead;
    }

    /** Ask every target's rank about its container, naming those that do not answer yes. */
    method AskAlive(p: Pending, started: seq<RankStarted>) returns (dead: seq<string>)
      requires SameNodes(started, p.targets) && DistinctTargets(p.targets) && Covered(started, p.targets)
      modifies link
      ensures link.net == AskAll(link.script, old(link.net), RollCall(started, p.targets))
      ensures |p.targets| <= |Said(old(link.net), link.net)|
      ensures dead == Pick(TargetNames(p.targets), Said(old(link.net), link.net), NotLiving)
    {
      ghost var script, net0, reqs, names := link.script, link.net, RollCall(started, p.targets), TargetNames(p.targets);
      ghost var said: seq<Exchange> := [];
      dead := [];
      for i := 0 to |p.targets|
        invariant RollCalled(script, net0, link.net, reqs, names, i, said, dead)
      {
        dead, said := AskOne(p, started, i, dead, net0, said);
      }
      assert reqs[..|p.targets|] == reqs && names[..|p.targets|] == names;
      assert Said(net0, link.net) == said;
    }

    method SettleStarted(p: Pending, started: seq<RankStarted>) returns (answer: CommitAnswer)
      requires SameNodes(started, p.targets) && DistinctTargets(p.targets) && Covered(started, p.targets)
      requires pending.None?
      modifies this, link
      ensures (State(), answer) == SettleFrom(link.script, old(running), old(link.net), p, started)
    {
      var dead := AskAlive(p, started);
      if dead != [] {
        StopStarted(started, p.targets);
        return Died(dead);
      }
      running := Some(Running(p.targets, started));
      answer := Committed(started);
    }

    method AbortInner(epoch: Epoch)
      requires Valid()
      modifies this, link
      ensures Valid()
      ensures State() == AbortStep(link.script, old(State()), epoch)
    {
      if pending.Some? && pending.value.epoch == epoch {
        var p := pending.value;
        pending := None;
        RollBack(epoch, p.targets);
      }
    }

    /** Stop every recorded rank, even after one fails, and keep exactly those that failed. */
    method StopRecorded(r: Running) returns (left: seq<RankStarted>)
      requires RunningValid(r)
      modifies link
      ensures link.net == AskAll(link.script, old(link.net), Stops(r.started, r.targets))
      ensures |r.started| <= |Said(old(link.net), link.net)|
      ensures left == Pick(r.started, Said(old(link.net), link.net), NotStopped)
    {
      ghost var reqs := Stops(r.started, r.targets);
      ghost var said: seq<Exchange> := [];
      left := [];
      for i := 0 to |r.started|
        invariant link.net == AskAll(link.script, old(link.net), reqs[..i])
        invariant |said| == i && link.net.log == old(link.net).log + said
        invariant left == Pick(r.started[..i], said, NotStopped)
      {
        var t := TargetOf(r.targets, r.started[i].node);
        var reply := link.Send(Dial(t, Stop(r.started[i].container)));
        AskNext(link.script, old(link.net), reqs, i);
        PickNext(r.started, said, Exchange(reqs[i], reply), NotStopped, i);
        said := said + [Exchange(reqs[i], reply)];
        if !reply.Stopped? {
          left := left + [r.started[i]];
        }
      }
      assert reqs[..|r.started|] == reqs && r.started[..|r.started|] == r.started;
    }

    method StopClusterInner() returns (answer: StopAnswer)
      requires Valid()
      modifies this, link
      ensures Valid()
      ensures (State(), answer) == StopStep(link.script, old(State()))
    {
      StopKeepsValid(link.script, State());
      if running.None? {
        return NotStarted;
      }
      var r := running.value;
      var left := StopRecorded(r);
      if left == [] {
        running := None;
        return AllStopped(r.started);
      }
      running := Some(r.(started := left));
      answer := CouldNotStop(StartedNames(left));
    }

    /** Ask every recorded rank whether it is alive, naming the nodes that do not say yes. */
    method FindDead(r: Running) returns (dead: seq<NodeId>)
      requires RunningValid(r)
      modifies link
      ensures link.net == AskAll(link.script, old(link.net), RollCall(r.started, r.targets))
      ensures |r.started| <= |Said(old(link.net), link.net)|
      ensures dead == Pick(StartedNodes(r.started), Said(old(link.net), link.net), NotLiving)
    {
      ghost var reqs := RollCall(r.started, r.targets);
      ghost var nodes := StartedNodes(r.started);
      ghost var said: seq<Exchange> := [];
      dead := [];
      for i := 0 to |r.started|
        invariant link.net == AskAll(link.script, old(link.net), reqs[..i])
        invariant |said| == i && link.net.log == old(link.net).log + said
        invariant dead == Pick(nodes[..i], said, NotLiving)
      {
        var t := TargetOf(r.targets, r.started[i].node);
        var reply := link.Send(Dial(t, Alive(r.started[i].container)));
        AskNext(link.script, old(link.net), reqs, i);
        PickNext(nodes, said, Exchange(reqs[i], reply), NotLiving, i);
        said := said + [Exchange(reqs[i], reply)];
        if reply != Living(true) {
          dead := dead + [t.assignment.node];
        }
      }
      assert reqs[..|r.started|] == reqs && nodes[..|r.started|] == nodes;
    }

    method SuperviseInner() returns (torn: Option<seq<NodeId>>)
      requires Valid()
      modifies this, link
      ensures Valid()
      ensures (State(), torn) == SuperviseStep(link.script, old(State()))
    {
      if running.None? {
        return None;
      }
      var dead := FindDead(running.value);
      if dead == [] {
        return None;
      }
      var _ := StopClusterInner();
      running := None;
      torn := Some(dead);
    }
  }

  /** A roll call after its first `i` questions: what was said, and who is not alive. */
  ghost predicate RollCalled(script: Script, net0: Net, net: Net, reqs: seq<Request>, names: seq<string>, i: nat,
                             said: seq<Exchange>, dead: seq<string>) {
    && i <= |reqs| && i <= |names|
    && net == AskAll(script, net0, reqs[..i])
    && |said| == i && net.log == net0.log + said
    && dead == Pick(names[..i], said, NotLiving)
  }

  lemma RollCalledNext(script: Script, net0: Net, net: Net, reqs: seq<Request>, names: seq<string>, i: nat,
                       said: seq<Exchange>, dead: seq<string>, x: Exchange)
    requires RollCalled(script, net0, net, reqs, names, i, said, dead) && i < |reqs| && i < |names|
    requires x == Exchange(reqs[i], ReplyTo(net.world, reqs[i], script(|net.log|)))
    ensures RollCalled(script, net0, Ask(script, net, reqs[i]), reqs, names, i + 1, said + [x],
                       if NotLiving(x.reply) then dead + [names[i]] else dead)
  {
    AskNext(script, net0, reqs, i);
    PickNext(names, said, x, NotLiving, i);
  }

  ghost predicate SameNodes(started: seq<RankStarted>, targets: seq<Target>) {
    && |started| == |targets|
    && forall i | 0 <= i < |targets| :: started[i].node == targets[i].assignment.node
  }

  /** The first record for a node, as the driver looks it up. */
  function StartedOf(started: seq<RankStarted>, node: NodeId): (r: RankStarted)
    requires exists i | 0 <= i < |started| :: started[i].node == node
    ensures r in started && r.node == node
  {
    if started[0].node == node then started[0] else StartedOf(started[1..], node)
  }

  /** On a fresh record the roll call asks each target about its own container. */
  lemma RollCallOf(started: seq<RankStarted>, targets: seq<Target>, i: nat)
    requires SameNodes(started, targets) && DistinctTargets(targets) && i < |targets| && Covered(started, targets)
    ensures StartedOf(started, targets[i].assignment.node) == started[i]
    ensures RollCall(started, targets)[i] == Dial(targets[i], Alive(started[i].container))
  {
    var r := StartedOf(started, targets[i].assignment.node);
    var k :| 0 <= k < |started| && started[k] == r;
    assert k == i;
    ClusterSafety.TargetOfItsNode(targets, i);
  }

  function FirstRefusal(script: Script, net: Net, p: Pending): Option<nat> {
    var k := StartsFrom(script, net, Commits(p.targets, p.epoch), 0);
    if k < |p.targets| then Some(k) else None
  }

  function AfterCommits(script: Script, net: Net, p: Pending): Net {
    var k := FirstRefusal(script, net, p);
    AskAll(script, net, if k.Some? then Commits(p.targets, p.epoch)[..k.value + 1] else Commits(p.targets, p.epoch))
  }

  function StartedBy(script: Script, net: Net, p: Pending): seq<RankStarted> {
    var k := FirstRefusal(script, net, p);
    var reqs := if k.Some? then Commits(p.targets, p.epoch)[..k.value + 1] else Commits(p.targets, p.epoch);
    AskAllSays(script, net, reqs);
    Launched(p, Said(net, AskAll(script, net, reqs)), if k.Some? then k.value else |p.targets|)
  }

  /** The commit ceremony is its commits, and then what follows from where they stopped. */
  lemma CommitParts(script: Script, d: Driver, p: Pending, asked: Net, started: seq<RankStarted>)
    requires Valid(d) && d.pending == Some(p)
    requires asked == AfterCommits(script, d.net, p) && started == StartedBy(script, d.net, p)
    ensures var k := FirstRefusal(script, d.net, p);
      if k.Some? then
        && Covered(started, p.targets[..k.value])
        && CommitStep(script, d, p.epoch)
           == (UndoFrom(script, d.running, asked, p, started, k.value), CouldNotStart(p.targets[k.value].name))
      else
        && SameNodes(started, p.targets) && Covered(started, p.targets)
        && CommitStep(script, d, p.epoch) == SettleFrom(script, d.running, asked, p, started)
  {
    var k := FirstRefusal(script, d.net, p);
    var n := if k.Some? then k.value else |p.targets|;
    var reqs := if k.Some? then Commits(p.targets, p.epoch)[..n + 1] else Commits(p.targets, p.epoch);
    AskAllSays(script, d.net, reqs);
    LaunchedCovered(p, Said(d.net, asked), n);
    assert p.targets[..|p.targets|] == p.targets;
  }

  lemma StartedNext(p: Pending, said: seq<Exchange>, x: Exchange, i: nat)
    requires i < |p.targets| && |said| == i
    ensures Launched(p, said + [x], i) == Launched(p, said, i)
    ensures x.reply.Started? ==>
              var a := p.targets[i].assignment;
              Launched(p, said + [x], i + 1)
              == Launched(p, said, i)
                 + [RankStarted(a.node, p.targets[i].name, a.rank, x.reply.container,
                                if a.rank == 0 then Some((a.masterAddr, p.port)) else None)]
  {
  }

  /** The answer to commit `i` decides whether the commits stop there. */
  lemma StoppedAt(script: Script, net: Net, p: Pending, said: seq<Exchange>, i: nat, after: Net)
    requires i < |p.targets| && |said| == i + 1 && after.log == net.log + said
    requires after == AskAll(script, net, Commits(p.targets, p.epoch)[..i + 1])
    ensures said == Said(net, after)
    ensures var reqs := Commits(p.targets, p.epoch);
      StartsFrom(script, net, reqs, i) == if said[i].reply.Started? then StartsFrom(script, net, reqs, i + 1) else i
  {
    var reqs := Commits(p.targets, p.epoch);
    ClusterSafety.StartsIsReply(script, net, reqs[..i + 1], i);
    assert reqs[..i + 1][..i] == reqs[..i];
  }

  lemma PickNext<T>(items: seq<T>, said: seq<Exchange>, x: Exchange, keep: Reply -> bool, i: nat)
    requires i < |items| && |said| == i
    ensures Pick(items[..i + 1], said + [x], keep)
         == Pick(items[..i], said, keep) + if keep(x.reply) then [items[i]] else []
  {
    assert items[..i + 1][..i] == items[..i];
    PickIgnoresLater(items[..i], said, [x], keep);
  }

  /** Every answer is a yes exactly when nobody is missing from those who accepted. */
  lemma MayCommit(targets: seq<Target>, said: seq<Exchange>)
    requires |targets| <= |said|
    ensures var answers := Answers(targets, said);
      (forall i | 0 <= i < |answers| :: answers[i].prepared) <==> |Pick(targets, said, SaidYes)| == |targets|
  {
    PickAll(targets, said, SaidYes);
    var answers := Answers(targets, said);
    assert forall i | 0 <= i < |answers| :: answers[i].prepared == SaidYes(said[i].reply);
  }

  lemma AnswersNext(targets: seq<Target>, said: seq<Exchange>, x: Exchange, i: nat)
    requires i < |targets| && |said| == i
    ensures var a := targets[i].assignment;
      Answers(targets[..i + 1], said + [x])
      == Answers(targets[..i], said) + [RankPrepare(a.node, targets[i].name, a.rank, SaidYes(x.reply))]
  {
  }

  lemma {:induction false} PickIgnoresLater<T>(items: seq<T>, said: seq<Exchange>, more: seq<Exchange>, keep: Reply -> bool)
    requires |items| <= |said|
    ensures Pick(items, said + more, keep) == Pick(items, said, keep)
  {
    if items != [] {
      PickIgnoresLater(items[..|items| - 1], said, more, keep);
    }
  }

  lemma {:induction false} PickAll<T>(items: seq<T>, said: seq<Exchange>, keep: Reply -> bool)
    requires |items| <= |said|
    ensures |Pick(items, said, keep)| <= |items|
    ensures |Pick(items, said, keep)| == |items| <==> forall i | 0 <= i < |items| :: keep(said[i].reply)
  {
    if items != [] {
      PickAll(items[..|items| - 1], said, keep);
    }
  }
}
