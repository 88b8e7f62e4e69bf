/** What a failed commit leaves behind, told exactly at any point of any run.

    A container carries the turn it was launched at; in every run no container carries a
    turn that has not come yet, so one launched by an attempt is told from all older ones. */
module ClusterAbsent {
  import opened Wrappers
  import opened Fleet
  import opened Resolve
  import opened RankNet
  import opened Ceremonies
  import opened ClusterSafety
  import opened ClusterRuns

  /** Every machine's containers were launched before the present turn. */
  ghost predicate Dated(net: Net) {
    forall n :: NothingFrom(At(net.world, n), |net.log|)
  }

  lemma ServeDated(m: Machine, verb: Verb, b: Behaviour, tick: nat)
    requires NothingFrom(m, tick)
    ensures NothingFrom(Serve(m, verb, b, tick), tick + 1)
  {
  }

  lemma AskDated(script: Script, net: Net, req: Request)
    requires Dated(net)
    ensures Dated(Ask(script, net, req))
  {
    var after := Ask(script, net, req);
    forall n
      ensures NothingFrom(At(after.world, n), |after.log|)
    {
      assert NothingFrom(At(net.world, n), |net.log|);
      if n == req.node {
        ServeDated(At(net.world, n), req.verb, script(|net.log|), |net.log|);
      }
    }
  }

  lemma {:induction false} AsksDated(script: Script, net: Net, reqs: seq<Request>, after: Net)
    requires Dated(net) && after == AskAll(script, net, reqs)
    ensures Dated(after)
  {
    if reqs != [] {
      var before := AskAll(script, net, reqs[..|reqs| - 1]);
      AsksDated(script, net, reqs[..|reqs| - 1], before);
      AskDated(script, before, reqs[|reqs| - 1]);
    }
  }

  // ---------------------------------------------------------------- ceremonies

  lemma PrepareDated(script: Script, d: Driver, site: Site, sel: Selection, e: Epoch)
    requires Dated(d.net)
    ensures Dated(PrepareStep(script, d, site, sel, e).0.net)
  {
    if d.running.None? && ResolveOf(site, sel, e).Ok? {
      ReserveDated(script, d, ResolveOf(site, sel, e).value);
    }
  }

  lemma ReserveDated(script: Script, d: Driver, p: Pending)
    requires Dated(d.net)
    ensures Dated(Reserve(script, d, p).0.net)
  {
    var reqs := Reservations(p.targets, p.epoch);
    var asked := AskAll(script, d.net, reqs);
    AskAllSays(script, d.net, reqs);
    AsksDated(script, d.net, reqs, asked);
    var aborts := Aborts(Pick(p.targets, Said(d.net, asked), SaidYes), p.epoch);
    AsksDated(script, asked, aborts, AskAll(script, asked, aborts));
  }

  lemma UndoDated(script: Script, d: Driver, p: Pending, k: nat)
    requires Dated(d.net) && DistinctTargets(p.targets)
    requires k == StartsFrom(script, d.net, Commits(p.targets, p.epoch), 0) < |p.targets|
    ensures Dated(Undo(script, d, p, k).net)
  {
    UndoTranscript(script, d, p, k);
    AsksDated(script, d.net, UndoList(script, d.net, p, k), Undo(script, d, p, k).net);
  }

  lemma SettleDated(script: Script, d: Driver, p: Pending)
    requires Dated(d.net) && DistinctTargets(p.targets)
    requires StartsFrom(script, d.net, Commits(p.targets, p.epoch), 0) == |p.targets|
    ensures Dated(Settle(script, d, p).0.net)
  {
    SettleTranscript(script, d, p);
    var list := if Settle(script, d, p).1.Committed? then SettleList(script, d.net, p) else TearDownList(script, d.net, p);
    AsksDated(script, d.net, list, Settle(script, d, p).0.net);
  }

  lemma CommitDated(script: Script, d: Driver, e: Epoch)
    requires Valid(d) && Dated(d.net)
    ensures Dated(CommitStep(script, d, e).0.net)
  {
    if d.pending.Some? && d.pending.value.epoch == e {
      var p := d.pending.value;
      var k := StartsFrom(script, d.net, Commits(p.targets, e), 0);
      if k < |p.targets| {
        UndoDated(script, d, p, k);
      } else {
        SettleDated(script, d, p);
      }
    }
  }

  lemma AbortDated(script: Script, d: Driver, e: Epoch)
    requires Dated(d.net)
    ensures Dated(AbortStep(script, d, e).net)
  {
    if d.pending.Some? && d.pending.value.epoch == e {
      AsksDated(script, d.net, Aborts(d.pending.value.targets, e), AbortStep(script, d, e).net);
    }
  }

  lemma StopDated(script: Script, d: Driver)
    requires Valid(d) && Dated(d.net)
    ensures Dated(StopStep(script, d).0.net)
  {
    if d.running.Some? {
      AsksDated(script, d.net, Stops(d.running.value.started, d.running.value.targets), StopStep(script, d).0.net);
    }
  }

  lemma SuperviseDated(script: Script, d: Driver)
    requires Valid(d) && Dated(d.net)
    ensures Dated(SuperviseStep(script, d).0.net)
  {
    if d.running.Some? {
      var reqs := RollCall(d.running.value.started, d.running.value.targets);
      var asked := AskAll(script, d.net, reqs);
      AsksDated(script, d.net, reqs, asked);
      StopDated(script, d.(net := asked));
    }
  }

  lemma StepDated(script: Script, h: History, op: Op)
    requires Valid(h.d) && Dated(h.d.net)
    ensures Dated(Step(script, h, op).d.net)
  {
    match op
    case OpPrepare(site, sel, e) => PrepareDated(script, h.d, site, sel, e);
    case OpCommit(e) => CommitDated(script, h.d, e);
    case OpAbort(e) => AbortDated(script, h.d, e);
    case OpStop => StopDated(script, h.d);
    case OpSupervise => SuperviseDated(script, h.d);
  }

  // ---------------------------------------------------------------- every run

  /** What a machine may be found with: a reservation, and containers by name. */
  datatype Found = Found(reserved: Option<Epoch>, live: set<string>)

  function Existing(found: map<NodeId, Found>): World {
    map n | n in found :: Machine(found[n].reserved, map c | c in found[n].live :: -1)
  }

  lemma {:induction false} RunDated(script: Script, found: map<NodeId, Found>, ops: seq<ClusterRuns.Op>)
    ensures Dated(Run(script, Start(Existing(found)), ops).d.net)
  {
    if ops != [] {
      RunDated(script, found, ops[..|ops| - 1]);
      StepDated(script, Run(script, Start(Existing(found)), ops[..|ops| - 1]), ops[|ops| - 1]);
    }
  }

  /** Wherever a run has got to, from whatever the machines were found with: after a commit
      that fails, a target keeps no container and no reservation of the attempt exactly when
      what was done to undo it there took effect. */
  lemma AbsentInEveryRun(script: Script, found: map<NodeId, Found>, ops: seq<ClusterRuns.Op>, d: Driver, e: Epoch, after: Net)
    requires d == Run(script, Start(Existing(found)), ops).d
    requires d.pending.Some? && d.pending.value.epoch == e
    requires !CommitStep(script, d, e).1.Committed? && after == CommitStep(script, d, e).0.net
    ensures forall j | 0 <= j < |d.pending.value.targets| ::
              Absent(after.world, d.pending.value, j, |d.net.log|) <==> Took(script, d.net, d.pending.value, j)
  {
    RunDated(script, found, ops);
    AbsentExactly(script, d, e, after);
  }
}
