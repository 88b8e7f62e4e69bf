/** The cluster ceremonies, as what each one makes of the driver's two slots and of the
    conversation with the ranks. The driver itself is `Driving.ClusterDriver`. */
module Ceremonies {
  import opened Wrappers
  import opened Fleet
  import opened Planner
  import opened Resolve
  import opened RankNet

  datatype RankStarted = RankStarted(
    node: NodeId,
    name: string,
    rank: nat,
    container: string,
    endpoint: Option<(Address, nat)>)

  datatype Running = Running(targets: seq<Target>, started: seq<RankStarted>)

  datatype Driver = Driver(pending: Option<Pending>, running: Option<Running>, net: Net)

  // ---------------------------------------------------------------- what is asked

  function Dial(t: Target, verb: Verb): Request {
    Request(t.assignment.node, t.addr, verb)
  }

  function Reservations(targets: seq<Target>, e: Epoch): seq<Request> {
    seq(|targets|, i requires 0 <= i < |targets| => Dial(targets[i], Prepare(e, targets[i].assignment)))
  }

  function Commits(targets: seq<Target>, e: Epoch): seq<Request> {
    seq(|targets|, i requires 0 <= i < |targets| => Dial(targets[i], Commit(e)))
  }

  function Aborts(targets: seq<Target>, e: Epoch): seq<Request> {
    seq(|targets|, i requires 0 <= i < |targets| => Dial(targets[i], Abort(e)))
  }

  predicate Known(node: NodeId, targets: seq<Target>) {
    exists i | 0 <= i < |targets| :: targets[i].assignment.node == node
  }

  predicate Covered(started: seq<RankStarted>, targets: seq<Target>) {
    forall i | 0 <= i < |started| :: Known(started[i].node, targets)
  }

  /** The first target for a node, as the driver looks it up. */
  function TargetOf(targets: seq<Target>, node: NodeId): (t: Target)
    requires Known(node, targets)
    ensures t in targets && t.assignment.node == node
  {
    if targets[0].assignment.node == node then targets[0] else TargetOf(targets[1..], node)
  }

  function Stops(started: seq<RankStarted>, targets: seq<Target>): seq<Request>
    requires Covered(started, targets)
  {
    seq(|started|, i requires 0 <= i < |started| =>
      Dial(TargetOf(targets, started[i].node), Stop(started[i].container)))
  }

  /** The stops of those that have a target; one without is passed over. */
  function StopsFound(started: seq<RankStarted>, targets: seq<Target>): seq<Request> {
    if started == [] then []
    else
      var last := started[|started| - 1];
      StopsFound(started[..|started| - 1], targets)
      + if Known(last.node, targets) then [Dial(TargetOf(targets, last.node), Stop(last.container))] else []
  }

  lemma StopsMore(started: seq<RankStarted>, last: RankStarted, targets: seq<Target>)
    requires Covered(started, targets) && Known(last.node, targets)
    ensures Covered(started + [last], targets)
    ensures Stops(started + [last], targets)
         == Stops(started, targets) + [Dial(TargetOf(targets, last.node), Stop(last.container))]
  {
  }

  lemma {:induction false} CoveredAreFound(started: seq<RankStarted>, targets: seq<Target>)
    requires Covered(started, targets)
    ensures StopsFound(started, targets) == Stops(started, targets)
  {
    if started != [] {
      var init, last := started[..|started| - 1], started[|started| - 1];
      assert Covered(init, targets) && Known(last.node, targets);
      CoveredAreFound(init, targets);
      StopsMore(init, last, targets);
      assert started == init + [last];
    }
  }

  /** The roll call over a record, in the record's order. */
  function RollCall(started: seq<RankStarted>, targets: seq<Target>): seq<Request>
    requires Covered(started, targets)
  {
    seq(|started|, i requires 0 <= i < |started| =>
      Dial(TargetOf(targets, started[i].node), Alive(started[i].container)))
  }

  // ---------------------------------------------------------------- what is answered

  predicate SaidYes(r: Reply) {
    r.Prepared?
  }

  predicate NotStopped(r: Reply) {
    !r.Stopped?
  }

  predicate NotLiving(r: Reply) {
    r != Living(true)
  }

  /** The items whose answers satisfy `keep`, in order. */
  function Pick<T>(items: seq<T>, said: seq<Exchange>, keep: Reply -> bool): seq<T>
    requires |items| <= |said|
  {
    if items == [] then []
    else
      var n := |items| - 1;
      Pick(items[..n], said, keep) + if keep(said[n].reply) then [items[n]] else []
  }

  function ContainerOf(r: Reply): string {
    if r.Started? then r.container else ""
  }

  /** The record of the first `k` targets, of which rank 0 alone has an endpoint. */
  function Launched(p: Pending, said: seq<Exchange>, k: nat): seq<RankStarted>
    requires k <= |p.targets| && k <= |said|
  {
    seq(k, i requires 0 <= i < k =>
      var a := p.targets[i].assignment;
      RankStarted(a.node, p.targets[i].name, a.rank, ContainerOf(said[i].reply),
                  if a.rank == 0 then Some((a.masterAddr, p.port)) else None))
  }

  /** Request `i` of the list, asked in its turn, is answered with a started container. */
  predicate StartsAt(script: Script, net: Net, reqs: seq<Request>, i: nat)
    requires i < |reqs|
  {
    ReplyTo(AskAll(script, net, reqs[..i]).world, reqs[i], script(|net.log| + i)).Started?
  }

  /** How many leading requests are answered with a started container, from `i` on. */
  function StartsFrom(script: Script, net: Net, reqs: seq<Request>, i: nat): (k: nat)
    requires i <= |reqs|
    ensures i <= k <= |reqs|
    decreases |reqs| - i
  {
    if i == |reqs| || !StartsAt(script, net, reqs, i) then i else StartsFrom(script, net, reqs, i + 1)
  }

  // ---------------------------------------------------------------- the slots

  ghost predicate DistinctStarted(started: seq<RankStarted>) {
    forall i, j | 0 <= i < j < |started| :: started[i].node != started[j].node
  }

  ghost predicate RunningValid(r: Running) {
    && DistinctTargets(r.targets)
    && r.started != []
    && Covered(r.started, r.targets)
    && DistinctStarted(r.started)
  }

  ghost predicate Valid(d: Driver) {
    && (d.pending.Some? ==> d.pending.value.targets != [] && DistinctTargets(d.pending.value.targets))
    && (d.running.Some? ==> RunningValid(d.running.value))
  }

  datatype RankPrepare = RankPrepare(node: NodeId, name: string, rank: nat, prepared: bool)

  datatype PrepareAnswer =
    | AlreadyRunning(names: seq<string>)
    | Unresolved(why: ResolveError)
    | Answered(epoch: Epoch, answers: seq<RankPrepare>, mayCommit: bool)

  datatype CommitAnswer =
    | NoPrepare
    | OtherEpoch(held: Epoch)
    | CouldNotStart(name: string)
    | Died(names: seq<string>)
    | Committed(started: seq<RankStarted>)

  datatype StopAnswer = NotStarted | CouldNotStop(names: seq<string>) | AllStopped(started: seq<RankStarted>)

  function StartedNames(started: seq<RankStarted>): seq<string> {
    seq(|started|, i requires 0 <= i < |started| => started[i].name)
  }

  function TargetNames(targets: seq<Target>): seq<string> {
    seq(|targets|, i requires 0 <= i < |targets| => targets[i].name)
  }

  function Answers(targets: seq<Target>, said: seq<Exchange>): seq<RankPrepare>
    requires |targets| <= |said|
  {
    seq(|targets|, i requires 0 <= i < |targets| =>
      RankPrepare(targets[i].assignment.node, targets[i].name, targets[i].assignment.rank, SaidYes(said[i].reply)))
  }

  // ---------------------------------------------------------------- the ceremonies

  function Reserve(script: Script, d: Driver, p: Pending): (Driver, PrepareAnswer)
  {
    var asked := AskAll(script, d.net, Reservations(p.targets, p.epoch));
    AskAllSays(script, d.net, Reservations(p.targets, p.epoch));
    var said := Said(d.net, asked);
    var accepted := Pick(p.targets, said, SaidYes);
    if |accepted| == |p.targets| then
      (d.(pending := Some(p), net := asked), Answered(p.epoch, Answers(p.targets, said), true))
    else
      (d.(net := AskAll(script, asked, Aborts(accepted, p.epoch))), Answered(p.epoch, Answers(p.targets, said), false))
  }

  function PrepareStep(script: Script, d: Driver, site: Site, sel: Selection, e: Epoch): (Driver, PrepareAnswer) {
    if d.running.Some? then (d, AlreadyRunning(StartedNames(d.running.value.started)))
    else
      var resolved := ResolveOf(site, sel, e);
      if resolved.Err? then (d, Unresolved(resolved.error)) else Reserve(script, d, resolved.value)
  }

  /** A rank past the first `k` refused to start: stop those, release the rest. */
  function UndoFrom(script: Script, running: Option<Running>, asked: Net, p: Pending, started: seq<RankStarted>, k: nat): Driver
    requires k < |p.targets| && Covered(started, p.targets[..k])
  {
    var stopped := AskAll(script, asked, Stops(started, p.targets[..k]));
    Driver(None, running, AskAll(script, stopped, Aborts(p.targets[k..], p.epoch)))
  }

  function Undo(script: Script, d: Driver, p: Pending, k: nat): Driver
    requires k < |p.targets|
  {
    var reqs := Commits(p.targets, p.epoch)[..k + 1];
    var asked := AskAll(script, d.net, reqs);
    AskAllSays(script, d.net, reqs);
    LaunchedCovered(p, Said(d.net, asked), k);
    UndoFrom(script, d.running, asked, p, Launched(p, Said(d.net, asked), k), k)
  }

  /** Every rank started: believe it only if every one is still there after settling. */
  function SettleFrom(script: Script, running: Option<Running>, asked: Net, p: Pending, started: seq<RankStarted>)
    : (Driver, CommitAnswer)
    requires |started| == |p.targets| && Covered(started, p.targets)
  {
    var checked := AskAll(script, asked, RollCall(started, p.targets));
    AskAllSays(script, asked, RollCall(started, p.targets));
    var dead := Pick(TargetNames(p.targets), Said(asked, checked), NotLiving);
    if dead == [] then
      (Driver(None, Some(Running(p.targets, started)), checked), Committed(started))
    else
      (Driver(None, running, AskAll(script, checked, Stops(started, p.targets))), Died(dead))
  }

  function Settle(script: Script, d: Driver, p: Pending): (Driver, CommitAnswer) {
    var reqs := Commits(p.targets, p.epoch);
    var asked := AskAll(script, d.net, reqs);
    AskAllSays(script, d.net, reqs);
    LaunchedCovered(p, Said(d.net, asked), |p.targets|);
    assert p.targets[..|p.targets|] == p.targets;
    SettleFrom(script, d.running, asked, p, Launched(p, Said(d.net, asked), |p.targets|))
  }

  function CommitStep(script: Script, d: Driver, e: Epoch): (Driver, CommitAnswer) {
    if d.pending.None? then (d, NoPrepare)
    else if d.pending.value.epoch != e then (d, OtherEpoch(d.pending.value.epoch))
    else
      var p := d.pending.value;
      var k := StartsFrom(script, d.net, Commits(p.targets, e), 0);
      if k < |p.targets| then (Undo(script, d, p, k), CouldNotStart(p.targets[k].name))
      else Settle(script, d, p)
  }

  function AbortStep(script: Script, d: Driver, e: Epoch): Driver {
    if d.pending.Some? && d.pending.value.epoch == e then
      d.(pending := None, net := AskAll(script, d.net, Aborts(d.pending.value.targets, e)))
    else d
  }

  function StopStep(script: Script, d: Driver): (Driver, StopAnswer)
    requires Valid(d)
  {
    if d.running.None? then (d, NotStarted)
    else
      var r := d.running.value;
      var asked := AskAll(script, d.net, Stops(r.started, r.targets));
      AskAllSays(script, d.net, Stops(r.started, r.targets));
      var left := Pick(r.started, Said(d.net, asked), NotStopped);
      if left == [] then (d.(running := None, net := asked), AllStopped(r.started))
      else (d.(running := Some(r.(started := left)), net := asked), CouldNotStop(StartedNames(left)))
  }

  /** The nodes found dead, or nothing when the record is empty or everyone answers. */
  function SuperviseStep(script: Script, d: Driver): (Driver, Option<seq<NodeId>>)
    requires Valid(d)
  {
    if d.running.None? then (d, None)
    else
      var r := d.running.value;
      var asked := AskAll(script, d.net, RollCall(r.started, r.targets));
      AskAllSays(script, d.net, RollCall(r.started, r.targets));
      var dead := Pick(StartedNodes(r.started), Said(d.net, asked), NotLiving);
      if dead == [] then (d.(net := asked), None)
      else (StopStep(script, d.(net := asked)).0.(running := None), Some(dead))
  }

  function StartedNodes(started: seq<RankStarted>): seq<NodeId> {
    seq(|started|, i requires 0 <= i < |started| => started[i].node)
  }

  lemma LaunchedCovered(p: Pending, said: seq<Exchange>, k: nat)
    requires k <= |p.targets| && k <= |said|
    ensures Covered(Launched(p, said, k), p.targets[..k])
  {
    forall i | 0 <= i < k
      ensures Known(Launched(p, said, k)[i].node, p.targets[..k])
    {
      assert p.targets[..k][i].assignment.node == Launched(p, said, k)[i].node;
    }
  }

  // ---------------------------------------------------------------- the slots stay well formed

  lemma PrepareKeepsValid(script: Script, d: Driver, site: Site, sel: Selection, e: Epoch)
    requires Valid(d)
    ensures Valid(PrepareStep(script, d, site, sel, e).0)
  {
    if d.running.None? && ResolveOf(site, sel, e).Ok? {
      ResolvedTargets(site, sel, e);
    }
  }

  lemma LaunchedValid(p: Pending, said: seq<Exchange>)
    requires p.targets != [] && DistinctTargets(p.targets) && |p.targets| <= |said|
    ensures RunningValid(Running(p.targets, Launched(p, said, |p.targets|)))
  {
    LaunchedCovered(p, said, |p.targets|);
    assert p.targets[..|p.targets|] == p.targets;
  }

  lemma CommitKeepsValid(script: Script, d: Driver, e: Epoch)
    requires Valid(d)
    ensures Valid(CommitStep(script, d, e).0)
  {
    if d.pending.Some? && d.pending.value.epoch == e {
      var p := d.pending.value;
      AskAllSays(script, d.net, Commits(p.targets, e));
      LaunchedValid(p, Said(d.net, AskAll(script, d.net, Commits(p.targets, e))));
    }
  }

  lemma {:induction false} PickMembers<T>(items: seq<T>, said: seq<Exchange>, keep: Reply -> bool)
    requires |items| <= |said|
    ensures forall x | x in Pick(items, said, keep) :: exists k | 0 <= k < |items| :: items[k] == x && keep(said[k].reply)
    ensures forall k | 0 <= k < |items| && keep(said[k].reply) :: items[k] in Pick(items, said, keep)
  {
    if items != [] {
      PickMembers(items[..|items| - 1], said, keep);
    }
  }

  lemma {:induction false} PickDistinct(items: seq<RankStarted>, said: seq<Exchange>, keep: Reply -> bool)
    requires |items| <= |said| && DistinctStarted(items)
    ensures DistinctStarted(Pick(items, said, keep))
  {
    if items != [] {
      var init := items[..|items| - 1];
      PickDistinct(init, said, keep);
      PickMembers(init, said, keep);
      var kept := Pick(init, said, keep);
      forall i | 0 <= i < |kept|
        ensures kept[i].node != items[|items| - 1].node
      {
        assert kept[i] in kept;
      }
    }
  }

  lemma StopKeepsValid(script: Script, d: Driver)
    requires Valid(d)
    ensures Valid(StopStep(script, d).0)
  {
    if d.running.Some? {
      var r := d.running.value;
      AskAllSays(script, d.net, Stops(r.started, r.targets));
      var said := Said(d.net, AskAll(script, d.net, Stops(r.started, r.targets)));
      PickDistinct(r.started, said, NotStopped);
      PickMembers(r.started, said, NotStopped);
      var left := Pick(r.started, said, NotStopped);
      assert forall i | 0 <= i < |left| :: left[i] in left;
    }
  }
}
