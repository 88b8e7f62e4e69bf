/** What the ranks are sent and the operator is told, request by request and field by field. */
module ClusterWords {
  import opened Wrappers
  import opened Fleet
  import opened Planner
  import opened Resolve
  import opened RankNet
  import opened Ceremonies
  import opened ClusterSafety
  import opened ClusterRuns

  // ---------------------------------------------------------------- preparing

  /** One request of a target's node, at the address to dial it by. */
  predicate To(x: Exchange, t: Target, verb: Verb) {
    x.request == Request(t.assignment.node, t.addr, verb)
  }

  /** Every target asked, in order, to reserve its own assignment under the epoch. */
  ghost predicate Reserving(p: Pending, asked: seq<Exchange>) {
    && |asked| == |p.targets|
    && forall i | 0 <= i < |asked| :: To(asked[i], p.targets[i], Prepare(p.epoch, p.targets[i].assignment))
  }

  ghost predicate AllAgreed(asked: seq<Exchange>) {
    forall i | 0 <= i < |asked| :: asked[i].reply == Prepared
  }

  /** Target `i` agreed, and this releases it. */
  ghost predicate Releases(p: Pending, asked: seq<Exchange>, x: Exchange, i: nat) {
    i < |asked| == |p.targets| && asked[i].reply == Prepared && To(x, p.targets[i], Abort(p.epoch))
  }

  /** Those that agreed are released, and nobody else. */
  ghost predicate Releasing(p: Pending, asked: seq<Exchange>, aborted: seq<Exchange>) {
    && (forall x | x in aborted :: exists i :: Releases(p, asked, x, i))
    && (forall i | 0 <= i < |asked| && asked[i].reply == Prepared :: exists x :: x in aborted && Releases(p, asked, x, i))
  }

  /** What the operator is told of each rank. */
  ghost predicate Told(p: Pending, asked: seq<Exchange>, answers: seq<RankPrepare>) {
    && |answers| == |asked| == |p.targets|
    && forall i | 0 <= i < |asked| ::
         var a := p.targets[i].assignment;
         answers[i] == RankPrepare(a.node, p.targets[i].name, a.rank, asked[i].reply == Prepared)
  }

  lemma AcceptorsAborted(p: Pending, asked: seq<Exchange>, aborted: seq<Exchange>)
    requires |asked| == |p.targets| && Asked(aborted, Aborts(Pick(p.targets, asked, SaidYes), p.epoch))
    ensures Releasing(p, asked, aborted)
  {
    var accepted := Pick(p.targets, asked, SaidYes);
    PickMembers(p.targets, asked, SaidYes);
    forall x | x in aborted
      ensures exists i :: Releases(p, asked, x, i)
    {
      var k :| 0 <= k < |aborted| && aborted[k] == x;
      assert accepted[k] in accepted;
      var i :| 0 <= i < |p.targets| && p.targets[i] == accepted[k] && SaidYes(asked[i].reply);
      assert Releases(p, asked, x, i);
    }
    forall i | 0 <= i < |asked| && asked[i].reply == Prepared
      ensures exists x :: x in aborted && Releases(p, asked, x, i)
    {
      assert p.targets[i] in accepted;
      var k :| 0 <= k < |accepted| && accepted[k] == p.targets[i];
      assert aborted[k] in aborted && Releases(p, asked, aborted[k], i);
    }
  }

  lemma AgreedIsPicked(p: Pending, asked: seq<Exchange>)
    requires |asked| == |p.targets|
    ensures Pick(p.targets, asked, SaidYes) == p.targets <==> AllAgreed(asked)
  {
    AllPicked(p.targets, asked);
  }

  lemma {:induction false} AllPicked(items: seq<Target>, asked: seq<Exchange>)
    requires |items| <= |asked|
    ensures |Pick(items, asked, SaidYes)| <= |items|
    ensures Pick(items, asked, SaidYes) == items <==> forall i | 0 <= i < |items| :: asked[i].reply == Prepared
  {
    if items != [] {
      var n := |items| - 1;
      AllPicked(items[..n], asked);
      assert items == items[..n] + [items[n]];
    }
  }

  lemma ReservationsInFull(p: Pending, asked: seq<Exchange>)
    requires Asked(asked, Reservations(p.targets, p.epoch))
    ensures Reserving(p, asked) && Told(p, asked, Answers(p.targets, asked))
  {
  }

  lemma ReserveInFull(script: Script, d: Driver, p: Pending, after: Driver, a: PrepareAnswer)
    returns (asked: seq<Exchange>, aborted: seq<Exchange>)
    requires DistinctTargets(p.targets) && (after, a) == Reserve(script, d, p)
    ensures after.net.log == d.net.log + (asked + aborted)
    ensures Reserving(p, asked) && a.Answered? && a.epoch == p.epoch && Told(p, asked, a.answers)
    ensures (a.mayCommit <==> AllAgreed(asked)) && after.running == d.running
    ensures if a.mayCommit then aborted == [] && after.pending == Some(p)
            else Releasing(p, asked, aborted) && after.pending == d.pending
  {
    asked, aborted := ReserveSays(script, d, p);
    ReservationsInFull(p, asked);
    AgreedIsPicked(p, asked);
    if !a.mayCommit {
      AcceptorsAborted(p, asked, aborted);
    }
  }

  /** A prepare asks every target, at its own node and address, to reserve its own assignment
      under this epoch, which ranks it by its place; tells the operator of each what it
      answered; may go on exactly when all agreed; and when not, releases those that agreed
      and nobody else. */
  lemma PrepareInFull(script: Script, d: Driver, site: Site, sel: Selection, e: Epoch, p: Pending, after: Driver,
                      a: PrepareAnswer)
    returns (asked: seq<Exchange>, aborted: seq<Exchange>)
    requires d.running.None? && ResolveOf(site, sel, e) == Ok(p)
    requires (after, a) == PrepareStep(script, d, site, sel, e)
    ensures after.net.log == d.net.log + (asked + aborted)
    ensures p.epoch == e && |p.targets| == |sel.nodes| && DistinctTargets(p.targets)
    ensures forall i | 0 <= i < |p.targets| :: p.targets[i].assignment.rank == if i <= 65535 then i else 65535
    ensures Reserving(p, asked) && a.Answered? && a.epoch == e && Told(p, asked, a.answers)
    ensures (a.mayCommit <==> AllAgreed(asked)) && after.running == d.running
    ensures if a.mayCommit then aborted == [] && after.pending == Some(p)
            else Releasing(p, asked, aborted) && after.pending == d.pending
  {
    ResolvedTargets(site, sel, e);
    asked, aborted := ReserveInFull(script, d, p, after, a);
  }

  /** A prepare while a model runs, or of machines that do not resolve, contacts nobody and
      changes nothing: it names the ranks that run, in their order, or says what is wrong. */
  lemma RefusedBeforeAsking(script: Script, d: Driver, site: Site, sel: Selection, e: Epoch,
                            resolved: Result<Pending, ResolveError>, after: Driver, a: PrepareAnswer)
    requires resolved == ResolveOf(site, sel, e) && (d.running.Some? || resolved.Err?)
    requires (after, a) == PrepareStep(script, d, site, sel, e)
    ensures after == d
    ensures d.running.Some? ==>
      && a.AlreadyRunning? && |a.names| == |d.running.value.started|
      && forall i | 0 <= i < |a.names| :: a.names[i] == d.running.value.started[i].name
    ensures d.running.None? ==> a == Unresolved(resolved.error)
  {
  }

  // ---------------------------------------------------------------- committing

  /** Target `i` was sent the commit, later asked about the container it had answered with and
      found alive, and that is what is recorded of it. */
  ghost predicate WholeAt(p: Pending, said: seq<Exchange>, started: seq<RankStarted>, i: nat) {
    var n := |p.targets|;
    && |said| == 2 * n && |started| == n && i < n
    && var a, c := p.targets[i].assignment, started[i].container;
       && To(said[i], p.targets[i], Commit(p.epoch)) && said[i].reply == Started(c)
       && To(said[n + i], p.targets[i], Alive(c)) && said[n + i].reply == Living(true)
       && started[i] == RankStarted(a.node, p.targets[i].name, a.rank, c,
                                    if a.rank == 0 then Some((a.masterAddr, p.port)) else None)
  }

  lemma WholeInFull(p: Pending, said: seq<Exchange>, started: seq<RankStarted>)
    requires Whole(p, said, started)
    ensures |said| == 2 * |p.targets| && |started| == |p.targets|
    ensures forall i: nat | i < |p.targets| :: WholeAt(p, said, started, i)
  {
    var n := |p.targets|;
    forall i: nat | i < n
      ensures WholeAt(p, said, started, i)
    {
      assert said[..n][i] == said[i] && said[n..][i] == said[n + i];
      assert said[n..][i] in said[n..];
    }
  }

  /** What a commit that failed at target `k` said to target `j` last: a stop of the container
      it had answered with if it is an earlier one, a release of this epoch if it is not. */
  ghost predicate UndoneAt(p: Pending, said: seq<Exchange>, k: nat, j: nat) {
    && k < |p.targets| && |said| == k + 1 + |p.targets| && j < |p.targets|
    && (j <= k ==> To(said[j], p.targets[j], Commit(p.epoch)) && (said[j].reply.Started? <==> j < k))
    && if j < k then said[j].reply.Started? && To(said[k + 1 + j], p.targets[j], Stop(said[j].reply.container))
       else To(said[k + 1 + j], p.targets[j], Abort(p.epoch))
  }

  lemma UndoneInFull(p: Pending, said: seq<Exchange>, k: nat)
    requires Undone(p, said, k)
    ensures k < |p.targets| && |said| == k + 1 + |p.targets|
    ensures forall j: nat | j < |p.targets| :: UndoneAt(p, said, k, j)
  {
    forall j: nat | j < |p.targets|
      ensures UndoneAt(p, said, k, j)
    {
      assert j <= k ==> said[..k + 1][j] == said[j];
      assert j < k ==> said[..k][j] in said[..k];
      assert said[k + 1..][j] == said[k + 1 + j];
    }
  }

  /** Target `i` was committed, asked about its container, and told to stop it. */
  ghost predicate TornDownAt(p: Pending, said: seq<Exchange>, i: nat) {
    var n := |p.targets|;
    && |said| == 3 * n && i < n
    && To(said[i], p.targets[i], Commit(p.epoch)) && said[i].reply.Started?
    && To(said[n + i], p.targets[i], Alive(said[i].reply.container))
    && To(said[2 * n + i], p.targets[i], Stop(said[i].reply.container))
  }

  /** Target `i`, of that name, was not found alive after settling. */
  ghost predicate MissingAt(p: Pending, said: seq<Exchange>, i: nat, name: string) {
    var n := |p.targets|;
    i < n && n + i < |said| && said[n + i].reply != Living(true) && p.targets[i].name == name
  }

  lemma TornDownInFull(p: Pending, said: seq<Exchange>)
    requires TornDown(p, said)
    ensures |said| == 3 * |p.targets|
    ensures forall i: nat | i < |p.targets| :: TornDownAt(p, said, i)
    ensures Missing(p, said) != [] && forall name :: name in Missing(p, said) <==> exists i :: MissingAt(p, said, i, name)
  {
    var n := |p.targets|;
    forall i: nat | i < n
      ensures TornDownAt(p, said, i)
    {
      assert said[..n][i] == said[i] && said[n..2 * n][i] == said[n + i] && said[2 * n..][i] == said[2 * n + i];
      assert said[..n][i] in said[..n];
    }
    MissingNames(p, said, said[n..2 * n], Missing(p, said));
  }

  lemma MissingNames(p: Pending, said: seq<Exchange>, checked: seq<Exchange>, missing: seq<string>)
    requires |said| == 3 * |p.targets| && checked == said[|p.targets|..2 * |p.targets|]
    requires missing == Pick(TargetNames(p.targets), checked, NotLiving)
    requires exists x | x in checked :: x.reply != Living(true)
    ensures missing != [] && forall name :: name in missing <==> exists i :: MissingAt(p, said, i, name)
  {
    PickMembers(TargetNames(p.targets), checked, NotLiving);
    forall name | name in missing
      ensures exists i :: MissingAt(p, said, i, name)
    {
      var i :| 0 <= i < |p.targets| && TargetNames(p.targets)[i] == name && NotLiving(checked[i].reply);
      assert MissingAt(p, said, i, name);
    }
    forall i: nat, name | MissingAt(p, said, i, name)
      ensures name in missing
    {
      assert checked[i] == said[|p.targets| + i] && TargetNames(p.targets)[i] == name;
    }
    var x :| x in checked && x.reply != Living(true);
    var i :| 0 <= i < |checked| && checked[i] == x;
    assert TargetNames(p.targets)[i] in missing;
  }

  /** And that is all a commit of the held prepare can come to. */
  lemma CommitInFull(script: Script, d: Driver, e: Epoch, said: seq<Exchange>, a: CommitAnswer)
    requires Valid(d) && d.pending.Some? && d.pending.value.epoch == e
    requires a == CommitStep(script, d, e).1 && said == Said(d.net, CommitStep(script, d, e).0.net)
    ensures var p := d.pending.value;
      match a
      case Committed(started) => Whole(p, said, started)
      case CouldNotStart(name) => exists k | 0 <= k < |p.targets| :: Undone(p, said, k) && name == p.targets[k].name
      case Died(names) => TornDown(p, said) && names == Missing(p, said)
      case _ => false
  {
    WholeOrUndone(script, d, e);
  }

  // ---------------------------------------------------------------- afterwards

  /** An abort of the held epoch releases every target, in order. */
  lemma AbortInFull(script: Script, d: Driver, e: Epoch, p: Pending) returns (said: seq<Exchange>)
    requires d.pending == Some(p) && p.epoch == e
    ensures AbortStep(script, d, e).net.log == d.net.log + said && |said| == |p.targets|
    ensures forall i | 0 <= i < |said| :: To(said[i], p.targets[i], Abort(e))
    ensures AbortStep(script, d, e).pending.None? && AbortStep(script, d, e).running == d.running
  {
    said := Spoken(script, d.net, Aborts(p.targets, e));
  }

  /** Recorded rank `i` asked that, through the target of its node. */
  ghost predicate AskedRank(r: Running, said: seq<Exchange>, i: nat, verb: Verb) {
    && i < |r.started| && i < |said|
    && exists t | t in r.targets :: t.assignment.node == r.started[i].node && To(said[i], t, verb)
  }

  /** Recorded rank `i` is `s`, and did not answer that it had stopped. */
  ghost predicate FailedToStop(r: Running, said: seq<Exchange>, i: nat, s: RankStarted) {
    i < |r.started| && i < |said| && r.started[i] == s && said[i].reply != Stopped
  }

  lemma LeftFailed(r: Running, said: seq<Exchange>, left: seq<RankStarted>)
    requires |said| == |r.started| && left == Pick(r.started, said, NotStopped)
    ensures forall s :: s in left <==> exists i :: FailedToStop(r, said, i, s)
  {
    PickMembers(r.started, said, NotStopped);
    forall s | s in left
      ensures exists i :: FailedToStop(r, said, i, s)
    {
      var i :| 0 <= i < |r.started| && r.started[i] == s && NotStopped(said[i].reply);
      assert FailedToStop(r, said, i, s);
    }
  }

  lemma StopsInFull(r: Running, said: seq<Exchange>)
    requires RunningValid(r) && Asked(said, Stops(r.started, r.targets))
    ensures forall i: nat | i < |said| :: AskedRank(r, said, i, Stop(r.started[i].container))
  {
    forall i: nat | i < |said|
      ensures AskedRank(r, said, i, Stop(r.started[i].container))
    {
      var t := TargetOf(r.targets, r.started[i].node);
      assert said[i].request == Dial(t, Stop(r.started[i].container));
      assert To(said[i], t, Stop(r.started[i].container));
    }
  }

  lemma RollCallInFull(r: Running, said: seq<Exchange>)
    requires RunningValid(r) && Asked(said, RollCall(r.started, r.targets))
    ensures forall i: nat | i < |said| :: AskedRank(r, said, i, Alive(r.started[i].container))
  {
    forall i: nat | i < |said|
      ensures AskedRank(r, said, i, Alive(r.started[i].container))
    {
      var t := TargetOf(r.targets, r.started[i].node);
      assert said[i].request == Dial(t, Alive(r.started[i].container));
      assert To(said[i], t, Alive(r.started[i].container));
    }
  }

  /** A stop asks every recorded rank to stop its own container, keeps exactly those that did
      not answer that they had, and tells the operator their names, or of all of them when
      there are none. */
  lemma StopInFull(script: Script, d: Driver, r: Running, after: Driver, a: StopAnswer) returns (said: seq<Exchange>)
    requires Valid(d) && d.running == Some(r) && (after, a) == StopStep(script, d)
    ensures after.net.log == d.net.log + said && |said| == |r.started| && after.pending == d.pending
    ensures forall i: nat | i < |said| :: AskedRank(r, said, i, Stop(r.started[i].container))
    ensures after.running.None? ==> a == AllStopped(r.started) && forall s, i :: !FailedToStop(r, said, i, s)
    ensures after.running.Some? ==>
      var left := after.running.value;
      && left.targets == r.targets && (forall s :: s in left.started <==> exists i :: FailedToStop(r, said, i, s))
      && a.CouldNotStop? && |a.names| == |left.started| > 0
      && forall i | 0 <= i < |a.names| :: a.names[i] == left.started[i].name
  {
    said := StopSays(script, d);
    StopsInFull(r, said);
    var left := Pick(r.started, said, NotStopped);
    LeftFailed(r, said, left);
    StopAnswered(script, d, r, after, a, said, left);
    if after.running.None? {
      forall s, i: nat
        ensures !FailedToStop(r, said, i, s)
      {
        assert s !in left;
      }
    }
  }

  lemma StopAnswered(script: Script, d: Driver, r: Running, after: Driver, a: StopAnswer, said: seq<Exchange>,
                     left: seq<RankStarted>)
    requires Valid(d) && d.running == Some(r) && (after, a) == StopStep(script, d)
    requires after.net.log == d.net.log + said && |said| == |r.started| && left == Pick(r.started, said, NotStopped)
    ensures if left == [] then after.running.None? && a == AllStopped(r.started)
            else after.running == Some(r.(started := left)) && a == CouldNotStop(StartedNames(left))
  {
    AskAllSays(script, d.net, Stops(r.started, r.targets));
    assert Said(d.net, after.net) == said;
  }

  /** Supervision asks every recorded rank about its own container; it names exactly the
      machines that did not answer alive, and says nothing when there are none. */
  lemma SuperviseInFull(script: Script, d: Driver, r: Running, torn: Option<seq<NodeId>>) returns (asked: seq<Exchange>)
    requires Valid(d) && d.running == Some(r) && torn == SuperviseStep(script, d).1
    ensures d.net.log + asked <= SuperviseStep(script, d).0.net.log && |asked| == |r.started|
    ensures forall i: nat | i < |asked| :: AskedRank(r, asked, i, Alive(r.started[i].container))
    ensures torn.None? <==> forall i | 0 <= i < |asked| :: asked[i].reply == Living(true)
    ensures torn.Some? ==> forall n :: n in torn.value <==> exists i :: NotAlive(r, asked, i, n)
  {
    asked := Spoken(script, d.net, RollCall(r.started, r.targets));
    RollCallInFull(r, asked);
    NotAliveNodes(r, asked, Pick(StartedNodes(r.started), asked, NotLiving));
    NoneMissing(r, asked);
    var mid := d.(net := AskAll(script, d.net, RollCall(r.started, r.targets)));
    if torn.Some? {
      var said := StopSays(script, mid);
    }
  }

  /** Recorded rank `i` is on that machine and did not answer that it lives. */
  ghost predicate NotAlive(r: Running, asked: seq<Exchange>, i: nat, n: NodeId) {
    i < |r.started| && i < |asked| && r.started[i].node == n && asked[i].reply != Living(true)
  }

  lemma NotAliveNodes(r: Running, asked: seq<Exchange>, dead: seq<NodeId>)
    requires |asked| == |r.started| && dead == Pick(StartedNodes(r.started), asked, NotLiving)
    ensures forall n :: n in dead <==> exists i :: NotAlive(r, asked, i, n)
  {
    PickMembers(StartedNodes(r.started), asked, NotLiving);
    forall i: nat, n | NotAlive(r, asked, i, n)
      ensures n in dead
    {
      assert StartedNodes(r.started)[i] == n;
    }
    forall n | n in dead
      ensures exists i :: NotAlive(r, asked, i, n)
    {
      var i := NotAliveNode(r, asked, dead, n);
    }
  }

  lemma NotAliveNode(r: Running, asked: seq<Exchange>, dead: seq<NodeId>, n: NodeId) returns (i: nat)
    requires |asked| == |r.started| && dead == Pick(StartedNodes(r.started), asked, NotLiving) && n in dead
    ensures NotAlive(r, asked, i, n)
  {
    PickMembers(StartedNodes(r.started), asked, NotLiving);
    i :| 0 <= i < |r.started| && StartedNodes(r.started)[i] == n && NotLiving(asked[i].reply);
  }

  lemma NoneMissing(r: Running, asked: seq<Exchange>)
    requires |asked| == |r.started|
    ensures Pick(StartedNodes(r.started), asked, NotLiving) == [] <==>
            forall i | 0 <= i < |asked| :: asked[i].reply == Living(true)
  {
    PickEmpty(StartedNodes(r.started), asked, NotLiving);
  }
}
