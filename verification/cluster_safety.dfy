/** No half cluster: what a commit says to the ranks in every case, and
    what is left on the machines when it fails. */
module ClusterSafety {
  import opened Wrappers
  import opened Resolve
  import opened RankNet
  import opened Ceremonies

  lemma TargetOfItsNode(targets: seq<Target>, j: nat)
    requires j < |targets| && DistinctTargets(targets)
    ensures Known(targets[j].assignment.node, targets)
    ensures TargetOf(targets, targets[j].assignment.node) == targets[j]
  {
    var t := TargetOf(targets, targets[j].assignment.node);
    var i :| 0 <= i < |targets| && targets[i] == t;
    assert i == j;
  }

  lemma {:induction false} StartsFromMeaning(script: Script, net: Net, reqs: seq<Request>, i: nat)
    requires i <= |reqs|
    ensures var k := StartsFrom(script, net, reqs, i);
      && (forall j | i <= j < k :: StartsAt(script, net, reqs, j))
      && (k < |reqs| ==> !StartsAt(script, net, reqs, k))
    decreases |reqs| - i
  {
    if i < |reqs| && StartsAt(script, net, reqs, i) {
      StartsFromMeaning(script, net, reqs, i + 1);
    }
  }

  /** `StartsAt` is about the answer that is actually received in that turn. */
  lemma StartsIsReply(script: Script, net: Net, reqs: seq<Request>, i: nat)
    requires i < |reqs|
    ensures |Said(net, AskAll(script, net, reqs))| == |reqs|
    ensures StartsAt(script, net, reqs, i) <==> Said(net, AskAll(script, net, reqs))[i].reply.Started?
  {
    AskAllSays(script, net, reqs);
    TurnOf(script, net, reqs, i);
  }

  // ---------------------------------------------------------------- the transcript of a failed commit

  /** What undoes target `j` after target `k` refused: a stop if it started, else a release. */
  function Compensation(p: Pending, said: seq<Exchange>, k: nat, j: nat): Request
    requires k <= |said| && j < |p.targets|
  {
    if j < k then Dial(p.targets[j], Stop(ContainerOf(said[j].reply))) else Dial(p.targets[j], Abort(p.epoch))
  }

  function Compensations(p: Pending, said: seq<Exchange>, k: nat): seq<Request>
    requires k <= |said|
  {
    seq(|p.targets|, j requires 0 <= j < |p.targets| => Compensation(p, said, k, j))
  }

  function CommitsSaid(script: Script, net: Net, p: Pending, k: nat): (said: seq<Exchange>)
    requires k <= |p.targets|
    ensures Asked(said, Commits(p.targets, p.epoch)[..k])
  {
    AskAllSays(script, net, Commits(p.targets, p.epoch)[..k]);
    Said(net, AskAll(script, net, Commits(p.targets, p.epoch)[..k]))
  }

  function UndoList(script: Script, net: Net, p: Pending, k: nat): seq<Request>
    requires k < |p.targets|
  {
    Commits(p.targets, p.epoch)[..k + 1] + Compensations(p, CommitsSaid(script, net, p, k + 1), k)
  }

  lemma UndoTranscript(script: Script, d: Driver, p: Pending, k: nat)
    requires k < |p.targets| && DistinctTargets(p.targets)
    ensures Undo(script, d, p, k).net == AskAll(script, d.net, UndoList(script, d.net, p, k))
  {
    var commits := Commits(p.targets, p.epoch)[..k + 1];
    var asked := AskAll(script, d.net, commits);
    var said := CommitsSaid(script, d.net, p, k + 1);
    var started := Launched(p, said, k);
    LaunchedCovered(p, said, k);
    var stops := Stops(started, p.targets[..k]);
    var aborts := Aborts(p.targets[k..], p.epoch);
    forall j | 0 <= j < k
      ensures stops[j] == Compensation(p, said, k, j)
    {
      TargetOfItsNode(p.targets[..k], j);
    }
    assert stops + aborts == Compensations(p, said, k);
    AskAllConcat(script, asked, stops, aborts);
    AskAllConcat(script, d.net, commits, stops + aborts);
  }

  function SettleList(script: Script, net: Net, p: Pending): seq<Request> {
    var said := CommitsSaid(script, net, p, |p.targets|);
    Commits(p.targets, p.epoch) + Checks(p, said)
  }

  /** The roll call over the targets, each asked about the container it reported. */
  function Checks(p: Pending, said: seq<Exchange>): seq<Request>
    requires |p.targets| <= |said|
  {
    seq(|p.targets|, j requires 0 <= j < |p.targets| => Dial(p.targets[j], Alive(ContainerOf(said[j].reply))))
  }

  function TearDownList(script: Script, net: Net, p: Pending): seq<Request> {
    SettleList(script, net, p) + Compensations(p, CommitsSaid(script, net, p, |p.targets|), |p.targets|)
  }

  // ---------------------------------------------------------------- whole or undone

  ghost predicate AllStarted(said: seq<Exchange>) {
    forall x | x in said :: x.reply.Started?
  }

  /** Every target committed once, asked once after settling, and found alive; recorded by
      its own name and rank with the container it reported, and rank 0 with where it serves:
      the master address of its assignment and the port of the prepare. */
  ghost predicate Whole(p: Pending, said: seq<Exchange>, started: seq<RankStarted>) {
    var n := |p.targets|;
    && |said| == 2 * n && |started| == n
    && Asked(said[..n], Commits(p.targets, p.epoch)) && AllStarted(said[..n])
    && Asked(said[n..], Checks(p, said)) && (forall x | x in said[n..] :: x.reply == Living(true))
    && forall i | 0 <= i < n ::
         var a := p.targets[i].assignment;
         && started[i].node == a.node && started[i].name == p.targets[i].name && started[i].rank == a.rank
         && said[i].reply == Started(started[i].container)
         && started[i].endpoint == if a.rank == 0 then Some((a.masterAddr, p.port)) else None
  }

  /** Targets before `k` started, `k` did not, and then every target is undone once. */
  ghost predicate Undone(p: Pending, said: seq<Exchange>, k: nat) {
    && k < |p.targets| && |said| == k + 1 + |p.targets|
    && Asked(said[..k + 1], Commits(p.targets, p.epoch)[..k + 1])
    && AllStarted(said[..k]) && !said[k].reply.Started?
    && Asked(said[k + 1..], Compensations(p, said, k))
  }

  /** Every target started, some did not survive settling, and then every one is stopped. */
  ghost predicate TornDown(p: Pending, said: seq<Exchange>) {
    var n := |p.targets|;
    && |said| == 3 * n
    && Asked(said[..n], Commits(p.targets, p.epoch)) && AllStarted(said[..n])
    && Asked(said[n..2 * n], Checks(p, said)) && (exists x | x in said[n..2 * n] :: x.reply != Living(true))
    && Asked(said[2 * n..], Compensations(p, said, n))
  }

  /** The names of those that the roll call after settling did not find alive, in order. */
  ghost function Missing(p: Pending, said: seq<Exchange>): seq<string>
    requires TornDown(p, said)
  {
    Pick(TargetNames(p.targets), said[|p.targets|..2 * |p.targets|], NotLiving)
  }

  /** The first replies of a longer conversation are those of the shorter one. */
  lemma SaidPrefix(script: Script, net: Net, reqs: seq<Request>, k: nat)
    requires k <= |reqs|
    ensures var long, short := Said(net, AskAll(script, net, reqs)), Said(net, AskAll(script, net, reqs[..k]));
      |short| == k && Asked(long, reqs) && long[..k] == short
  {
    AskAllSays(script, net, reqs);
    AskAllSays(script, net, reqs[..k]);
    AskAllPrefix(script, net, reqs, k);
  }

  lemma CommitReply(script: Script, net: Net, p: Pending, m: nat, i: nat)
    requires i < m <= |p.targets|
    ensures StartsAt(script, net, Commits(p.targets, p.epoch), i) <==> CommitsSaid(script, net, p, m)[i].reply.Started?
  {
    var commits := Commits(p.targets, p.epoch);
    StartsIsReply(script, net, commits[..m], i);
    assert commits[..m][..i] == commits[..i];
  }

  /** Of the commits asked, exactly those before the first refusal are answered started. */
  lemma CommitReplies(script: Script, net: Net, p: Pending, m: nat, k: nat, said: seq<Exchange>)
    requires k == StartsFrom(script, net, Commits(p.targets, p.epoch), 0)
    requires m == if k < |p.targets| then k + 1 else k
    requires m <= |p.targets| && said == CommitsSaid(script, net, p, m)
    ensures AllStarted(said[..k]) && (k < m ==> !said[k].reply.Started?)
  {
    StartsFromMeaning(script, net, Commits(p.targets, p.epoch), 0);
    forall i | 0 <= i < m
      ensures StartsAt(script, net, Commits(p.targets, p.epoch), i) <==> said[i].reply.Started?
    {
      CommitReply(script, net, p, m, i);
    }
  }

  lemma SameCompensations(p: Pending, long: seq<Exchange>, short: seq<Exchange>, k: nat)
    requires k <= |short| <= |long| && long[..|short|] == short
    ensures Compensations(p, long, k) == Compensations(p, short, k)
  {
    assert forall j | 0 <= j < k :: long[j] == long[..|short|][j];
  }

  /** The first `k + 1` exchanges are the commits, the rest the compensations. */
  lemma AssembleUndone(p: Pending, said: seq<Exchange>, asked: seq<Exchange>, k: nat)
    requires k < |p.targets| && Asked(asked, Commits(p.targets, p.epoch)[..k + 1])
    requires Asked(said, Commits(p.targets, p.epoch)[..k + 1] + Compensations(p, asked, k))
    requires said[..k + 1] == asked && AllStarted(asked[..k]) && !asked[k].reply.Started?
    ensures Undone(p, said, k)
  {
    SplitAsked(said, Commits(p.targets, p.epoch)[..k + 1], Compensations(p, asked, k));
    SameCompensations(p, said, asked, k);
    assert said[..k] == said[..k + 1][..k];
    assert said[k] == said[..k + 1][k];
  }

  lemma UndoIsUndone(script: Script, d: Driver, p: Pending)
    requires DistinctTargets(p.targets)
    requires StartsFrom(script, d.net, Commits(p.targets, p.epoch), 0) < |p.targets|
    ensures var k := StartsFrom(script, d.net, Commits(p.targets, p.epoch), 0);
      Undone(p, Said(d.net, Undo(script, d, p, k).net), k)
  {
    var k := StartsFrom(script, d.net, Commits(p.targets, p.epoch), 0);
    var list := UndoList(script, d.net, p, k);
    UndoTranscript(script, d, p, k);
    SaidPrefix(script, d.net, list, k + 1);
    assert list[..k + 1] == Commits(p.targets, p.epoch)[..k + 1];
    CommitReplies(script, d.net, p, k + 1, k, CommitsSaid(script, d.net, p, k + 1));
    AssembleUndone(p, Said(d.net, Undo(script, d, p, k).net), CommitsSaid(script, d.net, p, k + 1), k);
  }

  lemma {:induction false} PickEmpty<T>(items: seq<T>, said: seq<Exchange>, keep: Reply -> bool)
    requires |items| <= |said|
    ensures Pick(items, said, keep) == [] <==> forall i | 0 <= i < |items| :: !keep(said[i].reply)
  {
    if items != [] {
      PickEmpty(items[..|items| - 1], said, keep);
    }
  }

  lemma AssembleWhole(p: Pending, asked: seq<Exchange>, checked: seq<Exchange>)
    requires Asked(asked, Commits(p.targets, p.epoch)) && AllStarted(asked)
    requires Asked(checked, Checks(p, asked)) && forall x | x in checked :: x.reply == Living(true)
    ensures Whole(p, asked + checked, Launched(p, asked, |p.targets|))
  {
    var said := asked + checked;
    assert said[..|asked|] == asked && said[|asked|..] == checked;
    assert Checks(p, said) == Checks(p, asked);
  }

  lemma AssembleTornDown(p: Pending, asked: seq<Exchange>, checked: seq<Exchange>, stopped: seq<Exchange>)
    requires Asked(asked, Commits(p.targets, p.epoch)) && AllStarted(asked)
    requires Asked(checked, Checks(p, asked)) && exists x | x in checked :: x.reply != Living(true)
    requires Asked(stopped, Compensations(p, asked, |p.targets|))
    ensures TornDown(p, asked + checked + stopped)
    ensures Missing(p, asked + checked + stopped) == Pick(TargetNames(p.targets), checked, NotLiving)
  {
    var n := |p.targets|;
    var said := asked + checked + stopped;
    assert said[..n] == asked && said[n..2 * n] == checked && said[2 * n..] == stopped;
    assert Checks(p, said) == Checks(p, asked);
    SameCompensations(p, said, asked, n);
  }

  /** What the roll call and the stops of `Settle` ask, target by target. */
  lemma SettleRequests(p: Pending, said: seq<Exchange>)
    requires |p.targets| == |said| && DistinctTargets(p.targets)
    ensures var started := Launched(p, said, |p.targets|);
      && Covered(started, p.targets)
      && RollCall(started, p.targets) == Checks(p, said)
      && Stops(started, p.targets) == Compensations(p, said, |p.targets|)
  {
    var n := |p.targets|;
    var started := Launched(p, said, n);
    LaunchedCovered(p, said, n);
    assert p.targets[..n] == p.targets;
    forall j | 0 <= j < n
      ensures RollCall(started, p.targets)[j] == Checks(p, said)[j]
      ensures Stops(started, p.targets)[j] == Compensation(p, said, n, j)
    {
      TargetOfItsNode(p.targets, j);
    }
  }

  /** Where `Settle` stands once every commit has been answered started. */
  lemma SettleStages(script: Script, d: Driver, p: Pending) returns (one: Net, asked: seq<Exchange>)
    requires DistinctTargets(p.targets)
    requires StartsFrom(script, d.net, Commits(p.targets, p.epoch), 0) == |p.targets|
    ensures one == AskAll(script, d.net, Commits(p.targets, p.epoch)) && d.net.log <= one.log
    ensures asked == Said(d.net, one) && Asked(asked, Commits(p.targets, p.epoch)) && AllStarted(asked)
  {
    var commits := Commits(p.targets, p.epoch);
    assert commits[..|p.targets|] == commits;
    one, asked := AskAll(script, d.net, commits), CommitsSaid(script, d.net, p, |p.targets|);
    CommitReplies(script, d.net, p, |p.targets|, |p.targets|, asked);
    assert asked[..|p.targets|] == asked;
    AskAllSays(script, d.net, commits);
  }

  /** Where the roll call over what started stands, and what it heard. */
  lemma RollCallStage(script: Script, net0: Net, one: Net, p: Pending, asked: seq<Exchange>, two: Net)
    returns (checked: seq<Exchange>)
    requires |p.targets| == |asked| && net0.log <= one.log && two == AskAll(script, one, Checks(p, asked))
    ensures checked == Said(one, two) && Asked(checked, Checks(p, asked))
    ensures net0.log <= two.log && Said(net0, two) == Said(net0, one) + checked
    ensures Pick(TargetNames(p.targets), checked, NotLiving) == [] <==> forall x | x in checked :: x.reply == Living(true)
  {
    AskAllSays(script, one, Checks(p, asked));
    SaidConcat(net0, one, two);
    checked := Said(one, two);
    PickEmpty(TargetNames(p.targets), checked, NotLiving);
    if i :| 0 <= i < |p.targets| && NotLiving(checked[i].reply) {
      assert checked[i] in checked;
    }
  }

  /** The roll call over what started, and the stops when somebody is missing. */
  lemma RollCallSettles(script: Script, running: Option<Running>, net0: Net, one: Net, p: Pending, started: seq<RankStarted>,
                        asked: seq<Exchange>)
    requires net0.log <= one.log && asked == Said(net0, one)
    requires Asked(asked, Commits(p.targets, p.epoch)) && AllStarted(asked)
    requires |p.targets| == |asked| && started == Launched(p, asked, |p.targets|) && Covered(started, p.targets)
    requires RollCall(started, p.targets) == Checks(p, asked)
    requires Stops(started, p.targets) == Compensations(p, asked, |p.targets|)
    ensures var (after, a) := SettleFrom(script, running, one, p, started);
      if a.Committed? then a.started == started && Whole(p, Said(net0, after.net), started)
      else TornDown(p, Said(net0, after.net)) && a == Died(Missing(p, Said(net0, after.net)))
  {
    var two := AskAll(script, one, Checks(p, asked));
    var checked := RollCallStage(script, net0, one, p, asked, two);
    if Pick(TargetNames(p.targets), checked, NotLiving) == [] {
      AssembleWhole(p, asked, checked);
    } else {
      var three := AskAll(script, two, Stops(started, p.targets));
      AskAllSays(script, two, Stops(started, p.targets));
      SaidConcat(net0, two, three);
      AssembleTornDown(p, asked, checked, Said(two, three));
    }
  }

  lemma SettleIsWholeOrTornDown(script: Script, d: Driver, p: Pending)
    requires DistinctTargets(p.targets)
    requires StartsFrom(script, d.net, Commits(p.targets, p.epoch), 0) == |p.targets|
    ensures var (after, a) := Settle(script, d, p);
      if a.Committed? then Whole(p, Said(d.net, after.net), a.started)
      else TornDown(p, Said(d.net, after.net)) && a == Died(Missing(p, Said(d.net, after.net)))
  {
    var one, asked := SettleStages(script, d, p);
    SettleRequests(p, asked);
    RollCallSettles(script, d.running, d.net, one, p, Launched(p, asked, |p.targets|), asked);
  }

  lemma SettleTranscript(script: Script, d: Driver, p: Pending)
    requires DistinctTargets(p.targets)
    ensures var (after, a) := Settle(script, d, p);
      after.net == AskAll(script, d.net,
                          if a.Committed? then SettleList(script, d.net, p) else TearDownList(script, d.net, p))
  {
    var n := |p.targets|;
    var commits := Commits(p.targets, p.epoch);
    assert commits[..n] == commits;
    var said := CommitsSaid(script, d.net, p, n);
    SettleRequests(p, said);
    AskAllConcat(script, d.net, commits, Checks(p, said));
    AskAllConcat(script, d.net, SettleList(script, d.net, p), Compensations(p, said, n));
  }

  /** How the conversation of a commit can go. */
  ghost predicate Accounted(p: Pending, said: seq<Exchange>, a: CommitAnswer) {
    match a
    case Committed(started) => Whole(p, said, started)
    case CouldNotStart(name) => exists k | 0 <= k < |p.targets| :: Undone(p, said, k) && name == p.targets[k].name
    case Died(names) => TornDown(p, said) && names == Missing(p, said)
    case _ => false
  }

  /** Whole or absent, as far as the driver can act on it. A commit of the held prepare
      consumes it. Either every target was committed once, asked once after settling,
      found alive and recorded, or the record is left as it was and every target was
      sent exactly one compensation: a stop of the container it reported if it started,
      a release of its reservation if it did not. */
  lemma WholeOrUndone(script: Script, d: Driver, e: Epoch)
    requires Valid(d) && d.pending.Some? && d.pending.value.epoch == e
    ensures var (after, a) := CommitStep(script, d, e);
      && Accounted(d.pending.value, Said(d.net, after.net), a)
      && after.pending.None?
      && after.running == if a.Committed? then Some(Running(d.pending.value.targets, a.started)) else d.running
  {
    var p := d.pending.value;
    var k := StartsFrom(script, d.net, Commits(p.targets, e), 0);
    if k < |p.targets| {
      UndoIsUndone(script, d, p);
    } else {
      SettleIsWholeOrTornDown(script, d, p);
    }
  }

  // ---------------------------------------------------------------- what is left behind

  /** Nothing of this attempt is left on a machine: no container launched since the
      commit began, no reservation under its epoch. */
  ghost predicate Clean(m: Machine, since: int, e: Epoch) {
    && m.reserved != Some(e)
    && NothingFrom(m, since)
  }

  /** Everything running here was running before that turn. */
  ghost predicate NothingFrom(m: Machine, since: int) {
    forall c | c in m.live :: m.live[c] < since
  }

  /** What a target's commit is answered depends on that machine alone. */
  lemma CommitAnswered(script: Script, net: Net, p: Pending, j: nat, m: nat)
    requires j < m <= |p.targets| && DistinctTargets(p.targets)
    ensures CommitsSaid(script, net, p, m)[j].reply
         == Answer(At(net.world, p.targets[j].assignment.node), Commit(p.epoch), script(|net.log| + j))
  {
    var commits := Commits(p.targets, p.epoch)[..m];
    var node := p.targets[j].assignment.node;
    TurnOf(script, net, commits, j);
    FateDecides(script, net, commits[..j], node);
    FateSkips(script, At(net.world, node), commits, |net.log|, node, 0, j);
    assert commits[..0] == [];
  }

  /** A target before the refusal reported the container its machine named. */
  lemma StartedReply(script: Script, net: Net, p: Pending, j: nat, m: nat)
    requires j < StartsFrom(script, net, Commits(p.targets, p.epoch), 0) && DistinctTargets(p.targets)
    requires var k := StartsFrom(script, net, Commits(p.targets, p.epoch), 0); m == if k < |p.targets| then k + 1 else k
    ensures Answer(At(net.world, p.targets[j].assignment.node), Commit(p.epoch), script(|net.log| + j))
         == Started(ContainerOf(CommitsSaid(script, net, p, m)[j].reply))
  {
    var k := StartsFrom(script, net, Commits(p.targets, p.epoch), 0);
    var said := CommitsSaid(script, net, p, m);
    StartsFromMeaning(script, net, Commits(p.targets, p.epoch), 0);
    CommitReplies(script, net, p, m, k, said);
    assert said[..k][j] in said[..k];
    CommitAnswered(script, net, p, j, m);
  }

  // ------------------------------------ after a refusal

  /** Whether what was done about target `j`, after target `k` refused, took effect: its
      stop reached an agreeing machine; or, for the one that refused, it had not started
      silently and its reservation was spent or released; or its release arrived. */
  predicate UndoTook(script: Script, net: Net, p: Pending, k: nat, j: nat)
    requires j < |p.targets|
  {
    var t := |net.log|;
    var b, c := script(t + k), script(t + k + 1 + j);
    var held := At(net.world, p.targets[j].assignment.node).reserved == Some(p.epoch);
    if j < k then c.reached && c.agrees
    else if j == k then held ==> if b.reached then !b.agrees else c.reached
    else held ==> c.reached
  }

  /** Which targets the requests of a failed commit are addressed to. */
  lemma UndoNodes(p: Pending, said: seq<Exchange>, k: nat, j: nat, i: nat)
    requires k < |p.targets| && k < |said| && j < |p.targets| && DistinctTargets(p.targets)
    requires i < k + 1 + |p.targets|
    ensures var list := Commits(p.targets, p.epoch)[..k + 1] + Compensations(p, said, k);
      && |list| == k + 1 + |p.targets|
      && (list[i].node == p.targets[j].assignment.node <==> (i == j && j <= k) || i == k + 1 + j)
  {
    var at := if i <= k then i else i - k - 1;
    assert (Commits(p.targets, p.epoch)[..k + 1] + Compensations(p, said, k))[i].node == p.targets[at].assignment.node;
  }

  /** A container that started is gone exactly when its stop reached an agreeing machine. */
  lemma StartedThenStopped(m: Machine, e: Epoch, b: Behaviour, c: Behaviour, since: nat, at: nat, later: nat)
    requires NothingFrom(m, since) && since <= at && Answer(m, Commit(e), b).Started?
    ensures Clean(Serve(Serve(m, Commit(e), b, at), Stop(b.container), c, later), since, e) <==> c.reached && c.agrees
  {
    assert Serve(m, Commit(e), b, at).live[b.container] == at;
  }

  /** After a commit that was not seen to start, a release cleans up exactly unless the
      container started all the same or the reservation was never reached. */
  lemma RefusedThenReleased(m: Machine, e: Epoch, b: Behaviour, c: Behaviour, since: nat, at: nat, later: nat)
    requires NothingFrom(m, since) && since <= at
    ensures Clean(Serve(Serve(m, Commit(e), b, at), Abort(e), c, later), since, e)
       <==> (m.reserved == Some(e) ==> if b.reached then !b.agrees else c.reached)
  {
    if b.reached && b.agrees && m.reserved == Some(e) {
      assert Serve(m, Commit(e), b, at).live[b.container] == at;
    }
  }

  /** The machine of target `j` through a whole failed commit. */
  lemma UndoFate(script: Script, m: Machine, list: seq<Request>, t: nat, p: Pending, said: seq<Exchange>, k: nat, j: nat)
    requires k < |p.targets| && k < |said| && j < |p.targets| && DistinctTargets(p.targets)
    requires list == Commits(p.targets, p.epoch)[..k + 1] + Compensations(p, said, k)
    requires NothingFrom(m, t)
    requires j < k ==> Answer(m, Commit(p.epoch), script(t + j)) == Started(ContainerOf(said[j].reply))
    ensures Clean(Fate(script, m, list, t, p.targets[j].assignment.node), t, p.epoch)
       <==> var b, c := script(t + k), script(t + k + 1 + j);
            if j < k then c.reached && c.agrees
            else m.reserved == Some(p.epoch) ==> if j == k && b.reached then !b.agrees else c.reached
  {
    var node := p.targets[j].assignment.node;
    forall i | 0 <= i < |list|
      ensures list[i].node == node <==> (i == j && j <= k) || i == k + 1 + j
    {
      UndoNodes(p, said, k, j, i);
    }
    var b, c := script(t + j), script(t + k + 1 + j);
    if j <= k {
      TwoTurns(script, m, list, t, node, j, k + 1 + j);
      if j < k {
        StartedThenStopped(m, p.epoch, b, c, t, t + j, t + k + 1 + j);
      } else {
        RefusedThenReleased(m, p.epoch, b, c, t, t + j, t + k + 1 + j);
      }
    } else {
      OneTurn(script, m, list, t, node, k + 1 + j);
    }
  }

  /** The first `k` commits are answered as each machine, left alone until then, answers. */
  ghost predicate Heard(script: Script, net: Net, p: Pending, said: seq<Exchange>, k: nat)
    requires k <= |p.targets| && k <= |said|
  {
    forall j | 0 <= j < k ::
      Answer(At(net.world, p.targets[j].assignment.node), Commit(p.epoch), script(|net.log| + j))
      == Started(ContainerOf(said[j].reply))
  }

  lemma CommitsHeard(script: Script, net: Net, p: Pending, m: nat)
    requires DistinctTargets(p.targets)
    requires var k := StartsFrom(script, net, Commits(p.targets, p.epoch), 0); m == if k < |p.targets| then k + 1 else k
    ensures Heard(script, net, p, CommitsSaid(script, net, p, m), StartsFrom(script, net, Commits(p.targets, p.epoch), 0))
  {
    var k := StartsFrom(script, net, Commits(p.targets, p.epoch), 0);
    var said := CommitsSaid(script, net, p, m);
    forall j | 0 <= j < k
      ensures Answer(At(net.world, p.targets[j].assignment.node), Commit(p.epoch), script(|net.log| + j))
           == Started(ContainerOf(said[j].reply))
    {
      StartedReply(script, net, p, j, m);
    }
  }

  /** A failed commit as one list of requests, with what is known of its answers. */
  lemma UndoAsList(script: Script, d: Driver, p: Pending, after: Net, k: nat)
    returns (said: seq<Exchange>, list: seq<Request>)
    requires DistinctTargets(p.targets)
    requires k == StartsFrom(script, d.net, Commits(p.targets, p.epoch), 0) < |p.targets|
    requires after == Undo(script, d, p, k).net
    ensures |said| == k + 1
    ensures list == Commits(p.targets, p.epoch)[..k + 1] + Compensations(p, said, k)
    ensures Heard(script, d.net, p, said, k)
    ensures after == AskAll(script, d.net, list)
  {
    said, list := CommitsSaid(script, d.net, p, k + 1), UndoList(script, d.net, p, k);
    UndoTranscript(script, d, p, k);
    CommitsHeard(script, d.net, p, k + 1);
  }

  lemma UndoneCleanAt(script: Script, net: Net, m: Machine, list: seq<Request>, p: Pending, said: seq<Exchange>, k: nat, j: nat,
                      after: Machine)
    requires k < |p.targets| && k < |said| && j < |p.targets| && DistinctTargets(p.targets)
    requires m == At(net.world, p.targets[j].assignment.node) && NothingFrom(m, |net.log|)
    requires list == Commits(p.targets, p.epoch)[..k + 1] + Compensations(p, said, k)
    requires j < k ==> Answer(m, Commit(p.epoch), script(|net.log| + j)) == Started(ContainerOf(said[j].reply))
    requires after == Fate(script, m, list, |net.log|, p.targets[j].assignment.node)
    ensures Clean(after, |net.log|, p.epoch) <==> UndoTook(script, net, p, k, j)
  {
    UndoFate(script, m, list, |net.log|, p, said, k, j);
  }

  /** A failed commit leaves nothing on its targets exactly where its undoing took effect. */
  lemma UndoneClean(script: Script, net: Net, p: Pending, said: seq<Exchange>, list: seq<Request>, k: nat, j: nat)
    requires k < |p.targets| && k < |said| && j < |p.targets| && DistinctTargets(p.targets)
    requires NothingFrom(At(net.world, p.targets[j].assignment.node), |net.log|)
    requires list == Commits(p.targets, p.epoch)[..k + 1] + Compensations(p, said, k)
    requires Heard(script, net, p, said, k)
    ensures Clean(At(AskAll(script, net, list).world, p.targets[j].assignment.node), |net.log|, p.epoch)
       <==> UndoTook(script, net, p, k, j)
  {
    var node := p.targets[j].assignment.node;
    FateDecides(script, net, list, node);
    UndoneCleanAt(script, net, At(net.world, node), list, p, said, k, j, At(AskAll(script, net, list).world, node));
  }

  // ------------------------------------ after settling

  /** Whether target `j`, which started, is gone: its stop reached an agreeing machine, or
      it had already died when it was asked after settling. */
  predicate StopTook(script: Script, net: Net, n: nat, j: nat) {
    var c := script(|net.log| + 2 * n + j);
    (c.reached && c.agrees) || !script(|net.log| + n + j).survives
  }

  lemma StartedAskedStopped(m: Machine, e: Epoch, b: Behaviour, a: Behaviour, c: Behaviour, since: nat, t1: nat, t2: nat, t3: nat)
    requires NothingFrom(m, since) && since <= t1 && Answer(m, Commit(e), b).Started?
    ensures Clean(Serve(Serve(Serve(m, Commit(e), b, t1), Alive(b.container), a, t2), Stop(b.container), c, t3), since, e)
       <==> (c.reached && c.agrees) || !a.survives
  {
    assert Serve(m, Commit(e), b, t1).live[b.container] == t1;
  }

  lemma TearDownNodes(p: Pending, said: seq<Exchange>, j: nat, i: nat)
    requires |p.targets| == |said| && j < |p.targets| && DistinctTargets(p.targets) && i < 3 * |p.targets|
    ensures var n := |p.targets|;
      var list := Commits(p.targets, p.epoch) + Checks(p, said) + Compensations(p, said, n);
      && |list| == 3 * n
      && (list[i].node == p.targets[j].assignment.node <==> i == j || i == n + j || i == 2 * n + j)
  {
    var n := |p.targets|;
    var at := if i < n then i else if i < 2 * n then i - n else i - 2 * n;
    assert (Commits(p.targets, p.epoch) + Checks(p, said) + Compensations(p, said, n))[i].node
        == p.targets[at].assignment.node;
  }

  lemma TearDownFate(script: Script, m: Machine, list: seq<Request>, t: nat, p: Pending, said: seq<Exchange>, j: nat)
    requires |p.targets| == |said| && j < |p.targets| && DistinctTargets(p.targets)
    requires list == Commits(p.targets, p.epoch) + Checks(p, said) + Compensations(p, said, |p.targets|)
    requires NothingFrom(m, t)
    requires Answer(m, Commit(p.epoch), script(t + j)) == Started(ContainerOf(said[j].reply))
    ensures Clean(Fate(script, m, list, t, p.targets[j].assignment.node), t, p.epoch)
       <==> var c := script(t + 2 * |p.targets| + j);
            (c.reached && c.agrees) || !script(t + |p.targets| + j).survives
  {
    var n, node := |p.targets|, p.targets[j].assignment.node;
    forall i | 0 <= i < |list|
      ensures list[i].node == node <==> i == j || i == n + j || i == 2 * n + j
    {
      TearDownNodes(p, said, j, i);
    }
    ThreeTurns(script, m, list, t, node, j, n + j, 2 * n + j);
    StartedAskedStopped(m, p.epoch, script(t + j), script(t + n + j), script(t + 2 * n + j), t, t + j, t + n + j, t + 2 * n + j);
  }

  lemma TearDownAsList(script: Script, d: Driver, p: Pending) returns (said: seq<Exchange>, list: seq<Request>)
    requires DistinctTargets(p.targets)
    requires StartsFrom(script, d.net, Commits(p.targets, p.epoch), 0) == |p.targets|
    requires !Settle(script, d, p).1.Committed?
    ensures |said| == |p.targets|
    ensures list == Commits(p.targets, p.epoch) + Checks(p, said) + Compensations(p, said, |p.targets|)
    ensures Heard(script, d.net, p, said, |p.targets|)
    ensures Settle(script, d, p).0.net == AskAll(script, d.net, list)
  {
    said, list := CommitsSaid(script, d.net, p, |p.targets|), TearDownList(script, d.net, p);
    SettleTranscript(script, d, p);
    CommitsHeard(script, d.net, p, |p.targets|);
  }

  lemma TornDownCleanAt(script: Script, net: Net, m: Machine, list: seq<Request>, p: Pending, said: seq<Exchange>, j: nat,
                        after: Machine)
    requires |p.targets| == |said| && j < |p.targets| && DistinctTargets(p.targets)
    requires NothingFrom(m, |net.log|)
    requires list == Commits(p.targets, p.epoch) + Checks(p, said) + Compensations(p, said, |p.targets|)
    requires Answer(m, Commit(p.epoch), script(|net.log| + j)) == Started(ContainerOf(said[j].reply))
    requires after == Fate(script, m, list, |net.log|, p.targets[j].assignment.node)
    ensures Clean(after, |net.log|, p.epoch) <==> StopTook(script, net, |p.targets|, j)
  {
    TearDownFate(script, m, list, |net.log|, p, said, j);
  }

  lemma TornDownClean(script: Script, net: Net, p: Pending, said: seq<Exchange>, list: seq<Request>, j: nat)
    requires |p.targets| == |said| && j < |p.targets| && DistinctTargets(p.targets)
    requires NothingFrom(At(net.world, p.targets[j].assignment.node), |net.log|)
    requires list == Commits(p.targets, p.epoch) + Checks(p, said) + Compensations(p, said, |p.targets|)
    requires Heard(script, net, p, said, |p.targets|)
    ensures Clean(At(AskAll(script, net, list).world, p.targets[j].assignment.node), |net.log|, p.epoch)
       <==> StopTook(script, net, |p.targets|, j)
  {
    var node := p.targets[j].assignment.node;
    FateDecides(script, net, list, node);
    TornDownCleanAt(script, net, At(net.world, node), list, p, said, j, At(AskAll(script, net, list).world, node));
  }

  // ------------------------------------ absent, exactly

  /** Target `j` keeps nothing of an attempt that began at that turn. */
  ghost predicate Absent(w: World, p: Pending, j: nat, since: nat)
    requires j < |p.targets|
  {
    Clean(At(w, p.targets[j].assignment.node), since, p.epoch)
  }

  /** Whether what was done to undo target `j` of a failed commit took effect. */
  predicate Took(script: Script, net: Net, p: Pending, j: nat)
    requires j < |p.targets|
  {
    var k := StartsFrom(script, net, Commits(p.targets, p.epoch), 0);
    if k < |p.targets| then UndoTook(script, net, p, k, j) else StopTook(script, net, |p.targets|, j)
  }

  lemma UndoneAbsent(script: Script, net: Net, p: Pending, said: seq<Exchange>, list: seq<Request>, k: nat)
    requires k < |p.targets| && k < |said| && DistinctTargets(p.targets)
    requires forall j | 0 <= j < |p.targets| :: NothingFrom(At(net.world, p.targets[j].assignment.node), |net.log|)
    requires list == Commits(p.targets, p.epoch)[..k + 1] + Compensations(p, said, k)
    requires Heard(script, net, p, said, k)
    ensures forall j | 0 <= j < |p.targets| ::
              Absent(AskAll(script, net, list).world, p, j, |net.log|) <==> UndoTook(script, net, p, k, j)
  {
    forall j | 0 <= j < |p.targets|
      ensures Absent(AskAll(script, net, list).world, p, j, |net.log|) <==> UndoTook(script, net, p, k, j)
    {
      UndoneClean(script, net, p, said, list, k, j);
    }
  }

  lemma RefusedAbsent(script: Script, d: Driver, p: Pending, after: Net, k: nat)
    requires DistinctTargets(p.targets)
    requires forall j | 0 <= j < |p.targets| :: NothingFrom(At(d.net.world, p.targets[j].assignment.node), |d.net.log|)
    requires k == StartsFrom(script, d.net, Commits(p.targets, p.epoch), 0) < |p.targets|
    requires after == Undo(script, d, p, k).net
    ensures forall j | 0 <= j < |p.targets| :: Absent(after.world, p, j, |d.net.log|) <==> UndoTook(script, d.net, p, k, j)
  {
    var said, list := UndoAsList(script, d, p, after, k);
    UndoneAbsent(script, d.net, p, said, list, k);
  }

  lemma DiedAbsent(script: Script, d: Driver, p: Pending, after: Net)
    requires DistinctTargets(p.targets)
    requires forall j | 0 <= j < |p.targets| :: NothingFrom(At(d.net.world, p.targets[j].assignment.node), |d.net.log|)
    requires StartsFrom(script, d.net, Commits(p.targets, p.epoch), 0) == |p.targets|
    requires !Settle(script, d, p).1.Committed? && after == Settle(script, d, p).0.net
    ensures forall j | 0 <= j < |p.targets| ::
              Absent(after.world, p, j, |d.net.log|) <==> StopTook(script, d.net, |p.targets|, j)
  {
    var said, list := TearDownAsList(script, d, p);
    forall j | 0 <= j < |p.targets|
      ensures Absent(after.world, p, j, |d.net.log|) <==> StopTook(script, d.net, |p.targets|, j)
    {
      TornDownClean(script, d.net, p, said, list, j);
    }
  }

  /** After a failed commit, a machine of the selection keeps no container and no
      reservation of the attempt exactly when what was done to undo it took effect, and
      it did not start a container without its answer arriving. */
  lemma AbsentExactly(script: Script, d: Driver, e: Epoch, after: Net)
    requires Valid(d) && d.pending.Some? && d.pending.value.epoch == e
    requires forall j | 0 <= j < |d.pending.value.targets| ::
               NothingFrom(At(d.net.world, d.pending.value.targets[j].assignment.node), |d.net.log|)
    requires !CommitStep(script, d, e).1.Committed? && after == CommitStep(script, d, e).0.net
    ensures forall j | 0 <= j < |d.pending.value.targets| ::
              Absent(after.world, d.pending.value, j, |d.net.log|) <==> Took(script, d.net, d.pending.value, j)
  {
    var p := d.pending.value;
    var k := StartsFrom(script, d.net, Commits(p.targets, e), 0);
    if k < |p.targets| {
      RefusedAbsent(script, d, p, after, k);
    } else {
      DiedAbsent(script, d, p, after);
    }
  }

  /** The invariant's limit. One rank, reserved, starts its container and its answer is
      lost: the driver reports a failure, releases a reservation already spent, and the
      container is left running. */
  lemma LostAnswerLeavesAContainer(t: Target, e: Epoch)
    ensures var script := (_: nat) => Behaviour(true, true, "atlas", true, false);
      var node := t.assignment.node;
      var d := Driver(Some(Pending(e, 0, [t])), None, Net(map[node := Machine(Some(e), map[])], []));
      var (after, a) := CommitStep(script, d, e);
      && a == CouldNotStart(t.name)
      && At(after.net.world, node).live == map["atlas" := 0]
  {
    var script := (_: nat) => Behaviour(true, true, "atlas", true, false);
    var node := t.assignment.node;
    var p := Pending(e, 0, [t]);
    var d := Driver(Some(p), None, Net(map[node := Machine(Some(e), map[])], []));
    var commits := Commits(p.targets, e);
    assert commits[..0] == [] && commits == [Dial(t, Commit(e))] && commits[..1] == commits;
    assert !StartsAt(script, d.net, commits, 0);
    assert StartsFrom(script, d.net, commits, 0) == 0;
    var asked := AskAll(script, d.net, commits);
    assert At(asked.world, node) == Machine(None, map["atlas" := 0]);
    assert p.targets[0..] == [t] && Aborts([t], e) == [Dial(t, Abort(e))];
    assert AskAll(script, asked, []) == asked;
    assert AskAll(script, asked, [Dial(t, Abort(e))]) == Ask(script, asked, Dial(t, Abort(e)));
  }
}
