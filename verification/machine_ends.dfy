/** How a life ends and what it tells, read off the ports' answers: which check failed first,
    and what was journaled and asked by then. */
module MachineEnds {
  import opened Wrappers
  import opened Events
  import opened Machine
  import opened MachineLife

  // ---- How far a life gets ----------------------------------------------------

  /** The commit is here, published if it has to be, and checked out. */
  predicate Prepared(ctx: Context, s: Script) {
    && (s.hasCommit == Ok(true) || (s.hasCommit == Ok(false) && s.fetch == None && s.hasCommitThen == Ok(true)))
    && (ctx.allowUnpublished || s.published == Ok(true))
    && s.worktree.Ok?
  }

  /** No binary of this commit was cached, and building one failed. */
  predicate BuildFailed(s: Script) {
    s.cachedBinary.Ok? && s.cachedBinary.value.Err? && s.build.Err?
  }

  /** There is a binary to run. */
  predicate GotBinary(ctx: Context, s: Script) {
    Prepared(ctx, s) && !s.cancelledPrepared && s.cachedBinary.Ok? && !BuildFailed(s)
  }

  /** And it has the recipes, knows the gate and takes the params. */
  predicate Accepted(ctx: Context, s: Script) {
    && s.recipes == None && s.knownGates.Ok? && ctx.gate in s.knownGates.value && s.badParams == Ok([])
  }

  predicate ReadyToRun(ctx: Context, s: Script) {
    GotBinary(ctx, s) && !s.cancelledBuilt && Accepted(ctx, s)
  }

  predicate Ran(ctx: Context, s: Script) {
    ReadyToRun(ctx, s) && s.recordState.Ok? && s.spawn.Ok?
  }

  predicate EndedItself(ctx: Context, s: Script) {
    Ran(ctx, s) && s.end.Ok? && s.end.value.Exited?
  }

  predicate NoRecord(s: Script) {
    s.collect.Ok? && forall i | 0 <= i < |s.collect.value| :: s.collect.value[i].kind != Record
  }

  lemma PrepareStops(ctx: Context, s: Script, stop: Option<Outcome>)
    requires stop == PrepareOf(ctx, s).stop
    ensures stop.None? <==> Prepared(ctx, s) && !s.cancelledPrepared
    ensures stop.Some? ==> if Prepared(ctx, s) then stop.value == Cancelled(ctx.local)
                           else stop.value.Failed? && stop.value.stage == Preparing
  {
  }

  lemma ResolveStops(ctx: Context, s: Script, stop: Option<Outcome>)
    requires stop == ResolveOf(ctx, s).stop
    ensures stop.None? <==> s.cachedBinary.Ok? && !BuildFailed(s)
    ensures stop.Some? ==> if BuildFailed(s) && s.cancelledBuilding then stop.value == Cancelled(ctx.local)
                           else stop.value.Failed? && stop.value.stage == Building
  {
  }

  lemma CheckStops(ctx: Context, s: Script, stop: Option<Outcome>)
    requires stop == CheckOf(ctx, s).stop
    ensures stop.None? <==> !s.cancelledBuilt && Accepted(ctx, s)
    ensures stop.Some? ==> if s.cancelledBuilt then stop.value == Cancelled(ctx.local)
                           else stop.value.Failed? && stop.value.stage == Building
  {
  }

  /** How the child's end stops a life that got to it. */
  ghost predicate StoppedRunning(ctx: Context, s: Script, o: Outcome) {
    if s.recordState.Err? || s.spawn.Err? || s.end.Err? then o.Failed? && o.stage == Running
    else
      match s.end.value
      case Exited(_, _) => false
      case Stalled(n) => o == TimedOut(Running, n)
      case OverTime(n) => o == TimedOut(Running, n)
      case Stopped => o == Cancelled(ctx.local)
  }

  lemma LaunchStops(ctx: Context, s: Script, stop: Option<Outcome>)
    requires stop == LaunchOf(ctx, s).stop
    ensures stop.None? <==> s.recordState.Ok? && s.spawn.Ok? && s.end.Ok? && s.end.value.Exited?
    ensures stop.Some? ==> StoppedRunning(ctx, s, stop.value)
  {
  }

  lemma CollectStops(s: Script, stop: Option<Outcome>)
    requires s.end.Ok? && s.end.value.Exited? && stop == CollectOf(s).stop
    ensures stop.Some?
    ensures if s.collect.Err? || (s.end.value.code == 0 && NoRecord(s)) then stop.value.Failed? && stop.value.stage == Collecting
            else stop.value == Completed(s.end.value.code, s.end.value.verdict,
                                         FirstOf(s.collect.value, Record), FirstOf(s.collect.value, Signature))
  {
    if s.collect.Ok? {
      FirstIsListed(s.collect.value, Record);
    }
  }

  /** The first phase that stops decides. */
  lemma FirstStop(ctx: Context, s: Script, prepare: Option<Outcome>, resolve: Option<Outcome>, check: Option<Outcome>,
                  launch: Option<Outcome>, o: Outcome)
    requires prepare == PrepareOf(ctx, s).stop && resolve == ResolveOf(ctx, s).stop && check == CheckOf(ctx, s).stop
    requires launch == LaunchOf(ctx, s).stop && o == Life(ctx, s).1
    ensures prepare.Some? ==> o == prepare.value
    ensures prepare.None? && resolve.Some? ==> o == resolve.value
    ensures prepare.None? && resolve.None? && check.Some? ==> o == check.value
    ensures prepare.None? && resolve.None? && check.None? && launch.Some? ==> o == launch.value
    ensures prepare.None? && resolve.None? && check.None? && launch.None? ==>
              s.end.Ok? && s.end.value.Exited? && CollectOf(s).stop == Some(o)
  {
  }

  /** What a life ends with, by how far it got. */
  ghost predicate EndsAs(ctx: Context, s: Script, o: Outcome) {
    if !Prepared(ctx, s) then o.Failed? && o.stage == Preparing
    else if s.cancelledPrepared then o == Cancelled(ctx.local)
    else if s.cachedBinary.Err? then o.Failed? && o.stage == Building
    else if BuildFailed(s) then if s.cancelledBuilding then o == Cancelled(ctx.local) else o.Failed? && o.stage == Building
    else if s.cancelledBuilt then o == Cancelled(ctx.local)
    else if !Accepted(ctx, s) then o.Failed? && o.stage == Building
    else if !EndedItself(ctx, s) then StoppedRunning(ctx, s, o)
    else if s.collect.Err? || (s.end.value.code == 0 && NoRecord(s)) then o.Failed? && o.stage == Collecting
    else o == Completed(s.end.value.code, s.end.value.verdict, FirstOf(s.collect.value, Record), FirstOf(s.collect.value, Signature))
  }

  lemma LifeEnds(ctx: Context, s: Script, o: Outcome)
    requires o == Life(ctx, s).1
    ensures EndsAs(ctx, s, o)
  {
    var prepare, resolve, check, launch :=
      PrepareOf(ctx, s).stop, ResolveOf(ctx, s).stop, CheckOf(ctx, s).stop, LaunchOf(ctx, s).stop;
    FirstStop(ctx, s, prepare, resolve, check, launch, o);
    PrepareStops(ctx, s, prepare);
    ResolveStops(ctx, s, resolve);
    CheckStops(ctx, s, check);
    LaunchStops(ctx, s, launch);
    if launch.None? {
      CollectStops(s, CollectOf(s).stop);
    }
  }

  /** A life was timed out exactly when its child ran and the waiting ended so, quiet or over
      its time, and it says for how long. */
  lemma TimedOutExactly(ctx: Context, s: Script, o: Outcome)
    requires o == Life(ctx, s).1
    ensures o.TimedOut? <==> Ran(ctx, s) && s.end.Ok? && (s.end.value.Stalled? || s.end.value.OverTime?)
    ensures o.TimedOut? ==> o == TimedOut(Running, s.end.value.afterS)
  {
    LifeEnds(ctx, s, o);
  }

  /** It was cancelled exactly when the flag was seen up once prepared, at a failed build, or
      once built, or the waiting stopped the child for it; and it says by which node. */
  lemma CancelledExactly(ctx: Context, s: Script, o: Outcome)
    requires o == Life(ctx, s).1
    ensures o.Cancelled? <==>
      || (Prepared(ctx, s) && s.cancelledPrepared)
      || (Prepared(ctx, s) && !s.cancelledPrepared && BuildFailed(s) && s.cancelledBuilding)
      || (GotBinary(ctx, s) && s.cancelledBuilt)
      || (Ran(ctx, s) && s.end == Ok(Stopped))
    ensures o.Cancelled? ==> o == Cancelled(ctx.local)
  {
    LifeEnds(ctx, s, o);
  }

  /** And it failed at the stage of the first check that failed. */
  lemma FailedExactly(ctx: Context, s: Script, o: Outcome)
    requires o == Life(ctx, s).1
    ensures o.Failed? && o.stage == Preparing <==> !Prepared(ctx, s)
    ensures o.Failed? && o.stage == Building <==>
      && Prepared(ctx, s) && !s.cancelledPrepared
      && (|| s.cachedBinary.Err? || (BuildFailed(s) && !s.cancelledBuilding)
          || (GotBinary(ctx, s) && !s.cancelledBuilt && !Accepted(ctx, s)))
    ensures o.Failed? && o.stage == Running <==>
      ReadyToRun(ctx, s) && (s.recordState.Err? || s.spawn.Err? || s.end.Err?)
    ensures o.Failed? && o.stage == Collecting <==>
      EndedItself(ctx, s) && (s.collect.Err? || (s.end.value.code == 0 && NoRecord(s)))
    ensures o.Failed? ==> o.stage in {Preparing, Building, Running, Collecting}
  {
    LifeEnds(ctx, s, o);
  }

  /** Of the artifacts, the first of that kind. */
  ghost predicate FirstWith(artifacts: seq<ArtifactMeta>, kind: ArtifactKind, path: Option<string>) {
    match path
    case None => forall i | 0 <= i < |artifacts| :: artifacts[i].kind != kind
    case Some(p) =>
      exists i | 0 <= i < |artifacts| ::
        artifacts[i].kind == kind && artifacts[i].relativePath == p && forall j | 0 <= j < i :: artifacts[j].kind != kind
  }

  lemma {:induction false} FirstOfIsFirst(artifacts: seq<ArtifactMeta>, kind: ArtifactKind)
    ensures FirstWith(artifacts, kind, FirstOf(artifacts, kind))
  {
    if artifacts != [] && artifacts[0].kind != kind {
      FirstOfIsFirst(artifacts[1..], kind);
      if FirstOf(artifacts, kind).Some? {
        var i :| 0 <= i < |artifacts[1..]| && artifacts[1..][i].kind == kind
          && artifacts[1..][i].relativePath == FirstOf(artifacts, kind).value
          && forall j | 0 <= j < i :: artifacts[1..][j].kind != kind;
        assert artifacts[i + 1].kind == kind && forall j | 0 < j < i + 1 :: artifacts[j] == artifacts[1..][j - 1];
      } else {
        assert forall j | 0 < j < |artifacts| :: artifacts[j] == artifacts[1..][j - 1];
      }
    }
  }

  /** Otherwise it completed, with the child's exit and verdict and the first record and
      signature among its artifacts. It is never orphaned. */
  lemma CompletedWith(ctx: Context, s: Script, o: Outcome)
    requires o == Life(ctx, s).1
    ensures !o.Orphaned?
    ensures o.Completed? <==> EndedItself(ctx, s) && s.collect.Ok? && !(s.end.value.code == 0 && NoRecord(s))
    ensures o.Completed? ==>
      && o.exitCode == s.end.value.code && o.verdict == s.end.value.verdict
      && FirstWith(s.collect.value, Record, o.record) && FirstWith(s.collect.value, Signature, o.signature)
  {
    LifeEnds(ctx, s, o);
    if s.collect.Ok? {
      FirstOfIsFirst(s.collect.value, Record);
      FirstOfIsFirst(s.collect.value, Signature);
    }
  }

  // ---- What it tells ----------------------------------------------------------

  function When<T>(b: bool, xs: seq<T>): seq<T> {
    if b then xs else []
  }

  lemma {:induction false} KindsOutputs(kinds: seq<EventKind>)
    ensures Kinds(Outputs(kinds)) == kinds
  {
    if kinds != [] {
      KindsOutputs(kinds[1..]);
      assert Outputs(kinds)[1..] == Outputs(kinds[1..]) && Outputs(kinds)[0] == Journaled(kinds[0]);
      assert kinds == [kinds[0]] + kinds[1..];
    } else {
      assert Outputs(kinds) == [];
    }
  }

  lemma KindsThen(p: Phase, q: Phase)
    ensures Kinds(Then(p, q).trace) == Kinds(p.trace) + When(p.stop.None?, Kinds(q.trace))
  {
    if p.stop.None? {
      KindsConcat(p.trace, q.trace);
    }
  }

  lemma {:induction false} KindsNone(trace: seq<Entry>)
    requires forall i | 0 <= i < |trace| :: !trace[i].Journaled?
    ensures Kinds(trace) == []
  {
    if trace != [] {
      KindsNone(trace[1..]);
    }
  }

  lemma Kinds1(e: Entry)
    ensures Kinds([e]) == Said(e)
  {
    KindsMore([], e);
    assert [] + [e] == [e] && [] + Said(e) == Said(e);
  }

  /** The commit is here and published, if it has to be. */
  predicate Published(ctx: Context, s: Script) {
    && (s.hasCommit == Ok(true) || (s.hasCommit == Ok(false) && s.fetch == None && s.hasCommitThen == Ok(true)))
    && (ctx.allowUnpublished || s.published == Ok(true))
  }

  lemma PublishedTells(ctx: Context, s: Script)
    ensures Kinds(PublishedOf(ctx, s).trace) == []
  {
    KindsNone(PublishedOf(ctx, s).trace);
  }

  lemma WorktreeTells(ctx: Context, s: Script, fetched: bool)
    ensures Kinds(WorktreeOf(ctx, s, fetched).trace) == [EvPreparing(ctx.sha, fetched)]
  {
    KindsMore([Journaled(EvPreparing(ctx.sha, fetched))], Called(Worktree));
    Kinds1(Journaled(EvPreparing(ctx.sha, fetched)));
  }

  lemma PlacedTells(ctx: Context, s: Script, fetched: bool)
    ensures Kinds(Then(PublishedOf(ctx, s), WorktreeOf(ctx, s, fetched)).trace)
         == When(ctx.allowUnpublished || s.published == Ok(true), [EvPreparing(ctx.sha, fetched)])
  {
    KindsThen(PublishedOf(ctx, s), WorktreeOf(ctx, s, fetched));
    PublishedTells(ctx, s);
    WorktreeTells(ctx, s, fetched);
  }

  lemma CommitTells(ctx: Context, s: Script)
    ensures Kinds([Moved(Preparing)] + CommitOf(s).0) == []
    ensures CommitOf(s).1.Ok? <==>
      s.hasCommit == Ok(true) || (s.hasCommit == Ok(false) && s.fetch == None && s.hasCommitThen == Ok(true))
    ensures CommitOf(s).1.Ok? ==> CommitOf(s).1.value == (s.hasCommit == Ok(false))
  {
    KindsNone([Moved(Preparing)] + CommitOf(s).0);
  }

  lemma PrepareTells(ctx: Context, s: Script)
    ensures Kinds(PrepareOf(ctx, s).trace) == When(Published(ctx, s), [EvPreparing(ctx.sha, s.hasCommit == Ok(false))])
  {
    CommitTells(ctx, s);
    var fetched := s.hasCommit == Ok(false);
    var placed := Then(PublishedOf(ctx, s), WorktreeOf(ctx, s, fetched));
    PlacedTells(ctx, s, fetched);
    KindsThen(Phase([Moved(Preparing)] + CommitOf(s).0, None), placed);
  }

  /** What is said of where the binary came from. */
  function BuildStory(s: Script): seq<EventKind> {
    match s.cachedBinary
    case Err(_) => []
    case Ok(Ok(b)) => [EvBuild(true, "cache hit"), EvBuilt(b.sha256, true, 0)]
    case Ok(Err(miss)) =>
      match s.build
      case Err(_) => [EvBuild(false, MissText(miss))]
      case Ok(r) => [EvBuild(false, MissText(miss)), EvBuilt(r.binary.sha256, false, r.secs)]
  }

  lemma Kinds2(a: Entry, b: Entry)
    ensures Kinds([a, b]) == Said(a) + Said(b)
  {
    Kinds1(a);
    KindsMore([a], b);
    assert [a] + [b] == [a, b];
  }

  lemma FreshTells(ctx: Context, s: Script, miss: CacheMiss)
    ensures Kinds(FreshOf(ctx, s, miss).trace)
         == match s.build
            case Err(_) => [EvBuild(false, MissText(miss))]
            case Ok(r) => [EvBuild(false, MissText(miss)), EvBuilt(r.binary.sha256, false, r.secs)]
  {
    var asked := [Journaled(EvBuild(false, MissText(miss))), Called(Build)];
    Kinds2(asked[0], asked[1]);
    if s.build.Ok? {
      var built := Journaled(EvBuilt(s.build.value.binary.sha256, false, s.build.value.secs));
      Kinds2(built, Saved);
      KindsConcat(asked, [built, Saved]);
    }
  }

  lemma CachedTells(b: Binary)
    ensures Kinds([Journaled(EvBuild(true, "cache hit")), Journaled(EvBuilt(b.sha256, true, 0)), Saved])
         == [EvBuild(true, "cache hit"), EvBuilt(b.sha256, true, 0)]
  {
    var first := [Journaled(EvBuild(true, "cache hit")), Journaled(EvBuilt(b.sha256, true, 0))];
    Kinds2(first[0], first[1]);
    KindsMore(first, Saved);
    assert first + [Saved] == [first[0], first[1], Saved];
  }

  lemma ResolveTells(ctx: Context, s: Script)
    ensures Kinds(ResolveOf(ctx, s).trace) == BuildStory(s)
  {
    var asked := Phase([Moved(Building), Called(CachedBinary)], None);
    Kinds2(Moved(Building), Called(CachedBinary));
    match s.cachedBinary {
      case Err(_) =>
      case Ok(Ok(b)) =>
        CachedTells(b);
        KindsThen(asked, Phase([Journaled(EvBuild(true, "cache hit")), Journaled(EvBuilt(b.sha256, true, 0)), Saved], None));
      case Ok(Err(miss)) =>
        FreshTells(ctx, s, miss);
        KindsThen(asked, FreshOf(ctx, s, miss));
    }
  }

  lemma CheckTells(ctx: Context, s: Script)
    ensures Kinds(CheckOf(ctx, s).trace) == []
  {
    KindsNone(CheckOf(ctx, s).trace);
  }

  /** What is said of a child that was started: its own words in between. */
  function RunStory(ctx: Context, s: Script, b: Binary): seq<EventKind>
    requires s.spawn.Ok?
  {
    [EvRunning(s.spawn.value.pid, ctx.argv(b))] + s.output
    + if s.end.Ok? && s.end.value.Exited? && s.end.value.verdict.Some? then [EvVerdict(s.end.value.verdict.value)] else []
  }

  lemma StartedTells(pid: nat, argv: seq<string>, output: seq<EventKind>)
    ensures Kinds([Moved(Running), Journaled(EvRunning(pid, argv)), Called(Wait)] + Outputs(output)) == [EvRunning(pid, argv)] + output
  {
    var start := [Moved(Running), Journaled(EvRunning(pid, argv))];
    Kinds2(start[0], start[1]);
    KindsMore(start, Called(Wait));
    assert start + [Called(Wait)] == [start[0], start[1], Called(Wait)];
    KindsConcat([start[0], start[1], Called(Wait)], Outputs(output));
    KindsOutputs(output);
  }

  lemma FollowTells(ctx: Context, s: Script, b: Binary)
    requires s.spawn.Ok? && BinaryOf(s) == Some(b)
    ensures Kinds(FollowOf(ctx, s, s.spawn.value).trace) == RunStory(ctx, s, b)
  {
    var started := [Moved(Running), Journaled(EvRunning(s.spawn.value.pid, ArgvOf(ctx, s))), Called(Wait)];
    StartedTells(s.spawn.value.pid, ctx.argv(b), s.output);
    if s.end.Ok? && s.end.value.Exited? && s.end.value.verdict.Some? {
      Kinds1(Journaled(EvVerdict(s.end.value.verdict.value)));
    }
    KindsThen(Phase(started + Outputs(s.output), None), EndOf(ctx, s));
  }

  lemma LaunchTells(ctx: Context, s: Script, b: Binary)
    requires BinaryOf(s) == Some(b)
    ensures Kinds(LaunchOf(ctx, s).trace) == if s.recordState.Ok? && s.spawn.Ok? then RunStory(ctx, s, b) else []
  {
    KindsNone([Called(RecordState)]);
    KindsNone([Called(RecordState), Called(Spawn)]);
    if s.recordState.Ok? && s.spawn.Ok? {
      FollowTells(ctx, s, b);
      KindsThen(Phase([Called(RecordState), Called(Spawn)], None), FollowOf(ctx, s, s.spawn.value));
    }
  }

  lemma CollectTells(s: Script)
    requires s.end.Ok? && s.end.value.Exited?
    ensures Kinds(CollectOf(s).trace) == if s.collect.Ok? then Artifacts(s.collect.value) else []
  {
    var asked := [Moved(Collecting), Called(Collect)];
    KindsNone(asked);
    if s.collect.Ok? {
      KindsConcat(asked, Outputs(Artifacts(s.collect.value)));
      KindsOutputs(Artifacts(s.collect.value));
    }
  }

  lemma CheckedTells(ctx: Context, s: Script, b: Binary)
    requires BinaryOf(s) == Some(b)
    ensures Kinds(Then(CheckOf(ctx, s), LaunchOf(ctx, s)).trace)
         == if !s.cancelledBuilt && Accepted(ctx, s) && s.recordState.Ok? && s.spawn.Ok? then RunStory(ctx, s, b) else []
  {
    KindsThen(CheckOf(ctx, s), LaunchOf(ctx, s));
    CheckTells(ctx, s);
    CheckStops(ctx, s, CheckOf(ctx, s).stop);
    LaunchTells(ctx, s, b);
  }

  lemma BinaryIsThere(s: Script)
    ensures BinaryOf(s).Some? <==> s.cachedBinary.Ok? && !BuildFailed(s)
  {
  }

  lemma BuildingTells(ctx: Context, s: Script)
    ensures Kinds(BuildingOf(ctx, s).trace)
         == BuildStory(s)
            + if BinaryOf(s).Some? && !s.cancelledBuilt && Accepted(ctx, s) && s.recordState.Ok? && s.spawn.Ok?
              then RunStory(ctx, s, BinaryOf(s).value) else []
  {
    KindsThen(ResolveOf(ctx, s), Then(CheckOf(ctx, s), LaunchOf(ctx, s)));
    ResolveTells(ctx, s);
    ResolveStops(ctx, s, ResolveOf(ctx, s).stop);
    BinaryIsThere(s);
    if BinaryOf(s).Some? {
      CheckedTells(ctx, s, BinaryOf(s).value);
    }
  }

  lemma RunningTells(ctx: Context, s: Script)
    ensures Kinds(RunningOf(ctx, s).trace)
         == When(Published(ctx, s), [EvPreparing(ctx.sha, s.hasCommit == Ok(false))])
            + When(Prepared(ctx, s) && !s.cancelledPrepared, BuildStory(s))
            + if Ran(ctx, s) then RunStory(ctx, s, BinaryOf(s).value) else []
  {
    KindsThen(PrepareOf(ctx, s), BuildingOf(ctx, s));
    PrepareTells(ctx, s);
    BuildingTells(ctx, s);
    BinaryIsThere(s);
    PrepareStops(ctx, s, PrepareOf(ctx, s).stop);
  }

  lemma LifeParts(ctx: Context, s: Script)
    ensures RunningOf(ctx, s).stop.None? <==> EndedItself(ctx, s)
    ensures Kinds(PhasesOf(ctx, s).trace)
         == Kinds(RunningOf(ctx, s).trace) + if EndedItself(ctx, s) then Kinds(CollectOf(s).trace) else []
  {
    PrepareStops(ctx, s, PrepareOf(ctx, s).stop);
    ResolveStops(ctx, s, ResolveOf(ctx, s).stop);
    CheckStops(ctx, s, CheckOf(ctx, s).stop);
    LaunchStops(ctx, s, LaunchOf(ctx, s).stop);
    if RunningOf(ctx, s).stop.None? {
      KindsThen(RunningOf(ctx, s), CollectOf(s));
    }
  }

  lemma EndTells(trace: seq<Entry>, o: Outcome)
    ensures Kinds(trace + [Journaled(EvDone(o)), Moved(Done)]) == Kinds(trace) + [EvDone(o)]
  {
    Kinds2(Journaled(EvDone(o)), Moved(Done));
    KindsConcat(trace, [Journaled(EvDone(o)), Moved(Done)]);
  }

  /** One event for each artifact collected. */
  function RecordStory(ctx: Context, s: Script): seq<EventKind> {
    if EndedItself(ctx, s) && s.collect.Ok? then
      seq(|s.collect.value|, i requires 0 <= i < |s.collect.value| => EvArtifact(s.collect.value[i]))
    else []
  }

  lemma PhasesTell(ctx: Context, s: Script)
    ensures Kinds(PhasesOf(ctx, s).trace) == Kinds(RunningOf(ctx, s).trace) + RecordStory(ctx, s)
  {
    LifeParts(ctx, s);
    if EndedItself(ctx, s) {
      CollectTells(s);
    }
  }

  /** Everything a life journals, in order: that it is preparing, once the commit is here and
      published; where the binary came from, once prepared; the child and its words, once
      started; its records, once collected; and the outcome. */
  lemma LifeTells(ctx: Context, s: Script, trace: seq<Entry>, o: Outcome)
    requires (trace, o) == Life(ctx, s)
    ensures Kinds(trace)
         == When(Published(ctx, s), [EvPreparing(ctx.sha, s.hasCommit == Ok(false))])
            + When(Prepared(ctx, s) && !s.cancelledPrepared, BuildStory(s))
            + (if Ran(ctx, s) then RunStory(ctx, s, BinaryOf(s).value) else [])
            + RecordStory(ctx, s) + [EvDone(o)]
  {
    EndTells(PhasesOf(ctx, s).trace, o);
    PhasesTell(ctx, s);
    RunningTells(ctx, s);
  }
}
