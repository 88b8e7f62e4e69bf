/** What every life of a job has in common, whatever its ports answer. */
module MachineLife {
  import opened Wrappers
  import opened Events
  import opened Machine

  // ---- The journal's grammar --------------------------------------------------

  /** Preparing Build Built Running (Log | Progress)* Verdict? Artifact*, where one `Done`
      may come at any point and ends it. */
  datatype Place = AtStart | AtBuild | AtBuilt | AtRunning | AtOutput | AtArtifacts | Gathering | AtEnd | Never

  function After(g: Place, kind: EventKind): Place {
    if kind.EvDone? then (if g == Never || g == AtEnd then Never else AtEnd)
    else
      match g
      case AtStart => if kind.EvPreparing? then AtBuild else Never
      case AtBuild => if kind.EvBuild? then AtBuilt else Never
      case AtBuilt => if kind.EvBuilt? then AtRunning else Never
      case AtRunning => if kind.EvRunning? then AtOutput else Never
      case AtOutput =>
        if kind.EvLog? || kind.EvProgress? then AtOutput
        else if kind.EvVerdict? then AtArtifacts
        else if kind.EvArtifact? then Gathering
        else Never
      case AtArtifacts => if kind.EvArtifact? then Gathering else Never
      case Gathering => if kind.EvArtifact? then Gathering else Never
      case AtEnd => Never
      case Never => Never
  }

  function Reads(g: Place, kinds: seq<EventKind>): Place
    decreases |kinds|
  {
    if kinds == [] then g else Reads(After(g, kinds[0]), kinds[1..])
  }

  function Said(e: Entry): seq<EventKind> {
    match e
    case Journaled(kind) => [kind]
    case _ => []
  }

  /** What a trace journals. */
  function Kinds(trace: seq<Entry>): seq<EventKind> {
    if trace == [] then [] else Said(trace[0]) + Kinds(trace[1..])
  }

  lemma {:induction false} KindsConcat(a: seq<Entry>, b: seq<Entry>)
    ensures Kinds(a + b) == Kinds(a) + Kinds(b)
  {
    if a == [] {
      assert a + b == b;
    } else {
      KindsConcat(a[1..], b);
      assert (a + b)[1..] == a[1..] + b && (a + b)[0] == a[0];
      assert Said(a[0]) + (Kinds(a[1..]) + Kinds(b)) == Said(a[0]) + Kinds(a[1..]) + Kinds(b);
    }
  }

  lemma KindsMore(a: seq<Entry>, e: Entry)
    ensures Kinds(a + [e]) == Kinds(a) + Said(e)
  {
    KindsConcat(a, [e]);
    assert [e][1..] == [] && Kinds([e]) == Said(e) + Kinds([]) == Said(e);
  }

  // ---- Watching a trace -------------------------------------------------------

  /** How far the journal's grammar, the stages and the child have come. */
  datatype Watch = Watch(place: Place, stage: nat, forward: bool, spawned: nat, snapshot: bool)

  function See(w: Watch, e: Entry): Watch {
    match e
    case Journaled(kind) => w.(place := After(w.place, kind), snapshot := false)
    case Moved(state) => w.(stage := state.Stage(), forward := w.forward && w.stage < state.Stage(), snapshot := false)
    case Saved => w.(snapshot := false)
    case Called(call) =>
      if call.Spawn? then w.(spawned := w.spawned + 1, forward := w.forward && w.snapshot, snapshot := false)
      else w.(snapshot := call.RecordState?)
  }

  function SeeAll(w: Watch, trace: seq<Entry>): Watch
    decreases |trace|
  {
    if trace == [] then w else SeeAll(See(w, trace[0]), trace[1..])
  }

  lemma {:induction false} SeeConcat(w: Watch, a: seq<Entry>, b: seq<Entry>)
    ensures SeeAll(w, a + b) == SeeAll(SeeAll(w, a), b)
    decreases |a|
  {
    if a == [] {
      assert a + b == b;
    } else {
      SeeConcat(See(w, a[0]), a[1..], b);
      assert (a + b)[1..] == a[1..] + b;
    }
  }

  lemma {:induction false} SeeReads(w: Watch, trace: seq<Entry>)
    ensures SeeAll(w, trace).place == Reads(w.place, Kinds(trace))
    decreases |trace|
  {
    if trace != [] {
      SeeReads(See(w, trace[0]), trace[1..]);
      match trace[0] {
        case Journaled(kind) => assert Kinds(trace)[1..] == Kinds(trace[1..]);
        case _ => assert Kinds(trace) == Kinds(trace[1..]);
      }
    }
  }

  lemma Sees1(w: Watch, a: Entry)
    ensures SeeAll(w, [a]) == See(w, a)
  {
    assert [a][1..] == [];
  }

  lemma Sees2(w: Watch, a: Entry, b: Entry)
    ensures SeeAll(w, [a, b]) == See(See(w, a), b)
  {
    assert [a, b][1..] == [b];
    Sees1(See(w, a), b);
  }

  lemma Sees3(w: Watch, a: Entry, b: Entry, c: Entry)
    ensures SeeAll(w, [a, b, c]) == See(See(See(w, a), b), c)
  {
    assert [a, b, c][1..] == [b, c];
    Sees2(See(w, a), b, c);
  }

  /** A trace that only asks, and never to spawn, changes nothing watched. */
  ghost predicate OnlyAsks(trace: seq<Entry>) {
    forall i | 0 <= i < |trace| :: trace[i].Called? && !trace[i].call.Spawn?
  }

  lemma {:induction false} AskingSees(w: Watch, trace: seq<Entry>)
    requires OnlyAsks(trace)
    ensures SeeAll(w, trace) == w.(snapshot := SeeAll(w, trace).snapshot)
    decreases |trace|
  {
    if trace != [] {
      AskingSees(See(w, trace[0]), trace[1..]);
    }
  }

  lemma ThenSees(w: Watch, p: Phase, q: Phase)
    ensures SeeAll(w, Then(p, q).trace)
         == if p.stop.Some? then SeeAll(w, p.trace) else SeeAll(SeeAll(w, p.trace), q.trace)
  {
    SeeConcat(w, p.trace, q.trace);
  }

  // ---- Phase by phase ---------------------------------------------------------

  /** Nothing watched has gone wrong, and no stage past `stage` has been entered. */
  ghost predicate Fine(w: Watch, stage: nat) {
    w.forward && w.place != Never && w.place != AtEnd && w.stage <= stage
  }

  /** What a phase leaves, seen from `w`: fine if it stopped, and otherwise just here. */
  ghost predicate Leaves(w: Watch, p: Phase, place: Place, stage: nat, after: Watch)
  {
    && after == SeeAll(w, p.trace)
    && Fine(after, stage)
    && (p.stop.None? ==> after.place == place && after.stage == stage)
  }

  lemma WorktreeSees(ctx: Context, s: Script, fetched: bool, w: Watch, after: Watch)
    requires w.place == AtStart && w.stage == 1 && w.forward
    requires after == SeeAll(w, WorktreeOf(ctx, s, fetched).trace)
    ensures Leaves(w, WorktreeOf(ctx, s, fetched), AtBuild, 1, after) && after.spawned == w.spawned
  {
    Sees2(w, Journaled(EvPreparing(ctx.sha, fetched)), Called(Worktree));
  }

  lemma CommitSees(s: Script, w: Watch, after: Watch)
    requires w.place == AtStart && w.stage == 0 && w.forward
    requires after == SeeAll(w, [Moved(Preparing)] + CommitOf(s).0)
    ensures after.place == AtStart && after.stage == 1 && after.forward && after.spawned == w.spawned
  {
    Sees1(w, Moved(Preparing));
    SeeConcat(w, [Moved(Preparing)], CommitOf(s).0);
    AskingSees(See(w, Moved(Preparing)), CommitOf(s).0);
  }

  lemma PrepareSees(ctx: Context, s: Script, w: Watch, after: Watch)
    requires w.place == AtStart && w.stage == 0 && w.forward && after == SeeAll(w, PrepareOf(ctx, s).trace)
    ensures Leaves(w, PrepareOf(ctx, s), AtBuild, 1, after) && after.spawned == w.spawned
  {
    var (asked, fetched) := CommitOf(s);
    var moved := SeeAll(w, [Moved(Preparing)] + asked);
    CommitSees(s, w, moved);
    if fetched.Ok? {
      var published, worktree := PublishedOf(ctx, s), WorktreeOf(ctx, s, fetched.value);
      AskingSees(moved, published.trace);
      WorktreeSees(ctx, s, fetched.value, SeeAll(moved, published.trace), SeeAll(SeeAll(moved, published.trace), worktree.trace));
      ThenSees(moved, published, worktree);
      ThenSees(w, Phase([Moved(Preparing)] + asked, None), Then(published, worktree));
    }
  }

  lemma FreshSees(ctx: Context, s: Script, miss: CacheMiss, w: Watch, after: Watch)
    requires w.place == AtBuild && w.stage == 2 && w.forward && after == SeeAll(w, FreshOf(ctx, s, miss).trace)
    ensures Leaves(w, FreshOf(ctx, s, miss), AtRunning, 2, after) && after.spawned == w.spawned
  {
    var asked := [Journaled(EvBuild(false, MissText(miss))), Called(Build)];
    Sees2(w, asked[0], asked[1]);
    if s.build.Ok? {
      var built := Journaled(EvBuilt(s.build.value.binary.sha256, false, s.build.value.secs));
      SeeConcat(w, asked, [built, Saved]);
      Sees2(See(See(w, asked[0]), asked[1]), built, Saved);
    }
  }

  lemma ResolveSees(ctx: Context, s: Script, w: Watch, after: Watch)
    requires w.place == AtBuild && w.stage == 1 && w.forward && after == SeeAll(w, ResolveOf(ctx, s).trace)
    ensures Leaves(w, ResolveOf(ctx, s), AtRunning, 2, after) && after.spawned == w.spawned
  {
    var asked := Phase([Moved(Building), Called(CachedBinary)], None);
    var moved := See(See(w, Moved(Building)), Called(CachedBinary));
    Sees2(w, Moved(Building), Called(CachedBinary));
    match s.cachedBinary {
      case Err(_) =>
      case Ok(Ok(b)) =>
        var taken := [Journaled(EvBuild(true, "cache hit")), Journaled(EvBuilt(b.sha256, true, 0)), Saved];
        ThenSees(w, asked, Phase(taken, None));
        Sees3(moved, taken[0], taken[1], taken[2]);
      case Ok(Err(miss)) =>
        ThenSees(w, asked, FreshOf(ctx, s, miss));
        FreshSees(ctx, s, miss, moved, SeeAll(moved, FreshOf(ctx, s, miss).trace));
    }
  }

  lemma CheckSees(ctx: Context, s: Script, w: Watch, after: Watch)
    requires w.place == AtRunning && w.stage == 2 && w.forward && after == SeeAll(w, CheckOf(ctx, s).trace)
    ensures Leaves(w, CheckOf(ctx, s), AtRunning, 2, after) && after.spawned == w.spawned
  {
    AskingSees(w, CheckOf(ctx, s).trace);
  }

  /** What the ports promise of the child's output. */
  ghost predicate OnlyOutput(kinds: seq<EventKind>) {
    forall i | 0 <= i < |kinds| :: kinds[i].EvLog? || kinds[i].EvProgress?
  }

  lemma {:induction false} OutputSees(w: Watch, kinds: seq<EventKind>)
    requires OnlyOutput(kinds) && w.place == AtOutput && !w.snapshot
    ensures SeeAll(w, Outputs(kinds)) == w
    decreases |kinds|
  {
    if kinds != [] {
      OutputSees(w, kinds[1..]);
      assert Outputs(kinds)[1..] == Outputs(kinds[1..]);
    }
  }

  lemma {:induction false} ArtifactsSee(w: Watch, artifacts: seq<ArtifactMeta>)
    requires w.place in {AtOutput, AtArtifacts, Gathering} && w.forward
    ensures var after := SeeAll(w, Outputs(Artifacts(artifacts)));
      after.place in {AtOutput, AtArtifacts, Gathering} && after.forward
      && after.stage == w.stage && after.spawned == w.spawned
    decreases |artifacts|
  {
    var trace := Outputs(Artifacts(artifacts));
    if artifacts != [] {
      ArtifactsSee(See(w, trace[0]), artifacts[1..]);
      assert trace[1..] == Outputs(Artifacts(artifacts[1..]));
    }
  }

  lemma EndSees(ctx: Context, s: Script, w: Watch, after: Watch)
    requires w == Watch(AtOutput, 3, true, w.spawned, false) && after == SeeAll(w, EndOf(ctx, s).trace)
    ensures Fine(after, 3) && after.stage == 3 && after.place in {AtOutput, AtArtifacts} && after.spawned == w.spawned
  {
    if s.end.Ok? && s.end.value.Exited? && s.end.value.verdict.Some? {
      Sees1(w, Journaled(EvVerdict(s.end.value.verdict.value)));
    }
  }

  lemma FollowSees(ctx: Context, s: Script, child: Child, w: Watch, after: Watch)
    requires w.place == AtRunning && w.stage == 2 && w.forward && OnlyOutput(s.output)
    requires after == SeeAll(w, FollowOf(ctx, s, child).trace)
    ensures Fine(after, 3) && after.stage == 3 && after.place in {AtOutput, AtArtifacts} && after.spawned == w.spawned
  {
    var started := [Moved(Running), Journaled(EvRunning(child.pid, ArgvOf(ctx, s))), Called(Wait)];
    var running := Watch(AtOutput, 3, true, w.spawned, false);
    Sees3(w, started[0], started[1], started[2]);
    SeeConcat(w, started, Outputs(s.output));
    OutputSees(running, s.output);
    EndSees(ctx, s, running, SeeAll(running, EndOf(ctx, s).trace));
    ThenSees(w, Phase(started + Outputs(s.output), None), EndOf(ctx, s));
  }

  /** Launching asks for the snapshot, spawns at once, and only then moves on. */
  lemma LaunchSees(ctx: Context, s: Script, w: Watch, after: Watch)
    requires w.place == AtRunning && w.stage == 2 && w.forward && OnlyOutput(s.output)
    requires after == SeeAll(w, LaunchOf(ctx, s).trace)
    ensures Fine(after, 3)
    ensures LaunchOf(ctx, s).stop.None? ==> after.stage == 3 && after.place in {AtOutput, AtArtifacts}
    ensures after.spawned == w.spawned + if s.recordState.Ok? then 1 else 0
  {
    var asked := [Called(RecordState), Called(Spawn)];
    Sees1(w, Called(RecordState));
    Sees2(w, Called(RecordState), Called(Spawn));
    if s.recordState.Ok? && s.spawn.Ok? {
      var follow := FollowOf(ctx, s, s.spawn.value);
      ThenSees(w, Phase(asked, None), follow);
      FollowSees(ctx, s, s.spawn.value, SeeAll(w, asked), SeeAll(SeeAll(w, asked), follow.trace));
    }
  }

  lemma CollectSees(s: Script, w: Watch, after: Watch)
    requires s.end.Ok? && s.end.value.Exited?
    requires w.place in {AtOutput, AtArtifacts} && w.stage == 3 && w.forward && after == SeeAll(w, CollectOf(s).trace)
    ensures Fine(after, 4) && after.spawned == w.spawned
  {
    var asked := [Moved(Collecting), Called(Collect)];
    var moved := See(See(w, asked[0]), asked[1]);
    Sees2(w, asked[0], asked[1]);
    if s.collect.Ok? {
      SeeConcat(w, asked, Outputs(Artifacts(s.collect.value)));
      ArtifactsSee(moved, s.collect.value);
    }
  }

  // ---- The whole life ---------------------------------------------------------

  /** Every check a child waits for. */
  predicate CommitHere(s: Script) {
    s.hasCommit == Ok(true) || (s.hasCommit == Ok(false) && s.fetch.None? && s.hasCommitThen == Ok(true))
  }

  predicate Cleared(ctx: Context, s: Script) {
    && CommitHere(s) && (ctx.allowUnpublished || s.published == Ok(true))
    && s.worktree.Ok? && !s.cancelledPrepared
    && BinaryOf(s).Some? && !s.cancelledBuilt && s.recipes.None?
    && s.knownGates.Ok? && ctx.gate in s.knownGates.value
    && s.badParams == Ok([]) && s.recordState.Ok?
  }

  /** Without the last check, whether the snapshot could be taken. */
  predicate Checked(ctx: Context, s: Script) {
    PrepareOf(ctx, s).stop.None? && ResolveOf(ctx, s).stop.None? && CheckOf(ctx, s).stop.None?
  }

  lemma ClearedIsChecked(ctx: Context, s: Script)
    ensures Cleared(ctx, s) <==> Checked(ctx, s) && s.recordState.Ok?
  {
  }

  lemma BuildingSees(ctx: Context, s: Script, w: Watch, p: Phase, after: Watch)
    requires w.place == AtBuild && w.stage == 1 && w.forward && OnlyOutput(s.output)
    requires p == BuildingOf(ctx, s) && after == SeeAll(w, p.trace)
    ensures Fine(after, 3)
    ensures p.stop.None? ==> after.stage == 3 && after.place in {AtOutput, AtArtifacts}
    ensures after.spawned == w.spawned
      + if ResolveOf(ctx, s).stop.None? && CheckOf(ctx, s).stop.None? && s.recordState.Ok? then 1 else 0
  {
    var resolved := SeeAll(w, ResolveOf(ctx, s).trace);
    ResolveSees(ctx, s, w, resolved);
    ThenSees(w, ResolveOf(ctx, s), Then(CheckOf(ctx, s), LaunchOf(ctx, s)));
    if ResolveOf(ctx, s).stop.None? {
      var checked := SeeAll(resolved, CheckOf(ctx, s).trace);
      CheckSees(ctx, s, resolved, checked);
      ThenSees(resolved, CheckOf(ctx, s), LaunchOf(ctx, s));
      if CheckOf(ctx, s).stop.None? {
        LaunchSees(ctx, s, checked, SeeAll(checked, LaunchOf(ctx, s).trace));
      }
    }
  }

  lemma RunningSees(ctx: Context, s: Script, w: Watch, p: Phase, after: Watch)
    requires w.place == AtStart && w.stage == 0 && w.forward && OnlyOutput(s.output)
    requires p == RunningOf(ctx, s) && after == SeeAll(w, p.trace)
    ensures Fine(after, 3)
    ensures p.stop.None? ==> after.stage == 3 && after.place in {AtOutput, AtArtifacts}
    ensures after.spawned == w.spawned + if Cleared(ctx, s) then 1 else 0
  {
    var building := BuildingOf(ctx, s);
    var prepared := SeeAll(w, PrepareOf(ctx, s).trace);
    ClearedIsChecked(ctx, s);
    PrepareSees(ctx, s, w, prepared);
    ThenSees(w, PrepareOf(ctx, s), building);
    if PrepareOf(ctx, s).stop.None? {
      BuildingSees(ctx, s, prepared, building, SeeAll(prepared, building.trace));
    }
  }

  const NEWBORN := Watch(AtStart, 0, true, 0, false)

  /** Up to its end a life is fine: no `Done` said, no stage past collecting entered. */
  lemma PhasesSee(ctx: Context, s: Script, last: Watch)
    requires OnlyOutput(s.output) && last == SeeAll(NEWBORN, PhasesOf(ctx, s).trace)
    ensures Fine(last, 4) && last.spawned == if Cleared(ctx, s) then 1 else 0
  {
    var running := RunningOf(ctx, s);
    var ran := SeeAll(NEWBORN, running.trace);
    RunningSees(ctx, s, NEWBORN, running, ran);
    if running.stop.None? {
      ThenSees(NEWBORN, running, CollectOf(s));
      CollectSees(s, ran, SeeAll(ran, CollectOf(s).trace));
    }
  }

  /** Every life, whatever the ports answer: its events follow the grammar and end in the
      one `Done`; its stages only move forward, to `Done`; and it spawns at most once,
      exactly when every check passed, straight after the snapshot of the records. */
  lemma EveryLife(ctx: Context, s: Script)
    requires OnlyOutput(s.output)
    ensures Reads(AtStart, Kinds(Life(ctx, s).0)) == AtEnd
    ensures SeeAll(NEWBORN, Life(ctx, s).0) == Watch(AtEnd, Done.Stage(), true, if Cleared(ctx, s) then 1 else 0, false)
  {
    var p := PhasesOf(ctx, s);
    var end := [Journaled(EvDone(p.stop.value)), Moved(Done)];
    var last := SeeAll(NEWBORN, p.trace);
    PhasesSee(ctx, s, last);
    SeeConcat(NEWBORN, p.trace, end);
    Sees2(last, end[0], end[1]);
    SeeReads(NEWBORN, p.trace + end);
  }

  lemma {:induction false} FirstIsListed(artifacts: seq<ArtifactMeta>, kind: ArtifactKind)
    ensures FirstOf(artifacts, kind).Some? <==> exists i :: 0 <= i < |artifacts| && artifacts[i].kind == kind
  {
    if artifacts != [] {
      FirstIsListed(artifacts[1..], kind);
      if artifacts[0].kind == kind {
        assert artifacts[0].kind == kind;
      } else if FirstOf(artifacts[1..], kind).Some? {
        var i :| 0 <= i < |artifacts[1..]| && artifacts[1..][i].kind == kind;
        assert artifacts[i + 1].kind == kind;
      } else {
        forall i | 0 <= i < |artifacts|
          ensures artifacts[i].kind != kind
        {
          assert i > 0 ==> artifacts[i] == artifacts[1..][i - 1];
        }
      }
    }
  }

  /** A life completes exactly when it was cleared, its child started, ended by itself, its
      records were collected, and, if it exited 0, a gate record was among them. */
  lemma CompletesExactly(ctx: Context, s: Script)
    ensures Life(ctx, s).1.Completed? <==>
      && Cleared(ctx, s) && s.spawn.Ok? && s.end.Ok? && s.end.value.Exited? && s.collect.Ok?
      && (s.end.value.code == 0 ==> exists i :: 0 <= i < |s.collect.value| && s.collect.value[i].kind == Record)
    ensures Life(ctx, s).1.Completed? ==>
      && Life(ctx, s).1.exitCode == s.end.value.code && Life(ctx, s).1.verdict == s.end.value.verdict
      && (s.end.value.code == 0 ==> Life(ctx, s).1.record.Some?)
  {
    ClearedIsChecked(ctx, s);
    if s.collect.Ok? {
      FirstIsListed(s.collect.value, Record);
    }
    var running := RunningOf(ctx, s);
    assert running.stop.None? <==> Cleared(ctx, s) && s.spawn.Ok? && s.end.Ok? && s.end.value.Exited?;
    if running.stop.Some? {
      StopsShort(ctx, s);
    }
  }

  lemma StopsShort(ctx: Context, s: Script)
    requires RunningOf(ctx, s).stop.Some?
    ensures !RunningOf(ctx, s).stop.value.Completed?
  {
  }
}
