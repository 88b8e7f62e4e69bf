/** The life of a benchmark job as a function of everything the machine under it answers.

    The ports' answers are a script: `run` asks each question at most once (whether the
    commit is here, twice), so every behaviour of the machine it runs on is one script. */
module Machine {
  import opened Wrappers
  import opened Events

  datatype Binary = Binary(path: string, sha256: string)

  datatype CacheMiss = NoBuild | NoProvenance | WrongSha(found: string) | HashMismatch

  datatype Built = Built(binary: Binary, secs: nat)

  datatype RunEnd =
    | Exited(code: int, verdict: Option<Verdict>)
    | Stalled(afterS: nat)
    | OverTime(afterS: nat)
    | Stopped

  datatype Script = Script(
    hasCommit: Result<bool, string>,
    fetch: Option<string>,
    hasCommitThen: Result<bool, string>,
    published: Result<bool, string>,
    worktree: Result<string, string>,
    cancelledPrepared: bool,
    cachedBinary: Result<Result<Binary, CacheMiss>, string>,
    build: Result<Built, string>,
    cancelledBuilding: bool,
    cancelledBuilt: bool,
    recipes: Option<string>,
    knownGates: Result<seq<string>, string>,
    badParams: Result<seq<string>, string>,
    recordState: Result<map<string, nat>, string>,
    spawn: Result<Child, string>,
    output: seq<EventKind>,
    end: Result<RunEnd, string>,
    collect: Result<seq<ArtifactMeta>, string>)

  datatype Context = Context(local: nat, sha: string, gate: string, argv: Binary -> seq<string>, allowUnpublished: bool)

  /** What a life does, in order: questions to the ports, events journaled, records saved. */
  datatype Entry = Called(call: Call) | Journaled(kind: EventKind) | Moved(state: JobState) | Saved

  datatype Call =
    | HasCommit | Fetch | Published | Worktree | CachedBinary | Build | EnsureRecipes
    | KnownGates | BadParams | RecordState | Spawn | Wait | Collect

  /** A stretch of a life, and the outcome if it ended there. */
  datatype Phase = Phase(trace: seq<Entry>, stop: Option<Outcome>)

  function Stop(trace: seq<Entry>, outcome: Outcome): Phase {
    Phase(trace, Some(outcome))
  }

  function Fail(trace: seq<Entry>, stage: JobState, reason: string): Phase {
    Stop(trace, Failed(stage, reason))
  }

  function Then(p: Phase, q: Phase): Phase {
    if p.stop.Some? then p else Phase(p.trace + q.trace, q.stop)
  }

  // ---- Preparing --------------------------------------------------------------

  /** Whether the commit is here, fetching once when it is not. */
  function CommitOf(s: Script): (seq<Entry>, Result<bool, string>) {
    match s.hasCommit
    case Ok(true) => ([Called(HasCommit)], Ok(false))
    case Ok(false) =>
      (match s.fetch
       case Some(e) => ([Called(HasCommit), Called(Fetch)], Err("fetch failed: " + e))
       case None =>
         ([Called(HasCommit), Called(Fetch), Called(HasCommit)],
          match s.hasCommitThen
          case Ok(true) => Ok(true)
          case Ok(false) => Err("not on the remote")
          case Err(e) => Err(e)))
    case Err(e) => ([Called(HasCommit)], Err(e))
  }

  function PublishedOf(ctx: Context, s: Script): Phase {
    if ctx.allowUnpublished then Phase([], None)
    else
      match s.published
      case Ok(true) => Phase([Called(Published)], None)
      case Ok(false) => Fail([Called(Published)], Preparing, "not published")
      case Err(e) => Fail([Called(Published)], Preparing, e)
  }

  function WorktreeOf(ctx: Context, s: Script, fetched: bool): Phase {
    var trace := [Journaled(EvPreparing(ctx.sha, fetched)), Called(Worktree)];
    match s.worktree
    case Err(e) => Fail(trace, Preparing, "worktree: " + e)
    case Ok(_) => if s.cancelledPrepared then Stop(trace, Cancelled(ctx.local)) else Phase(trace, None)
  }

  function PrepareOf(ctx: Context, s: Script): Phase {
    var (asked, fetched) := CommitOf(s);
    match fetched
    case Err(e) => Fail([Moved(Preparing)] + asked, Preparing, e)
    case Ok(f) => Then(Phase([Moved(Preparing)] + asked, None), Then(PublishedOf(ctx, s), WorktreeOf(ctx, s, f)))
  }

  // ---- Building ---------------------------------------------------------------

  function MissText(miss: CacheMiss): string {
    match miss
    case NoBuild => "no build for this commit"
    case NoProvenance => "a build directory with no provenance"
    case WrongSha(found) => "provenance names " + found
    case HashMismatch => "binary hash does not match its provenance"
  }

  /** The binary a life runs, when it gets one. */
  function BinaryOf(s: Script): Option<Binary> {
    match s.cachedBinary
    case Ok(Ok(b)) => Some(b)
    case Ok(Err(_)) => if s.build.Ok? then Some(s.build.value.binary) else None
    case Err(_) => None
  }

  function FreshOf(ctx: Context, s: Script, miss: CacheMiss): Phase {
    var asked := [Journaled(EvBuild(false, MissText(miss))), Called(Build)];
    match s.build
    case Ok(r) => Phase(asked + [Journaled(EvBuilt(r.binary.sha256, false, r.secs)), Saved], None)
    case Err(e) => if s.cancelledBuilding then Stop(asked, Cancelled(ctx.local)) else Fail(asked, Building, e)
  }

  function ResolveOf(ctx: Context, s: Script): Phase {
    var asked := Phase([Moved(Building), Called(CachedBinary)], None);
    match s.cachedBinary
    case Err(e) => Fail(asked.trace, Building, e)
    case Ok(Ok(b)) =>
      Then(asked, Phase([Journaled(EvBuild(true, "cache hit")), Journaled(EvBuilt(b.sha256, true, 0)), Saved], None))
    case Ok(Err(miss)) => Then(asked, FreshOf(ctx, s, miss))
  }

  function CheckOf(ctx: Context, s: Script): Phase {
    if s.cancelledBuilt then Stop([], Cancelled(ctx.local))
    else if s.recipes.Some? then Fail([Called(EnsureRecipes)], Building, "recipes: " + s.recipes.value)
    else
      var asked := [Called(EnsureRecipes), Called(KnownGates)];
      match s.knownGates
      case Err(e) => Fail(asked, Building, e)
      case Ok(known) =>
        if ctx.gate !in known then Fail(asked, Building, "unknown gate")
        else
          match s.badParams
          case Err(e) => Fail(asked + [Called(BadParams)], Building, e)
          case Ok(bad) =>
            if bad != [] then Fail(asked + [Called(BadParams)], Building, "params not accepted")
            else Phase(asked + [Called(BadParams)], None)
  }

  // ---- Running ----------------------------------------------------------------

  function Outputs(kinds: seq<EventKind>): seq<Entry> {
    seq(|kinds|, i requires 0 <= i < |kinds| => Journaled(kinds[i]))
  }

  function EndOf(ctx: Context, s: Script): (p: Phase)
    ensures p.stop.None? ==> s.end.Ok? && s.end.value.Exited?
  {
    match s.end
    case Err(e) => Fail([], Running, e)
    case Ok(Exited(_, verdict)) =>
      (match verdict
       case None => Phase([], None)
       case Some(v) => Phase([Journaled(EvVerdict(v))], None))
    case Ok(Stalled(afterS)) => Stop([], TimedOut(Running, afterS))
    case Ok(OverTime(afterS)) => Stop([], TimedOut(Running, afterS))
    case Ok(Stopped) => Stop([], Cancelled(ctx.local))
  }

  function ArgvOf(ctx: Context, s: Script): seq<string> {
    match BinaryOf(s)
    case Some(b) => ctx.argv(b)
    case None => []
  }

  /** From a started child to its end: the move to Running comes only now. */
  function FollowOf(ctx: Context, s: Script, child: Child): (p: Phase)
    ensures p.stop.None? ==> s.end.Ok? && s.end.value.Exited?
  {
    var started := [Moved(Running), Journaled(EvRunning(child.pid, ArgvOf(ctx, s))), Called(Wait)];
    Then(Phase(started + Outputs(s.output), None), EndOf(ctx, s))
  }

  function LaunchOf(ctx: Context, s: Script): (p: Phase)
    ensures p.stop.None? ==> s.end.Ok? && s.end.value.Exited?
  {
    match s.recordState
    case Err(e) => Fail([Called(RecordState)], Running, "reading the record dir: " + e)
    case Ok(_) =>
      var asked := [Called(RecordState), Called(Spawn)];
      match s.spawn
      case Err(e) => Fail(asked, Running, "spawn: " + e)
      case Ok(child) => Then(Phase(asked, None), FollowOf(ctx, s, child))
  }

  // ---- Collecting -------------------------------------------------------------

  /** The first artifact of a kind, as the outcome names it. */
  function FirstOf(artifacts: seq<ArtifactMeta>, kind: ArtifactKind): Option<string> {
    if artifacts == [] then None
    else if artifacts[0].kind == kind then Some(artifacts[0].relativePath)
    else FirstOf(artifacts[1..], kind)
  }

  function Artifacts(artifacts: seq<ArtifactMeta>): seq<EventKind> {
    seq(|artifacts|, i requires 0 <= i < |artifacts| => EvArtifact(artifacts[i]))
  }

  /** What a finished child came to: exit 0 without a gate record is a failure. */
  function Judged(code: int, verdict: Option<Verdict>, artifacts: seq<ArtifactMeta>): Outcome {
    if code == 0 && FirstOf(artifacts, Record).None? then Failed(Collecting, "no gate record")
    else Completed(code, verdict, FirstOf(artifacts, Record), FirstOf(artifacts, Signature))
  }

  function CollectOf(s: Script): (p: Phase)
    requires s.end.Ok? && s.end.value.Exited?
    ensures p.stop.Some?
  {
    var asked := [Moved(Collecting), Called(Collect)];
    match s.collect
    case Err(e) => Fail(asked, Collecting, e)
    case Ok(artifacts) =>
      Stop(asked + Outputs(Artifacts(artifacts)), Judged(s.end.value.code, s.end.value.verdict, artifacts))
  }

  // ---- The whole life ---------------------------------------------------------

  function BuildingOf(ctx: Context, s: Script): (p: Phase)
    ensures p.stop.None? ==> s.end.Ok? && s.end.value.Exited?
  {
    Then(ResolveOf(ctx, s), Then(CheckOf(ctx, s), LaunchOf(ctx, s)))
  }

  /** Up to the child's end. */
  function RunningOf(ctx: Context, s: Script): (p: Phase)
    ensures p.stop.None? ==> s.end.Ok? && s.end.value.Exited?
  {
    Then(PrepareOf(ctx, s), BuildingOf(ctx, s))
  }

  function PhasesOf(ctx: Context, s: Script): (p: Phase)
    ensures p.stop.Some?
  {
    var p := RunningOf(ctx, s);
    if p.stop.Some? then p else Then(p, CollectOf(s))
  }

  /** Everything `run` does, and the outcome it records. */
  function Life(ctx: Context, s: Script): (seq<Entry>, Outcome) {
    var p := PhasesOf(ctx, s);
    (p.trace + [Journaled(EvDone(p.stop.value)), Moved(Done)], p.stop.value)
  }
}
