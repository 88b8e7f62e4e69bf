/** The procedure itself: the record and the journal it changes, step by step. */
module MachineRun {
  import opened Wrappers
  import opened Events
  import opened JobStore
  import opened Machine
  import opened MachineLife

  lemma Joined(start: seq<Entry>, p: Phase, middle: seq<Entry>, q: Phase, end: seq<Entry>)
    requires p.stop.None? && middle == start + p.trace && end == middle + q.trace
    ensures end == start + Then(p, q).trace
  {
  }

  lemma OutputsMore(start: seq<Entry>, kinds: seq<EventKind>, i: nat)
    requires i < |kinds|
    ensures start + Outputs(kinds[..i]) + [Journaled(kinds[i])] == start + Outputs(kinds[..i + 1])
  {
    assert Outputs(kinds[..i + 1]) == Outputs(kinds[..i]) + [Journaled(kinds[i])];
  }

  lemma ArtifactsMore(start: seq<Entry>, artifacts: seq<ArtifactMeta>, i: nat)
    requires i < |artifacts|
    ensures start + Outputs(Artifacts(artifacts[..i])) + [Journaled(EvArtifact(artifacts[i]))]
         == start + Outputs(Artifacts(artifacts[..i + 1]))
  {
    OutputsMore(start, Artifacts(artifacts), i);
    assert Artifacts(artifacts)[..i] == Artifacts(artifacts[..i]);
    assert Artifacts(artifacts)[..i + 1] == Artifacts(artifacts[..i + 1]);
  }

  lemma JoinedEnd(start: seq<Entry>, p: Phase, o: Outcome, middle: seq<Entry>, end: seq<Entry>, life: seq<Entry>)
    requires middle == start + p.trace && end == middle + [Journaled(EvDone(o)), Moved(Done)]
    requires life == p.trace + [Journaled(EvDone(o)), Moved(Done)]
    ensures end == start + life && Kinds(end) == Kinds(start) + Kinds(life)
  {
    KindsConcat(start, life);
  }

  /** Which job it is and what was asked for. */
  predicate SameJob(a: JobRecord, b: JobRecord) {
    a.id == b.id && a.key == b.key && a.sender == b.sender && a.spec == b.spec && a.createdAtS == b.createdAtS
  }

  class Run {
    const ctx: Context
    const script: Script
    /** The record in hand, the record on disk, and the journal's events. */
    var job: JobRecord
    var stored: JobRecord
    var journal: seq<EventKind>
    ghost const before: seq<EventKind>
    ghost const given: JobRecord
    ghost var trace: seq<Entry>

    /** The journal holds what was there before this life and what this life has said, and
        the record is of the job it was given. */
    ghost predicate Valid()
      reads this
    {
      journal == before + Kinds(trace) && SameJob(job, given) && SameJob(stored, given)
    }

    constructor (ctx: Context, script: Script, job: JobRecord, journal: seq<EventKind>)
      ensures Valid() && this.ctx == ctx && this.script == script && this.job == job && this.journal == journal
      ensures before == journal && trace == [] && given == job
    {
      this.ctx, this.script, this.job, this.stored, this.journal := ctx, script, job, job, journal;
      this.before, this.trace, this.given := journal, [], job;
    }

    /** Note a question put to the ports; the answers are the script's. */
    ghost method Ask(call: Call)
      requires Valid()
      modifies `trace
      ensures Valid() && trace == old(trace) + [Called(call)]
    {
      KindsMore(trace, Called(call));
      trace := trace + [Called(call)];
    }

    method Transition(state: JobState)
      requires Valid()
      modifies `job, `stored, `trace
      ensures Valid() && trace == old(trace) + [Moved(state)]
      ensures job == old(job).(state := state, seqHigh := |journal|) && stored == job
    {
      job := job.(state := state, seqHigh := |journal|);
      stored := job;
      KindsMore(trace, Moved(state));
      trace := trace + [Moved(state)];
    }

    method Save()
      requires Valid()
      modifies `stored, `trace
      ensures Valid() && trace == old(trace) + [Saved] && stored == job
    {
      stored := job;
      KindsMore(trace, Saved);
      trace := trace + [Saved];
    }

    method Emit(kind: EventKind)
      requires Valid()
      modifies `job, `journal, `trace
      ensures Valid() && trace == old(trace) + [Journaled(kind)]
      ensures journal == old(journal) + [kind] && job == old(job).(seqHigh := |journal|)
    {
      journal := journal + [kind];
      job := job.(seqHigh := |journal|);
      KindsMore(trace, Journaled(kind));
      trace := trace + [Journaled(kind)];
    }

    /** The one way a life ends: the last event first, then the record that agrees with it. */
    method Finish(outcome: Outcome)
      requires Valid()
      modifies this
      ensures Valid() && trace == old(trace) + [Journaled(EvDone(outcome)), Moved(Done)]
      ensures journal == old(journal) + [EvDone(outcome)]
      ensures stored == job && stored.state == Done && stored.outcome == Some(outcome)
      ensures stored.seqHigh == |journal| && stored.child == None
      ensures stored.binarySha256 == old(job.binarySha256) && stored.recordsBefore == old(job.recordsBefore)
    {
      job := job.(child := None, outcome := Some(outcome));
      Emit(EvDone(outcome));
      Transition(Done);
    }

    method FindCommit() returns (fetched: Result<bool, string>)
      requires Valid()
      modifies `trace
      ensures Valid() && trace == old(trace) + CommitOf(script).0 && fetched == CommitOf(script).1
    {
      Ask(HasCommit);
      match script.hasCommit {
        case Ok(true) => fetched := Ok(false);
        case Ok(false) =>
          Ask(Fetch);
          match script.fetch {
            case Some(e) => fetched := Err("fetch failed: " + e);
            case None =>
              Ask(HasCommit);
              match script.hasCommitThen {
                case Ok(true) => fetched := Ok(true);
                case Ok(false) => fetched := Err("not on the remote");
                case Err(e) => fetched := Err(e);
              }
          }
        case Err(e) => fetched := Err(e);
      }
    }

    method CheckPublished() returns (stop: Option<Outcome>)
      requires Valid()
      modifies `trace
      ensures Valid() && trace == old(trace) + PublishedOf(ctx, script).trace && stop == PublishedOf(ctx, script).stop
    {
      stop := None;
      if !ctx.allowUnpublished {
        Ask(Published);
        match script.published {
          case Ok(true) =>
          case Ok(false) => stop := Some(Failed(Preparing, "not published"));
          case Err(e) => stop := Some(Failed(Preparing, e));
        }
      }
    }

    method FindWorktree(fetched: bool) returns (stop: Option<Outcome>)
      requires Valid()
      modifies `job, `journal, `trace
      ensures Valid() && trace == old(trace) + WorktreeOf(ctx, script, fetched).trace
      ensures stop == WorktreeOf(ctx, script, fetched).stop
    {
      Emit(EvPreparing(ctx.sha, fetched));
      Ask(Worktree);
      stop := None;
      match script.worktree {
        case Err(e) => stop := Some(Failed(Preparing, "worktree: " + e));
        case Ok(_) =>
          if script.cancelledPrepared {
            stop := Some(Cancelled(ctx.local));
          }
      }
    }

    method PublishAndPlace(fetched: bool) returns (stop: Option<Outcome>)
      requires Valid()
      modifies this
      ensures Valid() && trace == old(trace) + Then(PublishedOf(ctx, script), WorktreeOf(ctx, script, fetched)).trace
      ensures stop == Then(PublishedOf(ctx, script), WorktreeOf(ctx, script, fetched)).stop
    {
      ghost var start := trace;
      stop := CheckPublished();
      if stop.None? {
        ghost var published := trace;
        stop := FindWorktree(fetched);
        Joined(start, PublishedOf(ctx, script), published, WorktreeOf(ctx, script, fetched), trace);
      }
    }

    method Prepare() returns (stop: Option<Outcome>)
      requires Valid()
      modifies this
      ensures Valid() && trace == old(trace) + PrepareOf(ctx, script).trace && stop == PrepareOf(ctx, script).stop
    {
      ghost var start := trace;
      Transition(Preparing);
      var fetched := FindCommit();
      assert trace == start + ([Moved(Preparing)] + CommitOf(script).0);
      if fetched.Err? {
        return Some(Failed(Preparing, fetched.error));
      }
      ghost var found := trace;
      stop := PublishAndPlace(fetched.value);
      Joined(start, Phase([Moved(Preparing)] + CommitOf(script).0, None), found,
             Then(PublishedOf(ctx, script), WorktreeOf(ctx, script, fetched.value)), trace);
    }

    method TakeCached(b: Binary)
      requires Valid()
      modifies this
      ensures Valid()
      ensures trace == old(trace) + [Journaled(EvBuild(true, "cache hit")), Journaled(EvBuilt(b.sha256, true, 0)), Saved]
      ensures job.binarySha256 == Some(b.sha256)
    {
      Emit(EvBuild(true, "cache hit"));
      Emit(EvBuilt(b.sha256, true, 0));
      job := job.(binarySha256 := Some(b.sha256));
      Save();
    }

    method BuildFresh(miss: CacheMiss) returns (stop: Option<Outcome>)
      requires Valid()
      modifies this
      ensures Valid() && trace == old(trace) + FreshOf(ctx, script, miss).trace && stop == FreshOf(ctx, script, miss).stop
      ensures stop.None? ==> script.build.Ok? && job.binarySha256 == Some(script.build.value.binary.sha256)
    {
      Emit(EvBuild(false, MissText(miss)));
      Ask(Build);
      match script.build {
        case Err(e) =>
          return if script.cancelledBuilding then Some(Cancelled(ctx.local)) else Some(Failed(Building, e));
        case Ok(r) =>
          Emit(EvBuilt(r.binary.sha256, false, r.secs));
          job := job.(binarySha256 := Some(r.binary.sha256));
          Save();
          return None;
      }
    }

    /** A cached binary for this very commit, or a fresh build. */
    method Resolve() returns (stop: Option<Outcome>)
      requires Valid()
      modifies this
      ensures Valid() && trace == old(trace) + ResolveOf(ctx, script).trace && stop == ResolveOf(ctx, script).stop
      ensures stop.None? ==> BinaryOf(script).Some? && job.binarySha256 == Some(BinaryOf(script).value.sha256)
    {
      Transition(Building);
      Ask(CachedBinary);
      match script.cachedBinary {
        case Err(e) => stop := Some(Failed(Building, e));
        case Ok(Ok(b)) =>
          TakeCached(b);
          stop := None;
        case Ok(Err(miss)) => stop := BuildFresh(miss);
      }
    }

    method Check() returns (stop: Option<Outcome>)
      requires Valid()
      modifies `trace
      ensures Valid() && trace == old(trace) + CheckOf(ctx, script).trace && stop == CheckOf(ctx, script).stop
    {
      if script.cancelledBuilt {
        return Some(Cancelled(ctx.local));
      }
      Ask(EnsureRecipes);
      if script.recipes.Some? {
        return Some(Failed(Building, "recipes: " + script.recipes.value));
      }
      Ask(KnownGates);
      match script.knownGates {
        case Err(e) => return Some(Failed(Building, e));
        case Ok(known) =>
          if ctx.gate !in known {
            return Some(Failed(Building, "unknown gate"));
          }
      }
      Ask(BadParams);
      match script.badParams {
        case Err(e) => return Some(Failed(Building, e));
        case Ok(bad) => return if bad != [] then Some(Failed(Building, "params not accepted")) else None;
      }
    }

    /** What the child wrote while it ran, batch by batch, straight into the journal. */
    method Listen()
      requires Valid()
      modifies `journal, `trace
      ensures Valid() && trace == old(trace) + Outputs(script.output)
    {
      ghost var start := trace;
      var i := 0;
      while i < |script.output|
        invariant 0 <= i <= |script.output|
        invariant Valid() && trace == start + Outputs(script.output[..i])
      {
        journal := journal + [script.output[i]];
        KindsMore(trace, Journaled(script.output[i]));
        trace := trace + [Journaled(script.output[i])];
        OutputsMore(start, script.output, i);
        i := i + 1;
      }
      assert script.output[..i] == script.output;
    }

    method HearEnd() returns (stop: Option<Outcome>)
      requires Valid()
      modifies `job, `journal, `trace
      ensures Valid() && trace == old(trace) + EndOf(ctx, script).trace && stop == EndOf(ctx, script).stop
      ensures job == old(job).(seqHigh := job.seqHigh)
    {
      stop := None;
      match script.end {
        case Err(e) => stop := Some(Failed(Running, e));
        case Ok(Exited(_, verdict)) =>
          if verdict.Some? {
            Emit(EvVerdict(verdict.value));
          }
        case Ok(Stalled(afterS)) => stop := Some(TimedOut(Running, afterS));
        case Ok(OverTime(afterS)) => stop := Some(TimedOut(Running, afterS));
        case Ok(Stopped) => stop := Some(Cancelled(ctx.local));
      }
    }

    method Begin(child: Child)
      requires Valid() && BinaryOf(script).Some?
      modifies this
      ensures Valid() && job.recordsBefore == old(job.recordsBefore)
      ensures trace == old(trace) + [Moved(Running), Journaled(EvRunning(child.pid, ArgvOf(ctx, script))), Called(Wait)]
      ensures stored.state == Running && stored.child == Some(child)
      ensures stored.recordsBefore == old(job.recordsBefore) && stored.binarySha256 == old(job.binarySha256)
    {
      job := job.(child := Some(child));
      Transition(Running);
      Emit(EvRunning(child.pid, ctx.argv(BinaryOf(script).value)));
      Ask(Wait);
    }

    method Follow(child: Child) returns (stop: Option<Outcome>)
      requires Valid() && BinaryOf(script).Some?
      modifies this
      ensures Valid() && trace == old(trace) + FollowOf(ctx, script, child).trace
      ensures stop == FollowOf(ctx, script, child).stop && job.recordsBefore == old(job.recordsBefore)
    {
      ghost var started := [Moved(Running), Journaled(EvRunning(child.pid, ArgvOf(ctx, script))), Called(Wait)];
      Begin(child);
      Listen();
      job := job.(seqHigh := |journal|);
      assert trace == old(trace) + (started + Outputs(script.output));
      stop := HearEnd();
    }

    /** The snapshot of the records first, then the child. */
    method Launch() returns (stop: Option<Outcome>)
      requires Valid() && BinaryOf(script).Some?
      modifies this
      ensures Valid() && trace == old(trace) + LaunchOf(ctx, script).trace && stop == LaunchOf(ctx, script).stop
      ensures script.recordState.Ok? ==> job.recordsBefore == script.recordState.value
    {
      ghost var start := trace;
      Ask(RecordState);
      match script.recordState {
        case Err(e) => return Some(Failed(Running, "reading the record dir: " + e));
        case Ok(state) => job := job.(recordsBefore := state);
      }
      Ask(Spawn);
      if script.spawn.Err? {
        return Some(Failed(Running, "spawn: " + script.spawn.error));
      }
      ghost var asked := trace;
      stop := Follow(script.spawn.value);
      Joined(start, Phase([Called(RecordState), Called(Spawn)], None), asked,
             FollowOf(ctx, script, script.spawn.value), trace);
    }

    method Gather(artifacts: seq<ArtifactMeta>)
      requires Valid()
      modifies `job, `journal, `trace
      ensures Valid() && trace == old(trace) + Outputs(Artifacts(artifacts))
      ensures job == old(job).(seqHigh := job.seqHigh)
    {
      ghost var start := trace;
      var i := 0;
      while i < |artifacts|
        invariant 0 <= i <= |artifacts|
        invariant Valid() && trace == start + Outputs(Artifacts(artifacts[..i]))
        invariant job == old(job).(seqHigh := job.seqHigh)
      {
        Emit(EvArtifact(artifacts[i]));
        ArtifactsMore(start, artifacts, i);
        i := i + 1;
      }
      assert artifacts[..i] == artifacts;
    }

    method CollectRecords(code: int, verdict: Option<Verdict>) returns (outcome: Outcome)
      requires Valid() && script.end == Ok(Exited(code, verdict))
      modifies this
      ensures Valid() && trace == old(trace) + CollectOf(script).trace && CollectOf(script).stop == Some(outcome)
      ensures job == old(job).(state := job.state, seqHigh := job.seqHigh)
    {
      Transition(Collecting);
      Ask(Collect);
      match script.collect {
        case Err(e) => outcome := Failed(Collecting, e);
        case Ok(artifacts) =>
          Gather(artifacts);
          var record, signature := FirstOf(artifacts, Record), FirstOf(artifacts, Signature);
          outcome := if code == 0 && record.None? then Failed(Collecting, "no gate record")
                     else Completed(code, verdict, record, signature);
      }
    }

    method BuildAndLaunch() returns (stop: Option<Outcome>)
      requires Valid()
      modifies this
      ensures Valid() && trace == old(trace) + BuildingOf(ctx, script).trace && stop == BuildingOf(ctx, script).stop
    {
      ghost var start := trace;
      stop := Resolve();
      if stop.None? {
        ghost var resolved := trace;
        stop := CheckAndLaunch();
        Joined(start, ResolveOf(ctx, script), resolved, Then(CheckOf(ctx, script), LaunchOf(ctx, script)), trace);
      }
    }

    method CheckAndLaunch() returns (stop: Option<Outcome>)
      requires Valid() && BinaryOf(script).Some?
      modifies this
      ensures Valid() && trace == old(trace) + Then(CheckOf(ctx, script), LaunchOf(ctx, script)).trace
      ensures stop == Then(CheckOf(ctx, script), LaunchOf(ctx, script)).stop
    {
      ghost var start := trace;
      stop := Check();
      if stop.None? {
        ghost var checked := trace;
        stop := Launch();
        Joined(start, CheckOf(ctx, script), checked, LaunchOf(ctx, script), trace);
      }
    }

    /** From preparing to the child's end. */
    method UntilEnd() returns (stop: Option<Outcome>)
      requires Valid()
      modifies this
      ensures Valid() && trace == old(trace) + RunningOf(ctx, script).trace && stop == RunningOf(ctx, script).stop
    {
      ghost var start := trace;
      stop := Prepare();
      if stop.None? {
        ghost var prepared := trace;
        stop := BuildAndLaunch();
        Joined(start, PrepareOf(ctx, script), prepared, BuildingOf(ctx, script), trace);
      }
    }

    method Decide() returns (outcome: Outcome)
      requires Valid()
      modifies this
      ensures Valid() && trace == old(trace) + PhasesOf(ctx, script).trace && PhasesOf(ctx, script).stop == Some(outcome)
    {
      ghost var start := trace;
      var stop := UntilEnd();
      match stop {
        case Some(o) => outcome := o;
        case None =>
          ghost var ended := trace;
          outcome := CollectRecords(script.end.value.code, script.end.value.verdict);
          Joined(start, RunningOf(ctx, script), ended, CollectOf(script), trace);
      }
    }

    /** Run a job to its end. The record saved last agrees with the journal: it is done, with
        the outcome of the journal's one `Done`, and its `seq_high` is that event's number. */
    method ToEnd() returns (outcome: Outcome)
      requires Valid()
      modifies this
      ensures Valid() && trace == old(trace) + Life(ctx, script).0 && outcome == Life(ctx, script).1
      ensures stored == job && stored.state == Done && stored.outcome == Some(outcome) && stored.child == None
      ensures stored.seqHigh == |journal| > 0 && journal[|journal| - 1] == EvDone(outcome)
      ensures journal == old(journal) + Kinds(Life(ctx, script).0)
    {
      ghost var start := trace;
      outcome := Decide();
      ghost var decided := trace;
      Finish(outcome);
      JoinedEnd(start, PhasesOf(ctx, script), outcome, decided, trace, Life(ctx, script).0);
    }
  }
}
