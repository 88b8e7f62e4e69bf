/** The events of a benchmark job, and how a job ends. */
module Events {
  import opened Wrappers

  datatype JobState = Queued | Preparing | Building | Running | Collecting | Done {
    predicate IsTerminal() {
      Done?
    }

    function Stage(): nat {
      match this
      case Queued => 0
      case Preparing => 1
      case Building => 2
      case Running => 3
      case Collecting => 4
      case Done => 5
    }
  }

  datatype VerdictKind = Pass | Fail | Info

  datatype Verdict = Verdict(kind: VerdictKind, text: string)

  datatype ArtifactKind = Record | Signature

  datatype ArtifactMeta = ArtifactMeta(name: string, relativePath: string, kind: ArtifactKind)

  /** A process and the moment it started, which together tell it from a reused pid. */
  datatype Child = Child(pid: nat, startTicks: nat)

  datatype Outcome =
    | Completed(exitCode: int, verdict: Option<Verdict>, record: Option<string>, signature: Option<string>)
    | Failed(stage: JobState, reason: string)
    | TimedOut(at: JobState, afterS: nat)
    | Cancelled(node: nat)
    | Orphaned(why: string)

  datatype EventKind =
    | EvQueued(position: nat)
    | EvPreparing(sha: string, fetched: bool)
    | EvBuild(hit: bool, miss: string)
    | EvBuilt(binary: string, cached: bool, secs: nat)
    | EvRunning(pid: nat, argv: seq<string>)
    | EvProgress(phase: string)
    | EvLog(lines: seq<string>)
    | EvVerdict(verdict: Verdict)
    | EvArtifact(meta: ArtifactMeta)
    | EvDone(outcome: Outcome)
    | EvHeartbeat(state: JobState, seqHigh: nat)

  datatype Event = Event(job: string, seqNo: nat, atMs: nat, kind: EventKind)
}
