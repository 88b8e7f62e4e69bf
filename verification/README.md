# Proofs about atlasctl

atlasctl turns a few GPU machines into one inference cluster and runs benchmark jobs on them.
This project models the parts of it where a mistake is expensive and hard to see, and proves
what they promise, over every input, every answer of the environment and every run.

**Launching a cluster in two phases.** The head reserves every rank, starts every rank, asks
each one after a settling window whether it is still alive, and stops or supervises what it
started. The ranks are a world of machines, each with at most one reservation and a set of
live containers; a script says for every message whether it arrives, whether the machine
agrees, whether the answer comes back and whether the container survives, so a statement for
every script is a statement for every behaviour. `ranknet` is that world, `ceremonies` the
five ceremonies as functions of driver, script and world, `driving` the same as a class whose
methods are proved equal to those functions, and `cluster_safety`, `cluster_runs`,
`cluster_absent` and `cluster_stop` are what they promise, one ceremony at a time; `overlap`
and `overlap_sent` are what is left of it when ceremonies interleave. `planner`, `rendezvous`,
`resolve` and `prepare_tracker` are what comes before: who is which rank, where they meet, whom
to dial, when all have agreed. `cluster_words`, `planner_links` and `resolve_words` say it again
in words of their own, message by message and by the names of link classes, so that it does not
rest on the functions above.

**A benchmark job and its log.** `journal` is the append-only file byte by byte, with torn
writes, and `plain_codec` a line format that has everything it asks of one; `journal_log` is the
object over it and whole runs of appends and restarts; `attach`
and `attach_once` are the stream that replays and tails it and the client that re-attaches.
`machine`, `machine_life` and `machine_run` are the procedure that takes one job from queued
to done over scripted ports, and `recovery` is that life beside cancels, cut short by crashes
and taken up again; `logtail` and `logwait` follow the child's log and decide when to stop it;
`jobstore`, `benchhost` and `ratelimit` are submission, `benchruns` is calls running beside the
worker, and `submit_race` two submissions of one key; `records` and `buildcache` are which
records and which binary belong to a job. `journal_words`, `attach_words`, `machine_ends`,
`log_causes`, `submit_words` and `store_words` say what one append, replay, pass, life, wait,
submission or save comes to, straight from the bytes, answers, looks and fields it is given.

**Algorithms that stand alone.** `nearest` and `nearest_words` (edit distance and "did you mean"), `secretfile`
and `secret_write` (atomic file replacement under interleaved writers and crashes), `dechunk`
(section 7.1 of RFC 9112), `quantile` (histogram quantiles).

Code that works by changing things is a method or a class, proved against a function; the
functions are then what the theorems speak of. Environment answers (network, disk, clock,
child, operator) are always parameters.

## Where the code and its own words differ

The model follows the code. Each of these is a lemma.

- "Whole or absent" holds as far as compensations take effect; a rank whose start succeeds
  and whose answer is lost keeps its container, because the head then releases a reservation
  that is already spent (`ClusterSafety.LostAnswerLeavesAContainer`, and exactly when, at any
  point of any run, in `ClusterAbsent.AbsentInEveryRun`).
- A prepare is turned away when a cluster is recorded, but only as it begins: both slots
  are full exactly when a prepare, a commit or a failed stop ends over what came while it was
  under way (`Overlap.BothFullExactly`, `Overlap.OverlapFillsBoth`).
- A truncated last line of the journal is said to be dropped; cut inside a character it makes
  every later open and replay fail (`Journal.TornTailIsDropped`). An append after any torn
  line is lost, and the one after that makes the journal corrupt (`Journal.AppendAfterTornTail`).
- Sequence numbers are said to be monotonic; a final event whose sync fails is in the file but
  not counted, and the next line to reach the file takes its number again
  (`JournalLog.UnsyncedDoneRepeatsSeq`), unless the journal is reopened first, as it is after
  every run of the worker and every restart. Numbers are 1 to n exactly when that does not
  happen (`JournalLog.NumberedExactly`), and never go back (`JournalLog.NumbersNeverGoBack`).
- A finished job is said to be final, and a cancel of a queued one to be done when it is
  answered. Worker and cancels read the record and save over it later; a finished job is saved
  over exactly by a copy that was read before it was finished (`BenchRuns.FinishedChangesExactly`).
  So a cancel after the pick-up and before the worker's first save is overwritten and the job
  runs (`BenchRuns.CancelIsLost`), and one with that save in its middle is overwritten by the
  next (`BenchRuns.SecondSaveUndoes`).
- One key is said to name one job; two submissions that both look before either creates make
  two (`SubmitRace.BothLookFirst`, `SubmitRace.RaceMakesTwo`), and the index breaks exactly so
  (`SubmitRace.InverseBreaksExactly`).
- A resumed child is said to be collected as a fresh one would be; one that exited 0 without a
  gate record completes when resumed and fails otherwise (`Recovery.ResumeJudgesAlike`).
- A job is said to end once. It has exactly one `Done` exactly when no end was journaled and
  then lost to a crash, and no save overtook a finish (`Recovery.OneDoneExactly`); each has an
  example (`Recovery.TornEndTellsTwo`, `Recovery.WithdrawnUnderneath`, `Recovery.TwoCancels`).
- "Misses nothing" needs the first connection that delivers anything not to have lost its write
  of event 1: write errors are ignored, and a client that holds nothing yet cannot see the gap
  (`AttachOnce.FirstLossIsUnnoticed`, `AttachOnce.BeginsWhereAsked`, `AttachOnce.NothingMissed`).
  On one connection a write that fails and a later one that succeeds needs a frame over the size
  limit, which the first event of a job is not in practice; the model lets any frame be lost.
  A record that cannot be read ends the stream as if the job were done
  (`AttachOnce.UnreadableRecordEndsStream`, and exactly when in `AttachOnce.ToldEndedExactly`).
- Rank numbers are sixteen bits and saturate: past 65536 machines two share a rank, past 65535
  the world size is wrong (`Planner.RanksBijectExactly`).
- Head and worker are said not to be able to disagree about what is reachable; a worker accepts
  whatever the head calls shared exactly when its prefix is no longer than the head's
  (`Planner.VerdictsAgreeExactly`, with an example in `Planner.WorkerDisagreesOnLongerPrefix`).
- The place in the queue told to a new job is right exactly when every queued job is older
  (`BenchHost.PositionIsLast`).
- A record rewritten at the very instant of the snapshot is not credited
  (`Records.SameInstantIsMissed`).
- Samples of a metric are said to be summed over its label sets; histogram buckets are not, and
  the total a quantile is taken of is that of the label set listed last
  (`Quantiles.TotalIsTheLastSets`).
- A write that fails before its rename leaves its temporary behind; only a failed rename
  cleans up (`SecretFile.AtRest`).

## Model

| member | source | states |
|---|---|---|
| Fleet.BestIsBest | crates/atlasctl-protocol/src/fleet/node.rs:269-274 | the preferred address is a usable one, maximal in (class rank, speed), and there is none exactly when none is usable |
| Rendezvous.MaskNests | crates/atlasctl-agent/src/rendezvous.rs:67-79 | a shorter prefix's mask keeps only bits a longer one keeps |
| Rendezvous.ShorterPrefixShared | crates/atlasctl-agent/src/rendezvous.rs:59-79 | two addresses sharing a /p share every shorter prefix down to /1 |
| Rendezvous.SameNetworkIsHostBits | crates/atlasctl-agent/src/rendezvous.rs:67-79 | two addresses share a network exactly when they differ in host bits only, for prefixes 1 to 32 |
| Rendezvous.PrefixesAgreeExactly | crates/atlasctl-agent/src/rendezvous.rs:53-79 | whoever shares a /p also shares a /q exactly when /q is a prefix no longer than /p |
| Rendezvous.LocalExactly | crates/atlasctl-agent/src/rendezvous.rs:38-51 | a target is local exactly when some interface with a prefix of 1 to 32 differs from it in host bits only |
| Rendezvous.BestReachableIsBest | crates/atlasctl-agent/src/rendezvous.rs:172-184 | the reachable address picked is usable, on a local subnet and maximal, and none is picked exactly when none is |
| PlannerLinks.DialledByName | crates/atlasctl-agent/src/rendezvous.rs:172-184 | whom to dial by class names: the best near address, and without one the best that carries; InfiniBand before RoCE before Ethernet before Unverified, and nothing faster of the class chosen |
| Planner.Plan | crates/atlasctl-agent/src/cluster.rs:126-223 | the planning loop and its checks give the specified plan or the first fault |
| Planner.PlannableExactly | crates/atlasctl-agent/src/cluster.rs:126-180 | a plan exists exactly when the head is selected, ids are distinct, everyone is ready and an address can be met at |
| Planner.PlanRanksEveryone | crates/atlasctl-agent/src/cluster.rs:181-214 | ranks are a permutation of the selection, the head first, the others by id |
| Planner.SaturateExactly | crates/atlasctl-agent/src/cluster.rs:181-205 | the sixteen-bit conversion is exact exactly up to 65535 |
| Planner.RanksBijectExactly | crates/atlasctl-agent/src/cluster.rs:181-205 | rank numbers are 0..n-1, and distinct, exactly up to 65536 nodes; the world size is right exactly up to 65535 |
| Planner.WorstIgnoresOrder | crates/atlasctl-agent/src/cluster.rs:200-223 | the worst link named in the plan does not depend on selection order |
| Planner.PlanIgnoresOrder | crates/atlasctl-agent/src/cluster.rs:135-223 | two planners given one selection in any order make one plan |
| Planner.MeetingPointIsShared | crates/atlasctl-agent/src/cluster.rs:251-285 | if any usable head address shares its network with every worker, the one chosen does, and is maximal in (class rank, speed) among those |
| PlannerLinks.MeetingPointByName | crates/atlasctl-agent/src/cluster.rs:251-285 | where every rank is sent by class names: the best address all workers share, and without one the best that carries, the last listed of equals |
| PlannerLinks.LinkByName | crates/atlasctl-agent/src/cluster.rs:200-223 | the link of the plan is Unverified if some machine prefers one, else Ethernet, else RoCE, else InfiniBand, and it warns exactly for Ethernet |
| PlannerLinks.PlanCarries | crates/atlasctl-agent/src/cluster.rs:186-223 | every rank is handed the recipe, hash and settings asked for and port 29500, and the plan the epoch |
| PlannerLinks.RefusedByName | crates/atlasctl-agent/src/cluster.rs:135-180 | which error refuses a plan: the count, then the first machine with a complaint, then a missing head, then a head nothing reaches |
| Planner.WorkerAgrees | crates/atlasctl-agent/src/rendezvous.rs:38-79 | a worker whose interface prefix is in 1..=the head's accepts the chosen address as local |
| Planner.WorkersAgree | crates/atlasctl-agent/src/cluster.rs:251-285 | the chosen address is accepted by every worker that has one such interface sharing its network |
| Planner.VerdictsAgreeExactly | crates/atlasctl-agent/src/rendezvous.rs:53-65 | what the head calls shared a worker always accepts exactly when the worker's prefix is no longer than the head's |
| Planner.WorkerDisagreesOnLongerPrefix | crates/atlasctl-agent/src/rendezvous.rs:38-79 | a pair of addresses on which they differ |
| PrepareTracker.Tracker.Record | crates/atlasctl-agent/src/cluster.rs:384-390 | a reply counts exactly when it names this epoch and an expected rank, and then replaces that rank's last one |
| PrepareTracker.CommitsExactly | crates/atlasctl-agent/src/cluster.rs:365-428 | after any replies in any order the commit may go ahead exactly when every rank's last word on this epoch is prepared |
| PrepareTracker.RefusedExactly | crates/atlasctl-agent/src/cluster.rs:394-412 | who is listed as refusing, and with which reason, is who last said so; all have answered exactly when each rank said something of this epoch |
| Resolve.ResolveSelection | crates/atlasctl-agent/src/clusterdriver/plan.rs:26-85 | the resolving loop gives the specified targets or the first error |
| Resolve.TargetPerRank | crates/atlasctl-agent/src/clusterdriver/plan.rs:54-84 | one target per rank, in rank order, each with its own node's name and address |
| Resolve.ResolvedTargets | crates/atlasctl-agent/src/clusterdriver/plan.rs:26-84 | a resolved launch has at least one target and no two on one machine |
| ResolveWords.TargetInFull | crates/atlasctl-agent/src/clusterdriver/plan.rs:54-150 | each target is its rank's own fleet entry, not dialled when local and otherwise on the peer port at the best address near this machine, or the best that carries |
| ResolveWords.LaunchInFull | crates/atlasctl-agent/src/clusterdriver/plan.rs:26-85 | every rank carries the recipe, hash, settings, port 29500 and world size of the selection; the launch is served on the port set, the recipe's or 8888 |
| ResolveWords.RefusedInFull | crates/atlasctl-agent/src/clusterdriver/plan.rs:26-85 | an unknown machine is refused before an unknown recipe, and that before the plan and the addresses |
| RankNet.AskAllSays | crates/atlasctl-agent/src/transport.rs:43-99 | a run of requests is logged one exchange each, in order |
| RankNet.FateDecides | crates/atlasctl-agent/src/rank.rs:58-98 | what becomes of a machine in a run of requests depends only on those sent to it |
| Ceremonies.PrepareKeepsValid | crates/atlasctl-agent/src/clusterdriver/ceremonies.rs:52-127 | a prepare leaves the driver with distinct targets and well-formed records |
| Ceremonies.CommitKeepsValid | crates/atlasctl-agent/src/clusterdriver/ceremonies.rs:130-254 | so does a commit |
| Ceremonies.StopKeepsValid | crates/atlasctl-agent/src/clusterdriver/ceremonies.rs:273-330 | so does a stop |
| Driving.ClusterDriver.RollBack | crates/atlasctl-agent/src/clusterdriver.rs:108-115 | one abort to each target given, in order, and nothing else |
| Driving.ClusterDriver.StopStarted | crates/atlasctl-agent/src/clusterdriver/types.rs:80-101 | one stop to each started rank given that has a target, in order, and nothing else |
| Driving.ClusterDriver.PrepareInner | crates/atlasctl-agent/src/clusterdriver/ceremonies.rs:52-127 | the prepare loop leaves driver, world and answer as the specified step |
| ClusterWords.PrepareInFull | crates/atlasctl-agent/src/clusterdriver/ceremonies.rs:81-127 | the i-th request of a prepare goes to target i's own node and address and reserves its own assignment, of rank i, under this epoch; each answer is told of its own machine; it may go on exactly when all agreed, and otherwise exactly those that agreed are released |
| ClusterWords.RefusedBeforeAsking | crates/atlasctl-agent/src/clusterdriver/ceremonies.rs:52-80 | a prepare while a model runs, or of machines that do not resolve, contacts nobody, changes nothing and names the ranks that run in order, or the error |
| Driving.ClusterDriver.CommitInner | crates/atlasctl-agent/src/clusterdriver/ceremonies.rs:130-254 | the commit loops, compensation and settling leave driver, world and answer as the specified step |
| ClusterWords.CommitInFull | crates/atlasctl-agent/src/clusterdriver/ceremonies.rs:147-254 | what each answer of a commit stands for, request by request: whole, a refusal of the k-th rank that is undone, or ranks missing that are named and torn down |
| ClusterWords.WholeInFull | crates/atlasctl-agent/src/clusterdriver/ceremonies.rs:155-254 | every target is sent its commit and then asked about its own container, and is recorded with that container, its name and rank, and rank 0 with the endpoint of its master address and the served port |
| ClusterWords.UndoneInFull | crates/atlasctl-agent/src/clusterdriver/ceremonies.rs:155-200 | commits go to the first k+1 targets in order, then each started one is told to stop its own container and each other one to release this epoch |
| ClusterWords.TornDownInFull | crates/atlasctl-agent/src/clusterdriver/ceremonies.rs:200-254 | when some rank is missing every target is told to stop its own container, and exactly the names of the missing are answered |
| Driving.ClusterDriver.AskAlive | crates/atlasctl-agent/src/clusterdriver/ceremonies.rs:201-240 | after settling every target is asked once and the dead are exactly those that did not answer alive |
| Driving.ClusterDriver.AbortInner | crates/atlasctl-agent/src/clusterdriver/ceremonies.rs:257-271 | an abort of the held epoch releases every target; of any other it does nothing |
| ClusterWords.AbortInFull | crates/atlasctl-agent/src/clusterdriver/ceremonies.rs:257-271 | an abort of the held epoch sends every target, at its own node and address, the release of that epoch |
| Driving.ClusterDriver.StopClusterInner | crates/atlasctl-agent/src/clusterdriver/ceremonies.rs:273-330 | a stop leaves driver, world and answer as the specified step |
| ClusterWords.StopInFull | crates/atlasctl-agent/src/clusterdriver/ceremonies.rs:273-330 | a stop asks each recorded rank to stop its own container, keeps exactly those that did not say so, and names them in order, or all of them stopped |
| Driving.ClusterDriver.SuperviseInner | crates/atlasctl-agent/src/clusterdriver/ceremonies.rs:332-402 | supervision leaves driver, world and answer as the specified step |
| ClusterWords.SuperviseInFull | crates/atlasctl-agent/src/clusterdriver/ceremonies.rs:332-402 | supervision asks each recorded rank about its own container and reports exactly the machines that did not answer alive |
| ClusterSafety.CommitReplies | crates/atlasctl-agent/src/clusterdriver/ceremonies.rs:155-200 | of the commits sent exactly those before the first refusal were answered started |
| ClusterSafety.UndoIsUndone | crates/atlasctl-agent/src/clusterdriver/ceremonies.rs:155-200 | after a refusal at rank k: one commit to each of the first k+1, then one compensation to every target, a stop if it started and an abort if not |
| ClusterSafety.SettleIsWholeOrTornDown | crates/atlasctl-agent/src/clusterdriver/ceremonies.rs:200-254 | when all started: either all are recorded, each asked once and alive, or every one is stopped once |
| ClusterSafety.WholeOrUndone | crates/atlasctl-agent/src/clusterdriver/ceremonies.rs:147-254 | every commit of the held prepare is whole, or sends each target exactly one compensation and leaves `running` as it was |
| ClusterAbsent.AbsentInEveryRun | crates/atlasctl-agent/src/clusterdriver.rs:24-26 | wherever a run of ceremonies has got to, a target of a failed commit keeps no container and no reservation of the attempt exactly when its compensation took effect |
| ClusterAbsent.RunDated | crates/atlasctl-agent/src/clusterdriver/ceremonies.rs:52-402 | over every run no machine holds a container launched at a turn that has not come |
| ClusterSafety.LostAnswerLeavesAContainer | crates/atlasctl-agent/src/clusterdriver.rs:108-115 | a lost start answer leaves a container running after the roll-back |
| ClusterRuns.LedgerIsExact | crates/atlasctl-agent/src/clusterdriver/ceremonies.rs:118-145 | an accepted reservation is in exactly one of four places: held, spent, released, superseded |
| ClusterRuns.ReserveSays | crates/atlasctl-agent/src/clusterdriver/ceremonies.rs:81-127 | a prepare asks every target once; if all accept it is held, and otherwise exactly the acceptors are aborted and the slot is unchanged |
| ClusterRuns.RefusedSays | crates/atlasctl-agent/src/clusterdriver/ceremonies.rs:81-127 | a refused prepare aborts exactly the ranks that accepted it and leaves an older one held |
| ClusterRuns.StepKeepsInv | crates/atlasctl-agent/src/clusterdriver/ceremonies.rs:52-402 | every ceremony keeps the ledger, given a fresh epoch |
| ClusterRuns.EveryRun | crates/atlasctl-agent/src/clusterdriver/ceremonies.rs:52-402 | over every run: never both slots, at most one commit per machine and epoch, every reservation in exactly one place |
| ClusterRuns.OtherEpochsAreIgnored | crates/atlasctl-agent/src/clusterdriver/ceremonies.rs:130-145 | a commit or abort naming another epoch contacts no rank and changes nothing |
| ClusterRuns.StopSays | crates/atlasctl-agent/src/clusterdriver/ceremonies.rs:273-330 | a stop asks every recorded rank once and keeps exactly those that did not say they stopped |
| ClusterStop.StopIsRetryable | crates/atlasctl-agent/src/clusterdriver/ceremonies.rs:273-330 | over any number of stops the record holds exactly the ranks not yet stopped, a stopped one is never asked again, and it clears exactly with the last |
| ClusterStop.SupervisionNeverWedges | crates/atlasctl-agent/src/clusterdriver/ceremonies.rs:332-402 | supervision asks every rank; all alive keeps the record, any other answer stops every rank and always clears it |
| Overlap.TakenOnce | crates/atlasctl-agent/src/clusterdriver/ceremonies.rs:118-145 | however ceremonies interleave, no epoch is taken from the slot twice, so an accepted prepare goes to one commit or one abort, and every epoch taken was minted |
| OverlapSent.CommitsInOrder | crates/atlasctl-agent/src/clusterdriver/ceremonies.rs:130-200 | however they interleave, the commits of one epoch go to its ranks in their order, to each at most once, and none is sent of an epoch that was aborted |
| Overlap.BothFullExactly | crates/atlasctl-agent/src/clusterdriver/ceremonies.rs:68-77 | over any interleaving the two slots are first both full exactly when a ceremony ends by filling one after the other was filled while it was under way |
| Overlap.OverlapFillsBoth | crates/atlasctl-agent/src/clusterdriver/ceremonies.rs:52-127 | a second prepare begun before the first is committed and ended after it leaves both slots full |
| Overlap.NeverBothInTurn | crates/atlasctl-agent/src/clusterdriver/ceremonies.rs:52-402 | ceremonies that do not overlap never fill both slots |
| Utf8.CutText | crates/atlasctl-agent/src/bench/journal.rs:121-133 | a text cut short is still a text exactly when cut between characters |
| Journal.Replay | crates/atlasctl-agent/src/bench/journal.rs:114-137 | the line loop reads what the specification of a replay reads, errors included |
| Journal.ReplayWritten | crates/atlasctl-agent/src/bench/journal.rs:101-137 | replay undoes writing: exactly the events from the number asked for |
| Journal.CutLastWrite | crates/atlasctl-agent/src/bench/journal.rs:114-137 | what is read after the last write is cut at any byte: that event too, all earlier ones, or an error inside a character |
| Journal.TornTailIsDropped | crates/atlasctl-agent/src/bench/journal.rs:39-50 | a cut last line is dropped and nothing else exactly when cut between characters |
| Journal.AppendAfterTornTail | crates/atlasctl-agent/src/bench/journal.rs:66-73 | an append after a torn line is lost with it, and one more makes the journal corrupt |
| Journal.AppendNeedsWholeLines | crates/atlasctl-agent/src/bench/journal.rs:66-83 | an append is read back exactly when the file was empty or ended in a newline |
| JournalWords.AppendInFull | crates/atlasctl-agent/src/bench/journal.rs:53-84 | an append by its disk: the event with the next number, its job, moment and kind; reported and counted exactly when its line went through; exactly the bytes of its line that got through are added |
| JournalWords.ReplayByLines | crates/atlasctl-agent/src/bench/journal.rs:114-137 | a replay of any file at all, line by line: all events when every line reads, the last one dropped when it does not decode, corruption when an earlier one does not, an error at a line that is not text, and a carriage return not counted as content |
| JournalWords.FromSelects | crates/atlasctl-agent/src/bench/journal.rs:124-128 | asking from a number keeps each event in its place exactly when its number is not smaller |
| PlainCodec.SomeCodecIsLawful | crates/atlasctl-agent/src/bench/journal.rs:66-67 | a line format that reads back what it wrote, and nothing from a cut or a glued line, exists |
| JournalLog.JobJournal.Open | crates/atlasctl-agent/src/bench/journal.rs:39-50 | opening resumes the counter from the last event read, and fails exactly when the replay does |
| JournalLog.JobJournal.Append | crates/atlasctl-agent/src/bench/journal.rs:53-84 | file, counter and answer after an append, for every way the disk can answer; heartbeats change nothing |
| JournalLog.JobJournal.ReplayFrom | crates/atlasctl-agent/src/bench/journal.rs:101-110 | reads the file from a number on |
| JournalLog.NumberedExactly | crates/atlasctl-agent/src/bench/journal.rs:39-84 | over any run of appends and reopens from no file, whatever fails to open or to sync, no open fails and the numbers in the file are 1..n exactly when no unsynced final event is followed, before a reopen, by a line that reaches the file |
| JournalLog.JournalRefinesList | crates/atlasctl-agent/src/bench/journal.rs:39-137 | a replay is then exactly the events from the number asked, and the counter their number, less one while a final event is uncounted |
| JournalLog.NumbersNeverGoBack | crates/atlasctl-agent/src/bench/journal.rs:86-90 | in every such run numbers never go back, and the counter is the last one or one behind |
| JournalLog.RestartAfterCut | crates/atlasctl-agent/src/bench/journal.rs:39-50 | a restart after a cut write resumes at what is still read, and fails exactly when the cut split a character |
| JournalLog.UnsyncedDoneRepeatsSeq | crates/atlasctl-agent/src/bench/journal.rs:73-82 | a final event whose sync fails is written and not counted, so the next line to reach the file repeats its number, and a reopen first resumes after it |
| Attach.SendEvents | crates/atlasctl-agent/src/daemon/bench_serve.rs:178-196 | the inner loop writes events in order, advancing past each, up to a timeout or the first `Done` |
| Attach.ServeAttach | crates/atlasctl-agent/src/daemon/bench_serve.rs:159-238 | the serving loop writes what its passes are specified to write |
| AttachWords.PassInFull | crates/atlasctl-agent/src/daemon/bench_serve.rs:166-238 | one pass frame by frame: the events from next to the last seen, the first final one or the first timed-out write, without those whose write was lost; then at most one heartbeat with its state and number; and exactly when the stream goes on |
| AttachWords.SteadyConnectionDeliversAll | crates/atlasctl-agent/src/daemon/bench_serve.rs:159-238 | over a connection that holds the wire is exactly the journal from the number asked, each event once, up to the first final one |
| AttachWords.ReadsThemAll | crates/atlasctl-agent/src/peer/bench.rs:241-307 | a reader level with the journal holds all of them afterwards and is finished exactly when the last is final |
| AttachOnce.ServesTheJournal | crates/atlasctl-agent/src/daemon/bench_serve.rs:166-196 | every journaled event on the wire is the journal's own, not before the one asked for, and nothing follows a `Done` |
| AttachOnce.ServedFirst | crates/atlasctl-agent/src/daemon/bench_serve.rs:178-196 | whether the stream begins at the event asked for is decided by the fate of its first write |
| AttachOnce.ExactlyOnce | crates/atlasctl-agent/src/peer/bench.rs:241-307 | over any connections dropped anywhere, what is received is a contiguous, in-order, duplicate-free run of the journal ending at the first `Done` |
| AttachOnce.BeginsWhereAsked | crates/atlasctl-agent/src/daemon/bench_serve.rs:159-196 | over any connections that run begins at the number asked for exactly when that is past the start, or nothing came, or the first connection to deliver an event kept its first write of event 1 |
| AttachOnce.FirstLossIsUnnoticed | crates/atlasctl-agent/src/peer/bench.rs:272-290 | a client that holds nothing and asks from the start gets event 1 first exactly when that write was not lost |
| AttachOnce.NothingMissed | crates/atlasctl-agent/src/daemon/bench_serve.rs:159-238 | a client ended by honest records holds every event from the one asked for to the first `Done` exactly when its run begins there |
| AttachOnce.PastTheEnd | crates/atlasctl-agent/src/daemon/bench_serve.rs:203-220 | attaching past the end of a finished job delivers no journal event and ends after one pass |
| AttachOnce.ToldEndedExactly | crates/atlasctl-agent/src/daemon/bench_serve.rs:199-236 | a client level with the journal is told the job ended exactly when the first pass whose record is terminal or unreadable is reached and its farewell gets through |
| AttachOnce.EndedEarly | crates/atlasctl-agent/src/daemon/bench_serve.rs:199-213 | while there is no `Done`, a client ends on purpose, over any connections, only if some pass found such a record |
| AttachOnce.UnreadableRecordEndsStream | crates/atlasctl-agent/src/daemon/bench_serve.rs:199-213 | an unreadable record ends the stream of a running job |
| Nearest.EditDistance | crates/atlasctl-core/src/nearest.rs:35-55 | the two swapped rows compute the distance of the recurrence |
| Nearest.NoFewerEdits | crates/atlasctl-core/src/nearest.rs:31-55 | no script of insertions, deletions and substitutions from one string to the other is shorter than the distance |
| Nearest.AsFewEdits | crates/atlasctl-core/src/nearest.rs:31-55 | and some script is exactly that long |
| Nearest.Symmetric | crates/atlasctl-core/src/nearest.rs:35-55 | the distance is symmetric |
| Nearest.Triangle | crates/atlasctl-core/src/nearest.rs:35-55 | and obeys the triangle inequality |
| Nearest.ZeroIsSelf | crates/atlasctl-core/src/nearest.rs:35-55 | and is zero only between equal strings |
| Nearest.LengthBounds | crates/atlasctl-core/src/nearest.rs:35-55 | and lies between the difference of the lengths and the longer of them |
| Nearest.MaxEditsGrows | crates/atlasctl-core/src/nearest.rs:10-29 | the threshold is between 2 and 5 and grows with the length |
| Nearest.NearestAreFirst | crates/atlasctl-core/src/nearest.rs:62-90 | at most three admissible names are listed, and none left out comes before one listed in (distance, name) order |
| Nearest.NearestIgnoresOrder | crates/atlasctl-core/src/nearest.rs:57-90 | the list does not depend on the order of the candidates |
| Nearest.ExactNameFirst | crates/atlasctl-core/src/nearest.rs:70-90 | a candidate that is exactly what was typed is listed first |
| NearestWords.ListedExactly | crates/atlasctl-core/src/nearest.rs:22-90 | at most three names, each a candidate that the typed text of four or more characters begins, or within 2 edits below length 12, 3 below 16, 4 below 20 and 5 from there; nearest first and then by first differing character; one left out comes after three listed |
| SecretFile.StepKeepsInv | crates/atlasctl-core/src/secretfile.rs:78-165 | every step of every writer, every kill and every power cut keeps each writer's temporary its own and the target a renamed body |
| SecretFile.TargetIsWhole | crates/atlasctl-core/src/secretfile.rs:43-50 | however writers and crashes interleave, the target is the initial file or one writer's complete synced body, and no two live writers share a temporary |
| SecretFile.SyncedRenameSurvives | crates/atlasctl-core/src/secretfile.rs:127-165 | once the directory sync after a rename went through, the target is that writer's or a later renamer's body, whatever happens |
| SecretFile.AtRest | crates/atlasctl-core/src/secretfile.rs:139-165 | when all have finished, the target is the last renamer's body and a temporary remains exactly for each call that gave up before its rename or could not remove it |
| SecretWrite.Process.Write | crates/atlasctl-core/src/secretfile.rs:39-167 | one call: success means the target is this body, failure that it is untouched, nothing else changes, and the call is a run of one writer |
| MachineRun.Run.Transition | crates/atlasctl-agent/src/bench/machine.rs:29-34 | moves the record to a state and saves it |
| MachineRun.Run.Emit | crates/atlasctl-agent/src/bench/machine.rs:36-40 | journals one event and notes its number in the record |
| MachineRun.Run.Finish | crates/atlasctl-agent/src/bench/machine.rs:42-55 | journals `Done`, then saves a record that is done, without a child, with that outcome and number |
| MachineRun.Run.Prepare | crates/atlasctl-agent/src/bench/machine.rs:74-148 | the preparing branches do what their specification does, and stop with its outcome |
| MachineRun.Run.Resolve | crates/atlasctl-agent/src/bench/machine.rs:150-213 | a cached or freshly built binary, its events, and the record naming it |
| MachineRun.Run.Check | crates/atlasctl-agent/src/bench/machine.rs:214-260 | recipes, gate and params are checked in this order and stop with the specified outcome |
| MachineRun.Run.Launch | crates/atlasctl-agent/src/bench/machine.rs:287-339 | the records' snapshot, the child, its output and its end |
| MachineRun.Run.CollectRecords | crates/atlasctl-agent/src/bench/machine.rs:344-394 | the artifacts' events and the outcome they make |
| MachineRun.Run.ToEnd | crates/atlasctl-agent/src/bench/machine.rs:69-394 | a whole life: journal and outcome as specified, and the last record saved agrees with the journal |
| MachineLife.EveryLife | crates/atlasctl-agent/src/bench/machine.rs:69-394 | for all port answers: events in the grammar with one final `Done`, stages only forward to done, at most one spawn, exactly when every check passed, straight after the snapshot |
| MachineLife.CompletesExactly | crates/atlasctl-agent/src/bench/machine.rs:361-394 | a job completes exactly when cleared, started, ended by itself and collected, with a gate record if it exited 0 |
| MachineEnds.TimedOutExactly | crates/atlasctl-agent/src/bench/machine.rs:330-339 | timed out, while running and after n, exactly when the child was started and its end is that silence or overrun |
| MachineEnds.CancelledExactly | crates/atlasctl-agent/src/bench/machine.rs:69-339 | cancelled, by this node, exactly at the first reached of: prepared, a failed build, built, or a child that was stopped |
| MachineEnds.FailedExactly | crates/atlasctl-agent/src/bench/machine.rs:69-394 | failed in preparing, building, running or collecting exactly as the first check that failed is in |
| MachineEnds.CompletedWith | crates/atlasctl-agent/src/bench/machine.rs:340-394 | completed with the child's exit code and verdict and the first record and signature among its artifacts; never orphaned |
| MachineEnds.LifeTells | crates/atlasctl-agent/src/bench/machine.rs:69-394 | every event a life journals, in order, by how far its answers let it get, the last one its end |
| Recovery.ResumeJudgesAlike | crates/atlasctl-agent/src/bench/machine/resume.rs:84-115 | a resumed child is judged as a fresh one exactly when it did not exit 0 without a gate record |
| Recovery.ResumedEndsExactly | crates/atlasctl-agent/src/bench/machine/resume.rs:18-115 | what a resumed job ends with, by what happens first: orphaned, failed, timed out, cancelled, or completed with exit, verdict, first record and first signature |
| Recovery.StintEnds | crates/atlasctl-agent/src/bench/runner.rs:153-233 | who may take a job up in which state, and that it ends as a life, as a resumed life or as an orphan |
| Recovery.DonesExactly | crates/atlasctl-agent/src/bench/runner.rs:106-233 | however the worker, any number of cancels, crashes and recoveries interleave, the journal holds one `Done` for each end journaled and never saved, one for each save that overtook a finish, one for each end still to be saved, and one for the record being done, less those of cancels that could not journal |
| Recovery.OneDoneExactly | crates/atlasctl-agent/src/bench/machine.rs:42-55 | a finished job with no end under way has exactly one `Done` exactly when no end was torn and no save overtook a finish, or as many as there were cancels that could not journal |
| Recovery.StartedOnce | crates/atlasctl-agent/src/bench/runner.rs:106-212 | over any such history at most one child is ever started |
| Recovery.FinishedForGood | crates/atlasctl-agent/src/bench/runner.rs:153-212 | a finished job that nobody holds a copy of is never taken up again, and nothing more is written about it |
| Recovery.TornEndTellsTwo | crates/atlasctl-agent/src/bench/runner.rs:201-233 | a life cut between its two last steps and then orphaned tells two ends |
| Recovery.WithdrawnUnderneath | crates/atlasctl-agent/src/bench/host.rs:320-341 | a cancel between the pick-up and the first save ends the job, which is then run all the same and ends again |
| Recovery.TwoCancels | crates/atlasctl-agent/src/bench/host.rs:310-341 | two cancels that both read the job queued end it twice |
| LogTail.Follower.Follow | crates/atlasctl-agent/src/bench/ports_std.rs:363-394 | one poll of the log leaves offset, verdict, batch and events as specified |
| LogTail.NextLineIsSteady | crates/atlasctl-agent/src/bench/ports_std.rs:368-373 | a complete line stays the next line however the log grows |
| LogTail.LosslessTail | crates/atlasctl-agent/src/bench/ports_std.rs:357-394 | however the log grows, the log events are its complete lines, each once, in order, in batches of one to 64, and the verdict is the last one's |
| LogTail.OnlyTheLastIsShort | crates/atlasctl-agent/src/bench/ports_std.rs:363-394 | every batch of a poll but its last has exactly 64 lines |
| LogTail.ReadsEveryLine | crates/atlasctl-agent/src/bench/ports_std.rs:368-373 | of a text log cut anywhere, no line with its newline is left unread |
| LogTail.StopsAtBadLine | crates/atlasctl-agent/src/bench/ports_std.rs:368-373 | a line that is not text ends the reading for good |
| LogWait.Waiter.Wait | crates/atlasctl-agent/src/bench/ports_std.rs:347-441 | the waiting loop follows the log, collects the exit and signals as specified |
| LogWait.FirstCauseIsReported | crates/atlasctl-agent/src/bench/ports_std.rs:395-438 | the end reported is the first cause that stopped the child, and its own exit exactly when there was none |
| LogWait.SignalledForCause | crates/atlasctl-agent/src/bench/ports_std.rs:412-438 | a child nothing was wrong with is never signalled, any other is asked to go exactly once |
| LogWait.WaitIsLossless | crates/atlasctl-agent/src/bench/ports_std.rs:347-441 | over a whole wait the events are the complete lines seen, and an exit carries the last verdict among them |
| LogCauses.LeftAlone | crates/atlasctl-agent/src/bench/ports_std.rs:347-441 | a child without trouble is never signalled, trouble being a cancel, a run over the ceiling, or stall passed since the last look that moved the log, or the start |
| LogCauses.StoppedForTrouble | crates/atlasctl-agent/src/bench/ports_std.rs:395-438 | one Term at the first look with trouble, for the cancel before the ceiling before the silence, with the whole seconds of either; then one Kill at each look past the grace since, and no other signal |
| LogCauses.ReportedExactly | crates/atlasctl-agent/src/bench/ports_std.rs:395-441 | the end reported is that of the first look with trouble, and without any the exit and the last verdict written by then |
| Dechunk.Dechunk | crates/atlasctl/src/httpscrape.rs:39-72 | the loop decodes as specified and strictly consumes its input |
| Dechunk.RoundTrip | crates/atlasctl/src/httpscrape.rs:33-72 | decoding undoes encoding for every split into non-empty chunks, every size line that says the length, and any trailer |
| Dechunk.SplitDoesNotMatter | crates/atlasctl/src/httpscrape.rs:39-72 | the result does not depend on the split |
| Dechunk.TruncationIsAnError | crates/atlasctl/src/httpscrape.rs:33-47 | a stream cut anywhere before its last size line is complete is an error |
| Dechunk.UsualHeader | crates/atlasctl/src/httpscrape.rs:46-49 | a length in hex with any extension is such a size line |
| JobStore.JobDirectory.ByKey | crates/atlasctl-agent/src/bench/job.rs:120-131 | the job a key names, none, or an error when its record is gone |
| JobStore.JobDirectory.Create | crates/atlasctl-agent/src/bench/job.rs:136-148 | a new record and its key, or nothing when the directory exists |
| JobStore.JobDirectory.Remove | crates/atlasctl-agent/src/bench/job.rs:196-207 | a terminal job and its key are gone; a live one is refused |
| JobStore.OneJobPerKey | crates/atlasctl-agent/src/bench/job.rs:120-148 | with index and records inverse no two jobs share a key and a lookup finds the job |
| JobStore.CreateKeepsInverse | crates/atlasctl-agent/src/bench/job.rs:136-148 | creating under a free key keeps them inverse |
| JobStore.RemoveKeepsInverse | crates/atlasctl-agent/src/bench/job.rs:196-207 | so does removing |
| StoreWords.FoundExactly | crates/atlasctl-agent/src/bench/job.rs:120-131 | a lookup finds the job that carries the key, and none exactly when no job does |
| StoreWords.CreatedInFull | crates/atlasctl-agent/src/bench/job.rs:136-148 | a job is created exactly under a free id, is then found under its key, and nothing else changes |
| StoreWords.RemovedInFull | crates/atlasctl-agent/src/bench/job.rs:196-207 | a job goes exactly when it is done; it and its key are gone and nothing else is |
| SubmitRace.InverseBreaksExactly | crates/atlasctl-agent/src/bench/host.rs:195-260 | over any interleaved submissions, index and records first stop being inverse exactly when a submission creates a key that was put in the index after it had looked |
| SubmitRace.RaceMakesTwo | crates/atlasctl-agent/src/bench/job.rs:136-148 | one key then has two jobs, and names the second |
| SubmitRace.BothLookFirst | crates/atlasctl-agent/src/bench/host.rs:195-260 | two submissions that look before either creates do that |
| BenchHost.Bench.SubmitJob | crates/atlasctl-agent/src/bench/host.rs:145-278 | store and reply after a submission, every refusal included |
| SubmitWords.SubmitInFull | crates/atlasctl-agent/src/bench/host.rs:145-278 | every answer to a submission by its cause; what is stored has the request's key, sender, sha, gate, params and checkpoint and the lesser of its and this node's time limit |
| SubmitWords.SameSpecExactly | crates/atlasctl-agent/src/bench/host.rs:195-207 | two requests are one job exactly when sha, gate, params and checkpoint agree and so do their limited times; a key conflict is any difference |
| SubmitWords.PlaceInFull | crates/atlasctl-agent/src/bench/host.rs:133-142 | a queued job's place is one more than the queued jobs older than it, by time and then id; any other has none |
| BenchHost.Bench.CancelJob | crates/atlasctl-agent/src/bench/host.rs:310-354 | store, flag and reply after a cancel |
| BenchHost.CancelTwice | crates/atlasctl-agent/src/bench/host.rs:308-354 | cancelling again straight away changes nothing and is answered the same |
| SubmitWords.CancelInFull | crates/atlasctl-agent/src/bench/host.rs:310-354 | what a cancel does to the store, the flags and its answer, by the state of the job it names |
| BenchRuns.Worker.NextJob | crates/atlasctl-agent/src/bench/runner.rs:106-108 | the worker takes a copy of the oldest queued job, if there is one |
| SubmitWords.OldestInFull | crates/atlasctl-agent/src/bench/runner.rs:106-108 | the job taken up is queued and no other queued job is older, by time and then id |
| StoreWords.PickUpInFull | crates/atlasctl-agent/src/bench/runner.rs:106-120 | a worker that holds nothing takes the stored record of the oldest queued job and leaves the store as it was |
| BenchRuns.Worker.Transition | crates/atlasctl-agent/src/bench/machine.rs:29-34 | the worker's copy moves on and is saved over the stored record, whatever that has become |
| StoreWords.SaveInFull | crates/atlasctl-agent/src/bench/machine.rs:29-55 | a worker's save replaces exactly its own job's record by its copy moved on, with an outcome exactly when done, and drops exactly its own flag then |
| BenchRuns.HalvesMakeACancel | crates/atlasctl-agent/src/bench/host.rs:308-354 | with nothing in between, reading and answering are the whole cancel |
| BenchRuns.EveryRun | crates/atlasctl-agent/src/bench/host.rs:190-341 | over any run of submissions, halves of cancels and worker steps the index and records stay inverse, no more are queued than the queue takes, and a worker's copy is what is stored unless the job was finished under it |
| BenchRuns.StampsAreTrue | crates/atlasctl-agent/src/bench/runner.rs:106-160 | every copy is stamped with the operation that read it, and a finished job with the one that finished it and has stood since |
| BenchRuns.FinishedChangesExactly | crates/atlasctl-agent/src/bench/host.rs:310-341 | over any run a save finds its job finished exactly when its copy was read before the operation that finished the job; a finished job changes by nothing else, and a stage goes back exactly by such a save that is not the last of a life |
| BenchRuns.CancelIsLost | crates/atlasctl-agent/src/bench/host.rs:320-341 | a job cancelled between pick-up and first save is answered as done, its flag not raised, and then prepared all the same |
| BenchRuns.SecondSaveUndoes | crates/atlasctl-agent/src/bench/machine.rs:29-34 | with the first save in the middle of the cancel, the worker's second takes the job back |
| BenchRuns.GoneWasRemoved | crates/atlasctl-agent/src/bench/job.rs:196-207 | over any run a job that is gone was removed when it was finished and no worker had a job; until then its key and spec never change |
| BenchRuns.CancelSticks | crates/atlasctl-agent/src/bench/host.rs:308-341 | once a cancel of a queued job has saved, every later one is answered as done exactly until a save of an older copy takes the job back or it is removed |
| BenchRuns.CancelReachesWorker | crates/atlasctl-agent/src/bench/host.rs:342-354 | a cancel that read a job past the queue raises the flag of the worker on it, which stays up while it works on that job |
| BenchRuns.ResubmitIsIdempotent | crates/atlasctl-agent/src/bench/host.rs:195-207 | submitting a key again, whatever happened since short of the job being finished and removed, answers with the same job and adds nothing, or is refused when the spec differs |
| BenchRuns.StepIsOnward | crates/atlasctl-agent/src/bench/host.rs:308-341 | in one step a job disappears exactly when a removal finds it finished, only a save changes it, a save finds it finished exactly when its copy is older than the finish, and a stage goes back exactly by such a save that is not the last |
| BenchHost.PositionIsLast | crates/atlasctl-agent/src/bench/host.rs:133-142 | the place told to a new job is its place in the queue exactly when every queued job is older |
| RateLimit.Limiter.RateLimited | crates/atlasctl-agent/src/bench/host.rs:115-130 | the deque after a call and whether it was refused |
| RateLimit.NeverMoreThanTheLimit | crates/atlasctl-agent/src/bench/host.rs:115-130 | at most 30 calls of one sender pass in any closed minute |
| RateLimit.RefusedExactly | crates/atlasctl-agent/src/bench/host.rs:115-130 | a call is refused exactly when 30 earlier passes lie within the last minute |
| Records.State | crates/atlasctl-agent/src/bench/records.rs:23-42 | the snapshot of a listing; an unreadable directory is empty |
| Records.Collect | crates/atlasctl-agent/src/bench/records.rs:46-82 | each credited record once, by name, or an error when one cannot be copied |
| Records.NamesOfRecords | crates/atlasctl-agent/src/bench/records.rs:46-77 | records are the names that end in .json or .json.sig, signatures the latter, each with its path under the gate |
| Records.CreditedExactly | crates/atlasctl-agent/src/bench/records.rs:44-64 | over any history of jobs, a job is credited exactly the surviving records written while it ran |
| Records.CreditedOnce | crates/atlasctl-agent/src/bench/records.rs:44-64 | no version of a record is credited to two jobs |
| Records.SameInstantIsMissed | crates/atlasctl-agent/src/bench/records.rs:20-42 | a record rewritten at the snapshot's own instant is not credited |
| Records.ListingIsSnapshot | crates/atlasctl-agent/src/bench/records.rs:23-42 | the snapshot of a true listing is the directory's |
| BuildCache.HitIsThisCommit | crates/atlasctl-agent/src/bench/ports_std.rs:176-200 | a cache hit's bytes hash to those a build of this very commit recorded, whatever was swapped, copied or half written |
| BuildCache.FinishedBuildHits | crates/atlasctl-agent/src/bench/ports_std.rs:236-258 | a finished build is a hit; one cut short after the copy is one exactly when the same bytes were recorded before |
| BuildCache.HitExactly | crates/atlasctl-agent/src/bench/ports_std.rs:176-200 | a hit is exactly a binary with the provenance of this commit and its own hash; otherwise which miss is answered |
| Quantiles.Quantile | crates/atlasctl-core/src/metrics.rs:232-259 | the search loop gives the specified estimate |
| Quantiles.CollectedInOrder | crates/atlasctl-core/src/metrics.rs:99-124 | collected buckets are in the order of their edges and none is lost |
| Quantiles.InsideItsBucket | crates/atlasctl-core/src/metrics.rs:232-259 | some bucket always reaches the quantile; it is absent exactly when that bucket is unbounded, and inside it otherwise |
| Quantiles.InterpolatesExactly | crates/atlasctl-core/src/metrics.rs:232-259 | over any buckets: none outside 0 to 1 or without a count; else the bucket first reached decides, and gives the point of the straight line through its two corners |
| Quantiles.Monotone | crates/atlasctl-core/src/metrics.rs:232-259 | a larger quantile is never a smaller value, and stays absent |
| Quantiles.TotalIsTheLastSets | crates/atlasctl-core/src/metrics.rs:71-124 | the total a quantile is taken of is that of the label set listed last, which is everything counted exactly when the other sets counted nothing |

## Left out

- Sockets, TLS, discovery, websockets and task scheduling: only the messages and answers the protocols see.
- `ClusterRuns.EveryRun`: ceremonies are taken one at a time; `Overlap` and `OverlapSent` let them interleave, and follow the slots, the epochs and the commits, not how the ranks answer.
- How a rank keeps its word: the implementation of the rank service, its container runtime and the lapse of a reservation on its own; a machine answers by the documented contract.
- The preview of a launch, recipe and setting checks, message texts and the unused checks of single-node launches: they add only easy statements.
- `Driving.ClusterDriver.PrepareInner`: the driver passes the number of selected nodes as the required count, so the planner's node-count refusal cannot arise from it.
- IPv6 and host names in subnet arithmetic: any address that is not IPv4 shares no network, as in the code.
- Times at which answers come, the length of the settling window and reconnect back-off: only their order matters here.
- The JSON text of an event: any pair of functions that are inverse, printable, and cannot read a cut or a glued line.
- Concurrent appends to one journal: the code serialises them with a lock.
- Opening a job's journal twice at once, and the cache of open journals.
- `Attach.ServeAttach`: the waiting between passes is a script of what woke the loop; the refusals before the first pass (no configuration, unknown job) send one frame and end, as a refused grant does.
- `SecretFile.TargetIsWhole`: the file mode carried over, links resolved before writing and the retry of a rename on Windows are not modelled; a mode that cannot be carried over counts as giving up.
- `MachineRun.Run.ToEnd`: the record store and the journal are taken to be writable.
- `Recovery.DonesExactly`: an append or a save that is made goes through whole, and a cancel's last one may be an append it skips; a torn line or an unsynced one is `JournalLog`'s subject.
- `SubmitWords.CancelInFull`: the journal number a cancel notes in the record is not followed; journal and store are separate models.
- `StoreWords.SaveInFull`: the child, binary, snapshot and journal number a save also carries are `MachineRun`'s subject.
- The text of refusal and failure reasons beyond telling them apart.
- `LogTail.LosslessTail`: what cleaning does to a line and what makes it a verdict or progress are parameters.
- Lines written between the last look at the log and the child's exit are not read by the code, and so are not in any statement here.
- Signals, process groups and `/proc`: a look says whether the child has exited.
- `Quantiles.InsideItsBucket`: floats are reals, so rounding, NaN and infinite counts are not modelled; nor is the splitting of exposition lines, rates and means.
- `BenchRuns.EveryRun`: a submission is one step there, two at once being `SubmitRace`'s subject, and I/O errors of the store are left out. A new job is taken not to get the id of a removed one that a cancel is still under way for: ids come from the clock and the key.
- `AttachOnce.ExactlyOnce`: the client's reading loop is modelled on values; its idle timeout is one more way for a connection to drop.
- Listing and sorting the job records: places in the queue are counted in the same order; which finished jobs retention removes, and when, is any choice.
- The checks of parameters, checkpoint and hardware class in a submission are one input that says whether they refuse.
- Hashing, pairing, signatures and tokens.
- Temporary names of the job store's own writes, which are per process only.
- `Records.CreditedExactly`: file times strictly increase with every write in the directory; times that cannot be read count as the epoch, as in the code.
