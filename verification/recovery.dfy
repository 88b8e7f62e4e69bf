/** One job over everything that may hold a copy of its record at once: the worker, or the
    recovery that takes its place after a crash, and any number of cancels. Each reads the
    record, and saves over it later, whatever has become of it; a crash ends them all. */
module Recovery {
  import opened Wrappers
  import opened Events
  import opened Machine
  import opened MachineLife
  import MachineEnds

  // ---- A child found alive ----------------------------------------------------

  /** A resumed child's records are collected; nobody asks whether one is a gate record. */
  function ResumedOutcome(code: int, verdict: Option<Verdict>, artifacts: seq<ArtifactMeta>): Outcome {
    Completed(code, verdict, FirstOf(artifacts, Record), FirstOf(artifacts, Signature))
  }

  function ResumedCollect(s: Script): (p: Phase)
    requires s.end.Ok? && s.end.value.Exited?
    ensures p.stop.Some?
  {
    var asked := [Moved(Collecting), Called(Collect)];
    match s.collect
    case Err(e) => Machine.Fail(asked, Collecting, e)
    case Ok(artifacts) =>
      Stop(asked + Outputs(Artifacts(artifacts)), ResumedOutcome(s.end.value.code, s.end.value.verdict, artifacts))
  }

  /** From the worktree to the child's end; the child itself is not started again. */
  function ResumedWait(ctx: Context, s: Script): (p: Phase)
    ensures p.stop.None? ==> s.end.Ok? && s.end.value.Exited?
  {
    match s.worktree
    case Err(e) => Stop([Called(Worktree)], Orphaned("worktree: " + e))
    case Ok(_) => Then(Phase([Called(Worktree), Called(Wait)] + Outputs(s.output), None), EndOf(ctx, s))
  }

  function ResumedPhases(ctx: Context, s: Script): (p: Phase)
    ensures p.stop.Some?
  {
    var p := ResumedWait(ctx, s);
    if p.stop.Some? then p else Then(p, ResumedCollect(s))
  }

  /** A resumed life ends with the outcome a fresh one would have recorded, except exactly
      when the child exited 0 and left no gate record: a fresh life fails then, and a resumed
      one completes. */
  lemma ResumeJudgesAlike(code: int, verdict: Option<Verdict>, artifacts: seq<ArtifactMeta>)
    ensures ResumedOutcome(code, verdict, artifacts) == Judged(code, verdict, artifacts)
       <==> code != 0 || exists i :: 0 <= i < |artifacts| && artifacts[i].kind == Record
  {
    FirstIsListed(artifacts, Record);
  }

  /** What a resumed life ends with, by what happens first. */
  ghost predicate ResumedEnds(ctx: Context, s: Script, o: Outcome) {
    if s.worktree.Err? then o == Orphaned("worktree: " + s.worktree.error)
    else if s.end.Err? then o.Failed? && o.stage == Running
    else
      match s.end.value
      case Stalled(n) => o == TimedOut(Running, n)
      case OverTime(n) => o == TimedOut(Running, n)
      case Stopped => o == Cancelled(ctx.local)
      case Exited(code, verdict) =>
        if s.collect.Err? then o.Failed? && o.stage == Collecting
        else
          && o.Completed? && o.exitCode == code && o.verdict == verdict
          && MachineEnds.FirstWith(s.collect.value, Record, o.record) && MachineEnds.FirstWith(s.collect.value, Signature, o.signature)
  }

  /** An outlived child that went silent or over its time is a job timed out while running, one
      that was stopped a cancelled one, and one that exited a completed one with its exit code
      and verdict and the first record and signature among its artifacts; a worktree that
      could not be made leaves an orphan, and the waiting or the collecting may fail. */
  lemma ResumedEndsExactly(ctx: Context, s: Script, o: Outcome)
    requires ResumedPhases(ctx, s).stop == Some(o)
    ensures ResumedEnds(ctx, s, o)
  {
    if s.collect.Ok? {
      MachineEnds.FirstOfIsFirst(s.collect.value, Record);
      MachineEnds.FirstOfIsFirst(s.collect.value, Signature);
    }
  }

  // ---- Whoever takes the job up -----------------------------------------------

  datatype Stint = Working(script: Script) | Resuming(script: Script) | Orphaning(why: string)

  function Ending(o: Outcome): seq<Entry> {
    [Journaled(EvDone(o)), Moved(Done)]
  }

  /** Everything a stint does before it ends, and the outcome it ends with, for a job found
      in that state: a queued one is run, a running one resumed or orphaned, any other live
      one orphaned, and a finished one left alone. */
  function StintOf(ctx: Context, state: JobState, stint: Stint): Option<(seq<Entry>, Outcome)> {
    match stint
    case Working(s) =>
      if state.Queued? then Some((PhasesOf(ctx, s).trace, PhasesOf(ctx, s).stop.value)) else None
    case Resuming(s) =>
      if state.Running? then Some((ResumedPhases(ctx, s).trace, ResumedPhases(ctx, s).stop.value)) else None
    case Orphaning(why) => if state.Queued? || state.Done? then None else Some(([], Orphaned(why)))
  }

  /** What the ports promise of a child's output, in a stint that has one. */
  ghost predicate Proper(stint: Stint) {
    (stint.Working? || stint.Resuming?) ==> OnlyOutput(stint.script.output)
  }

  /** A stint is taken up exactly by the right agent of the right stage, and ends as a life,
      as a resumed life, or as an orphan. */
  lemma StintEnds(ctx: Context, state: JobState, stint: Stint, end: Option<Outcome>)
    requires end == match StintOf(ctx, state, stint) case None => None case Some((_, o)) => Some(o)
    ensures end.Some? <==>
      (stint.Working? && state == Queued) || (stint.Resuming? && state == Running)
      || (stint.Orphaning? && state in {Preparing, Building, Running, Collecting})
    ensures end.Some? && stint.Working? ==> end.value == Life(ctx, stint.script).1
    ensures end.Some? && stint.Resuming? ==> ResumedEnds(ctx, stint.script, end.value)
    ensures end.Some? && stint.Orphaning? ==> end.value == Orphaned(stint.why)
  {
    if end.Some? && stint.Resuming? {
      ResumedEndsExactly(ctx, stint.script, end.value);
    }
  }

  // ---- The body of a stint ----------------------------------------------------

  predicate CalmEntry(e: Entry) {
    match e
    case Journaled(kind) => !kind.EvDone?
    case Moved(state) => !state.Done? && !state.Queued?
    case _ => true
  }

  predicate Calm(trace: seq<Entry>) {
    forall i | 0 <= i < |trace| :: CalmEntry(trace[i])
  }

  function Spawns(trace: seq<Entry>): nat {
    if trace == [] then 0 else Spawns(trace[1..]) + if trace[0] == Called(Spawn) then 1 else 0
  }

  /** Once the grammar is broken or ended, or a stage went back, it stays so. */
  lemma {:induction false} SpoiltStays(w: Watch, trace: seq<Entry>)
    requires !w.forward || w.place == AtEnd || w.place == Never || w.stage > 4
    ensures !Fine(SeeAll(w, trace), 4)
    decreases |trace|
  {
    if trace != [] {
      SpoiltStays(See(w, trace[0]), trace[1..]);
    }
  }

  /** So what leaves a watch fine was calm all along. */
  lemma {:induction false} FineIsCalm(w: Watch, trace: seq<Entry>)
    requires Fine(w, 4) && Fine(SeeAll(w, trace), 4)
    ensures Calm(trace) && SeeAll(w, trace).spawned == w.spawned + Spawns(trace)
    decreases |trace|
  {
    if trace != [] {
      var next := See(w, trace[0]);
      if !Fine(next, 4) {
        SpoiltStays(next, trace[1..]);
      } else {
        FineIsCalm(next, trace[1..]);
        forall i | 0 <= i < |trace|
          ensures CalmEntry(trace[i])
        {
          assert i > 0 ==> trace[i] == trace[1..][i - 1];
        }
      }
    }
  }

  const OUTLIVED := Watch(AtOutput, 3, true, 0, false)

  lemma ResumedWaitSees(ctx: Context, s: Script, after: Watch)
    requires OnlyOutput(s.output) && after == SeeAll(OUTLIVED, ResumedWait(ctx, s).trace)
    ensures Fine(after, 3) && after.stage == 3 && after.place in {AtOutput, AtArtifacts} && after.spawned == 0
  {
    var asked := [Called(Worktree), Called(Wait)];
    Sees1(OUTLIVED, Called(Worktree));
    if s.worktree.Ok? {
      Sees2(OUTLIVED, asked[0], asked[1]);
      SeeConcat(OUTLIVED, asked, Outputs(s.output));
      OutputSees(OUTLIVED, s.output);
      ThenSees(OUTLIVED, Phase(asked + Outputs(s.output), None), EndOf(ctx, s));
      EndSees(ctx, s, OUTLIVED, after);
    }
  }

  lemma ResumedCollectSees(s: Script, w: Watch, after: Watch)
    requires s.end.Ok? && s.end.value.Exited?
    requires w.place in {AtOutput, AtArtifacts} && w.stage == 3 && w.forward && after == SeeAll(w, ResumedCollect(s).trace)
    ensures Fine(after, 4) && after.spawned == w.spawned
  {
    CollectSees(s, w, SeeAll(w, CollectOf(s).trace));
  }

  lemma ResumedSees(ctx: Context, s: Script, last: Watch)
    requires OnlyOutput(s.output) && last == SeeAll(OUTLIVED, ResumedPhases(ctx, s).trace)
    ensures Fine(last, 4) && last.spawned == 0
  {
    var waited := SeeAll(OUTLIVED, ResumedWait(ctx, s).trace);
    ResumedWaitSees(ctx, s, waited);
    if ResumedWait(ctx, s).stop.None? {
      ThenSees(OUTLIVED, ResumedWait(ctx, s), ResumedCollect(s));
      ResumedCollectSees(s, waited, last);
    }
  }

  /** Whatever a stint does before it ends says no `Done`, enters neither end of the stages,
      and starts at most one child, and that only of a queued job, which it first moves on. */
  lemma StintIsCalm(ctx: Context, state: JobState, stint: Stint)
    requires Proper(stint) && StintOf(ctx, state, stint).Some?
    ensures var body := StintOf(ctx, state, stint).value.0;
      && Calm(body) && Spawns(body) <= 1 && (Spawns(body) > 0 ==> state.Queued?)
      && (state.Queued? ==> body != [] && body[0] == Moved(Preparing))
  {
    match stint {
      case Working(s) =>
        PhasesSee(ctx, s, SeeAll(NEWBORN, PhasesOf(ctx, s).trace));
        FineIsCalm(NEWBORN, PhasesOf(ctx, s).trace);
        StartsPreparing(ctx, s);
      case Resuming(s) =>
        ResumedSees(ctx, s, SeeAll(OUTLIVED, ResumedPhases(ctx, s).trace));
        FineIsCalm(OUTLIVED, ResumedPhases(ctx, s).trace);
      case Orphaning(_) =>
    }
  }

  lemma StartsPreparing(ctx: Context, s: Script)
    ensures PhasesOf(ctx, s).trace != [] && PhasesOf(ctx, s).trace[0] == Moved(Preparing)
  {
    var (asked, fetched) := CommitOf(s);
    var start := [Moved(Preparing)] + asked;
    assert start <= PrepareOf(ctx, s).trace;
    assert PrepareOf(ctx, s).trace <= RunningOf(ctx, s).trace;
    assert RunningOf(ctx, s).trace <= PhasesOf(ctx, s).trace;
  }

  // ---- The disk, and the copies of its record ---------------------------------

  /** The record's state, the journal's events, and how many children were ever started. */
  datatype Disk = Disk(state: JobState, journal: seq<EventKind>, spawned: nat)

  /** A copy of the record: what its holder has still to do, the state the copy is in, and
      the turn it was read. */
  datatype Hold = Hold(rest: seq<Entry>, state: JobState, since: nat)

  /** The disk, the holders, of whom 0 is the worker, the turn a finished record was
      finished at, and this turn. */
  datatype Now = Now(disk: Disk, holders: map<nat, Hold>, doneAt: nat, turn: nat)

  /** What an agent does with a job it finds, and how it says that one was cancelled. */
  datatype Agent = Agent(stint: (JobState, Stint) -> Option<seq<Entry>>, withdrawn: Outcome)

  function AgentOf(ctx: Context): Agent {
    Agent((state: JobState, stint: Stint) =>
            match StintOf(ctx, state, stint)
            case None => None
            case Some((body, o)) => Some(body + Ending(o)),
          Cancelled(ctx.local))
  }

  /** Taking the job up, reading it for a cancel that can or cannot journal, a holder's next
      entry, a holder that gives up, and a crash. */
  datatype Op = Take(stint: Stint) | Ask(call: nat, journals: bool) | Go(holder: nat) | Drop(holder: nat) | Crash

  /** A save puts the holder's copy on disk, state and all. */
  function Wrote(d: Disk, h: Hold): Disk
    requires h.rest != []
  {
    match h.rest[0]
    case Journaled(kind) => d.(journal := d.journal + [kind])
    case Moved(state) => d.(state := state)
    case Saved => d.(state := h.state)
    case Called(call) => if call.Spawn? then d.(spawned := d.spawned + 1) else d
  }

  function Advanced(h: Hold): Hold
    requires h.rest != []
  {
    h.(rest := h.rest[1..], state := if h.rest[0].Moved? then h.rest[0].state else h.state)
  }

  predicate Ready(n: Now, h: nat) {
    h in n.holders && n.holders[h].rest != []
  }

  function Gone(n: Now, h: nat): Now {
    if !Ready(n, h) then n
    else
      var d := Wrote(n.disk, n.holders[h]);
      n.(disk := d,
         holders := if |n.holders[h].rest| == 1 then n.holders - {h} else n.holders[h := Advanced(n.holders[h])],
         doneAt := if d.state.Done? && !n.disk.state.Done? then n.turn else n.doneAt)
  }

  function Taken(g: Agent, n: Now, stint: Stint): Now {
    var rest := g.stint(n.disk.state, stint);
    if 0 in n.holders || rest.None? then n else n.(holders := n.holders[0 := Hold(rest.value, n.disk.state, n.turn)])
  }

  /** Only a queued job is saved by the cancel that read it; one that fails to journal the end
      saves it all the same. */
  function Asked(g: Agent, n: Now, c: nat, journals: bool): Now {
    if c == 0 || c in n.holders || !n.disk.state.Queued? then n
    else
      var rest := if journals then Ending(g.withdrawn) else [Moved(Done)];
      n.(holders := n.holders[c := Hold(rest, n.disk.state, n.turn)])
  }

  function Step(g: Agent, n: Now, op: Op): Now {
    var m :=
      match op
      case Take(stint) => Taken(g, n, stint)
      case Ask(c, journals) => Asked(g, n, c, journals)
      case Go(h) => Gone(n, h)
      case Drop(h) => n.(holders := n.holders - {h})
      case Crash => n.(holders := map[]);
    m.(turn := n.turn + 1)
  }

  function Run(g: Agent, n: Now, ops: seq<Op>): Now {
    if ops == [] then n else Step(g, Run(g, n, ops[..|ops| - 1]), ops[|ops| - 1])
  }

  function Dones(kinds: seq<EventKind>): nat {
    if kinds == [] then 0
    else Dones(kinds[..|kinds| - 1]) + if kinds[|kinds| - 1].EvDone? then 1 else 0
  }

  lemma DonesMore(kinds: seq<EventKind>, kind: EventKind)
    ensures Dones(kinds + [kind]) == Dones(kinds) + if kind.EvDone? then 1 else 0
  {
    assert (kinds + [kind])[..|kinds|] == kinds;
  }

  /** The holders that have only their end to save. */
  function Open(n: Now): set<nat> {
    set h | h in n.holders && n.holders[h].rest == [Moved(Done)]
  }

  /** Ends said and never saved: by a crash, or a holder that gives up. */
  function Torn(n: Now, op: Op): nat {
    match op
    case Drop(h) => if h in Open(n) then 1 else 0
    case Crash => |Open(n)|
    case _ => 0
  }

  /** An end that will be saved and was never said. */
  function Mute(n: Now, op: Op): nat {
    if op.Ask? && !op.journals && op.call != 0 && op.call !in n.holders && n.disk.state.Queued? then 1 else 0
  }

  predicate IsSave(e: Entry) {
    e.Moved? || e.Saved?
  }

  /** A save of a copy older than the finish of the record it is saved over. */
  predicate Overtakes(n: Now, op: Op) {
    && op.Go? && Ready(n, op.holder) && IsSave(n.holders[op.holder].rest[0])
    && n.disk.state.Done? && n.holders[op.holder].since < n.doneAt
  }

  // ---- What every step keeps --------------------------------------------------

  /** Calm entries, then the end. */
  predicate Winds(rest: seq<Entry>) {
    && rest != []
    && if rest[0].Journaled? && rest[0].kind.EvDone? then rest[1..] == [Moved(Done)]
       else CalmEntry(rest[0]) && Winds(rest[1..])
  }

  /** A copy still in the queue's state is moved on before anything else is done with it,
      or only ended. */
  predicate HoldOk(h: Hold) {
    && (h.rest == [Moved(Done)] || Winds(h.rest)) && !h.state.Done?
    && (h.state.Queued? ==>
          h.rest[0] == Moved(Preparing) || h.rest == [Moved(Done)] || (h.rest[0].Journaled? && h.rest[0].kind.EvDone?))
  }

  ghost predicate HoldersOk(n: Now) {
    forall h | h in n.holders ::
      && HoldOk(n.holders[h]) && n.holders[h].since < n.turn
      && (n.disk.state.Done? ==> n.holders[h].since < n.doneAt)
      && (h != 0 ==> Spawns(n.holders[h].rest) == 0)
  }

  function Ahead(n: Now): nat {
    if 0 in n.holders then Spawns(n.holders[0].rest) else 0
  }

  /** A child is started at most once, and only after the job has left the queue. */
  predicate SpawnsOk(n: Now) {
    && n.disk.spawned + Ahead(n) <= 1
    && (n.disk.state.Queued? ==> n.disk.spawned == 0)
    && (0 in n.holders && !n.holders[0].state.Queued? ==> !n.disk.state.Queued?)
  }

  ghost predicate Inv(n: Now) {
    HoldersOk(n) && SpawnsOk(n) && (n.disk.state.Done? ==> n.doneAt < n.turn)
  }

  ghost predicate Reliable(g: Agent) {
    forall state, stint | Proper(stint) && g.stint(state, stint).Some? ::
      var rest := g.stint(state, stint).value;
      && !state.Done? && Winds(rest) && Spawns(rest) <= 1 && (Spawns(rest) > 0 ==> state.Queued?)
      && (state.Queued? ==> rest[0] == Moved(Preparing))
  }

  lemma {:induction false} CalmWinds(body: seq<Entry>, o: Outcome)
    requires Calm(body)
    ensures Winds(body + Ending(o)) && Spawns(body + Ending(o)) == Spawns(body)
    decreases |body|
  {
    if body == [] {
      assert body + Ending(o) == Ending(o) && Ending(o)[1..] == [Moved(Done)] && [Moved(Done)][1..] == [];
    } else {
      forall i | 0 <= i < |body[1..]|
        ensures CalmEntry(body[1..][i])
      {
        assert body[1..][i] == body[i + 1];
      }
      assert CalmEntry(body[0]);
      CalmWinds(body[1..], o);
      assert (body + Ending(o))[1..] == body[1..] + Ending(o);
    }
  }

  lemma AgentIsReliable(ctx: Context)
    ensures Reliable(AgentOf(ctx))
  {
    forall state, stint | Proper(stint) && AgentOf(ctx).stint(state, stint).Some?
      ensures var rest := AgentOf(ctx).stint(state, stint).value;
        && !state.Done? && Winds(rest) && Spawns(rest) <= 1 && (Spawns(rest) > 0 ==> state.Queued?)
        && (state.Queued? ==> rest[0] == Moved(Preparing))
    {
      var (body, o) := StintOf(ctx, state, stint).value;
      StintIsCalm(ctx, state, stint);
      CalmWinds(body, o);
    }
  }

  lemma TakeKeepsInv(g: Agent, n: Now, stint: Stint)
    requires Reliable(g) && Proper(stint) && Inv(n)
    ensures Inv(Step(g, n, Take(stint)))
  {
  }

  lemma AskKeepsInv(g: Agent, n: Now, c: nat, journals: bool)
    requires Inv(n)
    ensures Inv(Step(g, n, Ask(c, journals)))
  {
    CalmWinds([], g.withdrawn);
    assert [] + Ending(g.withdrawn) == Ending(g.withdrawn);
    assert [Moved(Done)][1..] == [] && Spawns([Moved(Done)]) == 0;
  }

  /** One entry of one holder. */
  lemma GoKeepsHold(h: Hold)
    requires HoldOk(h) && |h.rest| > 1
    ensures HoldOk(Advanced(h)) && Spawns(h.rest) == Spawns(Advanced(h).rest) + if h.rest[0] == Called(Spawn) then 1 else 0
    ensures h.rest[0].Moved? ==> !h.rest[0].state.Done? && !h.rest[0].state.Queued?
    ensures h.state.Queued? ==> h.rest[0].Moved? || h.rest[0].Journaled?
  {
  }

  lemma GoKeepsInv(g: Agent, n: Now, h: nat)
    requires Inv(n)
    ensures Inv(Step(g, n, Go(h)))
  {
    if Ready(n, h) {
      if |n.holders[h].rest| > 1 {
        GoKeepsHold(n.holders[h]);
      }
    }
  }

  lemma StepKeepsInv(g: Agent, n: Now, op: Op)
    requires Reliable(g) && Inv(n) && (op.Take? ==> Proper(op.stint))
    ensures Inv(Step(g, n, op))
  {
    match op {
      case Take(stint) => TakeKeepsInv(g, n, stint);
      case Ask(c, journals) => AskKeepsInv(g, n, c, journals);
      case Go(h) => GoKeepsInv(g, n, h);
      case Drop(_) =>
      case Crash =>
    }
  }

  // ---- Counting ends ----------------------------------------------------------

  function IsDone(d: Disk): nat {
    if d.state.Done? then 1 else 0
  }

  function Over(n: Now, op: Op): nat {
    if Overtakes(n, op) then 1 else 0
  }

  /** How a step moves what is journaled, what is under way and what is done: they stay level
      but for ends that are torn, overtaken or mute. */
  ghost predicate Balanced(n: Now, op: Op, t: Now) {
    Dones(t.disk.journal) + |Open(n)| + IsDone(n.disk) + Mute(n, op)
    == Dones(n.disk.journal) + |Open(t)| + IsDone(t.disk) + Torn(n, op) + Over(n, op)
  }

  lemma SaysEnd(n: Now, h: nat, t: Now)
    requires Inv(n) && Ready(n, h) && n.holders[h].rest[0].Journaled? && n.holders[h].rest[0].kind.EvDone?
    requires t == Gone(n, h)
    ensures Balanced(n, Go(h), t)
  {
    DonesMore(n.disk.journal, n.holders[h].rest[0].kind);
    assert Open(t) == Open(n) + {h} && h !in Open(n);
  }

  lemma SavesEnd(n: Now, h: nat, t: Now)
    requires Inv(n) && Ready(n, h) && n.holders[h].rest == [Moved(Done)] && t == Gone(n, h)
    ensures Balanced(n, Go(h), t)
  {
    assert Open(t) == Open(n) - {h} && h in Open(n);
  }

  lemma GoesOn(n: Now, h: nat, t: Now)
    requires Inv(n) && Ready(n, h) && CalmEntry(n.holders[h].rest[0]) && Winds(n.holders[h].rest) && t == Gone(n, h)
    ensures Balanced(n, Go(h), t)
  {
    var e := n.holders[h].rest[0];
    if e.Journaled? {
      DonesMore(n.disk.journal, e.kind);
    }
    assert Winds(n.holders[h].rest[1..]);
    forall k
      ensures k in Open(t) <==> k in Open(n)
    {
    }
    assert Open(t) == Open(n);
  }

  lemma GoBalances(g: Agent, n: Now, h: nat)
    requires Inv(n)
    ensures Balanced(n, Go(h), Step(g, n, Go(h)))
  {
    if Ready(n, h) {
      var e := n.holders[h].rest[0];
      if e.Journaled? && e.kind.EvDone? {
        SaysEnd(n, h, Gone(n, h));
      } else if n.holders[h].rest == [Moved(Done)] {
        SavesEnd(n, h, Gone(n, h));
      } else {
        GoesOn(n, h, Gone(n, h));
      }
    }
  }

  lemma OneMoreHold(n: Now, h: nat, hold: Hold, t: Now)
    requires h !in n.holders && Winds(hold.rest) && t.disk == n.disk && t.holders == n.holders[h := hold]
    ensures Open(t) == Open(n)
  {
  }

  lemma TakeBalances(g: Agent, n: Now, stint: Stint)
    requires Reliable(g) && Proper(stint)
    ensures Balanced(n, Take(stint), Step(g, n, Take(stint)))
  {
    var t := Taken(g, n, stint);
    if t.holders != n.holders {
      OneMoreHold(n, 0, t.holders[0], t);
    }
    assert Open(Step(g, n, Take(stint))) == Open(n);
  }

  lemma AskBalances(g: Agent, n: Now, c: nat, journals: bool)
    ensures Balanced(n, Ask(c, journals), Step(g, n, Ask(c, journals)))
  {
    var t := Asked(g, n, c, journals);
    if t.holders == n.holders {
      assert Open(Step(g, n, Ask(c, journals))) == Open(n);
    } else if journals {
      OneMoreHold(n, c, t.holders[c], t);
      assert Open(Step(g, n, Ask(c, journals))) == Open(n);
    } else {
      assert Open(Step(g, n, Ask(c, journals))) == Open(n) + {c} && c !in Open(n);
    }
  }

  lemma DropBalances(g: Agent, n: Now, h: nat)
    ensures Balanced(n, Drop(h), Step(g, n, Drop(h)))
  {
    assert Open(Step(g, n, Drop(h))) == Open(n) - {h};
  }

  lemma CrashBalances(g: Agent, n: Now)
    ensures Balanced(n, Crash, Step(g, n, Crash))
  {
    assert Open(Step(g, n, Crash)) == {};
  }

  lemma StepBalances(g: Agent, n: Now, op: Op)
    requires Reliable(g) && Inv(n) && (op.Take? ==> Proper(op.stint))
    ensures Balanced(n, op, Step(g, n, op))
  {
    match op {
      case Take(stint) => TakeBalances(g, n, stint);
      case Ask(c, journals) => AskBalances(g, n, c, journals);
      case Go(h) => GoBalances(g, n, h);
      case Drop(h) => DropBalances(g, n, h);
      case Crash => CrashBalances(g, n);
    }
  }

  // ---- Whole histories --------------------------------------------------------

  ghost predicate AllProper(ops: seq<Op>) {
    forall i | 0 <= i < |ops| && ops[i].Take? :: Proper(ops[i].stint)
  }

  /** A job that has just been queued, nobody at it. */
  predicate NewJob(n: Now) {
    n.disk.state.Queued? && Dones(n.disk.journal) == 0 && n.disk.spawned == 0 && n.holders == map[]
  }

  function TornEnds(g: Agent, n: Now, ops: seq<Op>): nat {
    if ops == [] then 0
    else TornEnds(g, n, ops[..|ops| - 1]) + Torn(Run(g, n, ops[..|ops| - 1]), ops[|ops| - 1])
  }

  function Overtakings(g: Agent, n: Now, ops: seq<Op>): nat {
    if ops == [] then 0
    else Overtakings(g, n, ops[..|ops| - 1]) + Over(Run(g, n, ops[..|ops| - 1]), ops[|ops| - 1])
  }

  function Mutes(g: Agent, n: Now, ops: seq<Op>): nat {
    if ops == [] then 0
    else Mutes(g, n, ops[..|ops| - 1]) + Mute(Run(g, n, ops[..|ops| - 1]), ops[|ops| - 1])
  }

  lemma {:induction false} RunBalances(g: Agent, n: Now, ops: seq<Op>)
    requires Reliable(g) && NewJob(n) && AllProper(ops)
    ensures var t := Run(g, n, ops);
      && Inv(t)
      && Dones(t.disk.journal) + Mutes(g, n, ops)
         == TornEnds(g, n, ops) + Overtakings(g, n, ops) + |Open(t)| + IsDone(t.disk)
  {
    if ops == [] {
      assert Open(n) == {};
    } else {
      var before := ops[..|ops| - 1];
      RunBalances(g, n, before);
      StepKeepsInv(g, Run(g, n, before), ops[|ops| - 1]);
      StepBalances(g, Run(g, n, before), ops[|ops| - 1]);
    }
  }

  /** However the worker, any number of cancels, crashes and recoveries interleave, the
      journal holds one `Done` for every end that was torn, one for every save of a copy older
      than the finish it is saved over, one for every end still to be saved, and one for the
      record being done; less those of the cancels that could not journal. */
  lemma DonesExactly(ctx: Context, n: Now, ops: seq<Op>)
    requires NewJob(n) && AllProper(ops)
    ensures var (g, t) := (AgentOf(ctx), Run(AgentOf(ctx), n, ops));
      Dones(t.disk.journal) + Mutes(g, n, ops)
      == TornEnds(g, n, ops) + Overtakings(g, n, ops) + |Open(t)| + IsDone(t.disk)
  {
    AgentIsReliable(ctx);
    RunBalances(AgentOf(ctx), n, ops);
  }

  /** A step that costs a second `Done`. */
  ghost predicate SpoiltAt(g: Agent, n: Now, ops: seq<Op>, i: nat) {
    i < |ops| && (Torn(Run(g, n, ops[..i]), ops[i]) > 0 || Overtakes(Run(g, n, ops[..i]), ops[i]))
  }

  lemma SpoiltMore(g: Agent, n: Now, ops: seq<Op>, op: Op)
    ensures (exists i :: SpoiltAt(g, n, ops + [op], i))
       <==> (exists i :: SpoiltAt(g, n, ops, i)) || Torn(Run(g, n, ops), op) > 0 || Overtakes(Run(g, n, ops), op)
  {
    var k := |ops|;
    assert (ops + [op])[..k] == ops;
    forall i: nat | i < k
      ensures SpoiltAt(g, n, ops + [op], i) <==> SpoiltAt(g, n, ops, i)
    {
      assert (ops + [op])[..i] == ops[..i];
    }
    assert SpoiltAt(g, n, ops + [op], k) <==> Torn(Run(g, n, ops), op) > 0 || Overtakes(Run(g, n, ops), op);
    if i: nat :| SpoiltAt(g, n, ops, i) {
      assert SpoiltAt(g, n, ops + [op], i);
    }
  }

  lemma {:induction false} CountsExist(g: Agent, n: Now, ops: seq<Op>)
    ensures TornEnds(g, n, ops) + Overtakings(g, n, ops) > 0 <==> exists i :: SpoiltAt(g, n, ops, i)
  {
    if ops != [] {
      var before, op := ops[..|ops| - 1], ops[|ops| - 1];
      assert ops == before + [op];
      CountsExist(g, n, before);
      SpoiltMore(g, n, before, op);
    }
  }

  lemma {:induction false} NoneMute(g: Agent, n: Now, ops: seq<Op>)
    requires forall i | 0 <= i < |ops| && ops[i].Ask? :: ops[i].journals
    ensures Mutes(g, n, ops) == 0
  {
    if ops != [] {
      NoneMute(g, n, ops[..|ops| - 1]);
    }
  }

  /** So a finished job, with no end under way, has exactly one `Done` in its journal exactly
      when no end was torn and no save overtook a finish; where a cancel could not journal,
      exactly when as many were as there are such cancels. */
  lemma OneDoneExactly(ctx: Context, g: Agent, n: Now, ops: seq<Op>)
    requires g == AgentOf(ctx) && NewJob(n) && AllProper(ops)
    requires Run(g, n, ops).disk.state.Done? && Open(Run(g, n, ops)) == {}
    ensures Dones(Run(g, n, ops).disk.journal) == 1 <==> TornEnds(g, n, ops) + Overtakings(g, n, ops) == Mutes(g, n, ops)
    ensures (forall i | 0 <= i < |ops| && ops[i].Ask? :: ops[i].journals) ==>
      (Dones(Run(g, n, ops).disk.journal) == 1 <==> !exists i :: SpoiltAt(g, n, ops, i))
  {
    DonesExactly(ctx, n, ops);
    CountsExist(g, n, ops);
    if forall i | 0 <= i < |ops| && ops[i].Ask? :: ops[i].journals {
      NoneMute(g, n, ops);
    }
  }

  /** And whatever happens, a job's child is started at most once. */
  lemma StartedOnce(ctx: Context, n: Now, ops: seq<Op>)
    requires NewJob(n) && AllProper(ops)
    ensures Run(AgentOf(ctx), n, ops).disk.spawned <= 1
  {
    AgentIsReliable(ctx);
    RunBalances(AgentOf(ctx), n, ops);
  }

  ghost predicate Settled(n: Now, t: Now) {
    t.disk == n.disk && t.holders == map[]
  }

  lemma {:induction false} SettledRun(g: Agent, n: Now, ops: seq<Op>)
    requires Reliable(g) && AllProper(ops) && n.disk.state.Done? && n.holders == map[]
    ensures Settled(n, Run(g, n, ops))
  {
    if ops != [] {
      SettledRun(g, n, ops[..|ops| - 1]);
      var m := Run(g, n, ops[..|ops| - 1]);
      if ops[|ops| - 1].Drop? {
        assert m.holders - {ops[|ops| - 1].holder} == map[];
      }
    }
  }

  /** Once a job is finished and nobody holds a copy of it, it is never taken up again, and
      nothing more is written about it. */
  lemma FinishedForGood(ctx: Context, n: Now, ops: seq<Op>)
    requires AllProper(ops) && n.disk.state.Done? && n.holders == map[]
    ensures Run(AgentOf(ctx), n, ops).disk == n.disk
  {
    AgentIsReliable(ctx);
    SettledRun(AgentOf(ctx), n, ops);
  }

  // ---- How a second end comes about -------------------------------------------

  /** A holder going on for so many entries. */
  function Going(g: Agent, n: Now, h: nat, k: nat): Now {
    if k == 0 then n else Step(g, Going(g, n, h, k - 1), Go(h))
  }

  /** What a holder writes on its way. */
  ghost predicate HasGone(n: Now, h: nat, rest: seq<Entry>, k: nat, t: Now)
    requires k <= |rest|
  {
    && t.disk.journal == n.disk.journal + Kinds(rest[..k])
    && (if k < |rest| then h in t.holders && t.holders[h].rest == rest[k..] else h !in t.holders)
    && (forall o | o != h :: o in t.holders <==> o in n.holders)
  }

  lemma KindsOne(rest: seq<Entry>, k: nat)
    requires k < |rest|
    ensures Kinds(rest[..k + 1]) == Kinds(rest[..k]) + Said(rest[k])
  {
    assert rest[..k + 1] == rest[..k] + [rest[k]];
    KindsMore(rest[..k], rest[k]);
  }

  lemma OneGone(g: Agent, n: Now, h: nat, rest: seq<Entry>, k: nat, m: Now)
    requires k < |rest| && HasGone(n, h, rest, k, m)
    ensures HasGone(n, h, rest, k + 1, Step(g, m, Go(h)))
    ensures rest[k] == Moved(Done) ==> Step(g, m, Go(h)).disk.state.Done?
  {
    KindsOne(rest, k);
    assert rest[k..][0] == rest[k] && rest[k..][1..] == rest[k + 1..];
    assert n.disk.journal + Kinds(rest[..k]) + Said(rest[k]) == n.disk.journal + (Kinds(rest[..k]) + Said(rest[k]));
    assert n.disk.journal + Kinds(rest[..k]) + [] == n.disk.journal + Kinds(rest[..k]);
  }

  lemma {:induction false} GoingWrites(g: Agent, n: Now, h: nat, rest: seq<Entry>, k: nat)
    requires h in n.holders && n.holders[h].rest == rest && k <= |rest| && rest != []
    ensures HasGone(n, h, rest, k, Going(g, n, h, k))
    ensures k > 0 && rest[k - 1] == Moved(Done) ==> Going(g, n, h, k).disk.state.Done?
  {
    if k == 0 {
      assert rest[..0] == [] && rest[0..] == rest && n.disk.journal + [] == n.disk.journal;
    } else {
      GoingWrites(g, n, h, rest, k - 1);
      OneGone(g, n, h, rest, k - 1, Going(g, n, h, k - 1));
    }
  }

  /** Taking a queued job up, and all of what that stint writes. */
  lemma WorkingTaken(ctx: Context, n: Now, s: Script, body: seq<Entry>, m: Now)
    requires n.disk.state.Queued? && 0 !in n.holders && body == PhasesOf(ctx, s).trace
    requires m == Step(AgentOf(ctx), n, Take(Working(s)))
    ensures m.disk == n.disk && m.holders == n.holders[0 := Hold(body + Ending(Life(ctx, s).1), Queued, n.turn)]
  {
  }

  lemma WholeStint(body: seq<Entry>, o: Outcome)
    ensures var rest := body + Ending(o);
      && rest != [] && rest[..|rest|] == rest && rest[|rest| - 1] == Moved(Done)
      && Kinds(rest) == Kinds(body) + [EvDone(o)] && Kinds(rest[..|body| + 1]) == Kinds(body) + [EvDone(o)]
  {
    var rest := body + Ending(o);
    assert rest[..|body| + 1] == body + [Journaled(EvDone(o))];
    KindsMore(body, Journaled(EvDone(o)));
    assert rest == body + [Journaled(EvDone(o))] + [Moved(Done)];
    KindsMore(body + [Journaled(EvDone(o))], Moved(Done));
  }

  lemma TwoWrites(g: Agent, n: Now, h: nat, o: Outcome, t: Now)
    requires h in n.holders && n.holders[h].rest == Ending(o) && t == Going(g, n, h, 2)
    ensures t.disk == Disk(Done, n.disk.journal + [EvDone(o)], n.disk.spawned) && t.holders == n.holders - {h}
  {
    assert Ending(o)[1..] == [Moved(Done)];
    assert Going(g, n, h, 0) == n && Going(g, n, h, 1) == Step(g, n, Go(h));
  }

  /** A cancel that meets nobody on its way. */
  lemma Withdrawn(g: Agent, n: Now, c: nat, t: Now)
    requires n.disk.state.Queued? && c != 0 && c !in n.holders
    requires t == Going(g, Step(g, n, Ask(c, true)), c, 2)
    ensures t.disk == Disk(Done, n.disk.journal + [EvDone(g.withdrawn)], n.disk.spawned) && t.holders == n.holders
  {
    var m := Step(g, n, Ask(c, true));
    TwoWrites(g, m, c, g.withdrawn, t);
    assert m.holders - {c} == n.holders;
  }

  /** A cancel under the worker: it reads the job after the worker did and is done before the
      worker's first save. The job is run all the same, and its journal tells two ends,
      with no crash anywhere. */
  lemma WithdrawnUnderneath(ctx: Context, g: Agent, n: Now, s: Script, body: seq<Entry>, m: Now, t: Now)
    requires g == AgentOf(ctx) && n.disk.state.Queued? && n.holders == map[] && body == PhasesOf(ctx, s).trace
    requires m == Going(g, Step(g, Step(g, n, Take(Working(s))), Ask(1, true)), 1, 2)
    requires t == Going(g, m, 0, |body| + 2)
    ensures m.disk.state.Done? && t.disk.state.Done? && 0 !in t.holders
    ensures t.disk.journal == n.disk.journal + [EvDone(Cancelled(ctx.local))] + (Kinds(body) + [EvDone(Life(ctx, s).1)])
  {
    var o := Life(ctx, s).1;
    WorkingTaken(ctx, n, s, body, Step(g, n, Take(Working(s))));
    Withdrawn(g, Step(g, n, Take(Working(s))), 1, m);
    WholeStint(body, o);
    GoingWrites(g, m, 0, body + Ending(o), |body| + 2);
  }

  /** Two cancels that both read the job queued: two ends, with neither a worker nor a crash. */
  lemma TwoCancels(g: Agent, n: Now, m: Now, t: Now)
    requires n.disk.state.Queued? && n.holders == map[]
    requires m == Going(g, Step(g, Step(g, n, Ask(1, true)), Ask(2, true)), 1, 2) && t == Going(g, m, 2, 2)
    ensures t.disk == Disk(Done, n.disk.journal + [EvDone(g.withdrawn)] + [EvDone(g.withdrawn)], n.disk.spawned)
  {
    TwoWrites(g, Step(g, Step(g, n, Ask(1, true)), Ask(2, true)), 1, g.withdrawn, m);
    TwoWrites(g, m, 2, g.withdrawn, t);
  }

  /** A worker past its first save, and not at its last, leaves the job neither queued nor
      done. */
  lemma {:induction false} GoingLives(g: Agent, n: Now, rest: seq<Entry>, k: nat, t: Now)
    requires Inv(n) && 0 in n.holders && n.holders[0].rest == rest && Winds(rest) && rest[0] == Moved(Preparing)
    requires !n.disk.state.Done? && k < |rest| && t == Going(g, n, 0, k)
    ensures Inv(t) && 0 in t.holders && t.holders[0].rest == rest[k..] && !t.disk.state.Done?
    ensures k > 0 ==> !t.holders[0].state.Queued? && !t.disk.state.Queued?
  {
    GoingWrites(g, n, 0, rest, k);
    if k > 0 {
      var before := Going(g, n, 0, k - 1);
      GoingLives(g, n, rest, k - 1, before);
      GoKeepsInv(g, before, 0);
      GoKeepsHold(before.holders[0]);
      assert rest[k - 1..][0] == rest[k - 1];
    }
  }

  /** A worker cut off with its end said and not saved. */
  lemma WorkerTorn(g: Agent, taken: Now, body: seq<Entry>, o: Outcome, torn: Now)
    requires Inv(taken) && 0 in taken.holders && taken.holders[0].rest == body + Ending(o) && !taken.disk.state.Done?
    requires Calm(body) && body != [] && body[0] == Moved(Preparing)
    requires torn == Step(g, Going(g, taken, 0, |body| + 1), Crash)
    ensures !torn.disk.state.Queued? && !torn.disk.state.Done? && torn.holders == map[]
    ensures torn.disk.journal == taken.disk.journal + (Kinds(body) + [EvDone(o)])
  {
    CalmWinds(body, o);
    WholeStint(body, o);
    GoingWrites(g, taken, 0, body + Ending(o), |body| + 1);
    GoingLives(g, taken, body + Ending(o), |body| + 1, Going(g, taken, 0, |body| + 1));
  }

  lemma LifeTorn(ctx: Context, g: Agent, n: Now, s: Script, body: seq<Entry>, taken: Now, torn: Now)
    requires g == AgentOf(ctx) && Inv(n) && n.disk.state.Queued? && n.holders == map[] && OnlyOutput(s.output)
    requires body == PhasesOf(ctx, s).trace && taken == Step(g, n, Take(Working(s)))
    requires torn == Step(g, Going(g, taken, 0, |body| + 1), Crash)
    ensures !torn.disk.state.Queued? && !torn.disk.state.Done? && torn.holders == map[]
    ensures torn.disk.journal == n.disk.journal + (Kinds(body) + [EvDone(Life(ctx, s).1)])
  {
    WorkingTaken(ctx, n, s, body, taken);
    AgentIsReliable(ctx);
    TakeKeepsInv(g, n, Working(s));
    StintIsCalm(ctx, Queued, Working(s));
    WorkerTorn(g, taken, body, Life(ctx, s).1, torn);
  }

  lemma LeftOrphaned(ctx: Context, g: Agent, n: Now, why: string, t: Now)
    requires g == AgentOf(ctx) && !n.disk.state.Queued? && !n.disk.state.Done? && n.holders == map[]
    requires t == Going(g, Step(g, n, Take(Orphaning(why))), 0, 2)
    ensures t.disk == Disk(Done, n.disk.journal + [EvDone(Orphaned(why))], n.disk.spawned) && t.holders == map[]
  {
    var m := Step(g, n, Take(Orphaning(why)));
    assert [] + Ending(Orphaned(why)) == Ending(Orphaned(why));
    TwoWrites(g, m, 0, Orphaned(why), t);
    assert m.holders - {0} == map[];
  }

  /** A torn end: a life dies between its two last steps, the next agent orphans the job, and
      its journal tells two ends. */
  lemma TornEndTellsTwo(ctx: Context, g: Agent, n: Now, s: Script, why: string, body: seq<Entry>, torn: Now, t: Now)
    requires g == AgentOf(ctx) && Inv(n) && n.disk.state.Queued? && n.holders == map[] && OnlyOutput(s.output)
    requires body == PhasesOf(ctx, s).trace
    requires torn == Step(g, Going(g, Step(g, n, Take(Working(s))), 0, |body| + 1), Crash)
    requires t == Going(g, Step(g, torn, Take(Orphaning(why))), 0, 2)
    ensures t.disk.state.Done? && t.holders == map[]
    ensures t.disk.journal == n.disk.journal + (Kinds(body) + [EvDone(Life(ctx, s).1)]) + [EvDone(Orphaned(why))]
  {
    LifeTorn(ctx, g, n, s, body, Step(g, n, Take(Working(s))), torn);
    LeftOrphaned(ctx, g, torn, why, t);
  }
}
