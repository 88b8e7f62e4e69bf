/** Runs of calls and of the one worker, none of which holds a lock between reading a record
    and saving over it.

    A worker clones the oldest queued record, looks at the box, registers a cancel flag, and
    from then on writes its own copy over whatever is stored. A cancel reads the record, and
    writes what it read as cancelled over whatever is stored by then. */
module BenchRuns {
  import opened Wrappers
  import opened Events
  import opened JobStore
  import opened BenchHost

  // ---- The worker's steps -----------------------------------------------------

  /** The host, and the copy its worker has in hand. */
  datatype Desk = Desk(host: Host, worker: Option<JobRecord>)

  predicate Oldest(s: Store, id: JobId) {
    id in QueuedIds(s) && Ahead(s, id) == {}
  }

  function PickUp(d: Desk, id: JobId): Desk {
    if d.worker.None? && Oldest(d.host.store, id) then d.(worker := Some(d.host.store.records[id])) else d
  }

  function Register(d: Desk): Desk {
    if d.worker.Some? && d.worker.value.id !in d.host.flags then
      d.(host := d.host.(flags := d.host.flags[d.worker.value.id := false]))
    else d
  }

  /** The first save of a life is the move to preparing; later ones never go back. */
  predicate MaySave(d: Desk, state: JobState) {
    && d.worker.Some? && d.worker.value.id in d.host.flags
    && if d.worker.value.state.Queued? then state.Preparing? else d.worker.value.state.Stage() <= state.Stage()
  }

  function Next(job: JobRecord, state: JobState, outcome: Outcome): JobRecord {
    job.(state := state, outcome := if state.IsTerminal() then Some(outcome) else None)
  }

  /** The copy in hand goes over the stored record, whatever that has become. */
  function Save(d: Desk, state: JobState, outcome: Outcome): Desk {
    if !MaySave(d, state) then d
    else
      var job := Next(d.worker.value, state, outcome);
      var store := SavedAs(d.host.store, job);
      if state.IsTerminal() then Desk(Host(store, d.host.flags - {job.id}), None)
      else Desk(d.host.(store := store), Some(job))
  }

  /** A busy box, a journal that does not open, or an outcome that could not be recorded. */
  function GiveUp(d: Desk): Desk {
    if d.worker.Some? then Desk(d.host.(flags := d.host.flags - {d.worker.value.id}), None) else d
  }

  /** Retention runs in the worker, between jobs. */
  function Remove(d: Desk, id: JobId): Desk {
    if d.worker.Some? || id !in d.host.store.records then d
    else
      match Removed(d.host.store, d.host.store.records[id])
      case Ok(store) => d.(host := d.host.(store := store))
      case Err(_) => d
  }

  /** Some queued job is older than all the others. */
  lemma {:induction false} SomeOldest(s: Store, queue: set<JobId>)
    requires queue != {} && queue <= QueuedIds(s)
    ensures exists id :: id in queue && Ahead(s, id) !! queue
    decreases |queue|
  {
    var any :| any in queue;
    var rest := queue - {any};
    if rest == {} {
      assert queue == {any};
      assert Ahead(s, any) !! queue;
    } else {
      SomeOldest(s, rest);
      var id :| id in rest && Ahead(s, id) !! rest;
      if any in Ahead(s, id) {
        assert Ahead(s, any) <= Ahead(s, id) && any !in Ahead(s, any);
        assert queue == rest + {any};
        assert Ahead(s, any) !! queue;
      } else {
        assert Ahead(s, id) !! queue;
      }
    }
  }

  class Worker {
    const bench: Bench
    var held: Option<JobRecord>

    ghost function State(): Desk
      reads this, bench, bench.directory
    {
      Desk(bench.State(), held)
    }

    constructor (bench: Bench)
      ensures this.bench == bench && held == None
    {
      this.bench, held := bench, None;
    }

    /** Take up the oldest queued job, if there is one. */
    method NextJob() returns (picked: Option<JobId>)
      requires held.None?
      modifies this
      ensures match picked
              case Some(id) => Oldest(old(bench.State()).store, id) && State() == PickUp(old(State()), id)
              case None => QueuedIds(old(bench.State()).store) == {} && State() == old(State())
    {
      var s := Store(bench.directory.records, bench.directory.byKey);
      var queue := QueuedIds(s);
      if queue == {} {
        return None;
      }
      SomeOldest(s, queue);
      var id :| id in queue && Ahead(s, id) == {};
      held := Some(s.records[id]);
      return Some(id);
    }

    method RegisterCancel()
      requires held.Some? && held.value.id !in bench.flags
      modifies bench
      ensures State() == Register(old(State()))
    {
      bench.flags := bench.flags[held.value.id := false];
    }

    /** A transition: the copy in hand first, then the stored record. */
    method Transition(state: JobState, outcome: Outcome)
      requires MaySave(State(), state)
      modifies this, bench, bench.directory
      ensures State() == Save(old(State()), state, outcome)
    {
      var job := Next(held.value, state, outcome);
      held := Some(job);
      bench.directory.Save(job);
      if state.IsTerminal() {
        ForgetCancel();
      }
    }

    /** The job is over for this worker, however it went. */
    method ForgetCancel()
      requires held.Some?
      modifies this, bench
      ensures State() == GiveUp(old(State()))
    {
      bench.flags := bench.flags - {held.value.id};
      held := None;
    }
  }

  // ---- A call's steps ---------------------------------------------------------

  /** What a cancel makes of a queued record. */
  function CancelledRecord(cfg: Config, job: JobRecord): JobRecord {
    job.(state := Done, outcome := Some(Cancelled(cfg.local)))
  }

  /** The second half of a cancel, for the record its first half read: a save over a job
      that is still there, or a raised flag. A job removed meanwhile has no directory left
      to save in. */
  function Answer(cfg: Config, h: Host, job: JobRecord): Host {
    if job.state.Queued? then
      if job.id in h.store.records then h.(store := SavedAs(h.store, CancelledRecord(cfg, job))) else h
    else if job.id in h.flags then h.(flags := h.flags[job.id := true])
    else h
  }

  /** A record as it was read, and the turn of the reading. */
  datatype Copy = Copy(job: JobRecord, since: nat)

  /** Everything under way: the worker's desk and when its copy was picked up, the cancels
      that have read their record, when each finished job was finished, and the turn. */
  datatype Node = Node(desk: Desk, picked: nat, calls: map<nat, Copy>, doneAt: map<JobId, nat>, turn: nat)

  const FRESH := Node(Desk(Host(Store(map[], map[]), map[]), None), 0, map[], map[], 0)

  datatype Op =
    | Submitting(request: Request)
    | Loading(call: nat, id: JobId)
    | Answering(call: nat)
    | PickingUp(id: JobId)
    | Registering
    | Saving(state: JobState, outcome: Outcome)
    | GivingUp
    | Removing(id: JobId)

  predicate Finished(s: Store, id: JobId) {
    id in s.records && s.records[id].state.IsTerminal()
  }

  function StoreOf(n: Node): Store {
    n.desk.host.store
  }

  function WithHost(n: Node, h: Host): Node {
    n.(desk := n.desk.(host := h))
  }

  /** The first half of a cancel: one that finds no job, or a finished one, answers at once. */
  function Load(n: Node, c: nat, id: JobId): Node {
    if c in n.calls || id !in StoreOf(n).records || Finished(StoreOf(n), id) then n
    else n.(calls := n.calls[c := Copy(StoreOf(n).records[id], n.turn)])
  }

  /** When each job was finished, after one of them was saved: one finished before keeps its
      turn. */
  function Stamped(n: Node, id: JobId, finished: bool): map<JobId, nat> {
    if !finished then n.doneAt - {id} else if id in n.doneAt then n.doneAt else n.doneAt[id := n.turn]
  }

  function Answered(cfg: Config, n: Node, c: nat): Node {
    if c !in n.calls then n
    else
      var job := n.calls[c].job;
      var saved := job.state.Queued? && job.id in StoreOf(n).records;
      WithHost(n, Answer(cfg, n.desk.host, job)).(calls := n.calls - {c},
                                                  doneAt := if saved then Stamped(n, job.id, true) else n.doneAt)
  }

  function Worked(n: Node, state: JobState, outcome: Outcome): Node {
    if !MaySave(n.desk, state) then n
    else n.(desk := Save(n.desk, state, outcome), doneAt := Stamped(n, n.desk.worker.value.id, state.IsTerminal()))
  }

  function Act(cfg: Config, n: Node, op: Op): Node {
    match op
    case Submitting(q) => WithHost(n, Submit(cfg, n.desk.host, q).0)
    case Loading(c, id) => Load(n, c, id)
    case Answering(c) => Answered(cfg, n, c)
    case PickingUp(id) =>
      n.(desk := PickUp(n.desk, id), picked := if n.desk.worker.None? then n.turn else n.picked)
    case Registering => n.(desk := Register(n.desk))
    case Saving(state, outcome) => Worked(n, state, outcome)
    case GivingUp => n.(desk := GiveUp(n.desk))
    case Removing(id) =>
      n.(desk := Remove(n.desk, id), doneAt := if n.desk.worker.None? then n.doneAt - {id} else n.doneAt)
  }

  function Step(cfg: Config, n: Node, op: Op): Node {
    Act(cfg, n, op).(turn := n.turn + 1)
  }

  function RunFrom(cfg: Config, n: Node, ops: seq<Op>): Node {
    if ops == [] then n else Step(cfg, RunFrom(cfg, n, ops[..|ops| - 1]), ops[|ops| - 1])
  }

  function Run(cfg: Config, ops: seq<Op>): Node {
    RunFrom(cfg, FRESH, ops)
  }

  /** With nothing in between, the two halves are the whole call. */
  lemma HalvesMakeACancel(cfg: Config, n: Node, c: nat, id: JobId)
    requires c !in n.calls && (id in StoreOf(n).records ==> StoreOf(n).records[id].id == id)
    ensures var t := Step(cfg, Step(cfg, n, Loading(c, id)), Answering(c));
      t.desk == n.desk.(host := Cancel(cfg, n.desk.host, id).0) && t.calls == n.calls
  {
    var m := Step(cfg, n, Loading(c, id));
    assert m.calls - {c} == n.calls;
  }

  // ---- What every run keeps ---------------------------------------------------

  predicate SameRequest(a: JobRecord, b: JobRecord) {
    a.id == b.id && a.key == b.key && a.spec == b.spec && a.sender == b.sender && a.createdAtS == b.createdAtS
  }

  /** No new job is given the id of a removed one that a cancel is still about: an id is
      made so as not to come up twice. */
  predicate NewId(cfg: Config, n: Node, op: Op) {
    op.Submitting? ==>
      var id := NewRecord(cfg, op.request).id;
      id in StoreOf(n).records || forall c | c in n.calls :: n.calls[c].job.id != id
  }

  ghost predicate NewIds(cfg: Config, n: Node, ops: seq<Op>) {
    forall k: nat | k < |ops| :: NewId(cfg, RunFrom(cfg, n, ops[..k]), ops[k])
  }

  /** The worker's copy is the stored record, unless that was finished under it. */
  ghost predicate WorkerOk(d: Desk) {
    && (d.worker.Some? ==>
          var job := d.worker.value;
          && job.id in d.host.store.records && SameRequest(d.host.store.records[job.id], job)
          && !job.state.IsTerminal() && (job.state.Queued? || job.id in d.host.flags)
          && (d.host.store.records[job.id] == job || d.host.store.records[job.id].state.IsTerminal()))
    && forall id | id in d.host.flags :: d.worker.Some? && d.worker.value.id == id
  }

  predicate CallOk(s: Store, job: JobRecord) {
    !job.state.IsTerminal() && (job.id in s.records ==> SameRequest(s.records[job.id], job))
  }

  ghost predicate CallsOk(n: Node) {
    forall c | c in n.calls :: CallOk(StoreOf(n), n.calls[c].job)
  }

  /** A copy read in the past, and of a finished job before that was finished. */
  predicate ReadBefore(n: Node, id: JobId, since: nat) {
    since < n.turn && (id in n.doneAt ==> since < n.doneAt[id])
  }

  /** Stamps are in the past, and whoever has a copy of a finished job read it before. */
  ghost predicate StampsOk(n: Node) {
    && (forall id :: id in n.doneAt <==> Finished(StoreOf(n), id))
    && (forall id | id in n.doneAt :: n.doneAt[id] < n.turn)
    && (n.desk.worker.Some? ==> ReadBefore(n, n.desk.worker.value.id, n.picked))
    && (forall c | c in n.calls :: ReadBefore(n, n.calls[c].job.id, n.calls[c].since))
  }

  ghost predicate RunInv(cfg: Config, n: Node) {
    Inv(cfg, StoreOf(n)) && WorkerOk(n.desk) && CallsOk(n) && StampsOk(n)
  }

  /** Between two turns every copy is an older one, or was read this turn of a job that is
      not finished. */
  ghost predicate Carried(n: Node, m: Node) {
    && (m.desk.worker.Some? ==>
          var id := m.desk.worker.value.id;
          || (n.desk.worker.Some? && n.desk.worker.value.id == id && m.picked == n.picked)
          || (m.picked == n.turn && !Finished(StoreOf(m), id)))
    && (forall c | c in m.calls ::
          (c in n.calls && m.calls[c] == n.calls[c])
          || (m.calls[c].since == n.turn && !Finished(StoreOf(m), m.calls[c].job.id)))
  }

  /** The finished jobs are stamped, and one that was not stamped before is so now. */
  ghost predicate Restamped(n: Node, m: Node) {
    && (forall id :: id in m.doneAt <==> Finished(StoreOf(m), id))
    && (forall id | id in m.doneAt :: m.doneAt[id] == if id in n.doneAt then n.doneAt[id] else n.turn)
  }

  ghost predicate KeptBy(cfg: Config, n: Node, m: Node) {
    && Inv(cfg, StoreOf(m)) && WorkerOk(m.desk) && CallsOk(m)
    && Carried(n, m) && m.turn == n.turn
  }

  /** A copy stays older than the finish of its job. */
  lemma StaysBefore(n: Node, t: Node, id: JobId, since: nat)
    requires StampsOk(n) && t.turn == n.turn + 1 && Restamped(n, t)
    requires ReadBefore(n, id, since) || (since == n.turn && !Finished(StoreOf(t), id))
    ensures ReadBefore(t, id, since)
  {
  }

  lemma StampsStay(cfg: Config, n: Node, m: Node, t: Node)
    requires StampsOk(n) && Carried(n, m) && Restamped(n, m) && t == m.(turn := n.turn + 1)
    ensures StampsOk(t)
  {
    if m.desk.worker.Some? {
      StaysBefore(n, t, m.desk.worker.value.id, m.picked);
    }
    forall c | c in t.calls
      ensures ReadBefore(t, t.calls[c].job.id, t.calls[c].since)
    {
      StaysBefore(n, t, m.calls[c].job.id, m.calls[c].since);
    }
  }

  lemma SubmitKeeps(cfg: Config, n: Node, q: Request)
    requires RunInv(cfg, n) && NewId(cfg, n, Submitting(q))
    ensures KeptBy(cfg, n, Act(cfg, n, Submitting(q)))
  {
    SubmitKeepsInv(cfg, n.desk.host, q);
  }

  lemma LoadKeeps(cfg: Config, n: Node, c: nat, id: JobId)
    requires RunInv(cfg, n)
    ensures KeptBy(cfg, n, Load(n, c, id))
  {
    if id in StoreOf(n).records {
      assert Named(StoreOf(n), id);
    }
  }

  /** A record saved over another of the same request leaves every copy as good as it was. */
  lemma SavedOver(s: Store, r: JobRecord, job: JobRecord)
    requires r.id in s.records && SameRequest(s.records[r.id], r) && CallOk(s, job)
    ensures CallOk(SavedAs(s, r), job)
  {
  }

  lemma AnswerSaves(cfg: Config, n: Node, job: JobRecord, m: Node)
    requires RunInv(cfg, n) && CallOk(StoreOf(n), job) && job.id in StoreOf(n).records
    requires m == WithHost(n, n.desk.host.(store := SavedAs(StoreOf(n), CancelledRecord(cfg, job))))
    ensures Inv(cfg, StoreOf(m)) && WorkerOk(m.desk) && CallsOk(m)
  {
    SaveKeepsInv(cfg, StoreOf(n), CancelledRecord(cfg, job));
    forall c | c in n.calls
      ensures CallOk(StoreOf(m), n.calls[c].job)
    {
      SavedOver(StoreOf(n), CancelledRecord(cfg, job), n.calls[c].job);
    }
  }

  lemma AnswerKeeps(cfg: Config, n: Node, c: nat)
    requires RunInv(cfg, n) && c in n.calls
    ensures KeptBy(cfg, n, Act(cfg, n, Answering(c)))
  {
    var job := n.calls[c].job;
    assert CallOk(StoreOf(n), job);
    if job.state.Queued? && job.id in StoreOf(n).records {
      AnswerSaves(cfg, n, job, WithHost(n, Answer(cfg, n.desk.host, job)));
    }
  }

  lemma PickUpKeeps(cfg: Config, n: Node, id: JobId)
    requires RunInv(cfg, n)
    ensures KeptBy(cfg, n, Act(cfg, n, PickingUp(id)))
  {
    if id in StoreOf(n).records {
      assert Named(StoreOf(n), id);
    }
  }

  lemma SaveKeeps(cfg: Config, n: Node, state: JobState, outcome: Outcome)
    requires RunInv(cfg, n)
    ensures KeptBy(cfg, n, Act(cfg, n, Saving(state, outcome)))
  {
    if MaySave(n.desk, state) {
      var job := Next(n.desk.worker.value, state, outcome);
      SaveKeepsInv(cfg, StoreOf(n), job);
      forall c | c in n.calls
        ensures CallOk(SavedAs(StoreOf(n), job), n.calls[c].job)
      {
        SavedOver(StoreOf(n), job, n.calls[c].job);
      }
    }
  }

  lemma RemoveKeeps(cfg: Config, n: Node, id: JobId)
    requires RunInv(cfg, n)
    ensures KeptBy(cfg, n, Act(cfg, n, Removing(id)))
  {
    var s, t := StoreOf(n), Remove(n.desk, id).host.store;
    if s != t {
      RemoveKeepsInverse(s, id, t);
      SmallerQueue(QueuedIds(t), QueuedIds(s));
    }
  }

  lemma SubmitRestamps(cfg: Config, n: Node, q: Request)
    requires StampsOk(n)
    ensures Restamped(n, Act(cfg, n, Submitting(q)))
  {
    var s, t := StoreOf(n), Submit(cfg, n.desk.host, q).0.store;
    forall id
      ensures Finished(t, id) <==> Finished(s, id)
    {
    }
  }

  lemma AnswerRestamps(cfg: Config, n: Node, c: nat)
    requires StampsOk(n)
    ensures Restamped(n, Answered(cfg, n, c))
  {
  }

  lemma SaveRestamps(n: Node, state: JobState, outcome: Outcome)
    requires StampsOk(n)
    ensures Restamped(n, Worked(n, state, outcome))
  {
  }

  lemma RemoveRestamps(cfg: Config, n: Node, id: JobId)
    requires StampsOk(n) && forall o | o in StoreOf(n).records :: StoreOf(n).records[o].id == o
    ensures Restamped(n, Act(cfg, n, Removing(id)))
  {
  }

  lemma StepRestamps(cfg: Config, n: Node, op: Op)
    requires RunInv(cfg, n)
    ensures Restamped(n, Act(cfg, n, op))
  {
    RecordsKnowTheirId(cfg, n);
    match op {
      case Submitting(q) => SubmitRestamps(cfg, n, q);
      case Answering(c) => AnswerRestamps(cfg, n, c);
      case Saving(state, outcome) => SaveRestamps(n, state, outcome);
      case Removing(id) => RemoveRestamps(cfg, n, id);
      case _ =>
    }
  }

  lemma StepKeepsInv(cfg: Config, n: Node, op: Op)
    requires RunInv(cfg, n) && NewId(cfg, n, op)
    ensures RunInv(cfg, Step(cfg, n, op))
  {
    match op {
      case Submitting(q) => SubmitKeeps(cfg, n, q);
      case Loading(c, id) => LoadKeeps(cfg, n, c, id);
      case Answering(c) =>
        if c in n.calls {
          AnswerKeeps(cfg, n, c);
        }
      case PickingUp(id) => PickUpKeeps(cfg, n, id);
      case Registering =>
      case Saving(state, outcome) => SaveKeeps(cfg, n, state, outcome);
      case GivingUp =>
      case Removing(id) => RemoveKeeps(cfg, n, id);
    }
    StepRestamps(cfg, n, op);
    StampsStay(cfg, n, Act(cfg, n, op), Step(cfg, n, op));
  }

  lemma NewIdsBefore(cfg: Config, n: Node, ops: seq<Op>)
    requires ops != [] && NewIds(cfg, n, ops)
    ensures NewIds(cfg, n, ops[..|ops| - 1]) && NewId(cfg, RunFrom(cfg, n, ops[..|ops| - 1]), ops[|ops| - 1])
  {
    var before := ops[..|ops| - 1];
    forall k: nat | k < |before|
      ensures NewId(cfg, RunFrom(cfg, n, before[..k]), before[k])
    {
      assert before[..k] == ops[..k];
    }
  }

  lemma NewIdsPrefix(cfg: Config, n: Node, ops: seq<Op>, m: nat)
    requires m <= |ops| && NewIds(cfg, n, ops)
    ensures NewIds(cfg, n, ops[..m])
  {
    forall k: nat | k < m
      ensures NewId(cfg, RunFrom(cfg, n, ops[..m][..k]), ops[..m][k])
    {
      assert ops[..m][..k] == ops[..k];
    }
  }

  lemma {:induction false} RunsKeepInv(cfg: Config, n: Node, ops: seq<Op>)
    requires RunInv(cfg, n) && NewIds(cfg, n, ops)
    ensures RunInv(cfg, RunFrom(cfg, n, ops))
  {
    if ops != [] {
      NewIdsBefore(cfg, n, ops);
      RunsKeepInv(cfg, n, ops[..|ops| - 1]);
      StepKeepsInv(cfg, RunFrom(cfg, n, ops[..|ops| - 1]), ops[|ops| - 1]);
    }
  }

  /** Over any run, each key names one job, each job is named by its key, no more are queued
      than the queue takes, and a worker's copy of a job is what is stored, unless the job was
      finished under it. */
  lemma EveryRun(cfg: Config, ops: seq<Op>)
    requires NewIds(cfg, FRESH, ops)
    ensures RunInv(cfg, Run(cfg, ops))
  {
    assert QueuedIds(StoreOf(FRESH)) == {};
    RunsKeepInv(cfg, FRESH, ops);
  }

  // ---- What the stamps say ----------------------------------------------------

  /** The operation that finished a job, which has been finished ever since. */
  ghost predicate FinishedBy(cfg: Config, ops: seq<Op>, id: JobId, d: nat) {
    && d < |ops| && !Finished(StoreOf(Run(cfg, ops[..d])), id)
    && forall k: nat | d < k <= |ops| :: Finished(StoreOf(Run(cfg, ops[..k])), id)
  }

  lemma FinishedByMore(cfg: Config, ops: seq<Op>, op: Op, id: JobId, d: nat)
    requires if d == |ops| then !Finished(StoreOf(Run(cfg, ops)), id) else FinishedBy(cfg, ops, id, d)
    requires d <= |ops| && Finished(StoreOf(Run(cfg, ops + [op])), id)
    ensures FinishedBy(cfg, ops + [op], id, d)
  {
    var all := ops + [op];
    assert all[..|all|] == all;
    forall k: nat | k <= |ops|
      ensures all[..k] == ops[..k]
    {
    }
    assert ops[..|ops|] == ops;
  }

  /** Every stamp is the place in the run of the operation it tells of. */
  ghost predicate TrueStamps(cfg: Config, ops: seq<Op>, n: Node) {
    && n.turn == |ops|
    && (n.desk.worker.Some? ==> n.picked < |ops| && ops[n.picked] == PickingUp(n.desk.worker.value.id))
    && (forall c | c in n.calls ::
          n.calls[c].since < |ops| && ops[n.calls[c].since] == Loading(c, n.calls[c].job.id))
    && (forall id | id in n.doneAt :: FinishedBy(cfg, ops, id, n.doneAt[id]))
  }

  lemma PicksAndLoads(cfg: Config, n: Node, op: Op, m: Node)
    requires m == Act(cfg, n, op) && forall id | id in StoreOf(n).records :: StoreOf(n).records[id].id == id
    ensures m.desk.worker.Some? ==>
      || (n.desk.worker.Some? && n.desk.worker.value.id == m.desk.worker.value.id && m.picked == n.picked)
      || (m.picked == n.turn && op == PickingUp(m.desk.worker.value.id))
    ensures forall c | c in m.calls ::
      (c in n.calls && m.calls[c] == n.calls[c]) || (m.calls[c].since == n.turn && op == Loading(c, m.calls[c].job.id))
  {
    if op.PickingUp? && op.id in StoreOf(n).records {
      assert StoreOf(n).records[op.id].id == op.id;
    }
  }

  lemma CopiesMore(cfg: Config, ops: seq<Op>, op: Op, n: Node, t: Node)
    requires TrueStamps(cfg, ops, n) && RunInv(cfg, n) && t == Step(cfg, n, op)
    ensures t.turn == |ops| + 1
    ensures t.desk.worker.Some? ==>
      t.picked < |ops + [op]| && (ops + [op])[t.picked] == PickingUp(t.desk.worker.value.id)
    ensures forall c | c in t.calls ::
      t.calls[c].since < |ops + [op]| && (ops + [op])[t.calls[c].since] == Loading(c, t.calls[c].job.id)
  {
    RecordsKnowTheirId(cfg, n);
    PicksAndLoads(cfg, n, op, Act(cfg, n, op));
  }

  lemma FinishesMore(cfg: Config, ops: seq<Op>, op: Op, n: Node, t: Node)
    requires TrueStamps(cfg, ops, n) && StampsOk(n) && n == Run(cfg, ops) && t == Run(cfg, ops + [op])
    requires Restamped(n, t)
    ensures forall id | id in t.doneAt :: FinishedBy(cfg, ops + [op], id, t.doneAt[id])
  {
    forall id | id in t.doneAt
      ensures FinishedBy(cfg, ops + [op], id, t.doneAt[id])
    {
      FinishedByMore(cfg, ops, op, id, t.doneAt[id]);
    }
  }

  lemma RunMore(cfg: Config, n: Node, ops: seq<Op>, op: Op)
    ensures RunFrom(cfg, n, ops + [op]) == Step(cfg, RunFrom(cfg, n, ops), op)
  {
    assert (ops + [op])[..|ops|] == ops;
  }

  lemma StampsMore(cfg: Config, ops: seq<Op>, op: Op, n: Node, t: Node)
    requires TrueStamps(cfg, ops, n) && RunInv(cfg, n) && n == Run(cfg, ops) && t == Run(cfg, ops + [op])
    ensures TrueStamps(cfg, ops + [op], t)
  {
    RunMore(cfg, FRESH, ops, op);
    StepRestamps(cfg, n, op);
    CopiesMore(cfg, ops, op, n, t);
    FinishesMore(cfg, ops, op, n, t);
  }

  /** Over every run the stamps are true. */
  lemma {:induction false} StampsAreTrue(cfg: Config, ops: seq<Op>)
    requires NewIds(cfg, FRESH, ops)
    ensures TrueStamps(cfg, ops, Run(cfg, ops))
  {
    if ops != [] {
      var before, op := ops[..|ops| - 1], ops[|ops| - 1];
      assert ops == before + [op];
      NewIdsBefore(cfg, FRESH, ops);
      StampsAreTrue(cfg, before);
      EveryRun(cfg, before);
      StampsMore(cfg, before, op, Run(cfg, before), Run(cfg, ops));
    }
  }

  lemma RecordsKnowTheirId(cfg: Config, n: Node)
    requires RunInv(cfg, n)
    ensures forall id | id in StoreOf(n).records :: StoreOf(n).records[id].id == id
  {
    forall id | id in StoreOf(n).records
      ensures StoreOf(n).records[id].id == id
    {
      assert Named(StoreOf(n), id);
    }
  }

  // ---- One step of one job ----------------------------------------------------

  /** The copy an operation saves, if it saves one. */
  function Saver(n: Node, op: Op): Option<Copy> {
    match op
    case Saving(state, _) => if MaySave(n.desk, state) then Some(Copy(n.desk.worker.value, n.picked)) else None
    case Answering(c) =>
      if c in n.calls && n.calls[c].job.state.Queued? && n.calls[c].job.id in StoreOf(n).records then Some(n.calls[c])
      else None
    case _ => None
  }

  predicate Saves(n: Node, op: Op, id: JobId) {
    Saver(n, op).Some? && Saver(n, op).value.job.id == id
  }

  /** What is stored then. */
  function Stored(cfg: Config, op: Op, job: JobRecord): JobRecord {
    match op
    case Saving(state, outcome) => Next(job, state, outcome)
    case _ => CancelledRecord(cfg, job)
  }

  /** A save of a copy that was read before its job was finished, made after. */
  predicate Overtakes(n: Node, op: Op, id: JobId) {
    Saves(n, op, id) && id in n.doneAt && Saver(n, op).value.since < n.doneAt[id]
  }

  /** A worker's, and not its last. */
  predicate GoesBack(n: Node, op: Op, id: JobId) {
    Overtakes(n, op, id) && op.Saving? && !op.state.IsTerminal()
  }

  predicate Removes(n: Node, op: Op, id: JobId) {
    op == Removing(id) && n.desk.worker.None? && Finished(StoreOf(n), id)
  }

  /** What becomes of one job in one step. */
  ghost predicate Moves(cfg: Config, n: Node, op: Op, id: JobId, after: Store)
    requires id in StoreOf(n).records
  {
    && (id !in after.records <==> Removes(n, op, id))
    && (id in after.records ==>
          after.records[id] == if Saves(n, op, id) then Stored(cfg, op, Saver(n, op).value.job) else StoreOf(n).records[id])
  }

  lemma AnswerMoves(cfg: Config, n: Node, c: nat, id: JobId)
    requires id in StoreOf(n).records
    ensures Moves(cfg, n, Answering(c), id, StoreOf(Act(cfg, n, Answering(c))))
  {
  }

  lemma SaveMoves(cfg: Config, n: Node, state: JobState, outcome: Outcome, id: JobId)
    requires id in StoreOf(n).records
    ensures Moves(cfg, n, Saving(state, outcome), id, Save(n.desk, state, outcome).host.store)
  {
  }

  lemma RemoveMoves(cfg: Config, n: Node, other: JobId, id: JobId)
    requires id in StoreOf(n).records && forall o | o in StoreOf(n).records :: StoreOf(n).records[o].id == o
    ensures Moves(cfg, n, Removing(other), id, Remove(n.desk, other).host.store)
  {
  }

  lemma SubmitMoves(cfg: Config, n: Node, q: Request, id: JobId)
    requires id in StoreOf(n).records
    ensures Moves(cfg, n, Submitting(q), id, Submit(cfg, n.desk.host, q).0.store)
  {
  }

  lemma StepMoves(cfg: Config, n: Node, op: Op, id: JobId)
    requires id in StoreOf(n).records && forall o | o in StoreOf(n).records :: StoreOf(n).records[o].id == o
    ensures Moves(cfg, n, op, id, StoreOf(Step(cfg, n, op)))
  {
    match op {
      case Submitting(q) => SubmitMoves(cfg, n, q, id);
      case Answering(c) => AnswerMoves(cfg, n, c, id);
      case Saving(state, outcome) => SaveMoves(cfg, n, state, outcome, id);
      case Removing(other) => RemoveMoves(cfg, n, other, id);
      case _ =>
    }
  }

  /** What a save is of: the same request, read before its job was finished if it has been,
      and otherwise what is stored. */
  lemma SavedIsOld(cfg: Config, n: Node, op: Op, id: JobId, job: JobRecord)
    requires RunInv(cfg, n) && Saves(n, op, id) && job == Saver(n, op).value.job
    ensures id in StoreOf(n).records && SameRequest(StoreOf(n).records[id], job)
    ensures Finished(StoreOf(n), id) <==> Overtakes(n, op, id)
    ensures op.Saving? && !Finished(StoreOf(n), id) ==> StoreOf(n).records[id] == job
    ensures op.Saving? ==> job.state.Stage() <= op.state.Stage()
  {
    if op.Answering? {
      assert CallOk(StoreOf(n), n.calls[op.call].job) && ReadBefore(n, id, n.calls[op.call].since);
    }
  }

  /** In one step a job disappears exactly when a removal finds it finished; only a save
      changes it, and never who asked for what; a save finds it finished exactly when it
      overtakes, its copy older than the finish; and a stage goes back exactly when such a
      save is not the worker's last. */
  ghost predicate OnwardStep(cfg: Config, n: Node, op: Op, id: JobId, after: Store)
    requires id in StoreOf(n).records
  {
    var s, t := StoreOf(n).records, after.records;
    && Moves(cfg, n, op, id, after)
    && (Finished(StoreOf(n), id) && Saves(n, op, id) <==> Overtakes(n, op, id))
    && (id in t ==> SameRequest(s[id], t[id]) && (t[id].state.Stage() < s[id].state.Stage() <==> GoesBack(n, op, id)))
  }

  lemma StepIsOnward(cfg: Config, n: Node, op: Op, id: JobId)
    requires RunInv(cfg, n) && id in StoreOf(n).records
    ensures OnwardStep(cfg, n, op, id, StoreOf(Step(cfg, n, op)))
  {
    RecordsKnowTheirId(cfg, n);
    StepMoves(cfg, n, op, id);
    MovesOnward(cfg, n, op, id, StoreOf(Step(cfg, n, op)));
  }

  lemma MovesOnward(cfg: Config, n: Node, op: Op, id: JobId, after: Store)
    requires RunInv(cfg, n) && id in StoreOf(n).records && Moves(cfg, n, op, id, after)
    ensures OnwardStep(cfg, n, op, id, after)
  {
    if Saves(n, op, id) {
      SavedIsOld(cfg, n, op, id, Saver(n, op).value.job);
    }
  }

  // ---- Finished jobs over runs ------------------------------------------------

  /** The reading of the copy that an operation saves. */
  predicate ReadAt(ops: seq<Op>, n: Node, op: Op, id: JobId, r: nat) {
    && r < |ops| && Saver(n, op).Some? && Saver(n, op).value.since == r
    && match op
       case Answering(c) => ops[r] == Loading(c, id)
       case _ => ops[r] == PickingUp(id)
  }

  /** A save of a copy read, in this run, before the operation that finished the job. */
  ghost predicate Overtaking(cfg: Config, ops: seq<Op>, op: Op, id: JobId) {
    && Saves(Run(cfg, ops), op, id)
    && exists r, d :: r < d && ReadAt(ops, Run(cfg, ops), op, id, r) && FinishedBy(cfg, ops, id, d)
  }

  lemma OvertakesInRun(cfg: Config, ops: seq<Op>, op: Op, id: JobId, n: Node)
    requires n == Run(cfg, ops) && TrueStamps(cfg, ops, n) && RunInv(cfg, n)
    ensures Overtaking(cfg, ops, op, id) <==> Finished(StoreOf(n), id) && Saves(n, op, id)
  {
    assert ops[..|ops|] == ops;
    if Finished(StoreOf(n), id) && Saves(n, op, id) {
      SavedIsOld(cfg, n, op, id, Saver(n, op).value.job);
      assert FinishedBy(cfg, ops, id, n.doneAt[id]);
      assert ReadAt(ops, n, op, id, Saver(n, op).value.since);
    }
  }

  /** Over any run, a save finds its job finished exactly when it saves a copy that was read
      before the operation that finished the job; then it puts that copy in its place. A
      finished job changes by nothing else, and a stage goes back exactly by such a save
      of the worker's that is not its last. */
  lemma FinishedChangesExactly(cfg: Config, ops: seq<Op>, op: Op, id: JobId)
    requires NewIds(cfg, FRESH, ops)
    requires id in StoreOf(Run(cfg, ops)).records && id in StoreOf(Run(cfg, ops + [op])).records
    ensures var n, s, t := Run(cfg, ops), StoreOf(Run(cfg, ops)).records[id], StoreOf(Run(cfg, ops + [op])).records[id];
      && (s.state.IsTerminal() && Saves(n, op, id) <==> Overtaking(cfg, ops, op, id))
      && (Overtaking(cfg, ops, op, id) ==> t == Stored(cfg, op, Saver(n, op).value.job))
      && (s.state.IsTerminal() && t != s ==> Overtaking(cfg, ops, op, id))
      && (t.state.Stage() < s.state.Stage()
          <==> Overtaking(cfg, ops, op, id) && op.Saving? && !op.state.IsTerminal())
  {
    EveryRun(cfg, ops);
    StampsAreTrue(cfg, ops);
    RunMore(cfg, FRESH, ops, op);
    OvertakesInRun(cfg, ops, op, id, Run(cfg, ops));
    StepIsOnward(cfg, Run(cfg, ops), op, id);
  }

  predicate AllIn(cfg: Config, q: Request) {
    0 < cfg.queueDepth && q.tooEarly.None? && !q.diskLow
  }

  /** One job, its record as the store has it. */
  function Holding(r: JobRecord, flags: map<JobId, bool>): Host {
    Host(Store(map[r.id := r], map[r.key := r.id]), flags)
  }

  lemma FirstSubmit(cfg: Config, q: Request, r: JobRecord)
    requires AllIn(cfg, q) && r == NewRecord(cfg, q)
    ensures Submit(cfg, FRESH.desk.host, q).0 == Holding(r, map[])
  {
    var s := StoreOf(FRESH);
    assert QueuedIds(s) == {};
    assert s.records[r.id := r] == map[r.id := r] && s.byKey[r.key := r.id] == map[r.key := r.id];
  }

  lemma FirstPickUp(r: JobRecord)
    requires r.state.Queued?
    ensures Register(PickUp(Desk(Holding(r, map[]), None), r.id)) == Desk(Holding(r, map[r.id := false]), Some(r))
  {
    var s := Holding(r, map[]).store;
    assert QueuedIds(s) == {r.id} && Ahead(s, r.id) == {};
    assert Holding(r, map[]).flags[r.id := false] == map[r.id := false];
  }

  /** A job taken up, its flag registered, nothing saved yet. */
  lemma TakenUp(cfg: Config, q: Request, r: JobRecord, n: Node)
    requires AllIn(cfg, q) && r == NewRecord(cfg, q)
    requires n == Step(cfg, Step(cfg, Step(cfg, FRESH, Submitting(q)), PickingUp(r.id)), Registering)
    ensures n.desk == Desk(Holding(r, map[r.id := false]), Some(r)) && n.calls == map[]
  {
    FirstSubmit(cfg, q, r);
    FirstPickUp(r);
  }

  /** Where a host holding one job is left by a save of it. */
  lemma OneSave(r: JobRecord, over: JobRecord, flags: map<JobId, bool>)
    requires over.id == r.id && over.key == r.key
    ensures SavedAs(Holding(r, flags).store, over) == Holding(over, flags).store
  {
    assert map[r.id := r][r.id := over] == map[r.id := over];
  }

  lemma OneTransition(r: JobRecord, job: JobRecord, flags: map<JobId, bool>, state: JobState, outcome: Outcome)
    requires job.id == r.id && job.key == r.key && MaySave(Desk(Holding(r, flags), Some(job)), state)
    requires !state.IsTerminal()
    ensures Save(Desk(Holding(r, flags), Some(job)), state, outcome)
         == Desk(Holding(job.(state := state, outcome := None), flags), Some(job.(state := state, outcome := None)))
  {
    OneSave(r, job.(state := state, outcome := None), flags);
  }

  /** So a job whose cancel was answered as done can be run all the same: the cancel finds it
      queued, does not raise the flag, and the worker's next save undoes it. */
  lemma CancelIsLost(cfg: Config, q: Request, any: Outcome)
    requires AllIn(cfg, q)
    ensures var r := NewRecord(cfg, q);
      var n := Step(cfg, Step(cfg, Step(cfg, FRESH, Submitting(q)), PickingUp(r.id)), Registering);
      var cancelled := Step(cfg, Step(cfg, n, Loading(0, r.id)), Answering(0));
      var t := Step(cfg, cancelled, Saving(Preparing, any));
      && Cancel(cfg, n.desk.host, r.id) == (cancelled.desk.host, CancelledJob(r.id, Done))
      && StoreOf(cancelled).records[r.id] == CancelledRecord(cfg, r)
      && StoreOf(t).records[r.id] == r.(state := Preparing, outcome := None) && t.desk.host.flags == map[r.id := false]
  {
    var r := NewRecord(cfg, q);
    var n := Step(cfg, Step(cfg, Step(cfg, FRESH, Submitting(q)), PickingUp(r.id)), Registering);
    TakenUp(cfg, q, r, n);
    HalvesMakeACancel(cfg, n, 0, r.id);
    OneSave(r, CancelledRecord(cfg, r), map[r.id := false]);
    OneTransition(CancelledRecord(cfg, r), r, map[r.id := false], Preparing, any);
  }

  /** And with the worker's first save inside the cancel, it is the second that undoes it. */
  lemma SecondSaveUndoes(cfg: Config, q: Request, any: Outcome)
    requires AllIn(cfg, q)
    ensures var r := NewRecord(cfg, q);
      var n := Step(cfg, Step(cfg, Step(cfg, FRESH, Submitting(q)), PickingUp(r.id)), Registering);
      var cancelled := Step(cfg, Step(cfg, Step(cfg, n, Loading(0, r.id)), Saving(Preparing, any)), Answering(0));
      var t := Step(cfg, cancelled, Saving(Building, any));
      && StoreOf(cancelled).records[r.id] == CancelledRecord(cfg, r)
      && StoreOf(t).records[r.id] == r.(state := Building, outcome := None) && t.desk.host.flags == map[r.id := false]
  {
    var r, flags := NewRecord(cfg, q), map[NewRecord(cfg, q).id := false];
    var n := Step(cfg, Step(cfg, Step(cfg, FRESH, Submitting(q)), PickingUp(r.id)), Registering);
    TakenUp(cfg, q, r, n);
    OneTransition(r, r, flags, Preparing, any);
    var preparing := r.(state := Preparing, outcome := None);
    OneSave(preparing, CancelledRecord(cfg, r), flags);
    OneTransition(CancelledRecord(cfg, r), preparing, flags, Building, any);
  }

  // ---- Removal ----------------------------------------------------------------

  /** The moment a job is removed. */
  predicate RemovedAt(cfg: Config, n: Node, ops: seq<Op>, id: JobId, k: nat) {
    k < |ops| && Removes(RunFrom(cfg, n, ops[..k]), ops[k], id)
  }

  lemma RemovedEarlier(cfg: Config, n: Node, ops: seq<Op>, id: JobId)
    requires ops != []
    ensures forall k: nat :: RemovedAt(cfg, n, ops[..|ops| - 1], id, k) ==> RemovedAt(cfg, n, ops, id, k)
  {
    forall k: nat | RemovedAt(cfg, n, ops[..|ops| - 1], id, k)
      ensures RemovedAt(cfg, n, ops, id, k)
    {
      assert ops[..|ops| - 1][..k] == ops[..k];
    }
  }

  /** Whatever calls, saves and removals are made, a job that is gone was removed at some
      moment when it was finished and no worker had a job in hand; and until one is removed,
      who asked for what is never changed. */
  lemma {:induction false} GoneWasRemoved(cfg: Config, n: Node, ops: seq<Op>, id: JobId)
    requires RunInv(cfg, n) && NewIds(cfg, n, ops) && id in StoreOf(n).records
    ensures var t := StoreOf(RunFrom(cfg, n, ops)).records;
      (exists k :: RemovedAt(cfg, n, ops, id, k)) || (id in t && SameRequest(StoreOf(n).records[id], t[id]))
  {
    if ops != [] {
      var before := ops[..|ops| - 1];
      var m := RunFrom(cfg, n, before);
      NewIdsBefore(cfg, n, ops);
      GoneWasRemoved(cfg, n, before, id);
      RemovedEarlier(cfg, n, ops, id);
      if k: nat :| RemovedAt(cfg, n, before, id, k) {
        assert RemovedAt(cfg, n, ops, id, k);
      } else {
        RunsKeepInv(cfg, n, before);
        StepIsOnward(cfg, m, ops[|ops| - 1], id);
        if Removes(m, ops[|ops| - 1], id) {
          assert RemovedAt(cfg, n, ops, id, |ops| - 1);
        }
      }
    }
  }

  /** Submitting again, whatever has happened since, short of the job being finished and
      removed: the same key with an equal spec answers with the same job and adds nothing,
      and with any other it is refused. */
  lemma ResubmitIsIdempotent(cfg: Config, n: Node, q: Request, first: Node, since: seq<Op>, again: Request)
    requires RunInv(cfg, n) && NewId(cfg, n, Submitting(q)) && first == Step(cfg, n, Submitting(q))
    requires Submit(cfg, n.desk.host, q).1.Accepted? && again.key == q.key && again.tooEarly.None?
    requires NewIds(cfg, first, since) && !exists k :: RemovedAt(cfg, first, since, Submit(cfg, n.desk.host, q).1.job, k)
    ensures var later := RunFrom(cfg, first, since).desk.host;
      var (after, reply) := Submit(cfg, later, again);
      && after == later
      && if Clamped(cfg, again.spec) == Clamped(cfg, q.spec) then
           reply.Accepted? && reply.existing && reply.job == Submit(cfg, n.desk.host, q).1.job
         else reply == Refused(KeyConflict(Submit(cfg, n.desk.host, q).1.job))
  {
    var id := Submit(cfg, n.desk.host, q).1.job;
    StepKeepsInv(cfg, n, Submitting(q));
    AcceptedIsStored(cfg, n.desk.host, q);
    GoneWasRemoved(cfg, first, since, id);
    RunsKeepInv(cfg, first, since);
    var later := StoreOf(RunFrom(cfg, first, since));
    OneJobPerKey(later, id, id);
    assert Named(later, id) && Named(StoreOf(first), id);
  }

  // ---- Cancelling over runs ---------------------------------------------------

  /** A cancel of that job, made now and at once, finds it finished. */
  predicate AnswersDone(cfg: Config, n: Node, id: JobId) {
    Cancel(cfg, n.desk.host, id) == (n.desk.host, CancelledJob(id, Done))
  }

  lemma DoneIsFinished(cfg: Config, n: Node, id: JobId)
    requires RunInv(cfg, n)
    ensures AnswersDone(cfg, n, id) <==> Finished(StoreOf(n), id)
  {
    RecordsKnowTheirId(cfg, n);
    if id in StoreOf(n).records && StoreOf(n).records[id].state.Queued? {
      assert Cancel(cfg, n.desk.host, id).0.store.records[id].state.Done?;
    }
  }

  /** A save that takes a job back, or its removal. */
  predicate Undoes(n: Node, op: Op, id: JobId) {
    GoesBack(n, op, id) || Removes(n, op, id)
  }

  /** The moment a finished job is undone. */
  predicate UndoneAt(cfg: Config, n: Node, ops: seq<Op>, id: JobId, k: nat) {
    k < |ops| && Undoes(RunFrom(cfg, n, ops[..k]), ops[k], id)
  }

  lemma DoneAnswers(cfg: Config, n: Node, op: Op, id: JobId)
    requires RunInv(cfg, n) && Finished(StoreOf(n), id)
    ensures Finished(StoreOf(Step(cfg, n, op)), id) <==> !Undoes(n, op, id)
  {
    StepIsOnward(cfg, n, op, id);
  }

  ghost predicate StaysFinished(cfg: Config, n: Node, ops: seq<Op>, id: JobId) {
    forall k: nat | k <= |ops| :: Finished(StoreOf(RunFrom(cfg, n, ops[..k])), id)
  }

  ghost predicate SomeUndone(cfg: Config, n: Node, ops: seq<Op>, id: JobId) {
    exists k :: UndoneAt(cfg, n, ops, id, k)
  }

  lemma StaysFinishedMore(cfg: Config, n: Node, ops: seq<Op>, op: Op, id: JobId)
    ensures StaysFinished(cfg, n, ops + [op], id)
       <==> StaysFinished(cfg, n, ops, id) && Finished(StoreOf(RunFrom(cfg, n, ops + [op])), id)
  {
    var all := ops + [op];
    assert all[..|all|] == all;
    forall k: nat | k <= |ops|
      ensures all[..k] == ops[..k]
    {
    }
    if StaysFinished(cfg, n, all, id) {
      forall k: nat | k <= |ops|
        ensures Finished(StoreOf(RunFrom(cfg, n, ops[..k])), id)
      {
        assert Finished(StoreOf(RunFrom(cfg, n, all[..k])), id);
      }
      assert Finished(StoreOf(RunFrom(cfg, n, all[..|all|])), id);
    }
  }

  lemma SomeUndoneMore(cfg: Config, n: Node, ops: seq<Op>, op: Op, id: JobId)
    ensures SomeUndone(cfg, n, ops + [op], id)
       <==> SomeUndone(cfg, n, ops, id) || Undoes(RunFrom(cfg, n, ops), op, id)
  {
    assert (ops + [op])[..|ops|] == ops;
    forall k: nat | k < |ops|
      ensures UndoneAt(cfg, n, ops + [op], id, k) <==> UndoneAt(cfg, n, ops, id, k)
    {
      assert (ops + [op])[..k] == ops[..k];
    }
    assert UndoneAt(cfg, n, ops + [op], id, |ops|) <==> Undoes(RunFrom(cfg, n, ops), op, id);
    if k: nat :| UndoneAt(cfg, n, ops, id, k) {
      assert UndoneAt(cfg, n, ops + [op], id, k);
    }
  }

  lemma {:induction false} FinishedUntilUndone(cfg: Config, n: Node, ops: seq<Op>, id: JobId)
    requires RunInv(cfg, n) && NewIds(cfg, n, ops) && Finished(StoreOf(n), id)
    ensures StaysFinished(cfg, n, ops, id) <==> !SomeUndone(cfg, n, ops, id)
    ensures StaysFinished(cfg, n, ops, id) ==> Finished(StoreOf(RunFrom(cfg, n, ops)), id)
  {
    if ops != [] {
      var before, op := ops[..|ops| - 1], ops[|ops| - 1];
      assert ops == before + [op];
      NewIdsBefore(cfg, n, ops);
      FinishedUntilUndone(cfg, n, before, id);
      RunsKeepInv(cfg, n, before);
      StaysFinishedMore(cfg, n, before, op, id);
      SomeUndoneMore(cfg, n, before, op, id);
      if StaysFinished(cfg, n, before, id) {
        RunMore(cfg, n, before, op);
        DoneAnswers(cfg, RunFrom(cfg, n, before), op, id);
      }
    }
  }

  /** A cancel that finds its job queued ends with it finished, if it is still there, and
      every later cancel is answered so exactly until a save of the worker's takes the job
      back or it is removed. */
  lemma CancelSticks(cfg: Config, n: Node, c: nat, first: Node, ops: seq<Op>, id: JobId)
    requires RunInv(cfg, n) && c in n.calls && n.calls[c].job.id == id && n.calls[c].job.state.Queued?
    requires id in StoreOf(n).records && first == Step(cfg, n, Answering(c)) && NewIds(cfg, first, ops)
    ensures (forall k: nat | k <= |ops| :: AnswersDone(cfg, RunFrom(cfg, first, ops[..k]), id))
       <==> !exists k :: UndoneAt(cfg, first, ops, id, k)
  {
    StepKeepsInv(cfg, n, Answering(c));
    StepIsOnward(cfg, n, Answering(c), id);
    FinishedUntilUndone(cfg, first, ops, id);
    forall k: nat | k <= |ops|
      ensures AnswersDone(cfg, RunFrom(cfg, first, ops[..k]), id) <==> Finished(StoreOf(RunFrom(cfg, first, ops[..k])), id)
    {
      NewIdsPrefix(cfg, first, ops, k);
      RunsKeepInv(cfg, first, ops[..k]);
      DoneIsFinished(cfg, RunFrom(cfg, first, ops[..k]), id);
    }
  }

  predicate Works(n: Node, id: JobId) {
    n.desk.worker.Some? && n.desk.worker.value.id == id && !n.desk.worker.value.state.Queued?
  }

  predicate Raised(n: Node, id: JobId) {
    id in n.desk.host.flags && n.desk.host.flags[id]
  }

  lemma RaisedStays(cfg: Config, n: Node, op: Op, id: JobId)
    requires RunInv(cfg, n) && Works(n, id) && Raised(n, id) && Works(Step(cfg, n, op), id)
    ensures Raised(Step(cfg, n, op), id)
  {
  }

  /** A cancel that read a job past the queue raises the flag its worker looks at. */
  lemma CancelRaises(cfg: Config, n: Node, c: nat, id: JobId)
    requires RunInv(cfg, n) && Works(n, id)
    requires c in n.calls && n.calls[c].job.id == id && !n.calls[c].job.state.Queued?
    ensures var t := Step(cfg, n, Answering(c));
      RunInv(cfg, t) && Works(t, id) && Raised(t, id)
  {
    StepKeepsInv(cfg, n, Answering(c));
  }

  /** And the flag stays up for as long as the worker works on that job. */
  lemma {:induction false} CancelReachesWorker(cfg: Config, n: Node, c: nat, first: Node, ops: seq<Op>, id: JobId)
    requires RunInv(cfg, n) && Works(n, id)
    requires c in n.calls && n.calls[c].job.id == id && !n.calls[c].job.state.Queued?
    requires first == Step(cfg, n, Answering(c)) && NewIds(cfg, first, ops)
    requires forall k: nat | k <= |ops| :: Works(RunFrom(cfg, first, ops[..k]), id)
    ensures Raised(RunFrom(cfg, first, ops), id)
  {
    CancelRaises(cfg, n, c, id);
    if ops != [] {
      var before, last := ops[..|ops| - 1], |ops| - 1;
      forall k: nat | k <= last
        ensures Works(RunFrom(cfg, first, before[..k]), id)
      {
        assert before[..k] == ops[..k];
      }
      assert ops[..|ops|] == ops && before[..last] == before;
      NewIdsBefore(cfg, first, ops);
      CancelReachesWorker(cfg, n, c, first, before, id);
      RunsKeepInv(cfg, first, before);
      assert Works(RunFrom(cfg, first, before[..last]), id) && Works(RunFrom(cfg, first, ops[..|ops|]), id);
      RaisedStays(cfg, RunFrom(cfg, first, before), ops[last], id);
    }
  }
}
