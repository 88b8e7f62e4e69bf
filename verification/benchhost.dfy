/** Submitting and cancelling jobs.

    Which checks a submission fails before the store is looked at, the clock, the disk, and
    how an id is minted are inputs; calls are taken one at a time. */
module BenchHost {
  import opened Wrappers
  import opened Events
  import opened JobStore

  datatype Refusal =
    | KeyConflict(job: JobId)
    | QueueFull(depth: nat)
    | DiskLow
    | StoreUnreadable
    | CannotCreate
    | UnknownJob
    | RefusedEarly(why: string)

  datatype Reply =
    | Accepted(job: JobId, existing: bool, state: JobState, position: nat)
    | CancelledJob(job: JobId, state: JobState)
    | Refused(refusal: Refusal)

  datatype Config = Config(local: nat, queueDepth: nat, maxRunS: nat, mint: (nat, JobKey, nat) -> JobId)

  /** The store, and the cancel flag of each job a worker is executing. */
  datatype Host = Host(store: Store, flags: map<JobId, bool>)

  datatype Request = Request(sender: nat, key: JobKey, spec: JobSpec, tooEarly: Option<string>, now: nat, diskLow: bool)

  // ---- The queue --------------------------------------------------------------

  function QueuedIds(s: Store): set<JobId> {
    set id | id in s.records && s.records[id].state.Queued?
  }

  /** Oldest first, ties by id. */
  predicate Before(a: JobRecord, b: JobRecord) {
    a.createdAtS < b.createdAtS || (a.createdAtS == b.createdAtS && a.id < b.id)
  }

  function Ahead(s: Store, id: JobId): set<JobId>
    requires id in s.records
  {
    set other | other in s.records && s.records[other].state.Queued? && Before(s.records[other], s.records[id])
  }

  /** A job's place in the queue, from 1; 0 when it is not in it. */
  function PositionOf(s: Store, id: JobId): nat {
    if id in QueuedIds(s) then |Ahead(s, id)| + 1 else 0
  }

  // ---- Submitting -------------------------------------------------------------

  function Clamped(cfg: Config, spec: JobSpec): JobSpec {
    spec.(maxRunS := if spec.maxRunS <= cfg.maxRunS then spec.maxRunS else cfg.maxRunS)
  }

  function NewRecord(cfg: Config, q: Request): JobRecord {
    JobRecord(cfg.mint(q.now, q.key, q.sender), q.key, q.sender, Clamped(cfg, q.spec), Queued, q.now, None, None, map[], 0,
              None)
  }

  function AddNew(cfg: Config, h: Host, q: Request): (Host, Reply) {
    var depth := |QueuedIds(h.store)|;
    if depth >= cfg.queueDepth then (h, Refused(QueueFull(depth)))
    else if q.diskLow then (h, Refused(DiskLow))
    else
      match Created(h.store, NewRecord(cfg, q))
      case Err(_) => (h, Refused(CannotCreate))
      case Ok(store) => (h.(store := store), Accepted(NewRecord(cfg, q).id, false, Queued, depth + 1))
  }

  function Submit(cfg: Config, h: Host, q: Request): (Host, Reply) {
    if q.tooEarly.Some? then (h, Refused(RefusedEarly(q.tooEarly.value)))
    else
      match Find(h.store, q.key)
      case Err(_) => (h, Refused(StoreUnreadable))
      case Ok(None) => AddNew(cfg, h, q)
      case Ok(Some(job)) =>
        if job.spec == Clamped(cfg, q.spec) then (h, Accepted(job.id, true, job.state, PositionOf(h.store, job.id)))
        else (h, Refused(KeyConflict(job.id)))
  }

  // ---- Cancelling -------------------------------------------------------------

  /** What a cancel does depends on how far the job on disk is: finished, not begun, or in
      a worker's hands, where it only raises the flag that worker looks at. */
  function Cancel(cfg: Config, h: Host, id: JobId): (Host, Reply) {
    if id !in h.store.records then (h, Refused(UnknownJob))
    else
      var job := h.store.records[id];
      if job.state.IsTerminal() then (h, CancelledJob(id, job.state))
      else if job.state.Queued? then
        (h.(store := SavedAs(h.store, job.(state := Done, outcome := Some(Cancelled(cfg.local))))), CancelledJob(id, Done))
      else (if id in h.flags then h.(flags := h.flags[id := true]) else h, CancelledJob(id, job.state))
  }

  class Bench {
    const cfg: Config
    const directory: JobDirectory
    var flags: map<JobId, bool>

    ghost function State(): Host
      reads this, directory
    {
      Host(directory.State(), flags)
    }

    constructor (cfg: Config)
      ensures this.cfg == cfg && fresh(directory) && State() == Host(Store(map[], map[]), map[])
    {
      this.cfg := cfg;
      directory := new JobDirectory();
      flags := map[];
    }

    method AddJob(q: Request) returns (reply: Reply)
      modifies this, directory
      ensures (State(), reply) == AddNew(cfg, old(State()), q)
    {
      var queue := set id | id in directory.records && directory.records[id].state.Queued?;
      assert queue == QueuedIds(directory.State());
      if |queue| >= cfg.queueDepth {
        return Refused(QueueFull(|queue|));
      }
      if q.diskLow {
        return Refused(DiskLow);
      }
      var record := NewRecord(cfg, q);
      var error := directory.Create(record);
      if error.Some? {
        return Refused(CannotCreate);
      }
      return Accepted(record.id, false, Queued, |queue| + 1);
    }

    method SubmitJob(q: Request) returns (reply: Reply)
      modifies this, directory
      ensures (State(), reply) == Submit(cfg, old(State()), q)
    {
      if q.tooEarly.Some? {
        return Refused(RefusedEarly(q.tooEarly.value));
      }
      var found := directory.ByKey(q.key);
      match found {
        case Err(_) => return Refused(StoreUnreadable);
        case Ok(Some(job)) =>
          if job.spec == Clamped(cfg, q.spec) {
            return Accepted(job.id, true, job.state, PositionOf(Store(directory.records, directory.byKey), job.id));
          }
          return Refused(KeyConflict(job.id));
        case Ok(None) =>
      }
      reply := AddJob(q);
    }

    method CancelJob(id: JobId) returns (reply: Reply)
      modifies this, directory
      ensures (State(), reply) == Cancel(cfg, old(State()), id)
    {
      if id !in directory.records {
        return Refused(UnknownJob);
      }
      var job := directory.records[id];
      if job.state.IsTerminal() {
        return CancelledJob(id, job.state);
      }
      if job.state.Queued? {
        directory.Save(job.(state := Done, outcome := Some(Cancelled(cfg.local))));
        return CancelledJob(id, Done);
      }
      if id in flags {
        flags := flags[id := true];
      }
      return CancelledJob(id, job.state);
    }
  }

  // ---- What calls keep --------------------------------------------------------

  /** The index inverse to the records, and no more queued than the queue takes. */
  ghost predicate Inv(cfg: Config, s: Store) {
    Inverse(s) && |QueuedIds(s)| <= cfg.queueDepth
  }

  lemma SmallerQueue(a: set<JobId>, b: set<JobId>)
    requires a <= b
    ensures |a| <= |b|
  {
    assert b == a + (b - a);
  }

  lemma SubmitKeepsInv(cfg: Config, h: Host, q: Request)
    requires Inv(cfg, h.store)
    ensures Inv(cfg, Submit(cfg, h, q).0.store)
  {
    var r, t := NewRecord(cfg, q), Submit(cfg, h, q).0.store;
    if t != h.store {
      CreateKeepsInverse(h.store, r, t);
      assert QueuedIds(t) == QueuedIds(h.store) + {r.id};
    }
  }

  /** Saving a job that is already there, and not as queued. */
  lemma SaveKeepsInv(cfg: Config, s: Store, r: JobRecord)
    requires Inv(cfg, s) && r.id in s.records && r.key == s.records[r.id].key && !r.state.Queued?
    ensures Inv(cfg, SavedAs(s, r))
  {
    SaveKeepsInverse(s, r);
    SmallerQueue(QueuedIds(SavedAs(s, r)), QueuedIds(s));
  }

  lemma CancelKeepsInv(cfg: Config, h: Host, id: JobId)
    requires Inv(cfg, h.store)
    ensures Inv(cfg, Cancel(cfg, h, id).0.store)
  {
    if id in h.store.records && h.store.records[id].state.Queued? {
      assert Named(h.store, id);
      SaveKeepsInv(cfg, h.store, Cancel(cfg, h, id).0.store.records[id]);
    }
  }

  lemma AcceptedIsStored(cfg: Config, h: Host, q: Request)
    requires Inv(cfg, h.store) && Submit(cfg, h, q).1.Accepted?
    ensures var (t, reply) := Submit(cfg, h, q);
      && reply.job in t.store.records
      && t.store.records[reply.job].key == q.key && t.store.records[reply.job].spec == Clamped(cfg, q.spec)
  {
    if Find(h.store, q.key).Ok? && Find(h.store, q.key).value.Some? {
      assert Named(h.store, h.store.byKey[q.key]);
    }
  }

  /** Cancelling again straight away changes nothing and is answered the same. */
  lemma CancelTwice(cfg: Config, h: Host, id: JobId)
    requires Inv(cfg, h.store)
    ensures var (t, reply) := Cancel(cfg, h, id);
      Cancel(cfg, t, id) == (t, reply)
  {
    var t := Cancel(cfg, h, id).0;
    if id in h.store.records {
      assert Named(h.store, id);
    }
    assert id in t.flags && t.flags[id] ==> t.flags[id := true] == t.flags;
  }

  /** The place a new job is told is its place in the queue exactly when every job already
      queued is older than it: a clock that has not moved, or has gone back, can put it
      ahead of others. */
  lemma PositionIsLast(cfg: Config, h: Host, q: Request)
    requires Inv(cfg, h.store) && Submit(cfg, h, q).1.Accepted? && !Submit(cfg, h, q).1.existing
    ensures var (t, reply) := Submit(cfg, h, q);
      reply.position == PositionOf(t.store, reply.job) <==>
      forall id | id in QueuedIds(h.store) :: Before(h.store.records[id], NewRecord(cfg, q))
  {
    var (t, reply) := Submit(cfg, h, q);
    var ahead := Ahead(t.store, reply.job);
    assert ahead <= QueuedIds(h.store);
    if forall id | id in QueuedIds(h.store) :: Before(h.store.records[id], NewRecord(cfg, q)) {
      assert ahead == QueuedIds(h.store);
    } else {
      var id :| id in QueuedIds(h.store) && !Before(h.store.records[id], NewRecord(cfg, q));
      assert id !in ahead;
      SmallerQueue(ahead, QueuedIds(h.store) - {id});
    }
  }
}
