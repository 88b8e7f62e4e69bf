/** What a submission stores and answers, field by field, and the places in the queue. */
module SubmitWords {
  import opened Wrappers
  import opened Events
  import opened JobStore
  import opened BenchHost
  import opened BenchRuns

  /** The lesser of the two limits. */
  predicate Lesser(m: nat, a: nat, b: nat) {
    m <= a && m <= b && (m == a || m == b)
  }

  /** A stored spec is what was asked for, its time limited by this node's own. */
  predicate Matches(cfg: Config, stored: JobSpec, asked: JobSpec) {
    && stored.sha == asked.sha && stored.gate == asked.gate && stored.params == asked.params
    && stored.checkpoint == asked.checkpoint && Lesser(stored.maxRunS, asked.maxRunS, cfg.maxRunS)
  }

  lemma ClampedMatches(cfg: Config, stored: JobSpec, asked: JobSpec)
    ensures stored == Clamped(cfg, asked) <==> Matches(cfg, stored, asked)
  {
  }

  /** A new record, of that id. */
  predicate NewlyQueued(cfg: Config, q: Request, id: JobId, r: JobRecord) {
    && r.id == id && r.key == q.key && r.sender == q.sender && Matches(cfg, r.spec, q.spec)
    && r.state == Queued && r.createdAtS == q.now && r.outcome == None
    && r.child == None && r.binarySha256 == None && r.recordsBefore == map[] && r.seqHigh == 0
  }

  /** Everything that is queued. */
  ghost predicate Depth(s: Store, depth: nat) {
    exists queue: set<JobId> :: |queue| == depth && forall id :: id in queue <==> id in s.records && s.records[id].state == Queued
  }

  /** What a submission answers: refused early as the checks before the store say; for a key
      that names a job, that job, a conflict, or an unreadable store; for a free key, a full
      queue, a low disk, an id already taken, or a new job last in the queue. Only the last
      changes anything. */
  ghost predicate AnsweredInFull(cfg: Config, h: Host, q: Request, after: Host, reply: Reply) {
    var s, id := h.store, cfg.mint(q.now, q.key, q.sender);
    if q.tooEarly.Some? then after == h && reply == Refused(RefusedEarly(q.tooEarly.value))
    else if q.key in s.byKey then
      var job := s.byKey[q.key];
      && after == h
      && if job !in s.records then reply == Refused(StoreUnreadable)
         else if Matches(cfg, s.records[job].spec, q.spec) then
           reply == Accepted(s.records[job].id, true, s.records[job].state, PositionOf(s, s.records[job].id))
         else reply == Refused(KeyConflict(s.records[job].id))
    else if exists depth: nat :: Depth(s, depth) && depth >= cfg.queueDepth then
      after == h && exists depth: nat :: Depth(s, depth) && reply == Refused(QueueFull(depth))
    else if q.diskLow then after == h && reply == Refused(DiskLow)
    else if id in s.records then after == h && reply == Refused(CannotCreate)
    else
      && (exists r :: NewlyQueued(cfg, q, id, r) && after.store.records == s.records[id := r])
      && after.store.byKey == s.byKey[q.key := id] && after.flags == h.flags
      && exists depth: nat :: Depth(s, depth) && reply == Accepted(id, false, Queued, depth + 1)
  }

  lemma DepthIs(s: Store, depth: nat)
    ensures Depth(s, depth) <==> depth == |QueuedIds(s)|
  {
    if queue: set<JobId> :| |queue| == depth && forall id :: id in queue <==> id in s.records && s.records[id].state == Queued {
      assert queue == QueuedIds(s);
    }
    if depth == |QueuedIds(s)| {
      assert forall id :: id in QueuedIds(s) <==> id in s.records && s.records[id].state == Queued;
    }
  }

  lemma SubmitInFull(cfg: Config, h: Host, q: Request)
    ensures AnsweredInFull(cfg, h, q, Submit(cfg, h, q).0, Submit(cfg, h, q).1)
  {
    var s, r := h.store, NewRecord(cfg, q);
    if q.key in s.byKey && s.byKey[q.key] in s.records {
      ClampedMatches(cfg, s.records[s.byKey[q.key]].spec, q.spec);
    }
    forall depth: nat
      ensures Depth(s, depth) <==> depth == |QueuedIds(s)|
    {
      DepthIs(s, depth);
    }
    assert Depth(s, |QueuedIds(s)|);
    ClampedMatches(cfg, r.spec, q.spec);
    assert NewlyQueued(cfg, q, cfg.mint(q.now, q.key, q.sender), r);
  }

  /** Two requests come to one spec here exactly when they ask for the same and their times are
      equal, or neither is under this node's limit. */
  lemma SameSpecExactly(cfg: Config, a: JobSpec, b: JobSpec)
    ensures Clamped(cfg, a) == Clamped(cfg, b) <==>
      && a.sha == b.sha && a.gate == b.gate && a.params == b.params && a.checkpoint == b.checkpoint
      && (a.maxRunS == b.maxRunS || (a.maxRunS >= cfg.maxRunS && b.maxRunS >= cfg.maxRunS))
  {
  }

  // ---- Places in the queue ----------------------------------------------------

  /** Older, or as old and of a lesser id. */
  predicate Older(a: JobRecord, b: JobRecord) {
    a.createdAtS < b.createdAtS || (a.createdAtS == b.createdAtS && a.id < b.id)
  }

  /** A queued job's place is one more than the queued jobs older than it; any other has none. */
  lemma PlaceInFull(s: Store, id: JobId) returns (older: set<JobId>)
    ensures forall o :: o in older <==>
      id in s.records && o in s.records && s.records[o].state == Queued && Older(s.records[o], s.records[id])
    ensures PositionOf(s, id) == if id in s.records && s.records[id].state == Queued then |older| + 1 else 0
  {
    older := if id in s.records then Ahead(s, id) else {};
    assert id in s.records ==> older == Ahead(s, id);
  }

  /** The job a worker picks up is queued, and no other queued job is older. */
  lemma OldestInFull(s: Store, id: JobId)
    ensures Oldest(s, id) <==>
      && id in s.records && s.records[id].state == Queued
      && forall o | o in s.records && s.records[o].state == Queued :: !Older(s.records[o], s.records[id])
  {
    if id in s.records && s.records[id].state == Queued
      && forall o | o in s.records && s.records[o].state == Queued :: !Older(s.records[o], s.records[id]) {
      assert Ahead(s, id) == {};
    }
    if Oldest(s, id) {
      forall o | o in s.records && s.records[o].state == Queued
        ensures !Older(s.records[o], s.records[id])
      {
        assert o !in Ahead(s, id);
      }
    }
  }

  // ---- Cancelling -------------------------------------------------------------

  /** The same job, done, cancelled by that node. */
  predicate CancelledBy(r: JobRecord, job: JobRecord, node: nat) {
    && r.id == job.id && r.key == job.key && r.sender == job.sender && r.spec == job.spec && r.createdAtS == job.createdAtS
    && r.child == job.child && r.binarySha256 == job.binarySha256 && r.recordsBefore == job.recordsBefore
    && r.state == Done && r.outcome == Some(Cancelled(node))
  }

  /** A cancel of a queued job ends it, cancelled by this node and otherwise as it was; of one
      past the queue it raises the flag, if there is one; of any other it changes nothing. */
  lemma CancelInFull(cfg: Config, h: Host, id: JobId, after: Host, reply: Reply)
    requires (after, reply) == Cancel(cfg, h, id) && (id in h.store.records ==> h.store.records[id].id == id)
    ensures id !in h.store.records ==> after == h && reply == Refused(UnknownJob)
    ensures id in h.store.records ==>
      var job := h.store.records[id];
      && (job.state == Done ==> after == h && reply == CancelledJob(id, Done))
      && (job.state == Queued ==>
            && after.store.records.Keys == h.store.records.Keys && after.store.byKey == h.store.byKey && after.flags == h.flags
            && (forall o | o in h.store.records && o != id :: after.store.records[o] == h.store.records[o])
            && CancelledBy(after.store.records[id], job, cfg.local)
            && reply == CancelledJob(id, Done))
      && (job.state != Done && job.state != Queued ==>
            && after.store == h.store && reply == CancelledJob(id, job.state)
            && after.flags == if id in h.flags then h.flags[id := true] else h.flags)
  {
  }
}
