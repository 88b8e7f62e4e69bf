/** What looking up, creating, removing and saving do, said of the jobs themselves. */
module StoreWords {
  import opened Wrappers
  import opened Events
  import opened JobStore
  import opened BenchHost
  import opened BenchRuns
  import SubmitWords

  /** Everything in the store but this job, and every key but its own, is as before. */
  ghost predicate SameBut(a: Store, b: Store, id: JobId, key: JobKey) {
    && (forall other | other != id :: InBoth(a, b, other))
    && (forall k | k != key :: KeyInBoth(a, b, k))
  }

  predicate InBoth(a: Store, b: Store, id: JobId) {
    (id in a.records <==> id in b.records) && (id in a.records && id in b.records ==> a.records[id] == b.records[id])
  }

  predicate KeyInBoth(a: Store, b: Store, key: JobKey) {
    (key in a.byKey <==> key in b.byKey) && (key in a.byKey && key in b.byKey ==> a.byKey[key] == b.byKey[key])
  }

  ghost predicate Carries(s: Store, id: JobId, key: JobKey) {
    id in s.records && s.records[id].key == key
  }

  /** Looking a key up finds the job that carries it, and none exactly when no job does. */
  lemma FoundExactly(s: Store, key: JobKey, found: Result<Option<JobRecord>, StoreError>)
    requires Inverse(s) && found == Find(s, key)
    ensures found.Ok?
    ensures found.value == None <==> forall id :: !Carries(s, id, key)
    ensures forall id | Carries(s, id, key) :: found.value == Some(s.records[id])
  {
    forall id | Carries(s, id, key)
      ensures found == Ok(Some(s.records[id]))
    {
      assert Named(s, id);
    }
    if found == Ok(None) {
      assert forall id :: !Carries(s, id, key);
    } else {
      assert Carries(s, s.byKey[key], key);
    }
  }

  /** A job is created exactly under a free id, and is then found under its key; nothing else
      is touched. */
  lemma CreatedInFull(s: Store, r: JobRecord, made: Result<Store, StoreError>)
    requires made == Created(s, r)
    ensures if r.id in s.records then made == Err(Exists)
            else made.Ok? && SameBut(s, made.value, r.id, r.key) && Find(made.value, r.key) == Ok(Some(r))
  {
  }

  /** A job goes exactly when it is finished: it and its key are gone, and nothing else is. */
  lemma RemovedInFull(s: Store, id: JobId, gone: Result<Store, StoreError>)
    requires Inverse(s) && id in s.records && gone == Removed(s, s.records[id])
    ensures if s.records[id].state != Done then gone == Err(StillLive)
            else
              && gone.Ok? && id !in gone.value.records && Find(gone.value, s.records[id].key) == Ok(None)
              && SameBut(s, gone.value, id, s.records[id].key)
  {
    assert Named(s, id);
  }

  /** The same job, as it was asked for; what became of it may differ. */
  predicate SameJob(a: JobRecord, b: JobRecord) {
    a.id == b.id && a.key == b.key && a.sender == b.sender && a.spec == b.spec && a.createdAtS == b.createdAtS
  }

  /** What a worker's move does: its own copy, moved on, replaces the stored record, with an
      outcome exactly when the job is done; every other job, every key and every other job's
      cancel flag stay; and a worker that is done holds nothing and leaves no flag. */
  lemma SaveInFull(d: Desk, state: JobState, outcome: Outcome, after: Desk)
    requires MaySave(d, state) && after == Save(d, state, outcome)
    ensures var copy, stored := d.worker.value, after.host.store.records;
      && copy.id in stored && SameJob(stored[copy.id], copy)
      && stored[copy.id].state == state && stored[copy.id].outcome == (if state == Done then Some(outcome) else None)
      && SameBut(d.host.store, after.host.store, copy.id, copy.key) && after.host.store.byKey == d.host.store.byKey
      && (forall id | id != copy.id :: id in d.host.flags <==> id in after.host.flags)
      && (forall id | id in after.host.flags :: id in d.host.flags && after.host.flags[id] == d.host.flags[id])
      && (copy.id in after.host.flags <==> state != Done)
      && after.worker == if state == Done then None else Some(stored[copy.id])
  {
  }

  /** A worker holds at most one job: it takes up the stored record of one that is queued and
      older than every other queued job, and what it takes is left in the store as it was. */
  lemma PickUpInFull(d: Desk, id: JobId, after: Desk)
    requires after == PickUp(d, id)
    ensures after.host == d.host
    ensures after.worker != d.worker ==>
      && d.worker == None && id in d.host.store.records && after.worker == Some(d.host.store.records[id])
      && after.worker.value.state == Queued
      && forall other | other in d.host.store.records && d.host.store.records[other].state == Queued ::
           !SubmitWords.Older(d.host.store.records[other], after.worker.value)
  {
    SubmitWords.OldestInFull(d.host.store, id);
  }
}
