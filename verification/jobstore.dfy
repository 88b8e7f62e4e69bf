/** Jobs on disk, one directory each, and the index from keys to jobs. */
module JobStore {
  import opened Wrappers
  import opened Events

  type JobId = nat

  type JobKey = string

  /** The part of a record that two submissions of one key are compared by. */
  datatype JobSpec = JobSpec(sha: string, gate: string, params: map<string, string>, checkpoint: Option<string>,
                             maxRunS: nat)

  datatype JobRecord = JobRecord(id: JobId, key: JobKey, sender: nat, spec: JobSpec, state: JobState, createdAtS: nat,
                                 child: Option<Child>, binarySha256: Option<string>, recordsBefore: map<string, nat>,
                                 seqHigh: nat, outcome: Option<Outcome>)

  datatype StoreError = Exists | NoJob | StillLive

  datatype Store = Store(records: map<JobId, JobRecord>, byKey: map<JobKey, JobId>)

  function Find(s: Store, key: JobKey): Result<Option<JobRecord>, StoreError> {
    if key !in s.byKey then Ok(None)
    else if s.byKey[key] in s.records then Ok(Some(s.records[s.byKey[key]]))
    else Err(NoJob)
  }

  function Created(s: Store, r: JobRecord): Result<Store, StoreError> {
    if r.id in s.records then Err(Exists)
    else Ok(Store(s.records[r.id := r], s.byKey[r.key := r.id]))
  }

  function SavedAs(s: Store, r: JobRecord): Store {
    s.(records := s.records[r.id := r])
  }

  /** The key's entry goes first, then the directory. */
  function Removed(s: Store, r: JobRecord): Result<Store, StoreError> {
    if !r.state.IsTerminal() then Err(StillLive)
    else if r.id !in s.records then Err(NoJob)
    else Ok(Store(s.records - {r.id}, s.byKey - {r.key}))
  }

  class JobDirectory {
    var records: map<JobId, JobRecord>
    var byKey: map<JobKey, JobId>

    ghost function State(): Store
      reads this
    {
      Store(records, byKey)
    }

    constructor ()
      ensures State() == Store(map[], map[])
    {
      records, byKey := map[], map[];
    }

    method ByKey(key: JobKey) returns (r: Result<Option<JobRecord>, StoreError>)
      ensures r == Find(State(), key)
    {
      if key !in byKey {
        return Ok(None);
      }
      var id := byKey[key];
      if id !in records {
        return Err(NoJob);
      }
      return Ok(Some(records[id]));
    }

    method Create(r: JobRecord) returns (e: Option<StoreError>)
      modifies this
      ensures match Created(old(State()), r)
              case Ok(s) => State() == s && e == None
              case Err(error) => State() == old(State()) && e == Some(error)
    {
      if r.id in records {
        return Some(Exists);
      }
      Save(r);
      byKey := byKey[r.key := r.id];
      return None;
    }

    method Save(r: JobRecord)
      modifies this
      ensures State() == SavedAs(old(State()), r)
    {
      records := records[r.id := r];
    }

    method Remove(r: JobRecord) returns (e: Option<StoreError>)
      modifies this
      ensures match Removed(old(State()), r)
              case Ok(s) => State() == s && e == None
              case Err(error) => e == Some(error) && State().records == old(State()).records
    {
      if !r.state.IsTerminal() {
        return Some(StillLive);
      }
      byKey := byKey - {r.key};
      if r.id !in records {
        return Some(NoJob);
      }
      records := records - {r.id};
      return None;
    }
  }

  /** The index and the records are inverse: every key names the one job that carries it,
      and every job is named by its key. */
  ghost predicate Inverse(s: Store) {
    && (forall key | key in s.byKey :: s.byKey[key] in s.records && s.records[s.byKey[key]].key == key)
    && (forall id | id in s.records :: Named(s, id))
  }

  ghost predicate Named(s: Store, id: JobId)
    requires id in s.records
  {
    s.records[id].id == id && s.records[id].key in s.byKey && s.byKey[s.records[id].key] == id
  }

  /** So no two jobs share a key, and looking a key up never trips over a missing record. */
  lemma OneJobPerKey(s: Store, a: JobId, b: JobId)
    requires Inverse(s) && a in s.records && b in s.records && s.records[a].key == s.records[b].key
    ensures a == b
    ensures Find(s, s.records[a].key) == Ok(Some(s.records[a]))
  {
    assert Named(s, a) && Named(s, b);
  }

  lemma CreateKeepsInverse(s: Store, r: JobRecord, t: Store)
    requires Inverse(s) && Find(s, r.key) == Ok(None) && Created(s, r) == Ok(t)
    ensures Inverse(t)
  {
    forall id | id in t.records
      ensures Named(t, id)
    {
      if id != r.id {
        assert Named(s, id);
      }
    }
  }

  /** Saving a job over itself, its key unchanged. */
  lemma SaveKeepsInverse(s: Store, r: JobRecord)
    requires Inverse(s) && r.id in s.records && r.key == s.records[r.id].key
    ensures Inverse(SavedAs(s, r))
  {
    var t := SavedAs(s, r);
    forall id | id in t.records
      ensures Named(t, id)
    {
      assert Named(s, id);
    }
  }

  lemma RemoveKeepsInverse(s: Store, id: JobId, t: Store)
    requires Inverse(s) && id in s.records && Removed(s, s.records[id]) == Ok(t)
    ensures Inverse(t)
  {
    assert Named(s, id);
    forall other | other in t.records
      ensures Named(t, other)
    {
      assert Named(s, other);
    }
  }
}
