/** Two submissions of one key at once. Each looks the key up, and creates its job later; the
    store takes no lock in between. */
module SubmitRace {
  import opened Wrappers
  import opened JobStore

  /** A submission that found its key free, with the record it will create. */
  datatype Look = Look(record: JobRecord, since: nat)

  /** The store, the submissions that have looked and not created yet, when each key in the
      index was put there, and the turn. */
  datatype Race = Race(store: Store, looks: map<nat, Look>, keyedAt: map<JobKey, nat>, turn: nat)

  const EMPTY := Race(Store(map[], map[]), map[], map[], 0)

  datatype Op = LookUp(call: nat, record: JobRecord) | Create(call: nat) | Save(record: JobRecord) | Drop(id: JobId)

  function Finds(r: Race, c: nat, record: JobRecord): Race {
    if c in r.looks || record.key in r.store.byKey then r else r.(looks := r.looks[c := Look(record, r.turn)])
  }

  function Creates(r: Race, c: nat): Race {
    if c !in r.looks then r
    else
      var record := r.looks[c].record;
      match Created(r.store, record)
      case Err(_) => r.(looks := r.looks - {c})
      case Ok(s) => r.(store := s, looks := r.looks - {c}, keyedAt := r.keyedAt[record.key := r.turn])
  }

  /** A save over a record that is there, its key and id unchanged. */
  function Saves(r: Race, record: JobRecord): Race {
    if record.id in r.store.records && r.store.records[record.id].key == record.key then
      r.(store := SavedAs(r.store, record))
    else r
  }

  function Drops(r: Race, id: JobId): Race {
    if id !in r.store.records then r
    else
      match Removed(r.store, r.store.records[id])
      case Err(_) => r
      case Ok(s) => r.(store := s, keyedAt := r.keyedAt - {r.store.records[id].key})
  }

  function Step(r: Race, op: Op): Race {
    var m :=
      match op
      case LookUp(c, record) => Finds(r, c, record)
      case Create(c) => Creates(r, c)
      case Save(record) => Saves(r, record)
      case Drop(id) => Drops(r, id);
    m.(turn := r.turn + 1)
  }

  function Run(ops: seq<Op>): Race {
    if ops == [] then EMPTY else Step(Run(ops[..|ops| - 1]), ops[|ops| - 1])
  }

  /** Index and stamps agree, and a key that is in the index now, though a submission found
      it free, was put there after that submission looked. */
  ghost predicate Dated(r: Race) {
    && r.keyedAt.Keys == r.store.byKey.Keys
    && (forall k | k in r.keyedAt :: r.keyedAt[k] < r.turn)
    && forall c | c in r.looks ::
         && r.looks[c].since < r.turn
         && (r.looks[c].record.key in r.keyedAt ==> r.looks[c].since < r.keyedAt[r.looks[c].record.key])
  }

  lemma StepKeepsDated(r: Race, op: Op)
    requires Dated(r)
    ensures Dated(Step(r, op))
  {
  }

  /** A creation of a key that came into the index after this submission had looked. */
  predicate Races(r: Race, op: Op) {
    && op.Create? && op.call in r.looks
    && var look := r.looks[op.call];
       look.record.id !in r.store.records && look.record.key in r.keyedAt && look.since < r.keyedAt[look.record.key]
  }

  lemma CreateBreaks(s: Store, record: JobRecord, t: Store)
    requires Inverse(s) && record.key in s.byKey && Created(s, record) == Ok(t)
    ensures !Inverse(t)
  {
    var first := s.byKey[record.key];
    assert Named(s, first) && first in t.records;
    assert !Named(t, first);
  }

  lemma StepKeepsInverse(r: Race, op: Op)
    requires Dated(r) && Inverse(r.store)
    ensures Inverse(Step(r, op).store) <==> !Races(r, op)
  {
    match op {
      case LookUp(_, _) =>
      case Create(c) =>
        if c in r.looks && Created(r.store, r.looks[c].record).Ok? {
          var record, t := r.looks[c].record, Created(r.store, r.looks[c].record).value;
          if record.key in r.store.byKey {
            CreateBreaks(r.store, record, t);
          } else {
            CreateKeepsInverse(r.store, record, t);
          }
        }
      case Save(record) =>
        if record.id in r.store.records && r.store.records[record.id].key == record.key {
          SaveKeepsInverse(r.store, record);
        }
      case Drop(id) =>
        if id in r.store.records && r.store.records[id].state.IsTerminal() {
          RemoveKeepsInverse(r.store, id, Removed(r.store, r.store.records[id]).value);
        }
    }
  }

  lemma {:induction false} RunIsDated(ops: seq<Op>)
    ensures Dated(Run(ops))
  {
    if ops != [] {
      RunIsDated(ops[..|ops| - 1]);
      StepKeepsDated(Run(ops[..|ops| - 1]), ops[|ops| - 1]);
    }
  }

  ghost predicate AlwaysInverse(ops: seq<Op>) {
    forall k: nat | k <= |ops| :: Inverse(Run(ops[..k]).store)
  }

  /** Over any submissions, saves and removals the index and the records first stop being
      inverse exactly when a submission creates a key that another put into the index after
      this one had looked. */
  lemma InverseBreaksExactly(ops: seq<Op>, op: Op)
    requires AlwaysInverse(ops)
    ensures !Inverse(Run(ops + [op]).store) <==> Races(Run(ops), op)
  {
    assert ops[..|ops|] == ops && (ops + [op])[..|ops|] == ops;
    assert Inverse(Run(ops[..|ops|]).store);
    RunIsDated(ops);
    StepKeepsInverse(Run(ops), op);
  }

  /** And then one key has two jobs, of which it names the second. */
  lemma RaceMakesTwo(r: Race, op: Op)
    requires Dated(r) && Inverse(r.store) && Races(r, op)
    ensures var record, t := r.looks[op.call].record, Step(r, op).store;
      && record.id in t.records && r.store.byKey[record.key] in t.records
      && r.store.byKey[record.key] != record.id && t.records[r.store.byKey[record.key]].key == record.key
      && Find(t, record.key) == Ok(Some(record))
  {
    assert Named(r.store, r.store.byKey[r.looks[op.call].record.key]);
  }

  lemma FirstCreated(a: JobRecord, b: JobRecord, r: Race)
    requires a.key == b.key && r == Step(Step(Step(EMPTY, LookUp(0, a)), LookUp(1, b)), Create(0))
    ensures r.store == Store(map[a.id := a], map[a.key := a.id])
    ensures r.looks == map[1 := Look(b, 1)] && r.keyedAt == map[a.key := 2]
  {
    assert EMPTY.store.records[a.id := a] == map[a.id := a] && EMPTY.store.byKey[a.key := a.id] == map[a.key := a.id];
    var looked := Step(Step(EMPTY, LookUp(0, a)), LookUp(1, b));
    assert looked.looks == map[0 := Look(a, 0), 1 := Look(b, 1)] && looked.looks - {0} == map[1 := Look(b, 1)];
    assert looked.keyedAt[a.key := 2] == map[a.key := 2];
  }

  /** It happens: both look before either creates. */
  lemma BothLookFirst(a: JobRecord, b: JobRecord)
    requires a.key == b.key && a.id != b.id
    ensures var r := Step(Step(Step(EMPTY, LookUp(0, a)), LookUp(1, b)), Create(0));
      Dated(r) && Inverse(r.store) && Races(r, Create(1))
  {
    FirstCreated(a, b, Step(Step(Step(EMPTY, LookUp(0, a)), LookUp(1, b)), Create(0)));
  }
}
