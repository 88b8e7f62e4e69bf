/** Attributing records to jobs by comparing two listings of a gate's directory, and when
    that comparison is right. */
module Records {
  import opened Wrappers
  import opened Events
  import opened Sorting
  import Nearest

  /** A directory entry: its name, and when it was last written, when that can be read. */
  datatype Entry = Entry(name: string, modified: Option<nat>)

  type RecordState = map<string, nat>

  predicate EndsWith(name: string, suffix: string) {
    |suffix| <= |name| && name[|name| - |suffix|..] == suffix
  }

  predicate IsRecord(name: string) {
    EndsWith(name, ".json") || EndsWith(name, ".json.sig")
  }

  /** A time that cannot be read counts as the epoch. */
  function Stamp(modified: Option<nat>): nat {
    match modified
    case None => 0
    case Some(t) => t
  }

  // ---- The snapshot -----------------------------------------------------------

  function StateOf(entries: seq<Entry>): RecordState {
    if entries == [] then map[]
    else
      var before, e := StateOf(entries[..|entries| - 1]), entries[|entries| - 1];
      if IsRecord(e.name) then before[e.name := Stamp(e.modified)] else before
  }

  /** An unreadable directory is an empty one. */
  method State(listing: Option<seq<Entry>>) returns (out: RecordState)
    ensures out == match listing case None => map[] case Some(entries) => StateOf(entries)
  {
    out := map[];
    if listing.None? {
      return;
    }
    var entries := listing.value;
    var i := 0;
    while i < |entries|
      invariant 0 <= i <= |entries|
      invariant out == StateOf(entries[..i])
    {
      var e := entries[i];
      assert entries[..i + 1][..i] == entries[..i];
      if IsRecord(e.name) {
        out := out[e.name := Stamp(e.modified)];
      }
      i := i + 1;
    }
    assert entries[..i] == entries;
  }

  // ---- What a job is credited -------------------------------------------------

  /** In the second listing, and not as it was in the first. */
  predicate Credited(before: RecordState, now: RecordState, name: string) {
    name in now && (name in before ==> before[name] != now[name])
  }

  function KindOf(name: string): ArtifactKind {
    if EndsWith(name, ".json.sig") then Signature else Record
  }

  function Meta(gate: string, name: string): ArtifactMeta {
    ArtifactMeta(name, ".benchmarks/" + gate + "/" + name, KindOf(name))
  }

  predicate ByName(a: ArtifactMeta, b: ArtifactMeta) {
    Nearest.NameLe(a.name, b.name)
  }

  lemma EndsWithIs(name: string, suffix: string)
    ensures EndsWith(name, suffix) <==> exists stem :: name == stem + suffix
  {
    if EndsWith(name, suffix) {
      assert name == name[..|name| - |suffix|] + suffix;
    }
  }

  /** The names of records are those that end as records or signatures do, and a signature is
      told from a record by its ending; each is named with its place under the gate. */
  lemma NamesOfRecords(gate: string, name: string)
    ensures IsRecord(name) <==> (exists stem :: name == stem + ".json") || exists stem :: name == stem + ".json.sig"
    ensures Meta(gate, name).kind == Signature <==> exists stem :: name == stem + ".json.sig"
    ensures Meta(gate, name).name == name && Meta(gate, name).relativePath == ".benchmarks/" + gate + "/" + name
  {
    EndsWithIs(name, ".json");
    EndsWithIs(name, ".json.sig");
  }

  /** Each credited name once. */
  ghost predicate Lists(gate: string, before: RecordState, now: RecordState, out: seq<ArtifactMeta>) {
    && (forall i | 0 <= i < |out| :: Credited(before, now, out[i].name) && out[i] == Meta(gate, out[i].name))
    && (forall name | Credited(before, now, name) :: Meta(gate, name) in out)
    && (forall i, j | 0 <= i < j < |out| :: out[i].name != out[j].name)
  }

  /** Copy what this job wrote, in whatever order the names come; a copy that fails fails
      the whole collection. */
  method Gather(gate: string, before: RecordState, now: RecordState, uncopyable: set<string>)
    returns (out: seq<ArtifactMeta>, ok: bool)
    ensures ok ==> Lists(gate, before, now, out)
    ensures ok <==> forall name | Credited(before, now, name) :: name !in uncopyable
  {
    out, ok := [], true;
    var todo := now.Keys;
    while todo != {}
      invariant todo <= now.Keys
      invariant forall i | 0 <= i < |out| ::
        Credited(before, now, out[i].name) && out[i] == Meta(gate, out[i].name) && out[i].name !in todo
      invariant forall name | Credited(before, now, name) && name !in todo ::
        Meta(gate, name) in out && name !in uncopyable
      invariant forall i, j | 0 <= i < j < |out| :: out[i].name != out[j].name
      decreases |todo|
    {
      var name :| name in todo;
      todo := todo - {name};
      if Credited(before, now, name) {
        if name in uncopyable {
          return out, false;
        }
        out := out + [Meta(gate, name)];
      }
    }
  }

  lemma NamesOrder()
    ensures Preorder(ByName)
  {
    forall x: ArtifactMeta, y: ArtifactMeta
      ensures ByName(x, y) || ByName(y, x)
    {
      Nearest.NameLeTotal(x.name, y.name);
    }
    forall x: ArtifactMeta, y: ArtifactMeta, z: ArtifactMeta | ByName(x, y) && ByName(y, z)
      ensures ByName(x, z)
    {
      Nearest.NameLeTransitive(x.name, y.name, z.name);
    }
  }

  /** The records this job wrote, each once, in the order of their names. */
  method Collect(gate: string, before: RecordState, listing: Option<seq<Entry>>, uncopyable: set<string>)
    returns (r: Result<seq<ArtifactMeta>, string>)
    ensures var now := match listing case None => map[] case Some(entries) => StateOf(entries);
      && (r.Ok? <==> forall name | Credited(before, now, name) :: name !in uncopyable)
      && (r.Ok? ==> Sorted(r.value, ByName))
      && (r.Ok? ==> forall m :: m in r.value <==> Credited(before, now, m.name) && m == Meta(gate, m.name))
      && (r.Ok? ==> forall i, j | 0 <= i < j < |r.value| :: r.value[i] != r.value[j])
  {
    var now := State(listing);
    var out, ok := Gather(gate, before, now, uncopyable);
    if !ok {
      return Err("copying a record");
    }
    NamesOrder();
    SortSorted(out, ByName);
    SortPermutes(out, ByName);
    SortedStaysDistinct(out, Sort(out, ByName));
    forall m
      ensures m in Sort(out, ByName) <==> m in out
    {
      assert m in multiset(out) <==> m in out;
      assert m in multiset(Sort(out, ByName)) <==> m in Sort(out, ByName);
    }
    return Ok(Sort(out, ByName));
  }

  lemma SortedStaysDistinct(a: seq<ArtifactMeta>, b: seq<ArtifactMeta>)
    requires multiset(a) == multiset(b)
    requires forall i, j | 0 <= i < j < |a| :: a[i] != a[j]
    ensures forall i, j | 0 <= i < j < |b| :: b[i] != b[j]
  {
    forall i, j | 0 <= i < j < |b|
      ensures b[i] != b[j]
    {
      if b[i] == b[j] {
        assert b == b[..i] + [b[i]] + b[i + 1..j] + [b[j]] + b[j + 1..];
        assert multiset(b)[b[i]] >= 2;
        OnceEach(a, b[i]);
      }
    }
  }

  lemma {:induction false} OnceEach(a: seq<ArtifactMeta>, m: ArtifactMeta)
    requires forall i, j | 0 <= i < j < |a| :: a[i] != a[j]
    ensures multiset(a)[m] <= 1
  {
    if a != [] {
      var rest := a[..|a| - 1];
      OnceEach(rest, m);
      assert a == rest + [a[|a| - 1]];
      if a[|a| - 1] == m {
        assert m !in rest;
        assert m !in multiset(rest);
      }
    }
  }

  // ---- One directory, one job after another -----------------------------------

  /** A file's last write: when, and during which job, if any was running. */
  datatype File = File(written: nat, job: Option<nat>)

  /** The gate's directory, the latest time anything in it was written, and the job now
      running with its snapshot. */
  datatype Gate = Gate(files: map<string, File>, clock: nat, jobs: nat, running: bool, before: RecordState)

  /** What happens there: a write, later than any before it; a file deleted; a job's child
      starting, straight after its snapshot; the job's records collected. */
  datatype Act = Write(name: string, later: nat) | Delete(name: string) | Start | Finish

  function Snapshot(g: Gate): RecordState {
    map name | name in g.files && IsRecord(name) :: g.files[name].written
  }

  function Step(g: Gate, a: Act): Gate {
    match a
    case Write(name, later) =>
      var at := g.clock + 1 + later;
      g.(files := g.files[name := File(at, if g.running then Some(g.jobs) else None)], clock := at)
    case Delete(name) => g.(files := g.files - {name})
    case Start => if g.running then g else g.(running := true, before := Snapshot(g))
    case Finish => if g.running then g.(running := false, jobs := g.jobs + 1) else g
  }

  function Run(files: map<string, nat>, clock: nat, acts: seq<Act>): Gate {
    if acts == [] then Gate(map name | name in files :: File(files[name], None), clock, 0, false, map[])
    else Step(Run(files, clock, acts[..|acts| - 1]), acts[|acts| - 1])
  }

  /** A file written since the running job's snapshot is newer than everything in it, and
      any other record is in it just as it is. */
  ghost predicate Inv(g: Gate) {
    && (forall name | name in g.files :: g.files[name].written <= g.clock)
    && (forall name | name in g.before :: g.before[name] <= g.clock)
    && (forall name | name in g.files && g.files[name].job.Some? ::
          g.files[name].job.value < g.jobs || (g.running && g.files[name].job.value == g.jobs))
    && (g.running ==> forall name | name in g.files && IsRecord(name) :: Told(g, name))
  }

  ghost predicate Told(g: Gate, name: string)
    requires name in g.files
  {
    if g.files[name].job == Some(g.jobs) then name in g.before ==> g.before[name] < g.files[name].written
    else name in g.before && g.before[name] == g.files[name].written
  }

  lemma StepKeepsInv(g: Gate, a: Act)
    requires Inv(g)
    ensures Inv(Step(g, a))
  {
    var h := Step(g, a);
    if h.running {
      forall name | name in h.files && IsRecord(name)
        ensures Told(h, name)
      {
        if g.running && name in g.files {
          assert Told(g, name);
        }
      }
    }
  }

  lemma {:induction false} EveryRun(files: map<string, nat>, clock: nat, acts: seq<Act>)
    requires forall name | name in files :: files[name] <= clock
    ensures Inv(Run(files, clock, acts))
    decreases |acts|
  {
    if acts != [] {
      EveryRun(files, clock, acts[..|acts| - 1]);
      StepKeepsInv(Run(files, clock, acts[..|acts| - 1]), acts[|acts| - 1]);
    }
  }

  /** When a job's records are collected, in any history of jobs one after another, it is
      credited exactly the records written while it ran that are still there. */
  lemma CreditedExactly(files: map<string, nat>, clock: nat, acts: seq<Act>, name: string)
    requires forall n | n in files :: files[n] <= clock
    requires Run(files, clock, acts).running
    ensures var g := Run(files, clock, acts);
      Credited(g.before, Snapshot(g), name) <==> name in g.files && IsRecord(name) && g.files[name].job == Some(g.jobs)
  {
    var g := Run(files, clock, acts);
    EveryRun(files, clock, acts);
    if name in g.files && IsRecord(name) {
      assert Told(g, name);
    }
  }

  /** So no version of a record is ever credited to two jobs. */
  lemma CreditedOnce(files: map<string, nat>, clock: nat, acts: seq<Act>, later: seq<Act>, name: string)
    requires forall n | n in files :: files[n] <= clock
    requires Run(files, clock, acts).running && Run(files, clock, acts + later).running
    ensures var g, h := Run(files, clock, acts), Run(files, clock, acts + later);
      Credited(g.before, Snapshot(g), name) && Credited(h.before, Snapshot(h), name) && g.files[name] == h.files[name]
      ==> g.jobs == h.jobs
  {
    CreditedExactly(files, clock, acts, name);
    CreditedExactly(files, clock, acts + later, name);
  }

  /** What the clock is relied on for: a record rewritten at the instant the snapshot has for
      it is not credited, however different its contents. */
  lemma SameInstantIsMissed(g: Gate, name: string, job: Option<nat>)
    requires name in g.files && IsRecord(name)
    ensures var before := Snapshot(g);
      var rewritten := g.(files := g.files[name := File(g.files[name].written, job)]);
      !Credited(before, Snapshot(rewritten), name)
  {
  }

  /** The snapshot the program takes of a listing is the directory's. */
  lemma {:induction false} ListingIsSnapshot(g: Gate, entries: seq<Entry>)
    requires forall i | 0 <= i < |entries| ::
      entries[i].name in g.files && entries[i].modified == Some(g.files[entries[i].name].written)
    requires forall name | name in g.files :: exists i :: 0 <= i < |entries| && entries[i].name == name
    ensures StateOf(entries) == Snapshot(g)
  {
    StateHolds(entries, g.files);
    forall name | name in Snapshot(g)
      ensures name in StateOf(entries)
    {
      var i :| 0 <= i < |entries| && entries[i].name == name;
      StateNames(entries, i);
    }
  }

  lemma {:induction false} StateHolds(entries: seq<Entry>, files: map<string, File>)
    requires forall i | 0 <= i < |entries| ::
      entries[i].name in files && entries[i].modified == Some(files[entries[i].name].written)
    ensures forall name | name in StateOf(entries) ::
      name in files && IsRecord(name) && StateOf(entries)[name] == files[name].written
  {
    if entries != [] {
      StateHolds(entries[..|entries| - 1], files);
    }
  }

  lemma {:induction false} StateNames(entries: seq<Entry>, i: nat)
    requires i < |entries| && IsRecord(entries[i].name)
    ensures entries[i].name in StateOf(entries)
  {
    if i < |entries| - 1 {
      StateNames(entries[..|entries| - 1], i);
    }
  }
}
