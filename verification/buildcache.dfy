/** The build cache: for each commit a binary and the provenance a build left
    beside it. Provenance is the only witness of what the binary was built from. */
module BuildCache {
  import opened Wrappers
  import opened Machine

  type Sha = string

  type Bytes = seq<nat>

  /** What a build records: the commit, and the hash of the binary it produced. */
  datatype Provenance = Provenance(sha: Sha, binarySha256: string)

  /** A provenance file that does not parse reads as none. */
  datatype BuildDir = BuildDir(binary: Option<Bytes>, provenance: Option<Provenance>)

  type Cache = map<Sha, BuildDir>

  function DirOf(cache: Cache, sha: Sha): BuildDir {
    if sha in cache then cache[sha] else BuildDir(None, None)
  }

  /** A hit takes a binary, provenance that names this commit, and bytes that hash to it. */
  function Cached(hash: Bytes -> string, cache: Cache, sha: Sha): Result<string, CacheMiss> {
    var dir := DirOf(cache, sha);
    if dir.binary.None? then Err(NoBuild)
    else if dir.provenance.None? then Err(NoProvenance)
    else if dir.provenance.value.sha != sha then Err(WrongSha(dir.provenance.value.sha))
    else if hash(dir.binary.value) != dir.provenance.value.binarySha256 then Err(HashMismatch)
    else Ok(hash(dir.binary.value))
  }

  /** A directory hits exactly with a binary and the provenance a build of this commit gives
      those very bytes; the answer is their hash. Short of that the miss says what is wrong,
      and of several things the first: no binary, no provenance, another commit's, or one with
      another hash than the binary has. */
  lemma HitExactly(hash: Bytes -> string, cache: Cache, sha: Sha, answer: Result<string, CacheMiss>)
    requires answer == Cached(hash, cache, sha)
    ensures forall h :: answer == Ok(h) <==>
      exists b :: sha in cache && cache[sha] == BuildDir(Some(b), Some(Provenance(sha, h))) && hash(b) == h
    ensures answer == Err(NoBuild) <==> sha !in cache || cache[sha].binary == None
    ensures answer == Err(NoProvenance) <==> sha in cache && cache[sha].binary != None && cache[sha].provenance == None
    ensures forall other :: answer == Err(WrongSha(other)) <==>
      other != sha && exists b, h :: sha in cache && cache[sha] == BuildDir(Some(b), Some(Provenance(other, h)))
    ensures answer == Err(HashMismatch) <==>
      exists b, h :: sha in cache && cache[sha] == BuildDir(Some(b), Some(Provenance(sha, h))) && hash(b) != h
  {
    if sha in cache && cache[sha].binary.Some? && cache[sha].provenance.Some? {
      var b, p := cache[sha].binary.value, cache[sha].provenance.value;
      assert cache[sha] == BuildDir(Some(b), Some(Provenance(p.sha, p.binarySha256)));
    }
  }

  /** What can happen to the cache: a binary is put there, copied in by a build, half copied
      by one cut short, or swapped by anybody; a build that gets so far records its
      provenance; directories are copied and dropped. Only a build writes provenance. */
  datatype Act =
    | PutBinary(sha: Sha, bytes: Bytes)
    | Record(sha: Sha, built: Bytes)
    | CopyDir(from: Sha, to: Sha)
    | Drop(sha: Sha)

  function Step(hash: Bytes -> string, cache: Cache, a: Act): Cache {
    match a
    case PutBinary(sha, bytes) => cache[sha := DirOf(cache, sha).(binary := Some(bytes))]
    case Record(sha, built) => cache[sha := DirOf(cache, sha).(provenance := Some(Provenance(sha, hash(built))))]
    case CopyDir(from, to) => cache[to := DirOf(cache, from)]
    case Drop(sha) => cache - {sha}
  }

  function Run(hash: Bytes -> string, acts: seq<Act>): Cache {
    if acts == [] then map[] else Step(hash, Run(hash, acts[..|acts| - 1]), acts[|acts| - 1])
  }

  /** Some build of this commit recorded a binary with this hash. */
  ghost predicate Recorded(hash: Bytes -> string, acts: seq<Act>, p: Provenance) {
    exists i :: 0 <= i < |acts| && acts[i].Record? && acts[i].sha == p.sha && hash(acts[i].built) == p.binarySha256
  }

  lemma {:induction false} ProvenanceIsRecorded(hash: Bytes -> string, acts: seq<Act>, dir: Sha)
    requires DirOf(Run(hash, acts), dir).provenance.Some?
    ensures Recorded(hash, acts, DirOf(Run(hash, acts), dir).provenance.value)
    decreases |acts|
  {
    if acts != [] {
      var before, last := acts[..|acts| - 1], acts[|acts| - 1];
      var p := DirOf(Run(hash, acts), dir).provenance.value;
      if last.Record? && last.sha == dir {
        assert acts[|acts| - 1].Record?;
      } else {
        var source := if last.CopyDir? && last.to == dir then last.from else dir;
        ProvenanceIsRecorded(hash, before, source);
        var i :| 0 <= i < |before| && before[i].Record? && before[i].sha == p.sha
              && hash(before[i].built) == p.binarySha256;
        assert acts[i] == before[i];
      }
    }
  }

  /** A hit is never a binary of another commit, a half-copied or a replaced one: its bytes
      hash to those a build of this very commit recorded. */
  lemma HitIsThisCommit(hash: Bytes -> string, acts: seq<Act>, sha: Sha)
    requires Cached(hash, Run(hash, acts), sha).Ok?
    ensures Recorded(hash, acts, Provenance(sha, Cached(hash, Run(hash, acts), sha).value))
  {
    ProvenanceIsRecorded(hash, acts, sha);
  }

  lemma RunMore(hash: Bytes -> string, acts: seq<Act>, a: Act)
    ensures Run(hash, acts + [a]) == Step(hash, Run(hash, acts), a)
  {
    assert (acts + [a])[..|acts|] == acts;
  }

  /** A build that got to its end is a hit, whatever was there before; one cut short after
      the copy leaves a hit only if an earlier build recorded the very same bytes. */
  lemma FinishedBuildHits(hash: Bytes -> string, acts: seq<Act>, sha: Sha, built: Bytes)
    ensures Cached(hash, Run(hash, acts + [PutBinary(sha, built)] + [Record(sha, built)]), sha) == Ok(hash(built))
    ensures var earlier := DirOf(Run(hash, acts), sha).provenance;
      Cached(hash, Run(hash, acts + [PutBinary(sha, built)]), sha).Ok? <==>
      earlier.Some? && earlier.value == Provenance(sha, hash(built))
  {
    RunMore(hash, acts, PutBinary(sha, built));
    RunMore(hash, acts + [PutBinary(sha, built)], Record(sha, built));
  }
}
