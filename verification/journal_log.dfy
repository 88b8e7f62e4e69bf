/** The journal object over its file: open, append, and whole runs of both. */
module JournalLog {
  import opened Wrappers
  import opened Utf8
  import opened Events
  import opened Journal

  /** What the file system does with one append. */
  datatype Disk = Stored | NotOpened | Cut(k: nat) | NotSynced

  datatype AppendError = HeartbeatRefused | DiskFailed

  /** The file's bytes, when it exists, and the counter held in memory. */
  datatype Log = Log(bytes: Option<seq<Byte>>, seqHigh: nat)

  function Bytes(file: Option<seq<Byte>>): seq<Byte> {
    match file
    case None => []
    case Some(bytes) => bytes
  }

  function LastSeq(es: seq<Event>): nat {
    if es == [] then 0 else es[|es| - 1].seqNo
  }

  /** The bytes an append leaves behind, and whether the call reported success.

      A failed sync leaves the whole line; a failed write leaves less than the line, since
      a write that got all of it through reports success. */
  function Stores(line: seq<Byte>, isDone: bool, disk: Disk): (seq<Byte>, bool) {
    match disk
    case Stored => (line, true)
    case NotOpened => ([], false)
    case Cut(k) => if k < |line| then (line[..k], false) else (line, true)
    case NotSynced => (line, !isDone)
  }

  function AppendStep(c: Codec, job: string, log: Log, kind: EventKind, atMs: nat, disk: Disk)
    : (Log, Result<Event, AppendError>)
  {
    if kind.EvHeartbeat? then (log, Err(HeartbeatRefused))
    else
      var e := Event(job, log.seqHigh + 1, atMs, kind);
      var (stored, ok) := Stores(LineOf(c, e), kind.EvDone?, disk);
      var bytes := if disk.NotOpened? then log.bytes else Some(Bytes(log.bytes) + stored);
      if ok then (Log(bytes, e.seqNo), Ok(e)) else (Log(bytes, log.seqHigh), Err(DiskFailed))
  }

  class JournalFile {
    var bytes: Option<seq<Byte>>

    constructor (bytes: Option<seq<Byte>>)
      ensures this.bytes == bytes
    {
      this.bytes := bytes;
    }
  }

  class JobJournal {
    const file: JournalFile
    const codec: Codec
    const job: string
    var seqHigh: nat

    ghost function State(): Log
      reads this, file
    {
      Log(file.bytes, seqHigh)
    }

    constructor (file: JournalFile, codec: Codec, job: string, seqHigh: nat)
      ensures this.file == file && this.codec == codec && this.job == job && this.seqHigh == seqHigh
    {
      this.file, this.codec, this.job, this.seqHigh := file, codec, job, seqHigh;
    }

    /** Open the journal, resuming the counter from what the file holds. */
    static method Open(file: JournalFile, codec: Codec, job: string) returns (r: Result<JobJournal, ReplayError>)
      ensures match ReplayOf(codec, Bytes(file.bytes), 0)
              case Ok(es) =>
                && r.Ok? && fresh(r.value)
                && r.value.file == file && r.value.codec == codec && r.value.job == job
                && r.value.State() == Log(file.bytes, LastSeq(es))
              case Err(e) => r == Err(e)
    {
      var read := Replay(codec, Bytes(file.bytes), 0);
      match read {
        case Ok(es) =>
          var journal := new JobJournal(file, codec, job, LastSeq(es));
          return Ok(journal);
        case Err(e) =>
          return Err(e);
      }
    }

    method Append(kind: EventKind, atMs: nat, disk: Disk) returns (r: Result<Event, AppendError>)
      modifies this, file
      ensures (State(), r) == AppendStep(codec, job, old(State()), kind, atMs, disk)
    {
      if kind.EvHeartbeat? {
        return Err(HeartbeatRefused);
      }
      var event := Event(job, seqHigh + 1, atMs, kind);
      var line := codec.encode(event) + [NEWLINE];
      if disk.NotOpened? {
        return Err(DiskFailed);
      }
      if file.bytes.None? {
        file.bytes := Some([]);
      }
      if disk.Cut? && disk.k < |line| {
        file.bytes := Some(file.bytes.value + line[..disk.k]);
        return Err(DiskFailed);
      }
      file.bytes := Some(file.bytes.value + line);
      if kind.EvDone? && disk.NotSynced? {
        return Err(DiskFailed);
      }
      seqHigh := event.seqNo;
      return Ok(event);
    }

    method ReplayFrom(from: nat) returns (r: Replayed)
      ensures r == ReplayOf(codec, Bytes(file.bytes), from)
    {
      r := Replay(codec, Bytes(file.bytes), from);
    }
  }

  // ---- Runs -------------------------------------------------------------------

  datatype Op = Append(kind: EventKind, atMs: nat, disk: Disk) | Reopen

  function Step(c: Codec, job: string, log: Log, op: Op): Result<Log, ReplayError> {
    match op
    case Append(kind, atMs, disk) => Ok(AppendStep(c, job, log, kind, atMs, disk).0)
    case Reopen =>
      match ReplayOf(c, Bytes(log.bytes), 0)
      case Ok(es) => Ok(Log(log.bytes, LastSeq(es)))
      case Err(e) => Err(e)
  }

  /** The journal after a run that began with no file; an open that fails ends it. */
  function Run(c: Codec, job: string, ops: seq<Op>): Result<Log, ReplayError> {
    if ops == [] then Ok(Log(None, 0))
    else
      match Run(c, job, ops[..|ops| - 1])
      case Ok(log) => Step(c, job, log, ops[|ops| - 1])
      case Err(e) => Err(e)
  }

  /** No write of the run is cut. */
  predicate Whole(op: Op) {
    op.Append? ==> !op.disk.Cut?
  }

  /** An append whose line gets into the file, counted or not. */
  predicate Reaches(op: Op) {
    op.Append? && !op.kind.EvHeartbeat? && !op.disk.NotOpened?
  }

  /** A final event that is written, and then fails to sync. */
  predicate Unsynced(op: Op) {
    op.Append? && op.kind.EvDone? && op.disk.NotSynced?
  }

  /** What a run leaves in the file, in order, and where its counter stands. */
  function Kept(job: string, ops: seq<Op>): (seq<Event>, nat) {
    if ops == [] then ([], 0)
    else
      var ((es, high), op) := (Kept(job, ops[..|ops| - 1]), ops[|ops| - 1]);
      if op.Reopen? then (es, LastSeq(es))
      else if !Reaches(op) then (es, high)
      else (es + [NextEvent(job, high, op)], if Unsynced(op) then high else high + 1)
  }

  ghost predicate Holds(c: Codec, log: Log, kept: (seq<Event>, nat)) {
    Bytes(log.bytes) == Written(c, kept.0) && log.seqHigh == kept.1
  }

  predicate Numbered(es: seq<Event>) {
    forall i | 0 <= i < |es| :: es[i].seqNo == i + 1
  }

  lemma {:induction false} FromNumbered(es: seq<Event>, start: nat, from: nat)
    requires forall i | 0 <= i < |es| :: es[i].seqNo == start + i
    ensures From(es, from) == if from <= start then es else if from - start <= |es| then es[from - start..] else []
  {
    if es != [] {
      forall i | 0 <= i < |es[1..]|
        ensures es[1..][i].seqNo == start + 1 + i
      {
        assert es[1..][i] == es[i + 1];
      }
      FromNumbered(es[1..], start + 1, from);
      assert es[0].seqNo == start;
      assert es == [es[0]] + es[1..];
      if start < from && from - start <= |es| {
        assert es[from - start..] == es[1..][from - start - 1..];
      }
    }
  }

  lemma {:induction false} FromAll(es: seq<Event>)
    ensures From(es, 0) == es
  {
    if es != [] {
      FromAll(es[1..]);
      assert es == [es[0]] + es[1..];
    }
  }

  function NextEvent(job: string, high: nat, op: Op): Event
    requires op.Append?
  {
    Event(job, high + 1, op.atMs, op.kind)
  }

  lemma LineAppended(c: Codec, job: string, log: Log, es: seq<Event>, op: Op)
    requires Bytes(log.bytes) == Written(c, es) && Reaches(op) && Whole(op)
    ensures var after := AppendStep(c, job, log, op.kind, op.atMs, op.disk).0;
      && Bytes(after.bytes) == Written(c, es + [NextEvent(job, log.seqHigh, op)])
      && after.seqHigh == if Unsynced(op) then log.seqHigh else log.seqHigh + 1
  {
    WrittenMore(c, es, NextEvent(job, log.seqHigh, op));
  }

  lemma CutAppended(c: Codec, job: string, log: Log, op: Op)
    requires op.Append? && !op.kind.EvHeartbeat? && op.disk.Cut?
    ensures var line, k := LineOf(c, NextEvent(job, log.seqHigh, op)), op.disk.k;
      Bytes(AppendStep(c, job, log, op.kind, op.atMs, op.disk).0.bytes)
      == Bytes(log.bytes) + line[..if k < |line| then k else |line|]
  {
    var line := LineOf(c, NextEvent(job, log.seqHigh, op));
    assert line[..|line|] == line;
  }

  /** Opening a file of whole lines resumes at its last number. */
  lemma ReopenWritten(c: Codec, job: string, log: Log, es: seq<Event>)
    requires Lawful(c) && Bytes(log.bytes) == Written(c, es)
    ensures Step(c, job, log, Reopen) == Ok(Log(log.bytes, LastSeq(es)))
  {
    ReplayWritten(c, es, 0);
    FromAll(es);
  }

  /** However appends fail to open or to sync and however often the journal is reopened,
      its bytes are the lines of what the run kept, and no open fails. */
  lemma {:induction false} RunHolds(c: Codec, job: string, ops: seq<Op>)
    requires Lawful(c) && forall i | 0 <= i < |ops| :: Whole(ops[i])
    ensures Run(c, job, ops).Ok? && Holds(c, Run(c, job, ops).value, Kept(job, ops))
  {
    if ops != [] {
      var before, op := ops[..|ops| - 1], ops[|ops| - 1];
      RunHolds(c, job, before);
      var (es, high) := Kept(job, before);
      if op.Reopen? {
        ReopenWritten(c, job, Run(c, job, before).value, es);
      } else if Reaches(op) {
        LineAppended(c, job, Run(c, job, before).value, es, op);
      }
    }
  }

  // ---- Numbers ----------------------------------------------------------------

  /** An unsynced final event, and a later line that takes its number again. */
  predicate Repeats(ops: seq<Op>, i: nat, j: nat) {
    i < j < |ops| && Unsynced(ops[i]) && Reaches(ops[j]) && Reopen !in ops[i..j]
  }

  /** An unsynced final event since the journal was last opened. */
  predicate Uncounted(ops: seq<Op>, i: nat) {
    i < |ops| && Unsynced(ops[i]) && Reopen !in ops[i..]
  }

  ghost predicate SomeRepeats(ops: seq<Op>) {
    exists i, j :: Repeats(ops, i, j)
  }

  ghost predicate SomeUncounted(ops: seq<Op>) {
    exists i :: Uncounted(ops, i)
  }

  lemma UncountedMore(ops: seq<Op>, op: Op)
    ensures SomeUncounted(ops + [op]) <==> Unsynced(op) || (SomeUncounted(ops) && !op.Reopen?)
  {
    var n := |ops|;
    forall i: nat | i < n
      ensures Uncounted(ops + [op], i) <==> Uncounted(ops, i) && !op.Reopen?
    {
      assert (ops + [op])[i..] == ops[i..] + [op];
    }
    assert (ops + [op])[n..] == [op];
    assert Uncounted(ops + [op], n) <==> Unsynced(op);
    if SomeUncounted(ops) && !op.Reopen? {
      var i :| Uncounted(ops, i);
      assert Uncounted(ops + [op], i);
    }
  }

  lemma RepeatsMore(ops: seq<Op>, op: Op)
    ensures SomeRepeats(ops + [op]) <==> SomeRepeats(ops) || (SomeUncounted(ops) && Reaches(op))
  {
    var n := |ops|;
    forall i: nat, j: nat | i < j <= n
      ensures Repeats(ops + [op], i, j) <==> if j < n then Repeats(ops, i, j) else Uncounted(ops, i) && Reaches(op)
    {
      assert (ops + [op])[i..j] == ops[i..j];
      assert ops[i..n] == ops[i..];
    }
    if SomeRepeats(ops) {
      var i, j :| Repeats(ops, i, j);
      assert Repeats(ops + [op], i, j);
    }
    if SomeUncounted(ops) && Reaches(op) {
      var i :| Uncounted(ops, i);
      assert Repeats(ops + [op], i, n);
    }
  }

  /** The counter of a run lags by the one event that is uncounted, and a file numbered
      from 1 stays so until a line takes that event's number. */
  lemma {:induction false} KeptNumbers(job: string, ops: seq<Op>)
    ensures var (es, high) := Kept(job, ops);
      && (Numbered(es) <==> !SomeRepeats(ops))
      && (Numbered(es) ==> |es| == if SomeUncounted(ops) then high + 1 else high)
  {
    if ops != [] {
      var before, op := ops[..|ops| - 1], ops[|ops| - 1];
      assert ops == before + [op];
      KeptNumbers(job, before);
      RepeatsMore(before, op);
      UncountedMore(before, op);
      var (es, high) := Kept(job, before);
      if Reaches(op) {
        NumberedMore(es, NextEvent(job, high, op));
      }
    }
  }

  lemma NumberedMore(es: seq<Event>, e: Event)
    ensures Numbered(es + [e]) <==> Numbered(es) && e.seqNo == |es| + 1
  {
    forall i: nat | i < |es|
      ensures (es + [e])[i] == es[i]
    {
    }
    assert (es + [e])[|es|] == e;
  }

  /** Over any run of appends and reopens from no file, whatever fails to open or to sync, a
      replay gives what the run kept, and the numbers in it are exactly 1 to n as long as no
      unsynced final event is followed, before a reopen, by a line that gets into the file. */
  lemma NumberedExactly(c: Codec, job: string, ops: seq<Op>)
    requires Lawful(c) && forall i | 0 <= i < |ops| :: Whole(ops[i])
    ensures Run(c, job, ops).Ok?
    ensures var read := ReplayOf(c, Bytes(Run(c, job, ops).value.bytes), 0);
      read.Ok? && (Numbered(read.value) <==> !exists i, j :: Repeats(ops, i, j))
  {
    RunHolds(c, job, ops);
    var (es, high) := Kept(job, ops);
    ReplayWritten(c, es, 0);
    FromAll(es);
    KeptNumbers(job, ops);
  }

  /** And the journal is then a list: the counter stands at its length unless a final event
      is uncounted, and a replay from any number is the rest of the list. */
  lemma JournalRefinesList(c: Codec, job: string, ops: seq<Op>, from: nat)
    requires Lawful(c) && forall i | 0 <= i < |ops| :: Whole(ops[i])
    ensures Run(c, job, ops).Ok?
    ensures var log, (es, _) := Run(c, job, ops).value, Kept(job, ops);
      && ReplayOf(c, Bytes(log.bytes), from) == Ok(From(es, from))
      && (!SomeRepeats(ops) ==>
        && From(es, from) == (if from <= 1 then es else if from <= |es| then es[from - 1..] else [])
        && |es| == if SomeUncounted(ops) then log.seqHigh + 1 else log.seqHigh)
  {
    RunHolds(c, job, ops);
    var (es, high) := Kept(job, ops);
    ReplayWritten(c, es, from);
    KeptNumbers(job, ops);
    if !SomeRepeats(ops) {
      FromNumbered(es, 1, from);
    }
  }

  predicate Ascending(es: seq<Event>) {
    forall i | 0 < i < |es| :: es[i - 1].seqNo <= es[i].seqNo
  }

  /** Repeated or not, numbers never go back, and the counter is the last number in the file
      or one behind it. */
  lemma {:induction false} NumbersNeverGoBack(job: string, ops: seq<Op>)
    ensures var (es, high) := Kept(job, ops);
      Ascending(es) && high <= LastSeq(es) <= high + 1
  {
    if ops != [] {
      NumbersNeverGoBack(job, ops[..|ops| - 1]);
    }
  }

  /** A final event that fails to sync is in the file but not counted: whatever line gets
      into the file next takes its number again, unless the journal is reopened first. */
  lemma UnsyncedDoneRepeatsSeq(c: Codec, job: string, log: Log, es: seq<Event>, done: Op, next: Op)
    requires Lawful(c) && Bytes(log.bytes) == Written(c, es) && Unsynced(done) && Reaches(next) && Whole(next)
    ensures var n := log.seqHigh;
      var (after, failed) := AppendStep(c, job, log, done.kind, done.atMs, done.disk);
      && failed == Err(DiskFailed)
      && Bytes(AppendStep(c, job, after, next.kind, next.atMs, next.disk).0.bytes)
         == Written(c, es + [NextEvent(job, n, done)] + [NextEvent(job, n, next)])
      && Step(c, job, after, Reopen) == Ok(Log(after.bytes, n + 1))
  {
    var after := AppendStep(c, job, log, done.kind, done.atMs, done.disk).0;
    var more := es + [NextEvent(job, log.seqHigh, done)];
    LineAppended(c, job, log, es, done);
    LineAppended(c, job, after, more, next);
    ReopenWritten(c, job, after, more);
  }

  // ---- Cut writes -------------------------------------------------------------

  /** What reads back after a write cut at `k` bytes. */
  lemma ReadAfterCut(c: Codec, es: seq<Event>, e: Event, k: nat, read: Replayed)
    requires Lawful(c)
    requires var line := LineOf(c, e);
      read == ReplayOf(c, Written(c, es) + line[..if k < |line| then k else |line|], 0)
    ensures read == if k >= |c.encode(e)| then Ok(es + [e])
                    else if Boundary(c.encode(e), k) then Ok(es)
                    else Err(NotText)
  {
    CutLastWrite(c, es, e, if k < |LineOf(c, e)| then k else |LineOf(c, e)|, 0);
    FromAll(es);
    FromAll(es + [e]);
  }

  lemma CutThenReopened(c: Codec, job: string, log: Log, kept: (seq<Event>, nat), cut: Op, torn: Log)
    requires Lawful(c) && Holds(c, log, kept) && cut.Append? && !cut.kind.EvHeartbeat? && cut.disk.Cut?
    requires torn == AppendStep(c, job, log, cut.kind, cut.atMs, cut.disk).0
    ensures var x, k := c.encode(NextEvent(job, kept.1, cut)), cut.disk.k;
      Step(c, job, torn, Reopen)
      == if k >= |x| then Ok(Log(torn.bytes, kept.1 + 1))
         else if Boundary(x, k) then Ok(Log(torn.bytes, LastSeq(kept.0)))
         else Err(NotText)
  {
    CutAppended(c, job, log, cut);
    ReadAfterCut(c, kept.0, NextEvent(job, kept.1, cut), cut.disk.k, ReplayOf(c, Bytes(torn.bytes), 0));
  }

  lemma TwoSteps(c: Codec, job: string, ops: seq<Op>, op: Op)
    requires Run(c, job, ops).Ok? && op.Append?
    ensures Run(c, job, ops + [op] + [Reopen])
         == Step(c, job, AppendStep(c, job, Run(c, job, ops).value, op.kind, op.atMs, op.disk).0, Reopen)
  {
    assert (ops + [op])[..|ops|] == ops;
    assert (ops + [op] + [Reopen])[..|ops| + 1] == ops + [op];
  }

  /** A write cut short, then a restart: the counter resumes from what the file still
      reads as, and the open fails exactly when the cut split a character. */
  lemma RestartAfterCut(c: Codec, job: string, ops: seq<Op>, cut: Op)
    requires Lawful(c) && forall i | 0 <= i < |ops| :: Whole(ops[i])
    requires cut.Append? && !cut.kind.EvHeartbeat? && cut.disk.Cut?
    ensures var (es, high) := Kept(job, ops);
      var x, k := c.encode(NextEvent(job, high, cut)), cut.disk.k;
      var restarted := Run(c, job, ops + [cut] + [Reopen]);
      && (restarted.Ok? <==> k >= |x| || Boundary(x, k))
      && (restarted.Ok? ==> restarted.value.seqHigh == if k >= |x| then high + 1 else LastSeq(es))
  {
    RunHolds(c, job, ops);
    TwoSteps(c, job, ops, cut);
    var log := Run(c, job, ops).value;
    CutThenReopened(c, job, log, Kept(job, ops), cut, AppendStep(c, job, log, cut.kind, cut.atMs, cut.disk).0);
  }
}
