/** Following a child's log while it runs: read the complete lines since last time, batch
    them into events, remember the last verdict; and decide when to stop the child. */
module LogTail {
  import opened Wrappers
  import opened Utf8
  import opened Events
  import MachineLife
  import Journal

  const MAX_LOG_LINES_PER_EVENT: nat := 64

  /** How lines are found, and what one means: cleaned for display, and whether it is a
      verdict or progress. */
  datatype Reader = Reader(next: seq<Byte> -> nat, clean: seq<Byte> -> string,
                           verdict: string -> Option<Verdict>, progress: string -> Option<string>)

  /** How far the log has been read, the verdict held, and what was emitted. */
  datatype Tail = Tail(offset: nat, verdict: Option<Verdict>, pending: seq<string>, emitted: seq<EventKind>)

  const UNREAD := Tail(0, None, [], [])

  // ---- One poll ---------------------------------------------------------------

  /** The length of a complete line of text in front, or 0: the end of the log so far, a
      line still being written, and a line that is not text all stop the reading. */
  function NextLine(s: seq<Byte>): (n: nat)
    ensures n <= |s|
    ensures n > 0 ==> s[n - 1] == Journal.NEWLINE && Journal.NEWLINE !in s[..n - 1] && Text(s[..n])
  {
    if s == [] then 0
    else
      var n := Journal.LineLength(s);
      if s[n - 1] == Journal.NEWLINE && Text(s[..n]) then n else 0
  }

  ghost predicate Stays(next: seq<Byte> -> nat, a: seq<Byte>, b: seq<Byte>) {
    next(a) > 0 ==> next(a + b) == next(a)
  }

  ghost predicate Alone(next: seq<Byte> -> nat, s: seq<Byte>) {
    next(s) <= |s| && next(s[..next(s)]) == next(s)
  }

  /** A complete line in front stays the next line whatever is appended, or if just it
      is left. */
  ghost predicate Steady(next: seq<Byte> -> nat) {
    (forall a, b :: Stays(next, a, b)) && (forall s :: Alone(next, s))
  }

  function Batch(pending: seq<string>): seq<EventKind> {
    if pending == [] then [] else [EvLog(pending)]
  }

  /** One line taken: a verdict replaces the one held, anything else may be progress. */
  function TakeLine(r: Reader, t: Tail, line: seq<Byte>, n: nat): Tail {
    var text := r.clean(line);
    var verdict := r.verdict(text);
    var progress := if verdict.Some? || r.progress(text).None? then [] else [EvProgress(r.progress(text).value)];
    var pending := t.pending + [text];
    var kept := if verdict.Some? then verdict else t.verdict;
    if |pending| >= MAX_LOG_LINES_PER_EVENT then Tail(t.offset + n, kept, [], t.emitted + progress + Batch(pending))
    else Tail(t.offset + n, kept, pending, t.emitted + progress)
  }

  function Past(s: seq<Byte>, offset: nat): seq<Byte> {
    if offset <= |s| then s[offset..] else []
  }

  function ReadOn(r: Reader, t: Tail, s: seq<Byte>): Tail
    decreases |s| - t.offset
  {
    var n := r.next(Past(s, t.offset));
    if n == 0 || t.offset + n > |s| then t
    else ReadOn(r, TakeLine(r, t, s[t.offset..t.offset + n - 1], n), s)
  }

  function Flush(t: Tail): Tail {
    t.(pending := [], emitted := t.emitted + Batch(t.pending))
  }

  /** Read on through what the log now holds, if it opens, then send what is left over. */
  function Poll(r: Reader, t: Tail, log: Option<seq<Byte>>): Tail {
    match log
    case None => Flush(t)
    case Some(s) => Flush(ReadOn(r, t, s))
  }

  class Follower {
    const reader: Reader
    var offset: nat
    var verdict: Option<Verdict>
    var pending: seq<string>
    var emitted: seq<EventKind>

    ghost function State(): Tail
      reads this
    {
      Tail(offset, verdict, pending, emitted)
    }

    constructor (reader: Reader)
      ensures this.reader == reader && State() == UNREAD
    {
      this.reader, offset, verdict, pending, emitted := reader, 0, None, [], [];
    }

    method Take(line: seq<Byte>, n: nat)
      modifies this
      ensures State() == TakeLine(reader, old(State()), line, n)
    {
      offset := offset + n;
      var text := reader.clean(line);
      var found := reader.verdict(text);
      if found.Some? {
        verdict := found;
      } else if reader.progress(text).Some? {
        emitted := emitted + [EvProgress(reader.progress(text).value)];
      }
      pending := pending + [text];
      if |pending| >= MAX_LOG_LINES_PER_EVENT {
        emitted, pending := emitted + [EvLog(pending)], [];
      }
    }

    method ReadMore(s: seq<Byte>)
      modifies this
      ensures State() == ReadOn(reader, old(State()), s)
    {
      ghost var goal := ReadOn(reader, State(), s);
      var n := reader.next(Past(s, offset));
      while n > 0 && offset + n <= |s|
        invariant goal == ReadOn(reader, State(), s)
        invariant n == reader.next(Past(s, offset))
        decreases |s| - offset
      {
        Take(s[offset..offset + n - 1], n);
        n := reader.next(Past(s, offset));
      }
    }

    method Follow(log: Option<seq<Byte>>)
      modifies this
      ensures State() == Poll(reader, old(State()), log)
    {
      if log.Some? {
        ReadMore(log.value);
      }
      if pending != [] {
        emitted, pending := emitted + [EvLog(pending)], [];
      }
    }
  }

  // ---- What a log says --------------------------------------------------------

  /** The complete lines at the front of a log, without their newlines. */
  function Lines(r: Reader, s: seq<Byte>): seq<seq<Byte>>
    decreases |s|
  {
    var n := r.next(s);
    if n == 0 || n > |s| then [] else [s[..n - 1]] + Lines(r, s[n..])
  }

  /** How many bytes those lines take. */
  function Consumed(r: Reader, s: seq<Byte>): (n: nat)
    ensures n <= |s|
    decreases |s|
  {
    var n := r.next(s);
    if n == 0 || n > |s| then 0 else n + Consumed(r, s[n..])
  }

  function Cleaned(r: Reader, lines: seq<seq<Byte>>): seq<string> {
    if lines == [] then [] else [r.clean(lines[0])] + Cleaned(r, lines[1..])
  }

  /** The verdict of the last line that is one. */
  function LastVerdict(r: Reader, texts: seq<string>): Option<Verdict> {
    if texts == [] then None
    else
      var last := r.verdict(texts[|texts| - 1]);
      if last.Some? then last else LastVerdict(r, texts[..|texts| - 1])
  }

  /** The progress of every line that is progress and no verdict. */
  function ProgressOf(r: Reader, texts: seq<string>): seq<EventKind> {
    if texts == [] then []
    else
      var text := texts[|texts| - 1];
      ProgressOf(r, texts[..|texts| - 1])
      + if r.verdict(text).Some? || r.progress(text).None? then [] else [EvProgress(r.progress(text).value)]
  }

  /** The lines of every batch, one after another. */
  function Logged(kinds: seq<EventKind>): seq<string> {
    if kinds == [] then []
    else Logged(kinds[..|kinds| - 1]) + match kinds[|kinds| - 1] case EvLog(lines) => lines case _ => []
  }

  function Progressed(kinds: seq<EventKind>): seq<EventKind> {
    if kinds == [] then []
    else
      var last := kinds[|kinds| - 1];
      Progressed(kinds[..|kinds| - 1]) + if last.EvProgress? then [last] else []
  }

  /** Every event is progress or a batch of between one line and the most allowed. */
  predicate WellBatched(kinds: seq<EventKind>) {
    forall i | 0 <= i < |kinds| ::
      kinds[i].EvProgress? || (kinds[i].EvLog? && 1 <= |kinds[i].lines| <= MAX_LOG_LINES_PER_EVENT)
  }

  /** What was emitted and is pending is just what the lines read so far say. */
  ghost predicate Faithful(r: Reader, t: Tail, texts: seq<string>) {
    && Logged(t.emitted) + t.pending == texts
    && t.verdict == LastVerdict(r, texts)
    && Progressed(t.emitted) == ProgressOf(r, texts)
    && WellBatched(t.emitted) && |t.pending| < MAX_LOG_LINES_PER_EVENT
  }

  lemma LoggedMore(kinds: seq<EventKind>, e: EventKind)
    ensures Logged(kinds + [e]) == Logged(kinds) + match e case EvLog(lines) => lines case _ => []
    ensures Progressed(kinds + [e]) == Progressed(kinds) + if e.EvProgress? then [e] else []
  {
    assert (kinds + [e])[..|kinds|] == kinds;
  }

  lemma EmitProgress(t: Tail, texts: seq<string>, r: Reader, phase: string, u: Tail)
    requires Faithful(r, t, texts) && u == t.(emitted := t.emitted + [EvProgress(phase)])
    ensures Logged(u.emitted) == Logged(t.emitted) && WellBatched(u.emitted)
    ensures Progressed(u.emitted) == Progressed(t.emitted) + [EvProgress(phase)]
  {
    LoggedMore(t.emitted, EvProgress(phase));
    assert Logged(t.emitted) + [] == Logged(t.emitted);
  }

  lemma BatchKeeps(emitted: seq<EventKind>, pending: seq<string>)
    requires WellBatched(emitted) && |pending| <= MAX_LOG_LINES_PER_EVENT
    ensures Logged(emitted + Batch(pending)) == Logged(emitted) + pending
    ensures Progressed(emitted + Batch(pending)) == Progressed(emitted)
    ensures WellBatched(emitted + Batch(pending))
  {
    if pending == [] {
      assert emitted + [] == emitted && Logged(emitted) + [] == Logged(emitted);
    } else {
      LoggedMore(emitted, EvLog(pending));
      assert Progressed(emitted) + [] == Progressed(emitted);
    }
  }

  lemma TakeEmits(r: Reader, t: Tail, texts: seq<string>, text: string, progress: seq<EventKind>)
    requires Faithful(r, t, texts)
    requires progress == if r.verdict(text).Some? || r.progress(text).None? then [] else [EvProgress(r.progress(text).value)]
    ensures Logged(t.emitted + progress) == Logged(t.emitted) && WellBatched(t.emitted + progress)
    ensures Progressed(t.emitted + progress) == ProgressOf(r, texts + [text])
  {
    assert (texts + [text])[..|texts|] == texts;
    if progress == [] {
      assert t.emitted + progress == t.emitted && ProgressOf(r, texts) + [] == ProgressOf(r, texts);
    } else {
      EmitProgress(t, texts, r, r.progress(text).value, t.(emitted := t.emitted + progress));
    }
  }

  lemma VerdictMore(r: Reader, texts: seq<string>, text: string)
    ensures LastVerdict(r, texts + [text]) == if r.verdict(text).Some? then r.verdict(text) else LastVerdict(r, texts)
  {
    assert (texts + [text])[..|texts|] == texts;
  }

  lemma TakeKeepsFaith(r: Reader, t: Tail, texts: seq<string>, line: seq<Byte>, n: nat, u: Tail)
    requires Faithful(r, t, texts) && u == TakeLine(r, t, line, n)
    ensures Faithful(r, u, texts + [r.clean(line)])
  {
    var text := r.clean(line);
    var progress := if r.verdict(text).Some? || r.progress(text).None? then [] else [EvProgress(r.progress(text).value)];
    var pending := t.pending + [text];
    TakeEmits(r, t, texts, text, progress);
    VerdictMore(r, texts, text);
    assert Logged(t.emitted) + pending == texts + [text];
    if |pending| >= MAX_LOG_LINES_PER_EVENT {
      BatchKeeps(t.emitted + progress, pending);
      assert texts + [text] == texts + [text] + [];
    }
  }

  // ---- However it grew --------------------------------------------------------

  lemma {:induction false} LineLengthStays(a: seq<Byte>, b: seq<Byte>)
    requires a != [] && a[Journal.LineLength(a) - 1] == Journal.NEWLINE
    ensures Journal.LineLength(a + b) == Journal.LineLength(a)
  {
    if a[0] != Journal.NEWLINE {
      assert (a + b)[1..] == a[1..] + b;
      assert |a| > 1;
      LineLengthStays(a[1..], b);
    }
  }

  /** A complete line stays the next line, whatever is appended. */
  lemma NextLineStays(a: seq<Byte>, b: seq<Byte>)
    requires NextLine(a) > 0
    ensures NextLine(a + b) == NextLine(a)
  {
    LineLengthStays(a, b);
    assert (a + b)[..NextLine(a)] == a[..NextLine(a)];
  }

  lemma {:induction false} LineLengthIs(s: seq<Byte>, n: nat)
    requires 0 < n <= |s| && s[n - 1] == Journal.NEWLINE && Journal.NEWLINE !in s[..n - 1]
    ensures Journal.LineLength(s) == n
  {
    if n > 1 {
      assert s[0] in s[..n - 1];
      assert s[..n - 1] == [s[0]] + s[1..][..n - 2];
      LineLengthIs(s[1..], n - 1);
    }
  }

  /** The real line finder is steady. */
  lemma NextLineIsSteady()
    ensures Steady(NextLine)
  {
    forall a, b
      ensures Stays(NextLine, a, b)
    {
      if NextLine(a) > 0 {
        NextLineStays(a, b);
      }
    }
    forall s
      ensures Alone(NextLine, s)
    {
      var n := NextLine(s);
      if n > 0 {
        assert s[..n][..n - 1] == s[..n - 1] && s[..n][..n] == s[..n];
        LineLengthIs(s[..n], n);
      }
    }
  }

  lemma OneLine(r: Reader, s: seq<Byte>, n: nat)
    requires Steady(r.next) && n == r.next(s) && n > 0
    ensures n <= |s| && Lines(r, s[..n]) == [s[..n - 1]] && Consumed(r, s[..n]) == n
  {
    assert Alone(r.next, s) && Alone(r.next, []);
    var line := s[..n];
    assert line[n..] == [] && line[..n - 1] == s[..n - 1];
    assert Lines(r, line) == [line[..n - 1]] + Lines(r, line[n..]);
  }

  lemma LinesFirst(r: Reader, s: seq<Byte>, n: nat)
    requires n == r.next(s) && 0 < n <= |s|
    ensures Lines(r, s) == [s[..n - 1]] + Lines(r, s[n..]) && Consumed(r, s) == n + Consumed(r, s[n..])
  {
  }

  lemma Associates<T>(a: seq<T>, b: seq<T>, c: seq<T>)
    ensures (a + b) + c == a + (b + c)
  {
  }

  lemma LinesFirstOfTwo(r: Reader, a: seq<Byte>, b: seq<Byte>, m: nat)
    requires m == r.next(a) == r.next(a + b) && 0 < m <= |a|
    ensures Lines(r, a + b) == [a[..m - 1]] + Lines(r, a[m..] + b) && Consumed(r, a + b) == m + Consumed(r, a[m..] + b)
  {
    assert (a + b)[m..] == a[m..] + b && (a + b)[..m - 1] == a[..m - 1];
    LinesFirst(r, a + b, m);
  }

  /** What follows whole lines is read after them. */
  lemma {:induction false} LinesConcat(r: Reader, a: seq<Byte>, b: seq<Byte>)
    requires Steady(r.next) && Consumed(r, a) == |a|
    ensures Lines(r, a + b) == Lines(r, a) + Lines(r, b) && Consumed(r, a + b) == |a| + Consumed(r, b)
    decreases |a|
  {
    if a == [] {
      assert a + b == b;
      assert Alone(r.next, a);
    } else {
      var m := r.next(a);
      LinesFirst(r, a, m);
      assert r.next(a + b) == m by { assert Stays(r.next, a, b); }
      LinesFirstOfTwo(r, a, b, m);
      LinesConcat(r, a[m..], b);
      Associates([a[..m - 1]], Lines(r, a[m..]), Lines(r, b));
    }
  }

  /** One more complete line after whole ones. */
  lemma LinesMore(r: Reader, s: seq<Byte>, k: nat, n: nat)
    requires Steady(r.next) && k <= |s| && Consumed(r, s[..k]) == k && n == r.next(s[k..]) && n > 0
    ensures k + n <= |s| && Lines(r, s[..k + n]) == Lines(r, s[..k]) + [s[k..k + n - 1]]
    ensures Consumed(r, s[..k + n]) == k + n
  {
    var rest := s[k..];
    OneLine(r, rest, n);
    LinesConcat(r, s[..k], rest[..n]);
    assert s[..k + n] == s[..k] + rest[..n] && rest[..n - 1] == s[k..k + n - 1];
  }

  /** Nothing complete after whole lines: they are all there is. */
  lemma LinesAll(r: Reader, s: seq<Byte>, k: nat)
    requires Steady(r.next) && k <= |s| && Consumed(r, s[..k]) == k && r.next(s[k..]) == 0
    ensures Lines(r, s) == Lines(r, s[..k]) && Consumed(r, s) == k
  {
    LinesConcat(r, s[..k], s[k..]);
    assert s == s[..k] + s[k..];
  }

  lemma {:induction false} CleanedMore(r: Reader, lines: seq<seq<Byte>>, line: seq<Byte>)
    ensures Cleaned(r, lines + [line]) == Cleaned(r, lines) + [r.clean(line)]
  {
    if lines == [] {
      assert lines + [line] == [line] && [line][1..] == [];
      assert Cleaned(r, [line]) == [r.clean(line)] + Cleaned(r, []);
    } else {
      CleanedMore(r, lines[1..], line);
      assert (lines + [line])[1..] == lines[1..] + [line];
    }
  }

  /** The tail has read whole lines of `s` and says just what they say. */
  ghost predicate UpTo(r: Reader, t: Tail, s: seq<Byte>) {
    && Steady(r.next) && t.offset <= |s| && Consumed(r, s[..t.offset]) == t.offset
    && Faithful(r, t, Cleaned(r, Lines(r, s[..t.offset])))
  }

  lemma TakeKeepsUpTo(r: Reader, t: Tail, s: seq<Byte>, n: nat)
    requires UpTo(r, t, s) && n == r.next(s[t.offset..]) && n > 0
    ensures t.offset + n <= |s| && UpTo(r, TakeLine(r, t, s[t.offset..t.offset + n - 1], n), s)
  {
    LinesMore(r, s, t.offset, n);
    var line := s[t.offset..t.offset + n - 1];
    CleanedMore(r, Lines(r, s[..t.offset]), line);
    TakeKeepsFaith(r, t, Cleaned(r, Lines(r, s[..t.offset])), line, n, TakeLine(r, t, line, n));
  }

  lemma {:induction false} ReadOnKeeps(r: Reader, t: Tail, s: seq<Byte>, u: Tail)
    requires UpTo(r, t, s) && u == ReadOn(r, t, s)
    ensures UpTo(r, u, s) && u.offset == Consumed(r, s) && Lines(r, s[..u.offset]) == Lines(r, s)
    decreases |s| - t.offset
  {
    var n := r.next(s[t.offset..]);
    if n == 0 {
      LinesAll(r, s, t.offset);
    } else {
      TakeKeepsUpTo(r, t, s, n);
      ReadOnKeeps(r, TakeLine(r, t, s[t.offset..t.offset + n - 1], n), s, u);
    }
  }

  lemma FlushKeeps(r: Reader, t: Tail, texts: seq<string>)
    requires Faithful(r, t, texts)
    ensures Faithful(r, Flush(t), texts)
  {
    BatchKeeps(t.emitted, t.pending);
    assert Logged(Flush(t).emitted) + [] == Logged(Flush(t).emitted);
  }

  function Polling(r: Reader, logs: seq<Option<seq<Byte>>>): Tail {
    if logs == [] then UNREAD else Poll(r, Polling(r, logs[..|logs| - 1]), logs[|logs| - 1])
  }

  /** The log as it last opened. */
  function Seen(logs: seq<Option<seq<Byte>>>): seq<Byte> {
    if logs == [] then []
    else if logs[|logs| - 1].Some? then logs[|logs| - 1].value
    else Seen(logs[..|logs| - 1])
  }

  /** An append-only log, growing arbitrarily between polls. */
  predicate Growing(logs: seq<Option<seq<Byte>>>) {
    logs == [] || (Growing(logs[..|logs| - 1]) && Seen(logs[..|logs| - 1]) <= Seen(logs))
  }

  lemma {:induction false} PollingKeeps(r: Reader, logs: seq<Option<seq<Byte>>>, t: Tail)
    requires Steady(r.next) && Growing(logs) && t == Polling(r, logs)
    ensures UpTo(r, t, Seen(logs)) && t.pending == []
    ensures t.offset == Consumed(r, Seen(logs)) && Lines(r, Seen(logs)[..t.offset]) == Lines(r, Seen(logs))
    decreases |logs|
  {
    if logs == [] {
      assert Seen(logs)[..0] == [] && Alone(r.next, []);
      assert Logged([]) + t.pending == t.pending;
    } else {
      var before, earlier, s := Polling(r, logs[..|logs| - 1]), Seen(logs[..|logs| - 1]), Seen(logs);
      PollingKeeps(r, logs[..|logs| - 1], before);
      assert s[..before.offset] == earlier[..before.offset];
      match logs[|logs| - 1] {
        case None =>
          FlushKeeps(r, before, Cleaned(r, Lines(r, s[..before.offset])));
        case Some(_) =>
          var read := ReadOn(r, before, s);
          ReadOnKeeps(r, before, s, read);
          FlushKeeps(r, read, Cleaned(r, Lines(r, s[..read.offset])));
      }
    }
  }

  /** However the log grew between polls, the log events say exactly its complete lines,
      cleaned, in order, each once, in batches of one to the most allowed; the progress
      events are just those lines' progress; and the verdict held is the last one's. */
  lemma LosslessTail(r: Reader, logs: seq<Option<seq<Byte>>>, t: Tail, texts: seq<string>)
    requires Steady(r.next) && Growing(logs) && t == Polling(r, logs) && texts == Cleaned(r, Lines(r, Seen(logs)))
    ensures Logged(t.emitted) == texts && Progressed(t.emitted) == ProgressOf(r, texts)
    ensures t.verdict == LastVerdict(r, texts)
    ensures WellBatched(t.emitted) && MachineLife.OnlyOutput(t.emitted)
  {
    PollingKeeps(r, logs, t);
    assert Logged(t.emitted) + [] == Logged(t.emitted);
  }

  // ---- Full batches -----------------------------------------------------------

  /** Every batch among these has 64 lines. */
  predicate FullBatches(kinds: seq<EventKind>) {
    forall i | 0 <= i < |kinds| :: kinds[i].EvLog? ==> |kinds[i].lines| == 64
  }

  lemma TakeFills(r: Reader, t: Tail, line: seq<Byte>, n: nat, u: Tail) returns (full: seq<EventKind>)
    requires |t.pending| < 64 && u == TakeLine(r, t, line, n)
    ensures u.emitted == t.emitted + full && FullBatches(full) && |u.pending| < 64
  {
    full := u.emitted[|t.emitted|..];
  }

  lemma {:induction false} ReadOnFills(r: Reader, t: Tail, s: seq<Byte>, u: Tail) returns (full: seq<EventKind>)
    requires |t.pending| < 64 && u == ReadOn(r, t, s)
    ensures u.emitted == t.emitted + full && FullBatches(full) && |u.pending| < 64
    decreases |s| - t.offset
  {
    full := [];
    var n := r.next(Past(s, t.offset));
    if n != 0 && t.offset + n <= |s| {
      var next := TakeLine(r, t, s[t.offset..t.offset + n - 1], n);
      var rest := ReadOnFills(r, next, s, u);
      var taken := TakeFills(r, t, s[t.offset..t.offset + n - 1], n, next);
      full := taken + rest;
    }
  }

  /** One poll fills every batch it sends but the last, which holds what was left over. */
  lemma OnlyTheLastIsShort(r: Reader, t: Tail, log: Option<seq<Byte>>, u: Tail)
    returns (full: seq<EventKind>, left: seq<string>)
    requires t.pending == [] && u == Poll(r, t, log)
    ensures u.emitted == t.emitted + full + (if left == [] then [] else [EvLog(left)])
    ensures FullBatches(full) && |left| < 64 && u.pending == []
  {
    match log {
      case None =>
        full, left := [], [];
        assert u.emitted == t.emitted;
      case Some(s) =>
        var read := ReadOn(r, t, s);
        full := ReadOnFills(r, t, s, read);
        left := read.pending;
    }
  }

  // ---- Which lines are complete -----------------------------------------------

  lemma RestOfCut(log: seq<Byte>, n: nat, k: nat, m: nat)
    requires n + m <= k <= |log|
    ensures log[..k][n..] == log[n..][..k - n] && log[n..][m..k - n] == log[n + m..k]
  {
  }

  /** In a text, what follows a newline is a text, and so is what leads up to it. */
  lemma {:induction false} SplitAtNewline(s: seq<Byte>, k: nat)
    requires Text(s) && 0 < k <= |s| && s[k - 1] == Journal.NEWLINE
    ensures Text(s[..k]) && Text(s[k..])
  {
    var n := FirstChar(s);
    if k <= n {
      assert k == 1 && n == 1;
      assert s[..1][1..] == [] && FirstChar(s[..1]) == 1;
    } else {
      var rest := s[n..];
      assert rest[k - n - 1] == s[k - 1];
      SplitAtNewline(rest, k - n);
      RestOfCut(s, n, k, 0);
      assert rest[k - n..] == s[k..];
      assert FirstChar(s[..k]) == n;
    }
  }

  lemma WholeLineOfText(log: seq<Byte>, s: seq<Byte>, n: nat)
    requires Text(log) && s <= log && s != [] && n == Journal.LineLength(s) && s[n - 1] == Journal.NEWLINE
    ensures NextLine(s) == n && Text(log[n..])
  {
    assert s[..n] == log[..n] && log[n - 1] == s[n - 1];
    SplitAtNewline(log, n);
  }

  lemma NoWholeLine(s: seq<Byte>, n: nat)
    requires s != [] && n == Journal.LineLength(s) && s[n - 1] != Journal.NEWLINE
    ensures NextLine(s) == 0 && Journal.NEWLINE !in s
  {
    assert s == s[..n - 1] + [s[n - 1]];
  }

  lemma OneLineFurther(r: Reader, log: seq<Byte>, k: nat, n: nat)
    requires k <= |log| && n == r.next(log[..k]) && 0 < n <= k
    requires Journal.NEWLINE !in log[n..][Consumed(r, log[n..][..k - n])..k - n]
    ensures Journal.NEWLINE !in log[Consumed(r, log[..k])..k]
  {
    var m := Consumed(r, log[n..][..k - n]);
    RestOfCut(log, n, k, m);
    LinesFirst(r, log[..k], n);
    assert Consumed(r, log[..k]) == n + m;
  }

  /** Of a text log, cut anywhere, every line with its newline is read: nothing after what
      was read holds one. */
  lemma {:induction false} ReadsEveryLine(r: Reader, log: seq<Byte>, k: nat)
    requires r.next == NextLine && Text(log) && k <= |log|
    ensures Journal.NEWLINE !in log[Consumed(r, log[..k])..k]
    decreases k
  {
    if k > 0 {
      var n := Journal.LineLength(log[..k]);
      if log[..k][n - 1] == Journal.NEWLINE {
        WholeLineOfText(log, log[..k], n);
        ReadsEveryLine(r, log[n..], k - n);
        OneLineFurther(r, log, k, n);
      } else {
        NoWholeLine(log[..k], n);
        assert log[0..k] == log[..k];
      }
    }
  }

  lemma BadLineFirst(bad: seq<Byte>, more: seq<Byte>)
    requires Journal.NEWLINE !in bad && !Text(bad + [Journal.NEWLINE])
    ensures NextLine(bad + [Journal.NEWLINE] + more) == 0
  {
    var tail := bad + [Journal.NEWLINE] + more;
    assert tail[..|bad|] == bad && tail[..|bad| + 1] == bad + [Journal.NEWLINE];
    LineLengthIs(tail, |bad| + 1);
  }

  /** A line that is not text stops the reading for good: nothing from it on is ever read. */
  lemma StopsAtBadLine(r: Reader, good: seq<Byte>, bad: seq<Byte>, more: seq<Byte>)
    requires r.next == NextLine && Consumed(r, good) == |good|
    requires Journal.NEWLINE !in bad && !Text(bad + [Journal.NEWLINE])
    ensures Consumed(r, good + (bad + [Journal.NEWLINE] + more)) == |good|
  {
    var s := good + (bad + [Journal.NEWLINE] + more);
    BadLineFirst(bad, more);
    NextLineIsSteady();
    assert s[..|good|] == good && s[|good|..] == bad + [Journal.NEWLINE] + more;
    LinesAll(r, s, |good|);
  }
}
