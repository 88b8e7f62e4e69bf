/** What an append and a replay do, said of the bytes of any file, however it came about. */
module JournalWords {
  import opened Wrappers
  import opened Utf8
  import opened Events
  import opened Journal
  import opened JournalLog

  // ---- One append -------------------------------------------------------------

  /** The disk let the whole line through and, for a final event, confirmed it. */
  predicate Through(disk: Disk, length: nat, final: bool) {
    disk == Stored || (disk == NotSynced && !final) || (disk.Cut? && disk.k >= length)
  }

  /** The bytes of a line that reach the file. */
  function Reaching(disk: Disk, line: seq<Byte>): seq<Byte> {
    if disk == NotOpened then []
    else if disk.Cut? && disk.k < |line| then line[..disk.k]
    else line
  }

  /** A heartbeat is refused and leaves everything as it was. Any other event takes the next
      number and keeps its job, moment and kind; it is reported, and counted, exactly when its
      line went through; its line, ended by a newline, is added behind what the file holds as
      far as the disk took it; and nothing that was in the file is touched. */
  lemma AppendInFull(c: Codec, job: string, log: Log, kind: EventKind, atMs: nat, disk: Disk,
                     after: Log, r: Result<Event, AppendError>)
    requires (after, r) == AppendStep(c, job, log, kind, atMs, disk)
    ensures kind.EvHeartbeat? ==> after == log && r == Err(HeartbeatRefused)
    ensures !kind.EvHeartbeat? ==>
      var e := Event(job, log.seqHigh + 1, atMs, kind);
      var line := c.encode(e) + [10];
      var through := Through(disk, |line|, kind.EvDone?);
      && r == (if through then Ok(e) else Err(DiskFailed))
      && after.seqHigh == log.seqHigh + (if through then 1 else 0)
      && Bytes(after.bytes) == Bytes(log.bytes) + Reaching(disk, line)
      && (after.bytes == None <==> log.bytes == None && disk == NotOpened)
  {
    if !kind.EvHeartbeat? {
      assert Bytes(log.bytes) + [] == Bytes(log.bytes);
    }
  }

  // ---- One replay -------------------------------------------------------------

  predicate OneLine(body: seq<Byte>) {
    forall i | 0 <= i < |body| :: body[i] != 10
  }

  /** Lines, each ended by a newline, and what follows the last of them. */
  function Joined(bodies: seq<seq<Byte>>, tail: seq<Byte>): seq<Byte> {
    if bodies == [] then tail else bodies[0] + [10] + Joined(bodies[1..], tail)
  }

  /** What is decoded of a line: a carriage return at its end is not part of it. */
  function Chomped(body: seq<Byte>): seq<Byte> {
    if body != [] && body[|body| - 1] == 13 then body[..|body| - 1] else body
  }

  ghost predicate ReadsAs(c: Codec, body: seq<Byte>, e: Event) {
    Text(body) && c.decode(Chomped(body)) == Some(e)
  }

  ghost predicate Unreadable(c: Codec, body: seq<Byte>) {
    !Text(body) || c.decode(Chomped(body)) == None
  }

  lemma {:induction false} LengthOfLine(body: seq<Byte>, rest: seq<Byte>)
    requires OneLine(body)
    ensures LineLength(body + [10] + rest) == |body| + 1
  {
    if body != [] {
      LengthOfLine(body[1..], rest);
      assert (body + [10] + rest)[1..] == body[1..] + [10] + rest;
    }
  }

  lemma {:induction false} LengthOfTail(tail: seq<Byte>)
    requires OneLine(tail) && tail != []
    ensures LineLength(tail) == |tail|
  {
    if |tail| > 1 {
      LengthOfTail(tail[1..]);
    }
  }

  /** The line in front decides, or its event comes first. */
  lemma LineInFront(c: Codec, body: seq<Byte>, rest: seq<Byte>, from: nat)
    requires OneLine(body)
    ensures ReplayOf(c, body + [10] + rest, from)
         == if !Text(body) then Err(NotText)
            else match c.decode(Chomped(body))
                 case Some(e) => Prepend(Wanted(e, from), ReplayOf(c, rest, from))
                 case None => if rest == [] then Ok([]) else Err(Corrupt)
  {
    var s := body + [10] + rest;
    LengthOfLine(body, rest);
    var line := s[..|body| + 1];
    assert line == body + [10] && s[|body| + 1..] == rest;
    assert Text([10]) by { assert [10][1..] == []; }
    GluedText(body, [10]);
    assert line[..|line| - 1] == body && Stripped(line) == Chomped(body);
  }

  lemma TailAlone(c: Codec, tail: seq<Byte>, from: nat)
    requires OneLine(tail) && tail != []
    ensures ReplayOf(c, tail, from)
         == if !Text(tail) then Err(NotText)
            else match c.decode(tail)
                 case Some(e) => Ok(Wanted(e, from))
                 case None => Ok([])
  {
    LengthOfTail(tail);
    assert tail[..|tail|] == tail && tail[|tail|..] == [] && Stripped(tail) == tail;
    assert ReplayOf(c, [], from) == Ok([]);
    if Text(tail) && c.decode(tail).Some? {
      assert Wanted(c.decode(tail).value, from) + [] == Wanted(c.decode(tail).value, from);
    }
  }

  /** What the first line that does not read makes of the events before it. */
  function ReadsTo(c: Codec, bodies: seq<seq<Byte>>, tail: seq<Byte>, es: seq<Event>, from: nat): Replayed
    requires |es| <= |bodies|
  {
    var k := |es|;
    if k < |bodies| then
      if !Text(bodies[k]) then Err(NotText)
      else if k == |bodies| - 1 && tail == [] then Ok(From(es, from))
      else Err(Corrupt)
    else if tail == [] then Ok(From(es, from))
    else if !Text(tail) then Err(NotText)
    else
      match c.decode(tail)
      case Some(e) => Ok(From(es + [e], from))
      case None => Ok(From(es, from))
  }

  lemma TailReadsTo(c: Codec, tail: seq<Byte>, from: nat)
    requires OneLine(tail)
    ensures ReplayOf(c, tail, from) == ReadsTo(c, [], tail, [], from)
  {
    if tail != [] {
      TailAlone(c, tail, from);
      if Text(tail) && c.decode(tail).Some? {
        FromFirst(c.decode(tail).value, [], from);
        assert [] + [c.decode(tail).value] == [c.decode(tail).value] + [];
      }
    }
  }

  lemma ReadsToFirst(c: Codec, bodies: seq<seq<Byte>>, tail: seq<Byte>, es: seq<Event>, from: nat)
    requires 0 < |es| <= |bodies|
    ensures ReadsTo(c, bodies, tail, es, from)
         == Prepend(Wanted(es[0], from), ReadsTo(c, bodies[1..], tail, es[1..], from))
  {
    assert es == [es[0]] + es[1..];
    if |es| == |bodies| && tail != [] && Text(tail) && c.decode(tail).Some? {
      var e := c.decode(tail).value;
      FromFirst(es[0], es[1..] + [e], from);
      assert es + [e] == [es[0]] + (es[1..] + [e]);
    }
  }

  /** Any file, whatever wrote it: the events of its lines in order, from the number asked,
      when every line reads; the last line, ended or not, may fail to decode and is dropped;
      any earlier one that does is corruption; and no line may be other than text. */
  lemma {:induction false} ReplayByLines(c: Codec, bodies: seq<seq<Byte>>, tail: seq<Byte>, es: seq<Event>, from: nat)
    requires OneLine(tail) && |es| <= |bodies|
    requires forall i | 0 <= i < |bodies| :: OneLine(bodies[i])
    requires forall i | 0 <= i < |es| :: ReadsAs(c, bodies[i], es[i])
    requires |es| < |bodies| ==> Unreadable(c, bodies[|es|])
    ensures ReplayOf(c, Joined(bodies, tail), from) == ReadsTo(c, bodies, tail, es, from)
    decreases |bodies|
  {
    if bodies == [] {
      TailReadsTo(c, tail, from);
    } else {
      var rest := Joined(bodies[1..], tail);
      LineInFront(c, bodies[0], rest, from);
      if es == [] {
        assert rest == [] <==> |bodies| == 1 && tail == [];
      } else {
        assert ReadsAs(c, bodies[0], es[0]);
        ReplayByLines(c, bodies[1..], tail, es[1..], from);
        ReadsToFirst(c, bodies, tail, es, from);
      }
    }
  }

  /** Asking from a number takes each event on its own: it is kept, in its place, exactly
      when its number is not smaller. */
  lemma {:induction false} FromSelects(a: seq<Event>, b: seq<Event>, from: nat)
    ensures From(a + b, from) == From(a, from) + From(b, from)
    ensures |a| == 1 ==> From(a, from) == if a[0].seqNo >= from then a else []
  {
    if a == [] {
      assert a + b == b;
    } else {
      FromSelects(a[1..], b, from);
      FromFirst(a[0], a[1..], from);
      FromFirst(a[0], a[1..] + b, from);
      assert a + b == [a[0]] + (a[1..] + b) && a == [a[0]] + a[1..];
    }
  }
}
