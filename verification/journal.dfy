/** What reading back a job's file of encoded lines gives, whole, torn or glued.

    The file is modelled byte by byte, because what a torn last write costs depends
    on where in the line, and where in a character, it was cut. */
module Journal {
  import opened Wrappers
  import opened Utf8
  import opened Events

  const NEWLINE: Byte := 10
  const RETURN: Byte := 13

  /** How an event becomes a line and back; the text format itself is a parameter. */
  datatype Codec = Codec(encode: Event -> seq<Byte>, decode: seq<Byte> -> Option<Event>)

  predicate Printable(s: seq<Byte>) {
    forall i | 0 <= i < |s| :: s[i] >= 0x20
  }

  /** What a JSON object on one line gives: control characters are escaped, an object
      cut short does not parse, and neither does one glued onto the front of another. */
  ghost predicate Lawful(c: Codec) {
    && (forall e :: c.decode(c.encode(e)) == Some(e))
    && (forall e :: c.encode(e) != [] && Text(c.encode(e)))
    && (forall e :: Printable(c.encode(e)))
    && (forall e, k | 0 <= k < |c.encode(e)| :: c.decode(c.encode(e)[..k]) == None)
    && (forall d, e, k | 0 < k <= |c.encode(d)| :: c.decode(c.encode(d)[..k] + c.encode(e)) == None)
  }

  datatype ReplayError = NotText | Corrupt

  type Replayed = Result<seq<Event>, ReplayError>

  // ---- Lines ------------------------------------------------------------------

  /** The length of the first line, its newline included. */
  function LineLength(s: seq<Byte>): (n: nat)
    requires s != []
    ensures 0 < n <= |s|
    ensures NEWLINE !in s[..n - 1]
    ensures s[n - 1] == NEWLINE || n == |s|
  {
    if s[0] == NEWLINE || |s| == 1 then 1
    else
      var n := 1 + LineLength(s[1..]);
      assert s[..n - 1] == [s[0]] + s[1..][..n - 2];
      n
  }

  /** A line without its ending: one newline and one carriage return before it. */
  function Stripped(line: seq<Byte>): seq<Byte> {
    if line == [] || line[|line| - 1] != NEWLINE then line
    else
      var body := line[..|line| - 1];
      if body == [] || body[|body| - 1] != RETURN then body else body[..|body| - 1]
  }

  function Prepend(out: seq<Event>, r: Replayed): Replayed {
    match r
    case Ok(es) => Ok(out + es)
    case Err(_) => r
  }

  lemma PrependNone(r: Replayed)
    ensures Prepend([], r) == r
  {
    if r.Ok? {
      assert [] + r.value == r.value;
    }
  }

  lemma PrependTwice(a: seq<Event>, b: seq<Event>, r: Replayed)
    ensures Prepend(a, Prepend(b, r)) == Prepend(a + b, r)
  {
    if r.Ok? {
      assert a + (b + r.value) == a + b + r.value;
    }
  }

  function Wanted(e: Event, from: nat): seq<Event> {
    if e.seqNo >= from then [e] else []
  }

  /** Every event from `from` on, reading line by line; a last line that does not
      decode is a torn write and is dropped. */
  function ReplayOf(c: Codec, s: seq<Byte>, from: nat): Replayed
    decreases |s|
  {
    if s == [] then Ok([])
    else
      var n := LineLength(s);
      if !Text(s[..n]) then Err(NotText)
      else
        match c.decode(Stripped(s[..n]))
        case Some(e) => Prepend(Wanted(e, from), ReplayOf(c, s[n..], from))
        case None => if n == |s| then Ok([]) else Err(Corrupt)
  }

  /** What reading one line adds to what has been read, given what the rest reads as. */
  lemma ReadOne(c: Codec, s: seq<Byte>, from: nat, out: seq<Event>, rest: Replayed)
    requires s != [] && rest == ReplayOf(c, s[LineLength(s)..], from)
    ensures Prepend(out, ReplayOf(c, s, from))
         == if !Text(s[..LineLength(s)]) then Err(NotText)
            else match c.decode(Stripped(s[..LineLength(s)]))
                 case Some(e) => Prepend(out + Wanted(e, from), rest)
                 case None => if LineLength(s) == |s| then Ok(out) else Err(Corrupt)
  {
    assert out + [] == out;
    match c.decode(Stripped(s[..LineLength(s)])) {
      case Some(e) => PrependTwice(out, Wanted(e, from), rest);
      case None =>
    }
  }

  method Replay(c: Codec, s: seq<Byte>, from: nat) returns (r: Replayed)
    ensures r == ReplayOf(c, s, from)
  {
    var out, todo := [], s;
    ghost var rest := ReplayOf(c, s, from);
    ghost var all := rest;
    PrependNone(all);
    while todo != []
      invariant rest == ReplayOf(c, todo, from) && all == Prepend(out, rest)
      decreases |todo|
    {
      var n := LineLength(todo);
      var line := todo[..n];
      rest := ReplayOf(c, todo[n..], from);
      ReadOne(c, todo, from, out, rest);
      if !Text(line) {
        return Err(NotText);
      }
      var decoded := c.decode(Stripped(line));
      if decoded.None? {
        return if n == |todo| then Ok(out) else Err(Corrupt);
      }
      out, todo := out + Wanted(decoded.value, from), todo[n..];
    }
    assert out + [] == out;
    return Ok(out);
  }

  // ---- What was written -------------------------------------------------------

  function LineOf(c: Codec, e: Event): seq<Byte> {
    c.encode(e) + [NEWLINE]
  }

  function Written(c: Codec, es: seq<Event>): seq<Byte> {
    if es == [] then [] else LineOf(c, es[0]) + Written(c, es[1..])
  }

  function From(es: seq<Event>, from: nat): seq<Event> {
    if es == [] then [] else Wanted(es[0], from) + From(es[1..], from)
  }

  lemma {:induction false} WrittenMore(c: Codec, es: seq<Event>, e: Event)
    ensures Written(c, es + [e]) == Written(c, es) + LineOf(c, e)
  {
    if es == [] {
      assert es + [e] == [e];
      assert Written(c, [e]) == LineOf(c, e) + Written(c, []);
    } else {
      WrittenMore(c, es[1..], e);
      assert (es + [e])[1..] == es[1..] + [e];
      assert Written(c, es + [e]) == LineOf(c, es[0]) + (Written(c, es[1..]) + LineOf(c, e));
    }
  }

  lemma FromFirst(e: Event, es: seq<Event>, from: nat)
    ensures From([e] + es, from) == Wanted(e, from) + From(es, from)
  {
    assert ([e] + es)[1..] == es;
  }

  lemma {:induction false} FromMore(es: seq<Event>, e: Event, from: nat)
    ensures From(es + [e], from) == From(es, from) + Wanted(e, from)
  {
    if es == [] {
      FromFirst(e, [], from);
      assert es + [e] == [e] + [];
    } else {
      FromMore(es[1..], e, from);
      FromFirst(es[0], es[1..] + [e], from);
      assert es + [e] == [es[0]] + (es[1..] + [e]);
    }
  }

  /** One whole line in front is read as its event. */
  lemma LineReadsBack(c: Codec, e: Event, tail: seq<Byte>, from: nat)
    requires Lawful(c)
    ensures ReplayOf(c, LineOf(c, e) + tail, from) == Prepend(Wanted(e, from), ReplayOf(c, tail, from))
  {
    var line := LineOf(c, e);
    var s := line + tail;
    FirstLineIs(c.encode(e), tail);
    assert s == c.encode(e) + [NEWLINE] + tail;
    assert s[..|line|] == line && s[|line|..] == tail;
    WholeLine(c, e);
  }

  lemma WholeLine(c: Codec, e: Event)
    requires Lawful(c)
    ensures Text(LineOf(c, e)) && c.decode(Stripped(LineOf(c, e))) == Some(e)
  {
    var x := c.encode(e);
    assert Text([NEWLINE]) by { assert [NEWLINE][1..] == []; }
    TextPrefix(x, [NEWLINE]);
    var line := LineOf(c, e);
    assert line[..|line| - 1] == x;
    assert Stripped(line) == x;
  }

  /** A body free of newlines followed by one is the first line. */
  lemma {:induction false} FirstLineIs(body: seq<Byte>, tail: seq<Byte>)
    requires Printable(body)
    ensures LineLength(body + [NEWLINE] + tail) == |body| + 1
  {
    if body != [] {
      FirstLineIs(body[1..], tail);
      assert (body + [NEWLINE] + tail)[1..] == body[1..] + [NEWLINE] + tail;
    }
  }

  /** A body free of newlines on its own is one unterminated line. */
  lemma {:induction false} LastLineIs(body: seq<Byte>)
    requires body != [] && Printable(body)
    ensures LineLength(body) == |body| && Stripped(body) == body
  {
    if |body| > 1 {
      LastLineIs(body[1..]);
    }
  }

  /** One more line in front of a text that reads as `rest`. */
  lemma LineThen(c: Codec, e: Event, s: seq<Byte>, from: nat, es: seq<Event>, rest: Replayed)
    requires Lawful(c) && ReplayOf(c, s, from) == Prepend(es, rest)
    ensures ReplayOf(c, LineOf(c, e) + s, from) == Prepend(Wanted(e, from) + es, rest)
  {
    LineReadsBack(c, e, s, from);
    PrependTwice(Wanted(e, from), es, rest);
  }

  lemma WrittenFirst(c: Codec, es: seq<Event>, tail: seq<Byte>)
    requires es != []
    ensures Written(c, es) + tail == LineOf(c, es[0]) + (Written(c, es[1..]) + tail)
  {
  }

  /** Whatever follows a run of whole lines is read after their events. */
  lemma {:induction false} WrittenThen(c: Codec, es: seq<Event>, tail: seq<Byte>, from: nat, rest: Replayed)
    requires Lawful(c) && rest == ReplayOf(c, tail, from)
    ensures ReplayOf(c, Written(c, es) + tail, from) == Prepend(From(es, from), rest)
  {
    if es == [] {
      assert Written(c, es) + tail == tail;
      PrependNone(rest);
    } else {
      WrittenThen(c, es[1..], tail, from, rest);
      LineThen(c, es[0], Written(c, es[1..]) + tail, from, From(es[1..], from), rest);
      WrittenFirst(c, es, tail);
    }
  }

  /** Replay undoes writing. */
  lemma ReplayWritten(c: Codec, es: seq<Event>, from: nat)
    requires Lawful(c)
    ensures ReplayOf(c, Written(c, es), from) == Ok(From(es, from))
  {
    WrittenThen(c, es, [], from, Ok([]));
    assert Written(c, es) + [] == Written(c, es);
    assert ReplayOf(c, [], from) == Ok([]);
    assert From(es, from) + [] == From(es, from);
  }

  // ---- A torn tail ------------------------------------------------------------

  /** What a cut line alone reads as. */
  lemma CutLine(c: Codec, e: Event, k: nat, from: nat)
    requires Lawful(c) && k <= |LineOf(c, e)|
    ensures ReplayOf(c, LineOf(c, e)[..k], from)
         == if k >= |c.encode(e)| then Ok(Wanted(e, from))
            else if Boundary(c.encode(e), k) then Ok([])
            else Err(NotText)
  {
    var x := c.encode(e);
    var tail := LineOf(c, e)[..k];
    assert ReplayOf(c, [], from) == Ok([]);
    assert Wanted(e, from) + [] == Wanted(e, from);
    if k > |x| {
      assert tail == LineOf(c, e) + [];
      LineReadsBack(c, e, [], from);
    } else if k > 0 {
      assert tail == x[..k];
      LastLineIs(tail);
      assert tail[..|tail|] == tail && tail[|tail|..] == [];
      CutText(x, k);
      assert x[..|x|] == x;
    }
  }

  /** Cutting the last write after `k` of its bytes loses at most that one event and
      never an earlier one, unless the cut splits a character: then nothing is read. */
  lemma CutLastWrite(c: Codec, es: seq<Event>, e: Event, k: nat, from: nat)
    requires Lawful(c) && k <= |LineOf(c, e)|
    ensures ReplayOf(c, Written(c, es) + LineOf(c, e)[..k], from)
         == if k >= |c.encode(e)| then Ok(From(es + [e], from))
            else if Boundary(c.encode(e), k) then Ok(From(es, from))
            else Err(NotText)
  {
    CutLine(c, e, k, from);
    WrittenThen(c, es, LineOf(c, e)[..k], from, ReplayOf(c, LineOf(c, e)[..k], from));
    FromMore(es, e, from);
    assert From(es, from) + [] == From(es, from);
  }

  /** So a cut never costs an earlier event exactly when it falls between characters. */
  lemma TornTailIsDropped(c: Codec, es: seq<Event>, e: Event, k: nat, from: nat)
    requires Lawful(c) && k < |c.encode(e)|
    ensures ReplayOf(c, Written(c, es) + LineOf(c, e)[..k], from) == Ok(From(es, from)) <==> Boundary(c.encode(e), k)
  {
    CutLastWrite(c, es, e, k, from);
  }

  /** The tail a cut write leaves: some of a line, its newline lost. */
  ghost predicate TailOf(c: Codec, d: Event, tail: seq<Byte>) {
    tail <= c.encode(d)
  }

  lemma GluedLine(c: Codec, d: Event, tail: seq<Byte>, e: Event, after: seq<Byte>, from: nat)
    requires Lawful(c) && TailOf(c, d, tail) && tail != []
    ensures ReplayOf(c, tail + LineOf(c, e) + after, from)
         == if !Text(tail) then Err(NotText) else if after == [] then Ok([]) else Err(Corrupt)
  {
    var k := |tail|;
    var body := tail + c.encode(e);
    var s := tail + LineOf(c, e) + after;
    assert tail == c.encode(d)[..k];
    FirstLineIs(body, after);
    assert s == body + [NEWLINE] + after;
    var line := body + [NEWLINE];
    assert s[..|line|] == line;
    assert line[|line| - 1] == NEWLINE && line[..|line| - 1] == body;
    assert Stripped(line) == body;
    GluedText(tail, LineOf(c, e)) by { WholeLine(c, e); }
    assert line == tail + LineOf(c, e);
  }

  /** Gluing a text onto something makes a text exactly when that was one. */
  lemma GluedText(tail: seq<Byte>, line: seq<Byte>)
    requires Text(line) && line != []
    ensures Text(tail + line) <==> Text(tail)
  {
    if Text(tail) {
      TextPrefix(tail, line);
    }
    var glued := tail + line;
    assert glued[..|tail|] == tail && glued[|tail|] == line[0];
    if Text(glued) {
      CutText(glued, |tail|);
    }
  }

  lemma AfterTornTail(c: Codec, es: seq<Event>, d: Event, tail: seq<Byte>, e: Event, after: seq<Byte>, from: nat)
    requires Lawful(c) && TailOf(c, d, tail) && tail != []
    ensures ReplayOf(c, Written(c, es) + (tail + LineOf(c, e) + after), from)
         == if !Text(tail) then Err(NotText) else if after == [] then Ok(From(es, from)) else Err(Corrupt)
  {
    GluedLine(c, d, tail, e, after, from);
    WrittenThen(c, es, tail + LineOf(c, e) + after, from, ReplayOf(c, tail + LineOf(c, e) + after, from));
    assert From(es, from) + [] == From(es, from);
  }

  /** Appending after a cut write glues the new line onto the torn bytes: the next
      replay drops both, and after one more append it reports corruption. */
  lemma AppendAfterTornTail(c: Codec, es: seq<Event>, d: Event, tail: seq<Byte>, e: Event, f: Event, from: nat)
    requires Lawful(c) && TailOf(c, d, tail) && tail != []
    ensures ReplayOf(c, Written(c, es) + (tail + LineOf(c, e)), from)
         == if Text(tail) then Ok(From(es, from)) else Err(NotText)
    ensures ReplayOf(c, Written(c, es) + (tail + LineOf(c, e) + LineOf(c, f)), from)
         == if Text(tail) then Err(Corrupt) else Err(NotText)
  {
    assert tail + LineOf(c, e) + [] == tail + LineOf(c, e);
    AfterTornTail(c, es, d, tail, e, [], from);
    AfterTornTail(c, es, d, tail, e, LineOf(c, f), from);
  }

  /** An append is read back exactly when the file it extends ended in a whole line. */
  lemma AppendNeedsWholeLines(c: Codec, es: seq<Event>, d: Event, tail: seq<Byte>, e: Event, from: nat)
    requires Lawful(c) && TailOf(c, d, tail) && from <= e.seqNo
    ensures ReplayOf(c, Written(c, es) + (tail + LineOf(c, e)), from) == Ok(From(es + [e], from)) <==> tail == []
  {
    FromMore(es, e, from);
    if tail == [] {
      WrittenMore(c, es, e);
      assert Written(c, es) + (tail + LineOf(c, e)) == Written(c, es + [e]);
      ReplayWritten(c, es + [e], from);
    } else {
      AppendAfterTornTail(c, es, d, tail, e, e, from);
      assert |From(es + [e], from)| == |From(es, from)| + 1;
    }
  }
}
