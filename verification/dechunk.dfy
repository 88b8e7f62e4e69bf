/** Undoing the chunked transfer coding (section 7.1 of RFC 9112) over a text body. */
module Dechunk {
  import opened Wrappers
  import opened Utf8

  const CR: Byte := 13
  const LF: Byte := 10
  const SEMICOLON: Byte := 0x3B
  const PLUS: Byte := 0x2B
  const CRLF: seq<Byte> := [CR, LF]

  // ---- The size line ----------------------------------------------------------

  /** Where the first line end is, if there is one. */
  function LineEnd(s: seq<Byte>): (r: Option<nat>)
    ensures r.Some? ==> r.value + 2 <= |s| && s[r.value] == CR && s[r.value + 1] == LF
  {
    if |s| < 2 then None
    else if s[0] == CR && s[1] == LF then Some(0)
    else
      match LineEnd(s[1..])
      case None => None
      case Some(i) => Some(i + 1)
  }

  function BeforeExtension(line: seq<Byte>): seq<Byte> {
    if line == [] || line[0] == SEMICOLON then [] else [line[0]] + BeforeExtension(line[1..])
  }

  predicate IsSpace1(b: Byte) {
    b == 0x20 || 0x09 <= b <= 0x0D
  }

  predicate IsSpace2(a: Byte, b: Byte) {
    a == 0xC2 && (b == 0x85 || b == 0xA0)
  }

  predicate IsSpace3(a: Byte, b: Byte, c: Byte) {
    || (a == 0xE1 && b == 0x9A && c == 0x80)
    || (a == 0xE2 && b == 0x80 && (0x80 <= c <= 0x8A || c == 0xA8 || c == 0xA9 || c == 0xAF))
    || (a == 0xE2 && b == 0x81 && c == 0x9F)
    || (a == 0xE3 && b == 0x80 && c == 0x80)
  }

  /** The length of a white-space character in front, or 0. */
  function SpaceInFront(s: seq<Byte>): (n: nat)
    ensures n <= |s|
  {
    if |s| >= 1 && IsSpace1(s[0]) then 1
    else if |s| >= 2 && IsSpace2(s[0], s[1]) then 2
    else if |s| >= 3 && IsSpace3(s[0], s[1], s[2]) then 3
    else 0
  }

  function SpaceBehind(s: seq<Byte>): (n: nat)
    ensures n <= |s|
  {
    var k := |s|;
    if k >= 1 && IsSpace1(s[k - 1]) then 1
    else if k >= 2 && IsSpace2(s[k - 2], s[k - 1]) then 2
    else if k >= 3 && IsSpace3(s[k - 3], s[k - 2], s[k - 1]) then 3
    else 0
  }

  function TrimStart(s: seq<Byte>): seq<Byte>
    decreases |s|
  {
    if SpaceInFront(s) == 0 then s else TrimStart(s[SpaceInFront(s)..])
  }

  function TrimEnd(s: seq<Byte>): seq<Byte>
    decreases |s|
  {
    if SpaceBehind(s) == 0 then s else TrimEnd(s[..|s| - SpaceBehind(s)])
  }

  function Digit(b: Byte): Option<nat> {
    if 0x30 <= b <= 0x39 then Some(b - 0x30)
    else if 0x61 <= b <= 0x66 then Some(b - 0x61 + 10)
    else if 0x41 <= b <= 0x46 then Some(b - 0x41 + 10)
    else None
  }

  /** Digits in base 16, as many as there are. */
  function Digits(s: seq<Byte>): Option<nat> {
    if s == [] then Some(0)
    else
      match (Digits(s[..|s| - 1]), Digit(s[|s| - 1]))
      case (Some(n), Some(d)) => Some(16 * n + d)
      case _ => None
  }

  const WORD: nat := 0x1_0000_0000_0000_0000

  /** A 64-bit length: one plus sign is allowed, no digits and too many are not. */
  function ParseHex(s: seq<Byte>): Option<nat> {
    var digits := if s != [] && s[0] == PLUS then s[1..] else s;
    if digits == [] then None
    else
      match Digits(digits)
      case Some(n) => if n < WORD then Some(n) else None
      case None => None
  }

  function SizeOf(line: seq<Byte>): Option<nat> {
    ParseHex(TrimEnd(TrimStart(BeforeExtension(line))))
  }

  // ---- Decoding ---------------------------------------------------------------

  datatype Error = NoHeader | BadLength | DoesNotDivide

  /** One chunk off the front: its payload and what is left, or nothing at the last one. */
  datatype Next = Last | Chunk(payload: seq<Byte>, rest: seq<Byte>) | Fails(error: Error)

  function Unframed(s: seq<Byte>): seq<Byte> {
    if CRLF <= s then s[2..] else s
  }

  function NextChunk(s: seq<Byte>): (n: Next)
    ensures n.Chunk? ==> |n.rest| + |n.payload| < |s| && n.payload != []
  {
    match LineEnd(s)
    case None => Fails(NoHeader)
    case Some(end) =>
      match SizeOf(s[..end])
      case None => Fails(BadLength)
      case Some(len) =>
        var tail := s[end + 2..];
        if len == 0 then Last
        else if len <= |tail| && Boundary(tail, len) then Chunk(tail[..len], Unframed(tail[len..]))
        else Fails(DoesNotDivide)
  }

  function Dechunked(s: seq<Byte>): Result<seq<Byte>, Error>
    decreases |s|
  {
    match NextChunk(s)
    case Last => Ok([])
    case Fails(e) => Err(e)
    case Chunk(payload, rest) =>
      match Dechunked(rest)
      case Ok(more) => Ok(payload + more)
      case Err(e) => Err(e)
  }

  function Prefixed(out: seq<Byte>, r: Result<seq<Byte>, Error>): Result<seq<Byte>, Error> {
    match r
    case Ok(more) => Ok(out + more)
    case Err(_) => r
  }

  /** The loop, which strictly consumes what it is given. */
  method Dechunk(body: seq<Byte>) returns (r: Result<seq<Byte>, Error>)
    ensures r == Dechunked(body)
  {
    var rest, out := body, [];
    ghost var goal := Dechunked(body);
    assert goal == Prefixed([], goal) by {
      if goal.Ok? {
        assert [] + goal.value == goal.value;
      }
    }
    while true
      invariant goal == Prefixed(out, Dechunked(rest))
      decreases |rest|
    {
      match NextChunk(rest) {
        case Last =>
          assert out + [] == out;
          return Ok(out);
        case Fails(e) =>
          return Err(e);
        case Chunk(payload, after) =>
          if Dechunked(after).Ok? {
            assert out + (payload + Dechunked(after).value) == out + payload + Dechunked(after).value;
          }
          out, rest := out + payload, after;
      }
    }
  }

  // ---- Encoding ---------------------------------------------------------------

  /** A chunk as sent: its size line, extension and all, and its payload. */
  datatype Framed = Framed(header: seq<Byte>, payload: seq<Byte>)

  predicate NoLineEnd(s: seq<Byte>) {
    forall i | 0 <= i < |s| - 1 :: !(s[i] == CR && s[i + 1] == LF)
  }

  /** A size line that says `n`, whatever else it says. */
  predicate Heads(header: seq<Byte>, n: nat) {
    NoLineEnd(header) && SizeOf(header) == Some(n)
  }

  predicate WellFramed(chunks: seq<Framed>) {
    chunks == []
    || (chunks[0].payload != [] && Heads(chunks[0].header, |chunks[0].payload|) && WellFramed(chunks[1..]))
  }

  function EncodeOne(c: Framed): seq<Byte> {
    c.header + [13, 10] + (c.payload + [13, 10])
  }

  function Encode(chunks: seq<Framed>): seq<Byte> {
    if chunks == [] then [] else EncodeOne(chunks[0]) + Encode(chunks[1..])
  }

  function Body(chunks: seq<Framed>): seq<Byte> {
    if chunks == [] then [] else chunks[0].payload + Body(chunks[1..])
  }

  lemma {:induction false} HeaderEnds(header: seq<Byte>, tail: seq<Byte>)
    requires NoLineEnd(header)
    ensures LineEnd(header + CRLF + tail) == Some(|header|)
    decreases |header|
  {
    var s := header + CRLF + tail;
    if header == [] {
      assert s[0] == CR && s[1] == LF;
    } else {
      HeaderEnds(header[1..], tail);
      assert s[1..] == header[1..] + CRLF + tail;
      assert s[0] == header[0];
      assert |header| == 1 ==> s[1] == CR;
      assert |header| > 1 ==> s[1] == header[1];
    }
  }

  lemma {:induction false} NoHeaderYet(s: seq<Byte>)
    requires NoLineEnd(s)
    ensures LineEnd(s) == None
    decreases |s|
  {
    if |s| >= 2 {
      NoHeaderYet(s[1..]);
    }
  }

  /** One chunk in front is taken off whole, its payload's own line ends included. */
  lemma Between<T>(a: seq<T>, b: seq<T>, c: seq<T>)
    ensures (a + b + c)[..|a|] == a && (a + b + c)[|a|..] == b + c && (a + b + c)[|a| + |b|..] == c
  {
  }

  /** Where the parts of an encoded chunk lie. */
  lemma Parts(c: Framed, tail: seq<Byte>, after: seq<Byte>)
    requires after == c.payload + CRLF + tail
    ensures EncodeOne(c) + tail == c.header + CRLF + after
    ensures (c.header + CRLF + after)[..|c.header|] == c.header && (c.header + CRLF + after)[|c.header| + 2..] == after
    ensures after[..|c.payload|] == c.payload && after[|c.payload|..] == CRLF + tail && (CRLF + tail)[2..] == tail
  {
    Between(c.header, CRLF, after);
    Between(c.payload, CRLF, tail);
    Between([], CRLF, tail);
    assert EncodeOne(c) + tail == c.header + CRLF + (c.payload + CRLF + tail);
    assert [] + CRLF + tail == CRLF + tail;
  }

  lemma TakesOne(c: Framed, tail: seq<Byte>)
    requires c.payload != [] && Heads(c.header, |c.payload|)
    ensures NextChunk(EncodeOne(c) + tail) == Chunk(c.payload, tail)
  {
    var after := c.payload + CRLF + tail;
    Parts(c, tail, after);
    HeaderEnds(c.header, after);
    assert after[|c.payload|] == CR;
  }

  lemma EndsHere(end: seq<Byte>, trailer: seq<Byte>)
    requires Heads(end, 0)
    ensures Dechunked(end + CRLF + trailer) == Ok([])
  {
    var last := end + CRLF + trailer;
    HeaderEnds(end, trailer);
    assert last[..|end|] == end;
  }

  lemma EncodeFirst(chunks: seq<Framed>, last: seq<Byte>)
    requires chunks != []
    ensures Encode(chunks) + last == EncodeOne(chunks[0]) + (Encode(chunks[1..]) + last)
  {
  }

  /** Decoding undoes encoding, whatever the split, the size lines and what trails the end. */
  lemma {:induction false} RoundTrip(chunks: seq<Framed>, end: seq<Byte>, trailer: seq<Byte>)
    requires WellFramed(chunks) && Heads(end, 0)
    ensures Dechunked(Encode(chunks) + (end + CRLF + trailer)) == Ok(Body(chunks))
    decreases |chunks|
  {
    var last := end + CRLF + trailer;
    if chunks == [] {
      assert Encode(chunks) + last == last;
      EndsHere(end, trailer);
    } else {
      RoundTrip(chunks[1..], end, trailer);
      TakesOne(chunks[0], Encode(chunks[1..]) + last);
      EncodeFirst(chunks, last);
    }
  }

  /** So the result does not depend on how the body was split. */
  lemma SplitDoesNotMatter(a: seq<Framed>, b: seq<Framed>, endA: seq<Byte>, endB: seq<Byte>)
    requires WellFramed(a) && WellFramed(b) && Body(a) == Body(b) && Heads(endA, 0) && Heads(endB, 0)
    ensures Dechunked(Encode(a) + (endA + CRLF)) == Dechunked(Encode(b) + (endB + CRLF))
  {
    RoundTrip(a, endA, []);
    RoundTrip(b, endB, []);
    assert endA + CRLF + [] == endA + CRLF && endB + CRLF + [] == endB + CRLF;
  }

  lemma CutHeader(header: seq<Byte>, k: nat)
    requires NoLineEnd(header) && k < |header + CRLF|
    ensures Dechunked((header + CRLF)[..k]) == Err(NoHeader)
  {
    NoHeaderYet((header + CRLF)[..k]);
  }

  lemma CutPayload(c: Framed, k: nat)
    requires c.payload != [] && Heads(c.header, |c.payload|) && k < |EncodeOne(c)|
    ensures Dechunked(EncodeOne(c)[..k]).Err?
  {
    var s := EncodeOne(c)[..k];
    var h := |c.header| + 2;
    if k < h {
      assert s == (c.header + CRLF)[..k];
      CutHeader(c.header, k);
    } else {
      var tail := (c.payload + CRLF)[..k - h];
      assert s == c.header + CRLF + tail;
      HeaderEnds(c.header, tail);
      assert s[..|c.header|] == c.header && s[h..] == tail;
      if |tail| >= |c.payload| {
        var rest := Unframed(tail[|c.payload|..]);
        assert |rest| <= 1;
        assert LineEnd(rest) == None;
      }
    }
  }

  lemma CutAcross<T>(a: seq<T>, b: seq<T>, k: nat)
    requires k <= |a + b|
    ensures (a + b)[..k] == if k < |a| then a[..k] else a + b[..k - |a|]
  {
  }

  /** A stream cut anywhere before its last size line is complete is an error, never a
      shorter body. */
  lemma {:induction false} TruncationIsAnError(chunks: seq<Framed>, end: seq<Byte>, k: nat)
    requires WellFramed(chunks) && Heads(end, 0) && k < |Encode(chunks) + (end + CRLF)|
    ensures Dechunked((Encode(chunks) + (end + CRLF))[..k]).Err?
    decreases |chunks|
  {
    var whole := Encode(chunks) + (end + CRLF);
    if chunks == [] {
      assert whole == end + CRLF;
      CutHeader(end, k);
    } else {
      var first := EncodeOne(chunks[0]);
      var rest := Encode(chunks[1..]) + (end + CRLF);
      EncodeFirst(chunks, end + CRLF);
      CutAcross(first, rest, k);
      if k < |first| {
        CutPayload(chunks[0], k);
      } else {
        TakesOne(chunks[0], rest[..k - |first|]);
        TruncationIsAnError(chunks[1..], end, k - |first|);
      }
    }
  }

  // ---- Size lines that say what they should -----------------------------------

  function HexDigit(d: nat): Byte
    requires d < 16
  {
    if d < 10 then 0x30 + d else 0x61 + d - 10
  }

  /** A length written in base 16, without leading zeros. */
  function ToHex(n: nat): (s: seq<Byte>)
    ensures s != []
  {
    if n < 16 then [HexDigit(n)] else ToHex(n / 16) + [HexDigit(n % 16)]
  }

  predicate Plain(s: seq<Byte>) {
    forall i | 0 <= i < |s| :: Digit(s[i]).Some?
  }

  lemma {:induction false} ToHexReads(n: nat)
    ensures Digits(ToHex(n)) == Some(n) && Plain(ToHex(n))
  {
    if n >= 16 {
      ToHexReads(n / 16);
      var s := ToHex(n);
      assert s[..|s| - 1] == ToHex(n / 16);
    } else {
      var s := ToHex(n);
      assert s[..|s| - 1] == [];
    }
  }

  lemma {:induction false} PlainBefore(s: seq<Byte>, extension: seq<Byte>)
    requires Plain(s) && (extension != [] ==> extension[0] == SEMICOLON)
    ensures BeforeExtension(s + extension) == s
    decreases |s|
  {
    if s == [] {
      assert s + extension == extension;
    } else {
      PlainBefore(s[1..], extension);
      assert (s + extension)[1..] == s[1..] + extension;
      assert Digit(s[0]).Some?;
    }
  }

  lemma DigitsHaveNoLineEnd(s: seq<Byte>, extension: seq<Byte>)
    requires NoLineEnd(extension) && forall i | 0 <= i < |s| :: Digit(s[i]).Some?
    ensures NoLineEnd(s + extension)
  {
    var header := s + extension;
    forall i | 0 <= i < |header| - 1
      ensures !(header[i] == CR && header[i + 1] == LF)
    {
      if i >= |s| {
        assert header[i] == extension[i - |s|] && header[i + 1] == extension[i + 1 - |s|];
      } else {
        assert Digit(s[i]).Some? && header[i] == s[i];
      }
    }
  }

  lemma DigitsAreTrimmed(s: seq<Byte>)
    requires s != [] && Digit(s[0]).Some? && Digit(s[|s| - 1]).Some?
    ensures TrimStart(s) == s && TrimEnd(s) == s
  {
  }

  /** The usual size line: the length in hex, and any extension after a semicolon. */
  lemma UsualHeader(n: nat, extension: seq<Byte>)
    requires n < 0x1_0000_0000_0000_0000 && NoLineEnd(extension) && (extension != [] ==> extension[0] == 0x3B)
    ensures Heads(ToHex(n) + extension, n)
  {
    var s := ToHex(n);
    ToHexReads(n);
    PlainBefore(s, extension);
    DigitsAreTrimmed(s);
    DigitsHaveNoLineEnd(s, extension);
  }
}
