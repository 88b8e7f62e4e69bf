/** One codec that keeps every promise the journal asks of its line format: an opening
    brace, the event as numbers in unary, a closing brace. */
module PlainCodec {
  import opened Wrappers
  import opened Utf8
  import opened Events
  import opened Journal

  const OPEN: Byte := 0x7B
  const CLOSE: Byte := 0x7D
  const ONE: Byte := 0x31
  const COMMA: Byte := 0x2C

  predicate Plain(s: seq<Byte>) {
    forall i | 0 <= i < |s| :: s[i] == ONE || s[i] == COMMA
  }

  // ---- Writing, each value in front of what follows ---------------------------

  function Number(n: nat, rest: seq<Byte>): (s: seq<Byte>)
    ensures Plain(rest) ==> Plain(s)
  {
    if n == 0 then [COMMA] + rest else [ONE] + Number(n - 1, rest)
  }

  function Flag(b: bool, rest: seq<Byte>): (s: seq<Byte>)
    ensures Plain(rest) ==> Plain(s)
  {
    Number(if b then 1 else 0, rest)
  }

  function Signed(i: int, rest: seq<Byte>): (s: seq<Byte>)
    ensures Plain(rest) ==> Plain(s)
  {
    Flag(i < 0, Number(if i < 0 then -i else i, rest))
  }

  function Chars(t: string, rest: seq<Byte>): (s: seq<Byte>)
    ensures Plain(rest) ==> Plain(s)
  {
    if t == [] then Flag(false, rest) else Flag(true, Number(t[0] as nat, Chars(t[1..], rest)))
  }

  function Texts(ts: seq<string>, rest: seq<Byte>): (s: seq<Byte>)
    ensures Plain(rest) ==> Plain(s)
  {
    if ts == [] then Flag(false, rest) else Flag(true, Chars(ts[0], Texts(ts[1..], rest)))
  }

  function Perhaps(o: Option<string>, rest: seq<Byte>): (s: seq<Byte>)
    ensures Plain(rest) ==> Plain(s)
  {
    match o
    case None => Flag(false, rest)
    case Some(t) => Flag(true, Chars(t, rest))
  }

  function VerdictKindNo(k: VerdictKind): nat {
    match k
    case Pass => 0
    case Fail => 1
    case Info => 2
  }

  function VerdictIn(v: Verdict, rest: seq<Byte>): (s: seq<Byte>)
    ensures Plain(rest) ==> Plain(s)
  {
    Number(VerdictKindNo(v.kind), Chars(v.text, rest))
  }

  function PerhapsVerdict(o: Option<Verdict>, rest: seq<Byte>): (s: seq<Byte>)
    ensures Plain(rest) ==> Plain(s)
  {
    match o
    case None => Flag(false, rest)
    case Some(v) => Flag(true, VerdictIn(v, rest))
  }

  function OutcomeNo(o: Outcome): nat {
    match o
    case Completed(_, _, _, _) => 0
    case Failed(_, _) => 1
    case TimedOut(_, _) => 2
    case Cancelled(_) => 3
    case Orphaned(_) => 4
  }

  function OutcomeFields(o: Outcome, rest: seq<Byte>): (s: seq<Byte>)
    ensures Plain(rest) ==> Plain(s)
  {
    match o
    case Completed(code, verdict, record, signature) =>
      Signed(code, PerhapsVerdict(verdict, Perhaps(record, Perhaps(signature, rest))))
    case Failed(stage, reason) => Number(stage.Stage(), Chars(reason, rest))
    case TimedOut(at, afterS) => Number(at.Stage(), Number(afterS, rest))
    case Cancelled(node) => Number(node, rest)
    case Orphaned(why) => Chars(why, rest)
  }

  function OutcomeIn(o: Outcome, rest: seq<Byte>): (s: seq<Byte>)
    ensures Plain(rest) ==> Plain(s)
  {
    Number(OutcomeNo(o), OutcomeFields(o, rest))
  }

  function KindNo(k: EventKind): nat {
    match k
    case EvQueued(_) => 0
    case EvPreparing(_, _) => 1
    case EvBuild(_, _) => 2
    case EvBuilt(_, _, _) => 3
    case EvRunning(_, _) => 4
    case EvProgress(_) => 5
    case EvLog(_) => 6
    case EvVerdict(_) => 7
    case EvArtifact(_) => 8
    case EvDone(_) => 9
    case EvHeartbeat(_, _) => 10
  }

  function KindFields(k: EventKind, rest: seq<Byte>): (s: seq<Byte>)
    ensures Plain(rest) ==> Plain(s)
  {
    match k
    case EvQueued(position) => Number(position, rest)
    case EvPreparing(sha, fetched) => Chars(sha, Flag(fetched, rest))
    case EvBuild(hit, miss) => Flag(hit, Chars(miss, rest))
    case EvBuilt(binary, cached, secs) => Chars(binary, Flag(cached, Number(secs, rest)))
    case EvRunning(pid, argv) => Number(pid, Texts(argv, rest))
    case EvProgress(phase) => Chars(phase, rest)
    case EvLog(lines) => Texts(lines, rest)
    case EvVerdict(verdict) => VerdictIn(verdict, rest)
    case EvArtifact(meta) => Chars(meta.name, Chars(meta.relativePath, Flag(meta.kind.Record?, rest)))
    case EvDone(outcome) => OutcomeIn(outcome, rest)
    case EvHeartbeat(state, seqHigh) => Number(state.Stage(), Number(seqHigh, rest))
  }

  function KindIn(k: EventKind, rest: seq<Byte>): (s: seq<Byte>)
    ensures Plain(rest) ==> Plain(s)
  {
    Number(KindNo(k), KindFields(k, rest))
  }

  function Body(e: Event): (s: seq<Byte>)
    ensures Plain(s)
  {
    Chars(e.job, Number(e.seqNo, Number(e.atMs, KindIn(e.kind, []))))
  }

  function Encoded(e: Event): seq<Byte> {
    [OPEN] + Body(e) + [CLOSE]
  }

  // ---- Nothing is written two ways --------------------------------------------

  lemma {:induction false} NumberApart(m: nat, n: nat, x: seq<Byte>, y: seq<Byte>)
    requires Number(m, x) == Number(n, y)
    ensures m == n && x == y
  {
    var s, t := Number(m, x), Number(n, y);
    assert s[0] == t[0] && s[1..] == t[1..];
    if m > 0 {
      assert s[1..] == Number(m - 1, x) && t[1..] == Number(n - 1, y);
      NumberApart(m - 1, n - 1, x, y);
    } else {
      assert s[1..] == x && t[1..] == y;
    }
  }

  lemma FlagApart(a: bool, b: bool, x: seq<Byte>, y: seq<Byte>)
    requires Flag(a, x) == Flag(b, y)
    ensures a == b && x == y
  {
    NumberApart(if a then 1 else 0, if b then 1 else 0, x, y);
  }

  lemma SignedApart(i: int, j: int, x: seq<Byte>, y: seq<Byte>)
    requires Signed(i, x) == Signed(j, y)
    ensures i == j && x == y
  {
    FlagApart(i < 0, j < 0, Number(if i < 0 then -i else i, x), Number(if j < 0 then -j else j, y));
    NumberApart(if i < 0 then -i else i, if j < 0 then -j else j, x, y);
  }

  lemma {:induction false} CharsApart(t: string, u: string, x: seq<Byte>, y: seq<Byte>)
    requires Chars(t, x) == Chars(u, y)
    ensures t == u && x == y
  {
    FlagApart(t != [], u != [],
              if t == [] then x else Number(t[0] as nat, Chars(t[1..], x)),
              if u == [] then y else Number(u[0] as nat, Chars(u[1..], y)));
    if t != [] {
      NumberApart(t[0] as nat, u[0] as nat, Chars(t[1..], x), Chars(u[1..], y));
      CharsApart(t[1..], u[1..], x, y);
      assert t == [t[0]] + t[1..] && u == [u[0]] + u[1..];
    }
  }

  lemma {:induction false} TextsApart(t: seq<string>, u: seq<string>, x: seq<Byte>, y: seq<Byte>)
    requires Texts(t, x) == Texts(u, y)
    ensures t == u && x == y
  {
    FlagApart(t != [], u != [],
              if t == [] then x else Chars(t[0], Texts(t[1..], x)),
              if u == [] then y else Chars(u[0], Texts(u[1..], y)));
    if t != [] {
      CharsApart(t[0], u[0], Texts(t[1..], x), Texts(u[1..], y));
      TextsApart(t[1..], u[1..], x, y);
      assert t == [t[0]] + t[1..] && u == [u[0]] + u[1..];
    }
  }

  lemma PerhapsApart(o: Option<string>, p: Option<string>, x: seq<Byte>, y: seq<Byte>)
    requires Perhaps(o, x) == Perhaps(p, y)
    ensures o == p && x == y
  {
    FlagApart(o.Some?, p.Some?, if o.Some? then Chars(o.value, x) else x, if p.Some? then Chars(p.value, y) else y);
    if o.Some? {
      CharsApart(o.value, p.value, x, y);
    }
  }

  lemma VerdictApart(v: Verdict, w: Verdict, x: seq<Byte>, y: seq<Byte>)
    requires VerdictIn(v, x) == VerdictIn(w, y)
    ensures v == w && x == y
  {
    NumberApart(VerdictKindNo(v.kind), VerdictKindNo(w.kind), Chars(v.text, x), Chars(w.text, y));
    CharsApart(v.text, w.text, x, y);
  }

  lemma PerhapsVerdictApart(o: Option<Verdict>, p: Option<Verdict>, x: seq<Byte>, y: seq<Byte>)
    requires PerhapsVerdict(o, x) == PerhapsVerdict(p, y)
    ensures o == p && x == y
  {
    FlagApart(o.Some?, p.Some?, if o.Some? then VerdictIn(o.value, x) else x, if p.Some? then VerdictIn(p.value, y) else y);
    if o.Some? {
      VerdictApart(o.value, p.value, x, y);
    }
  }

  lemma StageApart(a: JobState, b: JobState)
    requires a.Stage() == b.Stage()
    ensures a == b
  {
  }

  lemma OutcomeFieldsApart(o: Outcome, p: Outcome, x: seq<Byte>, y: seq<Byte>)
    requires OutcomeNo(o) == OutcomeNo(p) && OutcomeFields(o, x) == OutcomeFields(p, y)
    ensures o == p && x == y
  {
    match o {
      case Completed(code, verdict, record, signature) =>
        var (u, v) := (Perhaps(record, Perhaps(signature, x)), Perhaps(p.record, Perhaps(p.signature, y)));
        SignedApart(code, p.exitCode, PerhapsVerdict(verdict, u), PerhapsVerdict(p.verdict, v));
        PerhapsVerdictApart(verdict, p.verdict, u, v);
        PerhapsApart(record, p.record, Perhaps(signature, x), Perhaps(p.signature, y));
        PerhapsApart(signature, p.signature, x, y);
      case Failed(stage, reason) =>
        NumberApart(stage.Stage(), p.stage.Stage(), Chars(reason, x), Chars(p.reason, y));
        StageApart(stage, p.stage);
        CharsApart(reason, p.reason, x, y);
      case TimedOut(at, afterS) =>
        NumberApart(at.Stage(), p.at.Stage(), Number(afterS, x), Number(p.afterS, y));
        StageApart(at, p.at);
        NumberApart(afterS, p.afterS, x, y);
      case Cancelled(node) =>
        NumberApart(node, p.node, x, y);
      case Orphaned(why) =>
        CharsApart(why, p.why, x, y);
    }
  }

  lemma OutcomeApart(o: Outcome, p: Outcome, x: seq<Byte>, y: seq<Byte>)
    requires OutcomeIn(o, x) == OutcomeIn(p, y)
    ensures o == p && x == y
  {
    NumberApart(OutcomeNo(o), OutcomeNo(p), OutcomeFields(o, x), OutcomeFields(p, y));
    OutcomeFieldsApart(o, p, x, y);
  }

  /** The kinds of the steps before the child. */
  lemma EarlyFieldsApart(k: EventKind, l: EventKind, x: seq<Byte>, y: seq<Byte>)
    requires KindNo(k) == KindNo(l) <= 4 && KindFields(k, x) == KindFields(l, y)
    ensures k == l && x == y
  {
    match k {
      case EvQueued(position) =>
        NumberApart(position, l.position, x, y);
      case EvPreparing(sha, fetched) =>
        CharsApart(sha, l.sha, Flag(fetched, x), Flag(l.fetched, y));
        FlagApart(fetched, l.fetched, x, y);
      case EvBuild(hit, miss) =>
        FlagApart(hit, l.hit, Chars(miss, x), Chars(l.miss, y));
        CharsApart(miss, l.miss, x, y);
      case EvBuilt(binary, cached, secs) =>
        CharsApart(binary, l.binary, Flag(cached, Number(secs, x)), Flag(l.cached, Number(l.secs, y)));
        FlagApart(cached, l.cached, Number(secs, x), Number(l.secs, y));
        NumberApart(secs, l.secs, x, y);
      case EvRunning(pid, argv) =>
        NumberApart(pid, l.pid, Texts(argv, x), Texts(l.argv, y));
        TextsApart(argv, l.argv, x, y);
    }
  }

  lemma LateFieldsApart(k: EventKind, l: EventKind, x: seq<Byte>, y: seq<Byte>)
    requires KindNo(k) == KindNo(l) > 4 && KindFields(k, x) == KindFields(l, y)
    ensures k == l && x == y
  {
    match k {
      case EvProgress(phase) =>
        CharsApart(phase, l.phase, x, y);
      case EvLog(lines) =>
        TextsApart(lines, l.lines, x, y);
      case EvVerdict(verdict) =>
        VerdictApart(verdict, l.verdict, x, y);
      case EvArtifact(a) =>
        var b := l.meta;
        CharsApart(a.name, b.name, Chars(a.relativePath, Flag(a.kind.Record?, x)), Chars(b.relativePath, Flag(b.kind.Record?, y)));
        CharsApart(a.relativePath, b.relativePath, Flag(a.kind.Record?, x), Flag(b.kind.Record?, y));
        FlagApart(a.kind.Record?, b.kind.Record?, x, y);
      case EvDone(outcome) =>
        OutcomeApart(outcome, l.outcome, x, y);
      case EvHeartbeat(state, seqHigh) =>
        NumberApart(state.Stage(), l.state.Stage(), Number(seqHigh, x), Number(l.seqHigh, y));
        StageApart(state, l.state);
        NumberApart(seqHigh, l.seqHigh, x, y);
    }
  }

  lemma KindApart(k: EventKind, l: EventKind, x: seq<Byte>, y: seq<Byte>)
    requires KindIn(k, x) == KindIn(l, y)
    ensures k == l && x == y
  {
    NumberApart(KindNo(k), KindNo(l), KindFields(k, x), KindFields(l, y));
    if KindNo(k) <= 4 {
      EarlyFieldsApart(k, l, x, y);
    } else {
      LateFieldsApart(k, l, x, y);
    }
  }

  lemma BodyApart(d: Event, e: Event)
    requires Body(d) == Body(e)
    ensures d == e
  {
    var k, l := KindIn(d.kind, []), KindIn(e.kind, []);
    CharsApart(d.job, e.job, Number(d.seqNo, Number(d.atMs, k)), Number(e.seqNo, Number(e.atMs, l)));
    NumberApart(d.seqNo, e.seqNo, Number(d.atMs, k), Number(e.atMs, l));
    NumberApart(d.atMs, e.atMs, k, l);
    KindApart(d.kind, e.kind, [], []);
  }

  // ---- Reading back -----------------------------------------------------------

  lemma Braced(e: Event)
    ensures var s := Encoded(e);
      && |s| >= 2 && s[0] == OPEN && s[|s| - 1] == CLOSE
      && forall i | 0 < i < |s| - 1 :: s[i] == ONE || s[i] == COMMA
  {
    var s := Encoded(e);
    forall i | 0 < i < |s| - 1
      ensures s[i] == Body(e)[i - 1]
    {
    }
  }

  lemma EncodedApart(d: Event, e: Event)
    requires Encoded(d) == Encoded(e)
    ensures d == e
  {
    assert Body(d) == Encoded(d)[1..|Encoded(d)| - 1] == Encoded(e)[1..|Encoded(e)| - 1] == Body(e);
    BodyApart(d, e);
  }

  ghost function Decoded(s: seq<Byte>): (o: Option<Event>)
    ensures o.Some? ==> Encoded(o.value) == s
    ensures o.None? ==> forall e :: Encoded(e) != s
  {
    if e :| Encoded(e) == s then Some(e) else None
  }

  lemma {:induction false} AsciiIsText(s: seq<Byte>)
    requires forall i | 0 <= i < |s| :: s[i] < 0x80
    ensures Text(s)
  {
    if s != [] {
      AsciiIsText(s[1..]);
    }
  }

  lemma CutIsNothing(e: Event, k: nat)
    requires k < |Encoded(e)|
    ensures Decoded(Encoded(e)[..k]).None?
  {
    var s := Encoded(e)[..k];
    Braced(e);
    if Decoded(s).Some? {
      Braced(Decoded(s).value);
    }
  }

  lemma GluedIsNothing(d: Event, e: Event, k: nat)
    requires 0 < k <= |Encoded(d)|
    ensures Decoded(Encoded(d)[..k] + Encoded(e)).None?
  {
    var s := Encoded(d)[..k] + Encoded(e);
    Braced(e);
    assert s[k] == Encoded(e)[0] == OPEN;
    if Decoded(s).Some? {
      Braced(Decoded(s).value);
    }
  }

  ghost function Plainly(): Codec {
    Codec((e: Event) => Encoded(e), (s: seq<Byte>) => Decoded(s))
  }

  /** So what is asked of a codec can be had. */
  lemma SomeCodecIsLawful()
    ensures Lawful(Plainly())
  {
    var c := Plainly();
    forall e
      ensures c.decode(c.encode(e)) == Some(e) && c.encode(e) != [] && Text(c.encode(e)) && Printable(c.encode(e))
    {
      Braced(e);
      AsciiIsText(Encoded(e));
      EncodedApart(e, if Decoded(Encoded(e)).Some? then Decoded(Encoded(e)).value else e);
    }
    forall e, k | 0 <= k < |c.encode(e)|
      ensures c.decode(c.encode(e)[..k]) == None
    {
      CutIsNothing(e, k);
    }
    forall d, e, k | 0 < k <= |c.encode(d)|
      ensures c.decode(c.encode(d)[..k] + c.encode(e)) == None
    {
      GluedIsNothing(d, e, k);
    }
  }
}
