/** "Did you mean": edit distance by two rows, and the three nearest names. */
module Nearest {
  import opened Wrappers
  import opened Sorting

  const PREFIX_MIN: nat := 4

  // ---- Edit distance ----------------------------------------------------------

  function Min(x: nat, y: nat): nat {
    if x <= y then x else y
  }

  function Cost(x: char, y: char): nat {
    if x == y then 0 else 1
  }

  function Front(s: string): string
    requires s != []
  {
    s[..|s| - 1]
  }

  function Last(s: string): char
    requires s != []
  {
    s[|s| - 1]
  }

  /** The distance by its recurrence on the last characters. */
  function Lev(a: string, b: string): nat
    decreases |a| + |b|
  {
    if a == [] then |b|
    else if b == [] then |a|
    else Min(Min(Lev(Front(a), b) + 1, Lev(a, Front(b)) + 1), Lev(Front(a), Front(b)) + Cost(Last(a), Last(b)))
  }

  /** A table of distances between fronts, filled from neighbouring cells. */
  ghost predicate CellAt(a: string, b: string, dist: (nat, nat) -> nat, i: nat, j: nat)
    requires i < |a| && j < |b|
  {
    dist(i + 1, j + 1) == Min(Min(dist(i, j + 1) + 1, dist(i + 1, j) + 1), dist(i, j) + Cost(a[i], b[j]))
  }

  ghost predicate Table(a: string, b: string, dist: (nat, nat) -> nat) {
    && (forall i, j | 0 <= i < |a| && 0 <= j < |b| :: CellAt(a, b, dist, i, j))
    && (forall i | 0 <= i <= |a| :: dist(i, 0) == i)
    && (forall j | 0 <= j <= |b| :: dist(0, j) == j)
  }

  ghost function Fronts(a: string, b: string): (nat, nat) -> nat {
    (i: nat, j: nat) => if i <= |a| && j <= |b| then Lev(a[..i], b[..j]) else 0
  }

  lemma LevFillsTable(a: string, b: string)
    ensures Table(a, b, Fronts(a, b)) && Fronts(a, b)(|a|, |b|) == Lev(a, b)
  {
    forall i, j | 0 <= i < |a| && 0 <= j < |b|
      ensures CellAt(a, b, Fronts(a, b), i, j)
    {
      var s, t := a[..i + 1], b[..j + 1];
      assert Front(s) == a[..i] && Front(t) == b[..j] && Last(s) == a[i] && Last(t) == b[j];
    }
    assert a[..|a|] == a && b[..|b|] == b && a[..0] == [] && b[..0] == [];
  }

  /** The first `n` cells of row `i`. */
  ghost predicate Row(dist: (nat, nat) -> nat, i: nat, row: array<nat>, n: nat)
    requires n <= row.Length
    reads row
  {
    forall j | 0 <= j < n :: row[j] == dist(i, j)
  }

  method FillRow(a: string, b: string, i: nat, prev: array<nat>, cur: array<nat>, ghost dist: (nat, nat) -> nat)
    requires prev != cur && prev.Length == cur.Length == |b| + 1 && i < |a|
    requires Table(a, b, dist) && Row(dist, i, prev, |b| + 1)
    modifies cur
    ensures Row(dist, i + 1, cur, |b| + 1)
  {
    cur[0] := i + 1;
    var j := 0;
    while j < |b|
      invariant j <= |b|
      invariant Row(dist, i, prev, |b| + 1) && Row(dist, i + 1, cur, j + 1)
    {
      assert CellAt(a, b, dist, i, j);
      cur[j + 1] := Min(Min(prev[j + 1] + 1, cur[j] + 1), prev[j] + Cost(a[i], b[j]));
      j := j + 1;
    }
  }

  /** Two rows, swapped after each character of `a`. */
  method EditDistance(a: string, b: string) returns (d: nat)
    ensures d == Lev(a, b)
  {
    if a == [] {
      return |b|;
    }
    if b == [] {
      return |a|;
    }
    var prev := new nat[|b| + 1](j => j);
    var cur := new nat[|b| + 1](_ => 0);
    ghost var dist := Fronts(a, b);
    LevFillsTable(a, b);
    var i := 0;
    while i < |a|
      invariant i <= |a|
      invariant fresh(prev) && fresh(cur) && prev != cur && prev.Length == cur.Length == |b| + 1
      invariant Row(dist, i, prev, |b| + 1)
    {
      FillRow(a, b, i, prev, cur, dist);
      prev, cur := cur, prev;
      i := i + 1;
    }
    return prev[|b|];
  }

  // ---- It is a metric ---------------------------------------------------------

  lemma {:induction false} SelfIsZero(a: string)
    ensures Lev(a, a) == 0
  {
    if a != [] {
      SelfIsZero(Front(a));
    }
  }

  lemma {:induction false} ZeroIsSelf(a: string, b: string)
    requires Lev(a, b) == 0
    ensures a == b
    decreases |a| + |b|
  {
    if a != [] && b != [] {
      ZeroIsSelf(Front(a), Front(b));
      assert a == Front(a) + [Last(a)] && b == Front(b) + [Last(b)];
    }
  }

  lemma {:induction false} Symmetric(a: string, b: string)
    ensures Lev(a, b) == Lev(b, a)
    decreases |a| + |b|
  {
    if a != [] && b != [] {
      Symmetric(Front(a), b);
      Symmetric(a, Front(b));
      Symmetric(Front(a), Front(b));
    }
  }

  /** Never less than the difference in length, never more than the longer one. */
  lemma {:induction false} LengthBounds(a: string, b: string)
    ensures |a| <= |b| + Lev(a, b) && |b| <= |a| + Lev(a, b)
    ensures Lev(a, b) <= |a| || Lev(a, b) <= |b|
    decreases |a| + |b|
  {
    if a != [] && b != [] {
      LengthBounds(Front(a), b);
      LengthBounds(a, Front(b));
      LengthBounds(Front(a), Front(b));
    }
  }

  lemma {:induction false} Triangle(a: string, b: string, c: string)
    ensures Lev(a, c) <= Lev(a, b) + Lev(b, c)
    decreases |a| + |b| + |c|
  {
    if a == [] || c == [] {
      LengthBounds(b, c);
      LengthBounds(a, b);
    } else if b != [] {
      if Lev(a, b) == Lev(Front(a), b) + 1 {
        Triangle(Front(a), b, c);
      } else if Lev(b, c) == Lev(b, Front(c)) + 1 {
        Triangle(a, b, Front(c));
      } else if Lev(a, b) == Lev(a, Front(b)) + 1 {
        if Lev(b, c) == Lev(Front(b), c) + 1 {
          Triangle(a, Front(b), c);
        } else {
          Triangle(a, Front(b), Front(c));
        }
      } else if Lev(b, c) == Lev(Front(b), c) + 1 {
        Triangle(Front(a), Front(b), c);
      } else {
        Triangle(Front(a), Front(b), Front(c));
      }
    } else {
      LengthBounds(a, c);
    }
  }

  // ---- It is the fewest edits -------------------------------------------------

  datatype Edit = Insert(at: nat, c: char) | Delete(at: nat) | Substitute(at: nat, c: char)

  function Apply(s: string, e: Edit): Option<string> {
    match e
    case Insert(at, c) => if at <= |s| then Some(s[..at] + [c] + s[at..]) else None
    case Delete(at) => if at < |s| then Some(s[..at] + s[at + 1..]) else None
    case Substitute(at, c) => if at < |s| then Some(s[..at] + [c] + s[at + 1..]) else None
  }

  function ApplyAll(s: string, es: seq<Edit>): Option<string>
    decreases |es|
  {
    if es == [] then Some(s)
    else
      match Apply(s, es[0])
      case None => None
      case Some(t) => ApplyAll(t, es[1..])
  }

  lemma {:induction false} CommonEnd(a: string, b: string, end: string)
    ensures Lev(a + end, b + end) <= Lev(a, b)
    decreases |end|
  {
    if end == [] {
      assert a + end == a && b + end == b;
    } else {
      CommonEnd(a, b, Front(end));
      assert Front(a + end) == a + Front(end) && Front(b + end) == b + Front(end);
    }
  }

  lemma AppendedOne(s: string, c: char)
    ensures Lev(s, s + [c]) <= 1 && Lev(s + [c], s) <= 1
  {
    SelfIsZero(s);
    assert Front(s + [c]) == s;
    Symmetric(s, s + [c]);
  }

  lemma ReplacedLast(s: string, c: char, d: char)
    ensures Lev(s + [c], s + [d]) <= 1
  {
    SelfIsZero(s);
    assert Front(s + [c]) == s && Front(s + [d]) == s;
  }

  lemma OneInsert(s: string, at: nat, c: char)
    requires at <= |s|
    ensures Lev(s, s[..at] + [c] + s[at..]) <= 1
  {
    AppendedOne(s[..at], c);
    CommonEnd(s[..at], s[..at] + [c], s[at..]);
    assert s == s[..at] + s[at..];
  }

  lemma OneDelete(s: string, at: nat)
    requires at < |s|
    ensures Lev(s, s[..at] + s[at + 1..]) <= 1
  {
    OneInsert(s[..at] + s[at + 1..], at, s[at]);
    var t := s[..at] + s[at + 1..];
    assert t[..at] + [s[at]] + t[at..] == s;
    Symmetric(s, t);
  }

  lemma OneSubstitute(s: string, at: nat, c: char)
    requires at < |s|
    ensures Lev(s, s[..at] + [c] + s[at + 1..]) <= 1
  {
    ReplacedLast(s[..at], s[at], c);
    CommonEnd(s[..at] + [s[at]], s[..at] + [c], s[at + 1..]);
    assert s == s[..at] + [s[at]] + s[at + 1..];
  }

  /** One edit is at most one away. */
  lemma OneEdit(s: string, e: Edit, t: string)
    requires Apply(s, e) == Some(t)
    ensures Lev(s, t) <= 1
  {
    match e {
      case Insert(at, c) => OneInsert(s, at, c);
      case Delete(at) => OneDelete(s, at);
      case Substitute(at, c) => OneSubstitute(s, at, c);
    }
  }

  /** No script of edits is shorter than the distance. */
  lemma {:induction false} NoFewerEdits(a: string, b: string, es: seq<Edit>)
    requires ApplyAll(a, es) == Some(b)
    ensures Lev(a, b) <= |es|
    decreases |es|
  {
    if es == [] {
      SelfIsZero(a);
    } else {
      var t := Apply(a, es[0]).value;
      OneEdit(a, es[0], t);
      NoFewerEdits(t, b, es[1..]);
      Triangle(a, t, b);
    }
  }

  lemma EditInFront(a: string, e: Edit, t: string, c: char)
    requires Apply(a, e) == Some(t)
    ensures Apply(a + [c], e) == Some(t + [c])
  {
    var s := a + [c];
    assert s[..e.at] == a[..e.at];
    if e.Insert? {
      assert s[e.at..] == a[e.at..] + [c];
      assert s[..e.at] + [e.c] + s[e.at..] == t + [c];
    } else {
      assert s[e.at + 1..] == a[e.at + 1..] + [c];
      if e.Delete? {
        assert s[..e.at] + s[e.at + 1..] == t + [c];
      } else {
        assert s[..e.at] + [e.c] + s[e.at + 1..] == t + [c];
      }
    }
  }

  /** Edits of a front leave what follows it alone. */
  lemma {:induction false} EditsInFront(a: string, b: string, es: seq<Edit>, c: char)
    requires ApplyAll(a, es) == Some(b)
    ensures ApplyAll(a + [c], es) == Some(b + [c])
    decreases |es|
  {
    if es != [] {
      var t := Apply(a, es[0]).value;
      EditInFront(a, es[0], t, c);
      EditsInFront(t, b, es[1..], c);
    }
  }

  lemma {:induction false} EditsThen(a: string, b: string, es: seq<Edit>, last: Edit)
    requires ApplyAll(a, es) == Some(b)
    ensures ApplyAll(a, es + [last]) == Apply(b, last)
    decreases |es|
  {
    if es == [] {
      assert es + [last] == [last];
      assert ApplyAll(a, [last]) == match Apply(a, last) case None => None case Some(t) => ApplyAll(t, []);
    } else {
      EditsThen(Apply(a, es[0]).value, b, es[1..], last);
      assert (es + [last])[1..] == es[1..] + [last];
    }
  }

  lemma LastEdit(b: string)
    requires b != []
    ensures Apply(b, Delete(|b| - 1)) == Some(Front(b))
    ensures Apply(Front(b), Insert(|b| - 1, Last(b))) == Some(b)
    ensures forall c :: Apply(Front(b) + [c], Substitute(|b| - 1, Last(b))) == Some(b)
  {
    assert Front(b) + [] == Front(b) && b == Front(b) + [Last(b)] && b == Front(b) + [Last(b)] + [];
    forall c
      ensures Apply(Front(b) + [c], Substitute(|b| - 1, Last(b))) == Some(b)
    {
      var s := Front(b) + [c];
      assert s[..|b| - 1] == Front(b) && s[|b|..] == [];
    }
  }

  /** And one script attains it. */
  lemma {:induction false} AsFewEdits(a: string, b: string) returns (es: seq<Edit>)
    ensures |es| == Lev(a, b) && ApplyAll(a, es) == Some(b)
    decreases |a| + |b|, 1
  {
    if a == [] && b == [] {
      es := [];
    } else if b == [] || (a != [] && Lev(a, b) == Lev(Front(a), b) + 1) {
      var rest := AsFewEdits(Front(a), b);
      LastEdit(a);
      es := [Delete(|a| - 1)] + rest;
      assert es[1..] == rest;
    } else if a == [] || Lev(a, b) == Lev(a, Front(b)) + 1 {
      var rest := AsFewEdits(a, Front(b));
      LastEdit(b);
      es := rest + [Insert(|b| - 1, Last(b))];
      EditsThen(a, Front(b), rest, Insert(|b| - 1, Last(b)));
    } else {
      es := SubstituteLast(a, b);
    }
  }

  lemma {:induction false} SubstituteLast(a: string, b: string) returns (es: seq<Edit>)
    requires a != [] && b != [] && Lev(a, b) == Lev(Front(a), Front(b)) + Cost(Last(a), Last(b))
    ensures |es| == Lev(a, b) && ApplyAll(a, es) == Some(b)
    decreases |a| + |b|, 0
  {
    es := AsFewEdits(Front(a), Front(b));
    EditsInFront(Front(a), Front(b), es, Last(a));
    assert a == Front(a) + [Last(a)] && b == Front(b) + [Last(b)];
    if Last(a) != Last(b) {
      LastEdit(b);
      EditsThen(a, Front(b) + [Last(a)], es, Substitute(|b| - 1, Last(b)));
      es := es + [Substitute(|b| - 1, Last(b))];
    }
  }

  // ---- The nearest names ------------------------------------------------------

  /** The largest admissible distance, by the length of what was typed. */
  function MaxEdits(len: nat): nat {
    var quarter := len / 4;
    if quarter <= 1 then 2 else if quarter > 5 then 5 else quarter
  }

  lemma MaxEditsGrows(m: nat, n: nat)
    requires m <= n
    ensures 2 <= MaxEdits(m) <= MaxEdits(n) <= 5
  {
  }

  datatype Scored = Scored(distance: nat, name: string)

  /** An unfinished name counts as exact; any other must be within the threshold. */
  function Score(typed: string, name: string): Option<nat> {
    if |typed| >= PREFIX_MIN && |name| > |typed| && typed <= name then Some(0)
    else
      var d := Lev(typed, name);
      if d <= MaxEdits(if |typed| >= |name| then |typed| else |name|) then Some(d) else None
  }

  function AllScored(typed: string, candidates: seq<string>): seq<Scored> {
    if candidates == [] then []
    else
      (match Score(typed, candidates[0])
       case Some(d) => [Scored(d, candidates[0])]
       case None => [])
      + AllScored(typed, candidates[1..])
  }

  /** Names compare character by character. */
  predicate NameLe(a: string, b: string) {
    a == [] || (b != [] && (a[0] < b[0] || (a[0] == b[0] && NameLe(a[1..], b[1..]))))
  }

  predicate Le(x: Scored, y: Scored) {
    x.distance < y.distance || (x.distance == y.distance && NameLe(x.name, y.name))
  }

  function Names(scored: seq<Scored>): seq<string> {
    if scored == [] then [] else [scored[0].name] + Names(scored[1..])
  }

  function FirstThree(scored: seq<Scored>): seq<Scored> {
    if |scored| <= 3 then scored else scored[..3]
  }

  function Nearest(typed: string, candidates: seq<string>): seq<string> {
    Names(FirstThree(Sort(AllScored(typed, candidates), Le)))
  }

  lemma {:induction false} NameLeTotal(a: string, b: string)
    ensures NameLe(a, b) || NameLe(b, a)
    ensures NameLe(a, b) && NameLe(b, a) ==> a == b
  {
    if a != [] && b != [] {
      NameLeTotal(a[1..], b[1..]);
      assert a == [a[0]] + a[1..] && b == [b[0]] + b[1..];
    }
  }

  lemma {:induction false} NameLeTransitive(a: string, b: string, c: string)
    requires NameLe(a, b) && NameLe(b, c)
    ensures NameLe(a, c)
  {
    if a != [] && a[0] == b[0] == c[0] {
      NameLeTransitive(a[1..], b[1..], c[1..]);
    }
  }

  lemma {:induction false} PrefixLe(a: string, b: string)
    requires a <= b
    ensures NameLe(a, b)
  {
    if a != [] {
      PrefixLe(a[1..], b[1..]);
    }
  }

  lemma LeOrders()
    ensures Preorder(Le) && forall x, y :: Le(x, y) && Le(y, x) ==> x == y
  {
    forall x: Scored, y: Scored
      ensures Le(x, y) || Le(y, x)
      ensures Le(x, y) && Le(y, x) ==> x == y
    {
      NameLeTotal(x.name, y.name);
    }
    forall x: Scored, y: Scored, z: Scored | Le(x, y) && Le(y, z)
      ensures Le(x, z)
    {
      if x.distance == y.distance == z.distance {
        NameLeTransitive(x.name, y.name, z.name);
      }
    }
  }

  /** What is listed: of the admissible candidates in (distance, name) order, the first
      three, and nothing left out comes before anything listed. */
  lemma NearestAreFirst(typed: string, candidates: seq<string>) returns (top: seq<Scored>, rest: seq<Scored>)
    ensures Nearest(typed, candidates) == Names(top)
    ensures multiset(top) + multiset(rest) == multiset(AllScored(typed, candidates))
    ensures Sorted(top + rest, Le)
    ensures |top| <= 3 && (|top| < 3 ==> rest == [])
  {
    var scored := AllScored(typed, candidates);
    var sorted := Sort(scored, Le);
    LeOrders();
    SortPermutes(scored, Le);
    SortSorted(scored, Le);
    top := FirstThree(sorted);
    rest := sorted[|top|..];
    assert sorted == top + rest;
  }

  lemma {:induction false} ScoredCounts(typed: string, candidates: seq<string>, x: Scored)
    ensures multiset(AllScored(typed, candidates))[x]
         == if Score(typed, x.name) == Some(x.distance) then multiset(candidates)[x.name] else 0
  {
    if candidates != [] {
      ScoredCounts(typed, candidates[1..], x);
      assert candidates == [candidates[0]] + candidates[1..];
    }
  }

  /** The list does not depend on the order of the candidates. */
  lemma NearestIgnoresOrder(typed: string, a: seq<string>, b: seq<string>)
    requires multiset(a) == multiset(b)
    ensures Nearest(typed, a) == Nearest(typed, b)
  {
    forall x: Scored
      ensures multiset(AllScored(typed, a))[x] == multiset(AllScored(typed, b))[x]
    {
      ScoredCounts(typed, a, x);
      ScoredCounts(typed, b, x);
    }
    LeOrders();
    SortIgnoresOrder(AllScored(typed, a), AllScored(typed, b), Le);
  }

  /** A name that is exactly what was typed is listed first. */
  lemma ExactNameFirst(typed: string, candidates: seq<string>)
    requires typed in candidates
    ensures Nearest(typed, candidates) != [] && Nearest(typed, candidates)[0] == typed
  {
    var exact := Scored(0, typed);
    var scored := AllScored(typed, candidates);
    SelfIsZero(typed);
    ScoredCounts(typed, candidates, exact);
    var top, rest := NearestAreFirst(typed, candidates);
    assert typed in multiset(candidates) && exact in multiset(scored);
    assert exact in top || exact in rest;
    var all := top + rest;
    assert all != [];
    var first := all[0];
    assert exact in all;
    LeOrders();
    assert Le(first, exact);
    assert first in multiset(top) + multiset(rest);
    ScoredCounts(typed, candidates, first);
    if Lev(typed, first.name) == 0 {
      ZeroIsSelf(typed, first.name);
    }
    assert typed <= first.name;
    PrefixLe(typed, first.name);
    NameLeTotal(typed, first.name);
    assert top != [] && top[0] == first;
  }
}
