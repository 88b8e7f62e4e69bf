/** Which names a suggestion lists, said of lengths, first differing characters and edits. */
module NearestWords {
  import opened Wrappers
  import opened Sorting
  import opened Nearest

  /** The most edits a name of this length may be away. */
  predicate EditsAllowed(length: nat, most: nat) {
    && (length < 12 <==> most == 2) && (12 <= length < 16 <==> most == 3)
    && (16 <= length < 20 <==> most == 4) && (20 <= length <==> most == 5)
  }

  lemma MaxEditsExactly(length: nat)
    ensures EditsAllowed(length, MaxEdits(length))
  {
  }

  /** The typed text is the beginning of a longer name, and is at least four characters. */
  predicate Unfinished(typed: string, name: string) {
    4 <= |typed| < |name| && name[..|typed|] == typed
  }

  function Longer(a: nat, b: nat): nat {
    if a < b then b else a
  }

  /** Near enough to be worth printing. */
  ghost predicate Near(typed: string, name: string) {
    Unfinished(typed, name) || exists most: nat :: EditsAllowed(Longer(|typed|, |name|), most) && Lev(typed, name) <= most
  }

  function Distance(typed: string, name: string): nat {
    if Unfinished(typed, name) then 0 else Lev(typed, name)
  }

  /** They agree on the first `k` characters, and then `a` ends or has the smaller one. */
  predicate AgreesTo(a: string, b: string, k: nat) {
    && k <= |a| && k <= |b| && a[..k] == b[..k]
    && (k == |a| || (k < |b| && a[k] < b[k]))
  }

  lemma Heads(a: string, b: string, k: nat)
    requires 0 < k && AgreesTo(a, b, k)
    ensures a[0] == b[0]
  {
    assert a[..k][0] == a[0] && b[..k][0] == b[0];
  }

  lemma {:induction false} AlphabeticIs(a: string, b: string)
    ensures NameLe(a, b) <==> exists k: nat :: AgreesTo(a, b, k)
  {
    if a == [] {
      assert AgreesTo(a, b, 0);
    } else if b == [] {
      assert forall k: nat :: !AgreesTo(a, b, k);
    } else if a[0] != b[0] {
      assert a[0] < b[0] ==> AgreesTo(a, b, 0);
      forall k: nat | AgreesTo(a, b, k)
        ensures k == 0
      {
        if k > 0 {
          Heads(a, b, k);
        }
      }
    } else {
      AlphabeticIs(a[1..], b[1..]);
      if k: nat :| AgreesTo(a[1..], b[1..], k) {
        assert a[..k + 1] == [a[0]] + a[1..][..k] && b[..k + 1] == [b[0]] + b[1..][..k];
        assert AgreesTo(a, b, k + 1);
      }
      if k: nat :| AgreesTo(a, b, k) {
        assert k > 0;
        assert a[1..][..k - 1] == a[..k][1..] && b[1..][..k - 1] == b[..k][1..];
        assert AgreesTo(a[1..], b[1..], k - 1);
      }
    }
  }

  /** Fewer edits first, and names as near as each other in alphabetical order. */
  ghost predicate Before(typed: string, a: string, b: string) {
    Distance(typed, a) < Distance(typed, b)
    || (Distance(typed, a) == Distance(typed, b) && exists k: nat :: AgreesTo(a, b, k))
  }

  lemma ScoreIs(typed: string, name: string)
    ensures Score(typed, name) == if Near(typed, name) then Some(Distance(typed, name)) else None
  {
    var length := Longer(|typed|, |name|);
    MaxEditsExactly(length);
    assert forall most: nat :: EditsAllowed(length, most) ==> most == MaxEdits(length);
  }

  lemma {:induction false} NamesAt(scored: seq<Scored>)
    ensures |Names(scored)| == |scored|
    ensures forall i | 0 <= i < |scored| :: Names(scored)[i] == scored[i].name
  {
    if scored != [] {
      NamesAt(scored[1..]);
    }
  }

  ghost predicate AllBefore(typed: string, listed: seq<string>, name: string) {
    forall i | 0 <= i < |listed| :: Before(typed, listed[i], name)
  }

  /** At most three names are listed, nearest first; every one of them is a candidate near
      enough; and a candidate near enough that is not listed comes after three that are. */
  lemma ListedExactly(typed: string, candidates: seq<string>, listed: seq<string>)
    requires listed == Nearest.Nearest(typed, candidates)
    ensures |listed| <= 3
    ensures forall i | 0 <= i < |listed| :: listed[i] in candidates && Near(typed, listed[i])
    ensures forall i, j | 0 <= i < j < |listed| :: Before(typed, listed[i], listed[j])
    ensures forall name | name in candidates && Near(typed, name) && name !in listed ::
      |listed| == 3 && AllBefore(typed, listed, name)
  {
    var top, rest := NearestAreFirst(typed, candidates);
    NamesAt(top);
    LeOrders();
    var all := top + rest;
    assert multiset(all) == multiset(AllScored(typed, candidates));
    forall i | 0 <= i < |top|
      ensures listed[i] in candidates && Score(typed, listed[i]) == Some(top[i].distance)
      ensures Near(typed, listed[i]) && Distance(typed, listed[i]) == top[i].distance
    {
      assert top[i] == all[i] && all[i] in multiset(all);
      ScoredCounts(typed, candidates, top[i]);
      assert listed[i] in multiset(candidates);
      ScoreIs(typed, listed[i]);
    }
    forall i, j | 0 <= i < j < |listed|
      ensures Before(typed, listed[i], listed[j])
    {
      assert Le(all[i], all[j]);
      AlphabeticIs(listed[i], listed[j]);
    }
    forall name | name in candidates && Near(typed, name) && name !in listed
      ensures |listed| == 3 && AllBefore(typed, listed, name)
    {
      var left := Scored(Distance(typed, name), name);
      LeftOut(typed, candidates, top, rest, left);
      forall i | 0 <= i < |listed|
        ensures Before(typed, listed[i], name)
      {
        AlphabeticIs(listed[i], name);
      }
    }
  }

  lemma LeftOut(typed: string, candidates: seq<string>, top: seq<Scored>, rest: seq<Scored>, left: Scored)
    requires multiset(top) + multiset(rest) == multiset(AllScored(typed, candidates)) && Sorted(top + rest, Le)
    requires |top| <= 3 && (|top| < 3 ==> rest == [])
    requires left.name in candidates && Near(typed, left.name) && left.distance == Distance(typed, left.name)
    requires left !in top
    ensures |top| == 3 && forall i | 0 <= i < |top| :: Le(top[i], left)
  {
    ScoreIs(typed, left.name);
    ScoredCounts(typed, candidates, left);
    assert left.name in multiset(candidates);
    assert left in multiset(AllScored(typed, candidates));
    assert left in rest;
    var k :| 0 <= k < |rest| && rest[k] == left;
    assert (top + rest)[|top| + k] == left;
    forall i | 0 <= i < |top|
      ensures Le(top[i], left)
    {
      assert (top + rest)[i] == top[i];
    }
  }
}
