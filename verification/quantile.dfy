/** A quantile estimated from cumulative histogram buckets, over the reals. */
module Quantiles {
  import opened Sorting

  datatype Edge = Finite(at: real) | Infinite

  datatype Bucket = Bucket(edge: Edge, count: real)

  /** `NotANumber` is what interpolating from an infinite edge to a finite one gives. */
  datatype Estimate = Absent | Value(v: real) | NotANumber

  predicate EdgeLe(a: Edge, b: Edge) {
    b.Infinite? || (a.Finite? && a.at <= b.at)
  }

  predicate BucketLe(a: Bucket, b: Bucket) {
    EdgeLe(a.edge, b.edge)
  }

  /** The buckets of one histogram, as the exposition is read: in the order of their edges. */
  function Collected(samples: seq<Bucket>): seq<Bucket> {
    Sort(samples, BucketLe)
  }

  function InBucket(lower: Edge, lowerCount: real, b: Bucket, want: real): Estimate {
    if b.edge.Infinite? then Absent
    else
      var span := b.count - lowerCount;
      if span <= 0.0 then Value(b.edge.at)
      else if lower.Infinite? then NotANumber
      else Value(lower.at + (b.edge.at - lower.at) * ((want - lowerCount) / span))
  }

  /** The first bucket that reaches `want`, and where in it. */
  function Seek(buckets: seq<Bucket>, want: real, lower: Edge, lowerCount: real): Estimate {
    if buckets == [] then Absent
    else if buckets[0].count >= want then InBucket(lower, lowerCount, buckets[0], want)
    else Seek(buckets[1..], want, buckets[0].edge, buckets[0].count)
  }

  function Located(buckets: seq<Bucket>, want: real): Estimate {
    Seek(buckets, want, Finite(0.0), 0.0)
  }

  function Total(buckets: seq<Bucket>): real
    requires buckets != []
  {
    buckets[|buckets| - 1].count
  }

  /** How much of the total a quantile asks for. */
  function Share(q: real, total: real): real {
    q * total
  }

  function QuantileOf(buckets: seq<Bucket>, q: real): Estimate {
    if !(0.0 <= q <= 1.0) || buckets == [] || Total(buckets) <= 0.0 then Absent
    else Located(buckets, Share(q, Total(buckets)))
  }

  method Locate(buckets: seq<Bucket>, want: real) returns (r: Estimate)
    ensures r == Located(buckets, want)
  {
    var lower, lowerCount := Finite(0.0), 0.0;
    ghost var goal := Located(buckets, want);
    var i := 0;
    assert buckets[0..] == buckets;
    while i < |buckets|
      invariant 0 <= i <= |buckets|
      invariant goal == Seek(buckets[i..], want, lower, lowerCount)
    {
      var b := buckets[i];
      assert buckets[i..][0] == b && buckets[i..][1..] == buckets[i + 1..];
      if b.count >= want {
        return InBucket(lower, lowerCount, b, want);
      }
      lower, lowerCount := b.edge, b.count;
      i := i + 1;
    }
    return Absent;
  }

  method Quantile(buckets: seq<Bucket>, q: real) returns (r: Estimate)
    ensures r == QuantileOf(buckets, q)
  {
    if !(0.0 <= q <= 1.0) || buckets == [] {
      return Absent;
    }
    var total := Total(buckets);
    if total <= 0.0 {
      return Absent;
    }
    r := Locate(buckets, Share(q, total));
  }

  // ---- A histogram ------------------------------------------------------------

  /** Edges in order from 0 up, counts that only grow, and something counted. */
  ghost predicate Histogram(buckets: seq<Bucket>) {
    && buckets != [] && buckets[|buckets| - 1].count > 0.0
    && (forall i | 0 <= i < |buckets| :: buckets[i].count >= 0.0 && EdgeLe(Finite(0.0), buckets[i].edge))
    && (forall i, j | 0 <= i < j < |buckets| ::
          buckets[i].count <= buckets[j].count && EdgeLe(buckets[i].edge, buckets[j].edge))
  }

  /** What is read from an exposition is in order, whatever order its lines came in. */
  lemma CollectedInOrder(samples: seq<Bucket>)
    ensures Sorted(Collected(samples), BucketLe) && multiset(Collected(samples)) == multiset(samples)
    ensures forall i, j | 0 <= i < j < |samples| ::
      Collected(samples)[j].edge == Infinite
      || (Collected(samples)[i].edge.Finite? && Collected(samples)[i].edge.at <= Collected(samples)[j].edge.at)
  {
    SortSorted(samples, BucketLe);
    SortPermutes(samples, BucketLe);
  }

  /** The bucket in which `want` is first reached. */
  ghost predicate FirstReaches(buckets: seq<Bucket>, want: real, k: nat) {
    k < |buckets| && buckets[k].count >= want && forall i | 0 <= i < k :: buckets[i].count < want
  }

  function LowerEdge(buckets: seq<Bucket>, k: nat): Edge
    requires k < |buckets|
  {
    if k == 0 then Finite(0.0) else buckets[k - 1].edge
  }

  function LowerCount(buckets: seq<Bucket>, k: nat): real
    requires k < |buckets|
  {
    if k == 0 then 0.0 else buckets[k - 1].count
  }

  lemma {:induction false} SeekFinds(buckets: seq<Bucket>, want: real, from: nat, k: nat)
    requires from <= k && FirstReaches(buckets, want, k)
    ensures Seek(buckets[from..], want, LowerEdge(buckets, from), LowerCount(buckets, from))
         == InBucket(LowerEdge(buckets, k), LowerCount(buckets, k), buckets[k], want)
    decreases k - from
  {
    assert buckets[from..][0] == buckets[from];
    if from < k {
      SeekFinds(buckets, want, from + 1, k);
      assert buckets[from..][1..] == buckets[from + 1..];
    }
  }

  /** Some bucket always reaches it, so the search never runs off the end. */
  lemma {:induction false} Reached(buckets: seq<Bucket>, want: real, from: nat) returns (k: nat)
    requires from < |buckets| && buckets[|buckets| - 1].count >= want
    requires forall i | 0 <= i < from :: buckets[i].count < want
    ensures FirstReaches(buckets, want, k)
    decreases |buckets| - from
  {
    k := from;
    if buckets[from].count < want {
      k := Reached(buckets, want, from + 1);
    }
  }

  /** The search is decided by the bucket that first reaches what is wanted. */
  lemma DecidedByItsBucket(buckets: seq<Bucket>, want: real, k: nat)
    requires FirstReaches(buckets, want, k)
    ensures Located(buckets, want) == InBucket(LowerEdge(buckets, k), LowerCount(buckets, k), buckets[k], want)
  {
    SeekFinds(buckets, want, 0, k);
    assert buckets[0..] == buckets;
  }

  /** A share of a total is reached by the last bucket at the latest. */
  lemma ShareIsReached(q: real, total: real)
    requires 0.0 <= q <= 1.0 && total > 0.0
    ensures 0.0 <= Share(q, total) == q * total <= total
  {
    assert q * total >= 0.0;
    assert (1.0 - q) * total >= 0.0;
    assert (1.0 - q) * total == total - q * total;
  }

  lemma OnTheLine(lo: real, hi: real, part: real, span: real, v: real)
    requires span > 0.0 && v == lo + (hi - lo) * (part / span)
    ensures (v - lo) * span == (hi - lo) * part
  {
    var fraction := part / span;
    assert fraction * span == part;
    assert (v - lo) * span == (hi - lo) * (fraction * span);
  }

  /** The point at `want` of the line from the bucket before to this one. */
  ghost predicate OnItsLine(before: Edge, so: real, b: Bucket, want: real, r: Estimate) {
    if b.edge == Infinite then r == Absent
    else if b.count <= so then r == Value(b.edge.at)
    else if before == Infinite then r == NotANumber
    else r.Value? && (r.v - before.at) * (b.count - so) == (b.edge.at - before.at) * (want - so)
  }

  lemma BucketGivesItsLine(before: Edge, so: real, b: Bucket, want: real, r: Estimate)
    requires r == InBucket(before, so, b, want)
    ensures OnItsLine(before, so, b, want, r)
  {
    if b.edge.Finite? && b.count > so && before.Finite? {
      OnTheLine(before.at, b.edge.at, want - so, b.count - so, r.v);
    }
  }

  ghost predicate OnBucketsLine(buckets: seq<Bucket>, k: nat, want: real, r: Estimate)
    requires k < |buckets|
  {
    if k == 0 then OnItsLine(Finite(0.0), 0.0, buckets[k], want, r)
    else OnItsLine(buckets[k - 1].edge, buckets[k - 1].count, buckets[k], want, r)
  }

  lemma LocatedOnLine(buckets: seq<Bucket>, want: real, k: nat)
    requires FirstReaches(buckets, want, k)
    ensures OnBucketsLine(buckets, k, want, Located(buckets, want))
  {
    DecidedByItsBucket(buckets, want, k);
    BucketGivesItsLine(LowerEdge(buckets, k), LowerCount(buckets, k), buckets[k], want, Located(buckets, want));
  }

  lemma ShareIsLocated(buckets: seq<Bucket>, q: real, want: real)
    requires 0.0 <= q <= 1.0 && buckets != [] && Total(buckets) > 0.0 && want == q * Total(buckets)
    ensures QuantileOf(buckets, q) == Located(buckets, want)
  {
    ShareIsReached(q, Total(buckets));
    assert Share(q, Total(buckets)) == want;
  }

  /** The estimate over any buckets at all. There is none outside 0 to 1, without buckets or
      when nothing was counted. Otherwise the first bucket whose count reaches `q` times the
      last one's decides: an unbounded bucket gives none, one that adds nothing gives its
      edge, and any other gives the point of the straight line from (count so far, edge
      before) to (its count, its edge) at the count wanted. */
  lemma InterpolatesExactly(buckets: seq<Bucket>, q: real, want: real) returns (k: nat)
    requires buckets != [] ==> want == q * buckets[|buckets| - 1].count
    ensures if 0.0 <= q <= 1.0 && buckets != [] && buckets[|buckets| - 1].count > 0.0 then
              FirstReaches(buckets, want, k) && OnBucketsLine(buckets, k, want, QuantileOf(buckets, q))
            else QuantileOf(buckets, q) == Absent
  {
    k := 0;
    if 0.0 <= q <= 1.0 && buckets != [] && Total(buckets) > 0.0 {
      ShareIsReached(q, Total(buckets));
      k := Reached(buckets, want, 0);
      LocatedOnLine(buckets, want, k);
      ShareIsLocated(buckets, q, want);
    }
  }

  lemma Scaled(width: real, a: real, b: real)
    requires width >= 0.0 && a <= b
    ensures width * a <= width * b
  {
    assert width * (b - a) >= 0.0;
  }

  lemma Sign(x: real, span: real)
    requires span > 0.0 && x * span >= 0.0
    ensures x >= 0.0
  {
  }

  lemma Fractions(a: real, b: real, span: real)
    requires a <= b && span > 0.0
    ensures a / span <= b / span
  {
    var x, y := a / span, b / span;
    assert x * span == a && y * span == b;
    assert (y - x) * span == b - a;
    assert y - x >= 0.0 by {
      Sign(y - x, span);
    }
  }

  /** Interpolating stays between the edges, and grows with what is wanted. */
  lemma Interpolated(lo: real, hi: real, a: real, b: real, span: real)
    requires lo <= hi && 0.0 <= a <= b <= span && span > 0.0
    ensures lo <= lo + (hi - lo) * (a / span) <= lo + (hi - lo) * (b / span) <= hi
  {
    Fractions(0.0, a, span);
    Fractions(a, b, span);
    Fractions(b, span, span);
    Scaled(hi - lo, 0.0, a / span);
    Scaled(hi - lo, a / span, b / span);
    Scaled(hi - lo, b / span, 1.0);
  }

  /** Within one bucket: absent when it is unbounded, inside it when not, and growing. */
  lemma WithinBucket(lower: Edge, lowerCount: real, b: Bucket, want: real, more: real)
    requires EdgeLe(lower, b.edge) && lowerCount <= want <= more <= b.count
    ensures InBucket(lower, lowerCount, b, want).Absent? <==> b.edge.Infinite?
    ensures b.edge.Finite? ==>
      && lower.Finite? && InBucket(lower, lowerCount, b, want).Value? && InBucket(lower, lowerCount, b, more).Value?
      && lower.at <= InBucket(lower, lowerCount, b, want).v <= InBucket(lower, lowerCount, b, more).v <= b.edge.at
  {
    var span := b.count - lowerCount;
    if b.edge.Finite? && span > 0.0 {
      Interpolated(lower.at, b.edge.at, want - lowerCount, more - lowerCount, span);
    }
  }

  lemma ItsLowerEdge(buckets: seq<Bucket>, want: real, k: nat)
    requires Histogram(buckets) && FirstReaches(buckets, want, k) && want >= 0.0
    ensures EdgeLe(LowerEdge(buckets, k), buckets[k].edge) && LowerCount(buckets, k) <= want <= buckets[k].count
  {
  }

  lemma LocatedInside(buckets: seq<Bucket>, want: real, k: nat)
    requires Histogram(buckets) && want >= 0.0 && FirstReaches(buckets, want, k)
    ensures Located(buckets, want).Absent? <==> buckets[k].edge.Infinite?
    ensures buckets[k].edge.Finite? ==>
      && LowerEdge(buckets, k).Finite? && Located(buckets, want).Value?
      && LowerEdge(buckets, k).at <= Located(buckets, want).v <= buckets[k].edge.at
  {
    DecidedByItsBucket(buckets, want, k);
    ItsLowerEdge(buckets, want, k);
    WithinBucket(LowerEdge(buckets, k), LowerCount(buckets, k), buckets[k], want, want);
  }

  lemma SharesGrow(p: real, q: real, total: real)
    requires 0.0 <= p <= q <= 1.0 && total > 0.0
    ensures 0.0 <= Share(p, total) <= Share(q, total) <= total
  {
    assert p * total >= 0.0;
    assert (q - p) * total >= 0.0;
    assert (1.0 - q) * total >= 0.0;
    assert (1.0 - q) * total == total - q * total;
  }

  /** A quantile of a histogram: some bucket first reaches it, so the search never runs off
      the end; it is absent exactly when that bucket is unbounded, and otherwise inside it. */
  lemma InsideItsBucket(buckets: seq<Bucket>, q: real) returns (k: nat)
    requires Histogram(buckets) && 0.0 <= q <= 1.0
    ensures FirstReaches(buckets, Share(q, Total(buckets)), k)
    ensures QuantileOf(buckets, q).Absent? <==> buckets[k].edge.Infinite?
    ensures buckets[k].edge.Finite? ==>
      && LowerEdge(buckets, k).Finite? && QuantileOf(buckets, q).Value?
      && LowerEdge(buckets, k).at <= QuantileOf(buckets, q).v <= buckets[k].edge.at
  {
    var want := Share(q, Total(buckets));
    SharesGrow(q, q, Total(buckets));
    k := Reached(buckets, want, 0);
    LocatedInside(buckets, want, k);
  }

  lemma FirstIsLater(buckets: seq<Bucket>, a: real, b: real, j: nat, k: nat)
    requires a <= b && FirstReaches(buckets, a, j) && FirstReaches(buckets, b, k)
    ensures j <= k
  {
  }

  lemma EdgesBetween(buckets: seq<Bucket>, j: nat, k: nat)
    requires Histogram(buckets) && j < k < |buckets|
    ensures EdgeLe(buckets[j].edge, LowerEdge(buckets, k)) && EdgeLe(buckets[j].edge, buckets[k].edge)
  {
  }

  lemma LocatedGrows(buckets: seq<Bucket>, a: real, b: real)
    requires Histogram(buckets) && 0.0 <= a <= b <= Total(buckets)
    ensures Located(buckets, a).Absent? ==> Located(buckets, b).Absent?
    ensures Located(buckets, a).Value? && Located(buckets, b).Value? ==> Located(buckets, a).v <= Located(buckets, b).v
  {
    var j := Reached(buckets, a, 0);
    var k := Reached(buckets, b, 0);
    FirstIsLater(buckets, a, b, j, k);
    LocatedInside(buckets, a, j);
    LocatedInside(buckets, b, k);
    if j < k {
      EdgesBetween(buckets, j, k);
    } else {
      DecidedByItsBucket(buckets, a, k);
      DecidedByItsBucket(buckets, b, k);
      ItsLowerEdge(buckets, a, k);
      ItsLowerEdge(buckets, b, k);
      WithinBucket(LowerEdge(buckets, k), LowerCount(buckets, k), buckets[k], a, b);
    }
  }

  /** A larger quantile is never a smaller value, and once absent stays absent. */
  lemma Monotone(buckets: seq<Bucket>, p: real, q: real)
    requires Histogram(buckets) && 0.0 <= p <= q <= 1.0
    ensures QuantileOf(buckets, p).Absent? ==> QuantileOf(buckets, q).Absent?
    ensures QuantileOf(buckets, p).Value? && QuantileOf(buckets, q).Value? ==>
      QuantileOf(buckets, p).v <= QuantileOf(buckets, q).v
  {
    SharesGrow(p, q, Total(buckets));
    LocatedGrows(buckets, Share(p, Total(buckets)), Share(q, Total(buckets)));
  }

  // ---- Several label sets -----------------------------------------------------

  /** The buckets of one metric as an exposition lists them, one label set after another. */
  function Listed(sets: seq<seq<Bucket>>): seq<Bucket> {
    if sets == [] then [] else Listed(sets[..|sets| - 1]) + sets[|sets| - 1]
  }

  /** A label set as it is written: in the end, the bucket that counts everything. */
  predicate LabelSet(buckets: seq<Bucket>) {
    && buckets != [] && buckets[|buckets| - 1].edge.Infinite?
    && forall i | 0 <= i < |buckets| :: buckets[i].count >= 0.0
  }

  lemma {:induction false} InsertKeepsLast(x: Bucket, s: seq<Bucket>)
    requires s != [] && s[|s| - 1].edge.Infinite?
    ensures var t := Insert(x, s, BucketLe);
      t != [] && t[|t| - 1] == s[|s| - 1]
  {
    if !BucketLe(x, s[0]) {
      InsertKeepsLast(x, s[1..]);
    }
  }

  lemma {:induction false} SortKeepsLast(s: seq<Bucket>)
    requires s != [] && s[|s| - 1].edge.Infinite?
    ensures Collected(s) != [] && Collected(s)[|Collected(s)| - 1] == s[|s| - 1]
  {
    if |s| > 1 {
      SortKeepsLast(s[1..]);
      InsertKeepsLast(s[0], Collected(s[1..]));
    } else {
      assert Sort(s[1..], BucketLe) == [];
    }
  }

  ghost predicate LabelSets(sets: seq<seq<Bucket>>) {
    forall i | 0 <= i < |sets| :: LabelSet(sets[i])
  }

  function SetTotal(buckets: seq<Bucket>): real {
    if buckets == [] then 0.0 else Total(buckets)
  }

  /** Everything counted, in all label sets. */
  function Counted(sets: seq<seq<Bucket>>): real {
    if sets == [] then 0.0 else Counted(sets[..|sets| - 1]) + SetTotal(sets[|sets| - 1])
  }

  lemma {:induction false} NothingCounted(sets: seq<seq<Bucket>>)
    requires LabelSets(sets)
    ensures Counted(sets) >= 0.0
    ensures Counted(sets) == 0.0 <==> forall i | 0 <= i < |sets| :: SetTotal(sets[i]) == 0.0
  {
    if sets != [] {
      NothingCounted(sets[..|sets| - 1]);
      assert LabelSet(sets[|sets| - 1]);
    }
  }

  lemma ListedLast(sets: seq<seq<Bucket>>)
    requires sets != [] && LabelSet(sets[|sets| - 1])
    ensures var listed, last := Listed(sets), sets[|sets| - 1];
      listed != [] && listed[|listed| - 1] == last[|last| - 1]
  {
  }

  /** Other samples of a metric are summed over its label sets; its buckets are not. The total
      a quantile is a share of is that of the label set listed last, which is all that was
      counted exactly when the others counted nothing. */
  lemma TotalIsTheLastSets(sets: seq<seq<Bucket>>)
    requires sets != [] && LabelSets(sets)
    ensures SetTotal(Collected(Listed(sets))) == SetTotal(sets[|sets| - 1])
    ensures SetTotal(Collected(Listed(sets))) == Counted(sets) <==>
      forall i | 0 <= i < |sets| - 1 :: SetTotal(sets[i]) == 0.0
  {
    var others := sets[..|sets| - 1];
    assert LabelSet(sets[|sets| - 1]);
    ListedLast(sets);
    SortKeepsLast(Listed(sets));
    NothingCounted(others);
    assert forall i | 0 <= i < |others| :: others[i] == sets[i];
  }
}
