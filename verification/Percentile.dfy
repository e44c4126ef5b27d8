/** The percentile function of pricing expressions: sort, take a 32-place rank, interpolate. */
module Percentile {
  import opened Decimals

  predicate Ordered(values: seq<real>) {
    forall i, j | 0 <= i <= j < |values| :: values[i] <= values[j]
  }

  function Insert(x: real, sorted: seq<real>): (r: seq<real>)
    ensures |r| == |sorted| + 1
    ensures forall y :: y in r <==> y == x || y in sorted
  {
    if sorted == [] then [x]
    else if x <= sorted[0] then [x] + sorted
    else [sorted[0]] + Insert(x, sorted[1..])
  }

  lemma OrderedCons(x: real, rest: seq<real>)
    requires Ordered(rest) && forall y | y in rest :: x <= y
    ensures Ordered([x] + rest)
  {
    var r := [x] + rest;
    forall i, j | 0 <= i <= j < |r| ensures r[i] <= r[j] {
      if i == 0 && j > 0 { assert r[j] in rest; }
    }
  }

  lemma {:induction false} InsertOrdered(x: real, sorted: seq<real>)
    requires Ordered(sorted)
    ensures Ordered(Insert(x, sorted))
  {
    if sorted == [] {
    } else if x <= sorted[0] {
      OrderedCons(x, sorted);
    } else {
      InsertOrdered(x, sorted[1..]);
      OrderedCons(sorted[0], Insert(x, sorted[1..]));
    }
  }

  lemma {:induction false} InsertPermutes(x: real, sorted: seq<real>)
    ensures multiset(Insert(x, sorted)) == multiset(sorted) + multiset{x}
  {
    if sorted != [] {
      assert sorted == [sorted[0]] + sorted[1..];
      InsertPermutes(x, sorted[1..]);
    }
  }

  function Sort(values: seq<real>): (r: seq<real>)
    ensures |r| == |values|
    ensures forall v :: v in r <==> v in values
  {
    if values == [] then [] else Insert(values[0], Sort(values[1..]))
  }

  lemma {:induction false} SortOrdered(values: seq<real>)
    ensures Ordered(Sort(values)) && multiset(Sort(values)) == multiset(values)
  {
    if values != [] {
      SortOrdered(values[1..]);
      InsertOrdered(values[0], Sort(values[1..]));
      InsertPermutes(values[0], Sort(values[1..]));
      assert values == [values[0]] + values[1..];
    }
  }

  /** The rank the code computes: p/100 to 32 places, times the last index. */
  function Rank(p: real, count: nat): real {
    Times(DivRound(p, 100.0), (count - 1) as real)
  }

  lemma ScaledShare(share: real, last: real)
    requires 0.0 <= share <= 1.0 && last >= 0.0
    ensures 0.0 <= Times(share, last) <= last
  {
    MulMonotone(0.0, share, last);
    MulMonotone(share, 1.0, last);
  }

  lemma RankBounds(p: real, count: nat)
    requires 0.0 <= p <= 100.0 && count >= 1
    ensures 0.0 <= Rank(p, count) <= (count - 1) as real
  {
    hide DivRound, Times;
    ShareMonotone(0.0, p);
    ShareMonotone(p, 100.0);
    ShareEnds();
    ScaledShare(DivRound(p, 100.0), (count - 1) as real);
  }

  lemma ShareMonotone(p: real, q: real)
    requires p <= q
    ensures DivRound(p, 100.0) <= DivRound(q, 100.0)
  {
    DivMonotone(p, q, 100.0);
    RoundScaledMonotone(p / 100.0, q / 100.0, DIVISION_SCALE);
  }

  lemma ShareEnds()
    ensures DivRound(0.0, 100.0) == 0.0 && DivRound(100.0, 100.0) == 1.0
  {
    assert 0.0 / 100.0 == 0.0 && 100.0 / 100.0 == 1.0;
    FloorOfInt(0);
    FloorOfInt(DIVISION_SCALE);
    RoundScaledExact(0.0, DIVISION_SCALE);
    RoundScaledExact(1.0, DIVISION_SCALE);
  }

  /** The weighted mean of two neighbours. */
  function Mix(a: real, b: real, fraction: real): real {
    a * (1.0 - fraction) + b * fraction
  }

  lemma MixIsLinear(a: real, b: real, f: real)
    ensures Mix(a, b, f) == a + (b - a) * f
  {
  }

  lemma MixBetween(a: real, b: real, f: real)
    requires a <= b && 0.0 <= f <= 1.0
    ensures a <= Mix(a, b, f) <= b
  {
    MixIsLinear(a, b, f);
    MulMonotone(0.0, f, b - a);
    MulMonotone(f, 1.0, b - a);
  }

  lemma MixMonotone(a: real, b: real, f: real, g: real)
    requires a <= b && f <= g
    ensures Mix(a, b, f) <= Mix(a, b, g)
  {
    MixIsLinear(a, b, f);
    MixIsLinear(a, b, g);
    MulMonotone(f, g, b - a);
  }

  function Upper(count: nat, lower: nat): nat
    requires count >= 1
  {
    if lower + 1 >= count then count - 1 else lower + 1
  }

  predicate InRange(rank: real, count: nat) {
    count >= 1 && 0.0 <= rank <= (count - 1) as real
  }

  function Interpolate(values: seq<real>, rank: real): real
    requires InRange(rank, |values|)
  {
    var lower := Floor(rank);
    Mix(values[lower], values[Upper(|values|, lower)], rank - lower as real)
  }

  /** The indices stay in range and the result between the two neighbours. */
  lemma InterpolateBetween(values: seq<real>, rank: real)
    requires Ordered(values) && InRange(rank, |values|)
    ensures 0 <= Floor(rank) <= Upper(|values|, Floor(rank)) < |values|
    ensures values[Floor(rank)] <= Interpolate(values, rank) <= values[Upper(|values|, Floor(rank))]
  {
    var lower := Floor(rank);
    MixBetween(values[lower], values[Upper(|values|, lower)], rank - lower as real);
  }

  lemma InterpolateMonotone(values: seq<real>, r1: real, r2: real)
    requires Ordered(values) && InRange(r1, |values|) && InRange(r2, |values|) && r1 <= r2
    ensures Interpolate(values, r1) <= Interpolate(values, r2)
  {
    InterpolateBetween(values, r1);
    InterpolateBetween(values, r2);
    var l1, l2 := Floor(r1), Floor(r2);
    if l1 < l2 {
      assert Upper(|values|, l1) <= l2;
    } else {
      MixMonotone(values[l1], values[Upper(|values|, l1)], r1 - l1 as real, r2 - l1 as real);
    }
  }

  function PercentileSorted(p: real, sorted: seq<real>): real
    requires 0.0 <= p <= 100.0 && sorted != []
  {
    if |sorted| == 1 then sorted[0]
    else
      RankBounds(p, |sorted|);
      Interpolate(sorted, Rank(p, |sorted|))
  }

  function PercentileOf(p: real, values: seq<real>): (r: real)
    requires 0.0 <= p <= 100.0 && values != []
  {
    PercentileSorted(p, Sort(values))
  }

  /** The result lies between the smallest and the largest value. */
  lemma PercentileWithinValues(p: real, values: seq<real>, low: real, high: real)
    requires 0.0 <= p <= 100.0 && values != []
    requires forall v | v in values :: low <= v <= high
    ensures low <= PercentileOf(p, values) <= high
  {
    var sorted := Sort(values);
    SortOrdered(values);
    if |sorted| > 1 {
      RankBounds(p, |sorted|);
      var rank := Rank(p, |sorted|);
      InterpolateBetween(sorted, rank);
      assert sorted[Floor(rank)] in sorted && sorted[Upper(|sorted|, Floor(rank))] in sorted;
    } else {
      assert sorted[0] in sorted;
    }
  }

  lemma TimesMonotone(a: real, b: real, c: real)
    requires a <= b && c >= 0.0
    ensures Times(a, c) <= Times(b, c)
  {
    MulMonotone(a, b, c);
  }

  lemma RankMonotone(p: real, q: real, count: nat)
    requires p <= q && count >= 1
    ensures Rank(p, count) <= Rank(q, count)
  {
    hide DivRound, Times;
    ShareMonotone(p, q);
    TimesMonotone(DivRound(p, 100.0), DivRound(q, 100.0), (count - 1) as real);
  }

  /** A larger p never lowers the result, 32-place rounding of p/100 included. */
  lemma PercentileMonotone(p: real, q: real, values: seq<real>)
    requires 0.0 <= p <= q <= 100.0 && values != []
    ensures PercentileOf(p, values) <= PercentileOf(q, values)
  {
    var sorted := Sort(values);
    SortOrdered(values);
    if |sorted| > 1 {
      RankBounds(p, |sorted|);
      RankBounds(q, |sorted|);
      RankMonotone(p, q, |sorted|);
      InterpolateMonotone(sorted, Rank(p, |sorted|), Rank(q, |sorted|));
    }
  }

  lemma EndRanks(count: nat)
    requires count >= 1
    ensures Rank(0.0, count) == 0.0 && Rank(100.0, count) == (count - 1) as real
  {
    ShareEnds();
  }

  lemma InterpolateAtIndex(values: seq<real>, k: nat)
    requires k < |values|
    ensures Interpolate(values, k as real) == values[k]
  {
    FloorOfInt(k);
    MixIsLinear(values[k], values[Upper(|values|, k)], 0.0);
  }

  /** The ends are the extremes: p = 0 gives the smallest value and p = 100 the largest. */
  lemma PercentileEnds(values: seq<real>)
    requires values != []
    ensures PercentileOf(0.0, values) in values && forall v | v in values :: PercentileOf(0.0, values) <= v
    ensures PercentileOf(100.0, values) in values && forall v | v in values :: v <= PercentileOf(100.0, values)
  {
    var sorted := Sort(values);
    var n := |sorted|;
    SortOrdered(values);
    EndRanks(n);
    InterpolateAtIndex(sorted, 0);
    InterpolateAtIndex(sorted, n - 1);
    assert PercentileOf(0.0, values) == sorted[0] && PercentileOf(100.0, values) == sorted[n - 1];
    assert forall v | v in values :: v in sorted;
  }

  // ----- The value between two neighbours -----

  lemma SmallestFirst(a: seq<real>, b: seq<real>)
    requires Ordered(a) && a != [] && multiset(a) == multiset(b) && b != []
    ensures a[0] <= b[0]
  {
    assert b[0] in multiset(b);
    assert b[0] in multiset(a) && b[0] in a;
  }

  lemma RestOf(a: seq<real>)
    requires a != []
    ensures multiset(a[1..]) == multiset(a) - multiset{a[0]}
    ensures Ordered(a) ==> Ordered(a[1..])
  {
    assert a == [a[0]] + a[1..];
  }

  /** There is one way to put values in order. */
  lemma {:induction false} OrderedOnce(a: seq<real>, b: seq<real>)
    requires Ordered(a) && Ordered(b) && multiset(a) == multiset(b)
    ensures a == b
  {
    assert |a| == |multiset(a)| == |multiset(b)| == |b|;
    if a != [] {
      SmallestFirst(a, b);
      SmallestFirst(b, a);
      RestOf(a);
      RestOf(b);
      hide Ordered;
      OrderedOnce(a[1..], b[1..]);
      assert a == [a[0]] + a[1..] && b == [b[0]] + b[1..];
    }
  }

  lemma FloorBetween(x: real, k: int)
    requires k as real <= x <= k as real + 1.0
    ensures Floor(x) == if x == k as real + 1.0 then k + 1 else k
  {
  }

  lemma NeighboursMix(sorted: seq<real>, rank: real, k: nat)
    requires k + 1 < |sorted| && k as real <= rank <= k as real + 1.0
    ensures InRange(rank, |sorted|)
    ensures Interpolate(sorted, rank) == sorted[k] + Times(sorted[k + 1] - sorted[k], rank - k as real)
  {
    FloorBetween(rank, k);
    var step := sorted[k + 1] - sorted[k];
    if rank == k as real + 1.0 {
      InterpolateAtIndex(sorted, k + 1);
      assert Times(step, 1.0) == step;
    } else {
      MixIsLinear(sorted[k], sorted[k + 1], rank - k as real);
    }
  }

  /** The percentile of values whose k-th and next one in order lie around the rank divides the way
      between them as the rank divides the way between k and k + 1. */
  lemma PercentileMixes(p: real, values: seq<real>, sorted: seq<real>, rank: real, k: nat)
    requires 0.0 <= p <= 100.0 && |values| >= 2
    requires Ordered(sorted) && multiset(sorted) == multiset(values)
    requires rank == Times(DivRound(p, 100.0), (|values| - 1) as real)
    requires k + 1 < |sorted| && k as real <= rank <= k as real + 1.0
    ensures PercentileOf(p, values) == sorted[k] + Times(sorted[k + 1] - sorted[k], rank - k as real)
  {
    SortOrdered(values);
    OrderedOnce(sorted, Sort(values));
    hide DivRound, Sort, Interpolate, Times, Ordered;
    NeighboursMix(sorted, rank, k);
    assert rank == Rank(p, |sorted|);
  }
}
