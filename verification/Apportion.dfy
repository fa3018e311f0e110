/** Largest-remainder rounding of positive weights to whole counts, over exact reals. */
module Apportion {

  function Sum(xs: seq<int>): int {
    if xs == [] then 0 else Sum(xs[..|xs| - 1]) + xs[|xs| - 1]
  }

  function RealSum(v: seq<real>): real {
    if v == [] then 0.0 else RealSum(v[..|v| - 1]) + v[|v| - 1]
  }

  ghost predicate Positive(w: seq<real>) {
    forall i | 0 <= i < |w| :: w[i] > 0.0
  }

  function Fraction(v: real): real { v - v.Floor as real }

  /** The exact shares: total * w[i] / sum. */
  function Shares(total: nat, w: seq<real>): seq<real>
    requires w != [] ==> RealSum(w) > 0.0
  {
    seq(|w|, i requires 0 <= i < |w| => ShareOf(total as real, w[i], RealSum(w)))
  }

  function ShareOf(total: real, weight: real, sum: real): real
    requires sum > 0.0
  {
    total * weight / sum
  }

  /** Counts that add up to the total, each the floor or the ceiling of its share, in the order of the shares. */
  ghost predicate IsRounding(total: nat, v: seq<real>, counts: seq<int>) {
    && |counts| == |v|
    && Sum(counts) == total
    && (forall i | 0 <= i < |v| :: 0 <= v[i].Floor <= counts[i] <= v[i].Floor + 1)
    && (forall i | 0 <= i < |v| && counts[i] == v[i].Floor + 1 :: Fraction(v[i]) > 0.0)
    && (forall i, j | 0 <= i < |v| && 0 <= j < |v| && v[i] > v[j] :: counts[i] >= counts[j])
  }

  /** What the rounding promises about the weights: a strictly heavier one never gets a smaller count. */
  ghost predicate IsApportionment(total: nat, w: seq<real>, counts: seq<int>) {
    && (w != [] ==> RealSum(w) > 0.0)
    && IsRounding(total, Shares(total, w), counts)
    && (forall i, j | 0 <= i < |w| && 0 <= j < |w| && w[i] > w[j] :: counts[i] >= counts[j])
  }

  // ---------------------------------------------------------------- the library sort

  /** order lists 0 .. n-1, each once. */
  ghost predicate Permutes(order: seq<nat>, n: nat) {
    && |order| == n
    && (forall p | 0 <= p < n :: order[p] < n)
    && (forall p, q | 0 <= p < q < n :: order[p] != order[q])
    && (forall k: nat | k < n :: k in order)
  }

  ghost predicate Descending(keys: seq<real>, order: seq<nat>) {
    && (forall p | 0 <= p < |order| :: order[p] < |keys|)
    && (forall p, q | 0 <= p < q < |order| :: keys[order[p]] >= keys[order[q]])
  }

  /** A position for key i behind all larger keys and before all smaller ones; among equal keys it is arbitrary. */
  method FindSlot(keys: seq<real>, order: seq<nat>, i: nat) returns (p: nat)
    requires i < |keys| && Descending(keys, order)
    ensures p <= |order|
    ensures forall q | 0 <= q < p :: keys[order[q]] >= keys[i]
    ensures forall q | p <= q < |order| :: keys[i] >= keys[order[q]]
  {
    p := 0;
    while p < |order|
      invariant p <= |order|
      invariant forall q | 0 <= q < p :: keys[order[q]] >= keys[i]
    {
      var coin: bool := *;
      if keys[order[p]] < keys[i] || (keys[order[p]] == keys[i] && coin) { break; }
      p := p + 1;
    }
  }

  lemma InsertPermutes(order: seq<nat>, p: nat)
    requires Permutes(order, |order|) && p <= |order|
    ensures Permutes(order[..p] + [|order|] + order[p..], |order| + 1)
  {
    var n, next := |order|, order[..p] + [|order|] + order[p..];
    forall k: nat | k < n + 1 ensures k in next {
      if k < n {
        assert k in order;
        var q :| 0 <= q < n && order[q] == k;
        assert next[if q < p then q else q + 1] == k;
      } else {
        assert next[p] == n;
      }
    }
  }

  lemma InsertDescends(keys: seq<real>, order: seq<nat>, i: nat, p: nat)
    requires i < |keys| && Descending(keys, order) && p <= |order|
    requires forall q | 0 <= q < p :: keys[order[q]] >= keys[i]
    requires forall q | p <= q < |order| :: keys[i] >= keys[order[q]]
    ensures Descending(keys, order[..p] + [i] + order[p..])
  {
  }

  /** The contract of an unstable sort: the order of equal keys is arbitrary. */
  method SortDescending(keys: seq<real>) returns (order: seq<nat>)
    ensures Permutes(order, |keys|) && Descending(keys, order)
  {
    order := [];
    for i := 0 to |keys|
      invariant |order| == i && Permutes(order, i) && Descending(keys, order)
    {
      var p := FindSlot(keys, order, i);
      InsertPermutes(order, p);
      InsertDescends(keys, order, i, p);
      order := order[..p] + [i] + order[p..];
    }
  }

  // ---------------------------------------------------------------- exact shares

  lemma {:induction false} RealSumPositive(w: seq<real>)
    requires Positive(w)
    ensures RealSum(w) >= 0.0 && (w != [] ==> RealSum(w) > 0.0)
  {
    if w != [] { RealSumPositive(w[..|w| - 1]); }
  }

  lemma SharesAdd(t: real, a: real, b: real, s: real)
    requires s > 0.0
    ensures ShareOf(t, a, s) + ShareOf(t, b, s) == ShareOf(t, a + b, s)
  {
    var x, y, z := ShareOf(t, a, s), ShareOf(t, b, s), ShareOf(t, a + b, s);
    assert x * s == t * a && y * s == t * b && z * s == t * (a + b);
    assert t * (a + b) == t * a + t * b;
    assert (x + y) * s == z * s;
  }

  lemma ShareMonotone(t: real, a: real, b: real, s: real)
    requires s > 0.0 && t > 0.0 && a > b
    ensures ShareOf(t, a, s) > ShareOf(t, b, s)
  {
    var x, y := ShareOf(t, a, s), ShareOf(t, b, s);
    assert x * s == t * a && y * s == t * b;
    assert t * (a - b) > 0.0;
    assert (x - y) * s == t * (a - b);
  }

  lemma ShareOfAll(t: real, s: real)
    requires s > 0.0
    ensures ShareOf(t, s, s) == t && ShareOf(t, 0.0, s) == 0.0 && ShareOf(0.0, s, s) == 0.0
  {
  }

  lemma ShareNonNegative(t: real, a: real, s: real)
    requires s > 0.0 && t >= 0.0 && a >= 0.0
    ensures ShareOf(t, a, s) >= 0.0
    ensures t == 0.0 ==> ShareOf(t, a, s) == 0.0
  {
    var x := ShareOf(t, a, s);
    assert x * s == t * a >= 0.0;
  }

  lemma {:induction false} SharesSum(total: real, w: seq<real>, s: real, v: seq<real>)
    requires s > 0.0 && |v| == |w| && forall i | 0 <= i < |w| :: v[i] == ShareOf(total, w[i], s)
    ensures RealSum(v) == ShareOf(total, RealSum(w), s)
  {
    if w == [] {
      ShareOfAll(total, s);
    } else {
      var n := |w| - 1;
      SharesSum(total, w[..n], s, v[..n]);
      SharesAdd(total, RealSum(w[..n]), w[n], s);
    }
  }

  /** The exact shares of positive weights are non-negative and add up to the total. */
  lemma SharesAddUp(total: nat, w: seq<real>)
    requires Positive(w) && (w == [] ==> total == 0)
    ensures w != [] ==> RealSum(w) > 0.0
    ensures RealSum(Shares(total, w)) == total as real
    ensures forall i | 0 <= i < |w| :: Shares(total, w)[i] >= 0.0
  {
    RealSumPositive(w);
    if w != [] {
      SharesSum(total as real, w, RealSum(w), Shares(total, w));
      ShareOfAll(total as real, RealSum(w));
      forall i | 0 <= i < |w| ensures Shares(total, w)[i] >= 0.0 {
        ShareNonNegative(total as real, w[i], RealSum(w));
      }
    }
  }

  // ---------------------------------------------------------------- the leftover

  function FloorSum(v: seq<real>): int {
    if v == [] then 0 else FloorSum(v[..|v| - 1]) + v[|v| - 1].Floor
  }

  /** How many shares are not whole. */
  function Inexact(v: seq<real>): nat {
    if v == [] then 0 else Inexact(v[..|v| - 1]) + if Fraction(v[|v| - 1]) > 0.0 then 1 else 0
  }

  lemma {:induction false} FractionsBounded(v: seq<real>)
    ensures var rest := RealSum(v) - FloorSum(v) as real;
            && 0.0 <= rest <= Inexact(v) as real
            && (Inexact(v) > 0 ==> rest < Inexact(v) as real)
    ensures Inexact(v) <= |v|
  {
    if v != [] { FractionsBounded(v[..|v| - 1]); }
  }

  /** The leftover is below the number of inexact shares, hence in [0, n-1]: the bonus index stays in bounds. */
  lemma LeftoverInBounds(total: nat, v: seq<real>)
    requires RealSum(v) == total as real
    ensures var left := total - FloorSum(v);
            && 0 <= left && (v != [] ==> left <= |v| - 1) && (v == [] ==> left == 0)
            && (left > 0 ==> left < Inexact(v))
  {
    FractionsBounded(v);
    var left := total - FloorSum(v);
    assert left as real == RealSum(v) - FloorSum(v) as real;
  }

  // ---------------------------------------------------------------- who gets the leftover

  /** How many of 0 .. n-1 are among the first b of the order. */
  ghost function Marked(order: seq<nat>, b: nat, n: nat): nat
    requires b <= |order|
  {
    if n == 0 then 0 else Marked(order, b, n - 1) + if n - 1 in order[..b] then 1 else 0
  }

  lemma {:induction false} MarkOneMore(order: seq<nat>, b: nat, n: nat)
    requires b < |order| && order[b] !in order[..b]
    ensures Marked(order, b + 1, n) == Marked(order, b, n) + if order[b] < n then 1 else 0
  {
    assert order[..b + 1] == order[..b] + [order[b]];
    if n > 0 { MarkOneMore(order, b, n - 1); }
  }

  lemma {:induction false} NoneMarked(order: seq<nat>, n: nat)
    ensures Marked(order, 0, n) == 0
  {
    if n > 0 { NoneMarked(order, n - 1); }
  }

  lemma {:induction false} MarkedCount(order: seq<nat>, b: nat, n: nat)
    requires Permutes(order, n) && b <= n
    ensures Marked(order, b, n) == b
  {
    if b == 0 {
      NoneMarked(order, n);
    } else {
      MarkedCount(order, b - 1, n);
      assert order[b - 1] !in order[..b - 1];
      MarkOneMore(order, b - 1, n);
    }
  }

  lemma {:induction false} InexactWithinMarked(v: seq<real>, order: seq<nat>, b: nat)
    requires b <= |order|
    requires forall k: nat | k < |v| && Fraction(v[k]) > 0.0 :: k in order[..b]
    ensures Inexact(v) <= Marked(order, b, |v|)
  {
    if v != [] { InexactWithinMarked(v[..|v| - 1], order, b); }
  }

  /** The fractions that the code sorts by. */
  ghost predicate FractionsOf(keys: seq<real>, v: seq<real>) {
    |keys| == |v| && forall k | 0 <= k < |v| :: keys[k] == Fraction(v[k])
  }

  /** Every index that gets a bonus unit has a positive fraction. */
  lemma BonusIsInexact(total: nat, v: seq<real>, keys: seq<real>, order: seq<nat>, b: nat)
    requires RealSum(v) == total as real && FractionsOf(keys, v)
    requires Permutes(order, |v|) && Descending(keys, order)
    requires b < total - FloorSum(v) && b < |v|
    ensures Fraction(v[order[b]]) > 0.0
  {
    if Fraction(v[order[b]]) <= 0.0 {
      forall k: nat | k < |v| && Fraction(v[k]) > 0.0 ensures k in order[..b] {
        assert k in order;
        var p :| 0 <= p < |order| && order[p] == k;
        assert p < b;
        assert order[..b][p] == k;
      }
      InexactWithinMarked(v, order, b);
      MarkedCount(order, b, |v|);
      LeftoverInBounds(total, v);
      assert false;
    }
  }

  /** Sorted by fraction, the first `left` indices include every larger share with the same floor. */
  lemma LargerNotSmaller(v: seq<real>, keys: seq<real>, order: seq<nat>, left: nat, i: nat, j: nat)
    requires i < |v| && j < |v| && v[i] > v[j]
    requires FractionsOf(keys, v) && Permutes(order, |v|) && Descending(keys, order) && left <= |order|
    ensures v[i].Floor + (if i in order[..left] then 1 else 0) >= v[j].Floor + (if j in order[..left] then 1 else 0)
  {
    if v[i].Floor == v[j].Floor && j in order[..left] {
      var q :| 0 <= q < left && order[..left][q] == j;
      assert i in order;
      var p :| 0 <= p < |order| && order[p] == i;
      assert p < q;
      assert order[..left][p] == i;
    }
  }

  lemma {:induction false} SumUpdate(xs: seq<int>, i: nat, x: int)
    requires i < |xs|
    ensures Sum(xs[i := x]) == Sum(xs) - xs[i] + x
  {
    var n := |xs| - 1;
    if i == n {
      assert xs[i := x][..n] == xs[..n];
    } else {
      assert xs[i := x][..n] == xs[..n][i := x];
      SumUpdate(xs[..n], i, x);
    }
  }

  lemma {:induction false} FloorsSum(v: seq<real>, xs: seq<int>)
    requires |xs| == |v| && forall k | 0 <= k < |v| :: xs[k] == v[k].Floor
    ensures Sum(xs) == FloorSum(v)
  {
    if v != [] { FloorsSum(v[..|v| - 1], xs[..|v| - 1]); }
  }

  /** Floors plus one unit for the first `left` of the order, for whatever order the sort gives ties. */
  lemma FinalCounts(total: nat, v: seq<real>, keys: seq<real>, order: seq<nat>, left: nat, counts: seq<int>)
    requires RealSum(v) == total as real && FractionsOf(keys, v) && forall i | 0 <= i < |v| :: v[i] >= 0.0
    requires Permutes(order, |v|) && Descending(keys, order)
    requires left == total - FloorSum(v) && left <= |v|
    requires |counts| == |v| && Sum(counts) == total
    requires forall k: nat | k < |v| :: counts[k] == v[k].Floor + if k in order[..left] then 1 else 0
    ensures IsRounding(total, v, counts)
  {
    forall i: nat | i < |v| && counts[i] == v[i].Floor + 1 ensures Fraction(v[i]) > 0.0 {
      var b :| 0 <= b < left && order[..left][b] == i;
      BonusIsInexact(total, v, keys, order, b);
    }
    forall i, j | 0 <= i < |v| && 0 <= j < |v| && v[i] > v[j] ensures counts[i] >= counts[j] {
      LargerNotSmaller(v, keys, order, left, i, j);
    }
  }

  /** A rounding of the shares is an apportionment of the weights. */
  lemma RoundingApportions(total: nat, w: seq<real>, counts: seq<int>)
    requires Positive(w) && (w != [] ==> RealSum(w) > 0.0) && IsRounding(total, Shares(total, w), counts)
    ensures IsApportionment(total, w, counts)
  {
    var v := Shares(total, w);
    forall i, j | 0 <= i < |w| && 0 <= j < |w| && w[i] > w[j] ensures counts[i] >= counts[j] {
      if total > 0 {
        ShareMonotone(total as real, w[i], w[j], RealSum(w));
        assert v[i] > v[j];
      } else {
        ShareNonNegative(0.0, w[i], RealSum(w));
        ShareNonNegative(0.0, w[j], RealSum(w));
        assert v[i] == 0.0 && v[j] == 0.0;
        assert counts[j] <= v[j].Floor by { assert Fraction(v[j]) == 0.0; }
      }
    }
  }

  // ---------------------------------------------------------------- the rounding loop

  /** The rounding of gaussianCounts and of each row of merchantPickupMatrix. */
  method LargestRemainder(total: nat, w: seq<real>) returns (counts: array<int>)
    requires Positive(w) && (w == [] ==> total == 0)
    ensures fresh(counts) && IsApportionment(total, w, counts[..])
  {
    SharesAddUp(total, w);
    ghost var v := Shares(total, w);
    var sum := AddWeights(w);
    counts := new int[|w|];
    var fractions, given := FillFloors(total, w, sum, counts);
    var order := SortDescending(fractions);
    assert 0 <= total - given <= counts.Length && Sum(counts[..]) == given by {
      LeftoverInBounds(total, v);
      FloorsSum(v, counts[..]);
    }
    AddBonuses(counts, order, total - given, v);
    assert IsApportionment(total, w, counts[..]) by {
      Conclude(total, w, fractions, order, total - given, counts[..]);
    }
  }

  lemma Conclude(total: nat, w: seq<real>, keys: seq<real>, order: seq<nat>, left: nat, counts: seq<int>)
    requires Positive(w) && (w == [] ==> total == 0) && (w != [] ==> RealSum(w) > 0.0)
    requires Permutes(order, |w|) && left <= |w| && |counts| == |w|
    requires var v := Shares(total, w);
             && FractionsOf(keys, v) && left == total - FloorSum(v)
             && forall k: nat | k < |v| :: counts[k] == v[k].Floor + if k in order[..left] then 1 else 0
    requires Descending(keys, order) && Sum(counts) == total
    ensures IsApportionment(total, w, counts)
  {
    SharesAddUp(total, w);
    FinalCounts(total, Shares(total, w), keys, order, left, counts);
    RoundingApportions(total, w, counts);
  }

  /** The floors, in place, with the fractions and the units given so far. */
  method FillFloors(total: nat, w: seq<real>, sum: real, counts: array<int>) returns (fractions: seq<real>, given: int)
    requires counts.Length == |w| && sum == RealSum(w) && (w != [] ==> sum > 0.0)
    modifies counts
    ensures var v := Shares(total, w);
            && given == FloorSum(v) && FractionsOf(fractions, v)
            && forall k | 0 <= k < |w| :: counts[k] == v[k].Floor
  {
    ghost var v := Shares(total, w);
    fractions, given := [], 0;
    for i := 0 to |w|
      invariant |fractions| == i && given == FloorSum(v[..i])
      invariant forall k | 0 <= k < i :: counts[k] == v[k].Floor && fractions[k] == Fraction(v[k])
    {
      var share := ShareOf(total as real, w[i], sum);
      assert share == v[i] && v[..i + 1][..i] == v[..i];
      counts[i] := share.Floor;
      given := given + counts[i];
      fractions := fractions + [share - counts[i] as real];
    }
    assert v[..|w|] == v;
  }

  method AddWeights(w: seq<real>) returns (sum: real)
    ensures sum == RealSum(w)
  {
    sum := 0.0;
    for i := 0 to |w|
      invariant sum == RealSum(w[..i])
    {
      assert w[..i + 1][..i] == w[..i];
      sum := sum + w[i];
    }
    assert w[..|w|] == w;
  }

  /** One unit to each of the first `left` indices of the order, in place. */
  method AddBonuses(counts: array<int>, order: seq<nat>, left: nat, ghost v: seq<real>)
    requires Permutes(order, counts.Length) && left <= counts.Length == |v|
    requires forall k: nat | k < counts.Length :: counts[k] == v[k].Floor
    modifies counts
    ensures forall k: nat | k < counts.Length :: counts[k] == v[k].Floor + if k in order[..left] then 1 else 0
    ensures Sum(counts[..]) == Sum(old(counts[..])) + left
  {
    for b := 0 to left
      invariant Sum(counts[..]) == Sum(old(counts[..])) + b
      invariant forall k: nat | k < counts.Length :: counts[k] == v[k].Floor + if k in order[..b] then 1 else 0
    {
      var k := order[b];
      assert k !in order[..b];
      assert order[..b + 1] == order[..b] + [k];
      SumUpdate(counts[..], k, counts[k] + 1);
      ghost var before := counts[..];
      counts[k] := counts[k] + 1;
      assert counts[..] == before[k := before[k] + 1];
    }
  }

  /** One row per pickup point: each row is an apportionment of its point's count, so it adds up to it. */
  method MerchantPickupMatrix(pickupCounts: seq<nat>, weights: seq<seq<real>>) returns (matrix: seq<seq<int>>)
    requires |weights| == |pickupCounts|
    requires forall p | 0 <= p < |weights| :: weights[p] != [] && Positive(weights[p])
    ensures |matrix| == |pickupCounts|
    ensures forall p | 0 <= p < |matrix| :: IsApportionment(pickupCounts[p], weights[p], matrix[p])
  {
    matrix := [];
    for p := 0 to |pickupCounts|
      invariant |matrix| == p
      invariant forall q | 0 <= q < p :: IsApportionment(pickupCounts[q], weights[q], matrix[q])
    {
      var row := LargestRemainder(pickupCounts[p], weights[p]);
      matrix := matrix + [row[..]];
    }
  }
}
