/** Discounted sums. The source discounts position p (counted from 0) by 1/log2(p + 2);
    here a discount is any positive function that never increases with the position. */
module Discount {
  ghost predicate IsDiscount(d: nat -> real) {
    && (forall p: nat :: d(p) > 0.0)
    && (forall p: nat, q: nat :: p <= q ==> d(p) >= d(q))
  }

  /** The best score k results can reach when every result counts 1. */
  function IdealDcg(k: nat, d: nat -> real): real {
    if k == 0 then 0.0 else IdealDcg(k - 1, d) + d(k - 1)
  }

  lemma {:induction false} IdealDcgPositive(k: nat, d: nat -> real)
    requires IsDiscount(d)
    ensures k == 0 || IdealDcg(k, d) > 0.0
  {
    if k > 1 {
      IdealDcgPositive(k - 1, d);
    }
  }

  /** Gains placed at the positions 0, 1, 2, ... and discounted there. */
  ghost function Weighted(gains: seq<int>, n: nat, d: nat -> real): real
    requires n <= |gains|
  {
    if n == 0 then 0.0 else Weighted(gains, n - 1, d) + gains[n - 1] as real * d(n - 1)
  }

  ghost function PrefixSum(gains: seq<int>, n: nat): int
    requires n <= |gains|
  {
    if n == 0 then 0 else PrefixSum(gains, n - 1) + gains[n - 1]
  }

  lemma {:induction false} WeightedOfPrefix(a: seq<int>, b: seq<int>, n: nat, d: nat -> real)
    requires n <= |a| && n <= |b|
    requires forall i :: 0 <= i < n ==> a[i] == b[i]
    ensures Weighted(a, n, d) == Weighted(b, n, d) && PrefixSum(a, n) == PrefixSum(b, n)
  {
    if n > 0 {
      WeightedOfPrefix(a, b, n - 1, d);
    }
  }

  lemma WeightedAppend(g: seq<int>, gain: int, d: nat -> real)
    ensures Weighted(g + [gain], |g| + 1, d) == Weighted(g, |g|, d) + gain as real * d(|g|)
  {
    WeightedOfPrefix(g, g + [gain], |g|, d);
  }

  lemma GainSmaller(gain: int, low: real, high: real) returns (small: real, large: real)
    requires gain > 0 && low <= high
    ensures small == gain as real * low && large == gain as real * high && small <= large
  {
    small, large := gain as real * low, gain as real * high;
    ScaleMonotone(gain as real, low, high);
  }

  /** One more gain, moved up from position n to the next free one. */
  lemma MoveUp(g: seq<int>, h: seq<int>, gain: int, n: nat, before: real, after: real, d: nat -> real)
    requires IsDiscount(d) && gain > 0 && |g| <= n && h == g + [gain]
    requires before <= Weighted(g, |g|, d) && after == before + gain as real * d(n)
    ensures after <= Weighted(h, |h|, d)
  {
    var small, large := GainSmaller(gain, d(n), d(|g|));
    WeightedAppend(g, gain, d);
  }

  lemma {:induction false} WeightedGrows(gains: seq<int>, m: nat, n: nat, d: nat -> real)
    requires m <= n <= |gains| && IsDiscount(d)
    requires forall i :: 0 <= i < |gains| ==> gains[i] > 0
    ensures Weighted(gains, m, d) <= Weighted(gains, n, d)
    ensures m < n ==> Weighted(gains, m, d) < Weighted(gains, n, d)
  {
    if m < n {
      WeightedGrows(gains, m, n - 1, d);
      ProductPositive(gains[n - 1] as real, d(n - 1));
    }
  }

  lemma ProductPositive(x: real, y: real)
    requires x > 0.0 && y > 0.0
    ensures x * y > 0.0
  {}

  /** Summation by parts: if every prefix of b gains at least as much as the same prefix of a,
      then the weighted difference is at least the prefix difference times the last discount. */
  lemma {:induction false} DominatedByParts(a: seq<int>, b: seq<int>, n: nat, d: nat -> real)
    requires 0 < n <= |a| && n <= |b| && IsDiscount(d)
    requires forall m: nat :: m <= n ==> PrefixSum(a, m) <= PrefixSum(b, m)
    ensures Weighted(b, n, d) - Weighted(a, n, d) >= (PrefixSum(b, n) - PrefixSum(a, n)) as real * d(n - 1)
  {
    var lead := PrefixSum(b, n - 1) - PrefixSum(a, n - 1);
    var ahead := Weighted(b, n - 1, d) - Weighted(a, n - 1, d);
    if n == 1 {
      assert lead == 0 && ahead == 0.0;
    } else {
      DominatedByParts(a, b, n - 1, d);
      ScaleMonotone(lead as real, d(n - 1), d(n - 2));
    }
    OneMorePart(lead, ahead, a[n - 1], b[n - 1], d(n - 1));
  }

  lemma OneMorePart(lead: int, ahead: real, x: int, y: int, w: real)
    requires ahead >= lead as real * w
    ensures ahead + y as real * w - x as real * w >= (lead + y - x) as real * w
  {
    assert (lead + y - x) as real == lead as real + y as real - x as real;
  }

  lemma ScaleMonotone(x: real, y: real, z: real)
    requires x >= 0.0 && y <= z
    ensures x * y <= x * z
  {}

  lemma Dominated(a: seq<int>, b: seq<int>, n: nat, d: nat -> real)
    requires n <= |a| && n <= |b| && IsDiscount(d)
    requires forall m: nat :: m <= n ==> PrefixSum(a, m) <= PrefixSum(b, m)
    ensures Weighted(a, n, d) <= Weighted(b, n, d)
  {
    if n > 0 {
      DominatedByParts(a, b, n, d);
      ScaleMonotone((PrefixSum(b, n) - PrefixSum(a, n)) as real, 0.0, d(n - 1));
    }
  }

  /** A score of at most the best one, over the best one. */
  lemma UnitQuotient(x: real, y: real)
    requires 0.0 <= x <= y && 0.0 < y
    ensures 0.0 <= x / y <= 1.0
    ensures x / y == 0.0 <==> x == 0.0
    ensures x / y == 1.0 <==> x == y
  {}
}
