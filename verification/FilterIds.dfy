/** FtsFilterIdPermutation: an affine map that scatters filter ids over the corpus order. */
module FilterIds {
  import opened Arith
  import opened Util

  const GOLDEN_RATIO_64: nat := 0x9E3779B97F4A7C15
  const OFFSET_SEED: nat := 0xD1B54A32D192ED03
  const TWO_64: nat := 0x1_0000_0000_0000_0000

  /** math.gcd on positive arguments: Euclid's algorithm. */
  function Gcd(a: nat, b: nat): (g: nat)
    requires a > 0 || b > 0
    ensures g > 0
    decreases b
  {
    if b == 0 then a else Gcd(b, a % b)
  }

  lemma BezoutStep(b: int, q: int, r: int, s: int, t: int)
    ensures t * (q * b + r) + (s - t * q) * b == s * b + t * r
  {
    Times(t, q, b);
    Times(s, t * q, b);
    Times(q * b, r, t);
  }

  /** Bezout: the gcd is a combination of its arguments. */
  lemma {:induction false} Bezout(a: nat, b: nat) returns (s: int, t: int)
    requires a > 0 || b > 0
    ensures s * a + t * b == Gcd(a, b)
    decreases b
  {
    if b == 0 {
      s, t := 1, 0;
    } else {
      var s1, t1 := Bezout(b, a % b);
      s, t := t1, s1 - t1 * (a / b);
      BezoutStep(b, a / b, a % b, s1, t1);
    }
  }

  lemma {:induction false} GcdDividesBoth(a: nat, b: nat) returns (x: nat, y: nat)
    requires a > 0 || b > 0
    ensures a == x * Gcd(a, b) && b == y * Gcd(a, b)
    decreases b
  {
    if b == 0 {
      x, y := 1, 0;
    } else {
      var x1, y1 := GcdDividesBoth(b, a % b);
      var g := Gcd(a, b);
      x, y := (a / b) * x1 + y1, x1;
      assert a == (a / b) * b + a % b;
      assert ((a / b) * x1) * g == (a / b) * (x1 * g);
      assert ((a / b) * x1 + y1) * g == ((a / b) * x1) * g + y1 * g;
    }
  }

  predicate Divides(d: nat, a: nat, b: nat)
    requires d > 0
  {
    a % d == 0 && b % d == 0
  }

  /** The gcd is 1 exactly when no larger number divides both. */
  lemma CoprimeMeans(a: nat, b: nat)
    requires a > 0 && b > 0
    ensures Gcd(a, b) == 1 <==> forall d: nat :: d > 1 ==> !Divides(d, a, b)
  {
    var g := Gcd(a, b);
    var x: int, y: int := GcdDividesBoth(a, b);
    QuotientOf(a, g, x, 0);
    QuotientOf(b, g, y, 0);
    assert Divides(g, a, b);
    if g == 1 {
      forall d: nat | d > 1 ensures !Divides(d, a, b) {
        if Divides(d, a, b) {
          DividesCombination(a, b, d);
        }
      }
    }
  }

  lemma DividesCombination(a: nat, b: nat, d: nat)
    requires a > 0 && b > 0 && d > 0 && Gcd(a, b) == 1 && Divides(d, a, b)
    ensures d == 1
  {
    var s, t := Bezout(a, b);
    assert a == (a / d) * d && b == (b / d) * d;
    CommonFactor(s, t, a / d, b / d, d);
  }

  lemma CommonFactor(s: int, t: int, x: int, y: int, d: nat)
    requires d > 0 && s * (x * d) + t * (y * d) == 1
    ensures d == 1
  {
    Times(s, x, d);
    Times(t, y, d);
    Times(s * x, t * y, d);
    MultipleBounds(s * x + t * y, d);
  }

  /** The coprime search cannot run past size - 1. */
  lemma PredecessorCoprime(size: nat)
    requires size >= 2
    ensures Gcd(size - 1, size) == 1
  {
    var x: int, y: int := GcdDividesBoth(size - 1, size);
    var g := Gcd(size - 1, size);
    assert (y - x) * g == y * g - x * g == 1;
    MultipleBounds(y - x, g);
  }

  /** The scaled golden ratio always starts the search below size. */
  lemma StartBelowSize(size: nat)
    requires size >= 2
    ensures size * GOLDEN_RATIO_64 / TWO_64 < size
  {
    assert size * GOLDEN_RATIO_64 < size * TWO_64;
    assert size * GOLDEN_RATIO_64 / TWO_64 * TWO_64 <= size * GOLDEN_RATIO_64;
  }

  datatype FtsFilterIdPermutation = FtsFilterIdPermutation(size: nat, multiplier: nat, offset: nat) {

    ghost predicate Valid() {
      && size > 0 && offset < size
      && (if size == 1 then multiplier == 1 else 1 <= multiplier < size)
      && Gcd(multiplier, size) == 1
    }

    function Map(ordinal: int): (r: Result<nat, string>)
      requires size > 0
      ensures r.Ok? <==> 0 <= ordinal < size
      ensures r.Ok? ==> r.value < size
    {
      if ordinal < 0 || ordinal >= size then Err("ordinal out of range")
      else Ok((multiplier * ordinal + offset) % size)
    }
  }

  ghost function Start(size: nat): nat {
    if size * GOLDEN_RATIO_64 / TWO_64 < 1 then 1 else size * GOLDEN_RATIO_64 / TWO_64
  }

  /** The permutation is the same one every time it is built for a size. */
  ghost predicate IsPermutationFor(p: FtsFilterIdPermutation, size: nat) {
    && p.Valid() && p.size == size && p.offset == OFFSET_SEED % size
    && (size >= 2 ==> Start(size) <= p.multiplier)
    && (size >= 2 ==> forall m :: Start(size) <= m < p.multiplier ==> Gcd(m, size) != 1)
  }

  /** m is at least 1, and size times the golden ratio is below m + 1. */
  predicate AtScaledRatio(size: nat, m: nat) {
    m >= 1 && size * GOLDEN_RATIO_64 < (m + 1) * TWO_64
  }

  /** The search starts at the least such number. */
  lemma StartIs(size: nat, m: nat)
    ensures Start(size) <= m <==> AtScaledRatio(size, m)
  {
    var x := size * GOLDEN_RATIO_64;
    var q := x / TWO_64;
    assert x == q * TWO_64 + x % TWO_64;
    if q <= m {
      ScaledLe(q, m, TWO_64);
    } else {
      ScaledLe(m + 1, q, TWO_64);
    }
  }

  lemma PermutationForSizeUnique(p: FtsFilterIdPermutation, q: FtsFilterIdPermutation, size: nat)
    requires IsPermutationFor(p, size) && IsPermutationFor(q, size)
    ensures p == q
  {}

  ghost function FirstCoprime(size: nat, m: nat): (r: nat)
    requires size >= 2 && Start(size) <= m < size
    requires forall k :: Start(size) <= k < m ==> Gcd(k, size) != 1
    ensures m <= r < size && Gcd(r, size) == 1
    ensures forall k :: Start(size) <= k < r ==> Gcd(k, size) != 1
    decreases size - m
  {
    PredecessorCoprime(size);
    if Gcd(m, size) == 1 then m else FirstCoprime(size, m + 1)
  }

  /** There is one for every size. */
  ghost function PermutationFor(size: nat): (p: FtsFilterIdPermutation)
    requires size > 0
    ensures IsPermutationFor(p, size)
  {
    if size == 1 then FtsFilterIdPermutation(1, 1, 0)
    else
      StartBelowSize(size);
      FtsFilterIdPermutation(size, FirstCoprime(size, Start(size)), OFFSET_SEED % size)
  }

  method ForSize(size: int) returns (r: Result<FtsFilterIdPermutation, string>)
    ensures r.Ok? <==> size > 0
    ensures r.Ok? ==> IsPermutationFor(r.value, size)
  {
    if size <= 0 {
      return Err("size must be positive");
    }
    if size == 1 {
      return Ok(FtsFilterIdPermutation(1, 1, 0));
    }
    var multiplier := size * GOLDEN_RATIO_64 / TWO_64;
    if multiplier < 1 {
      multiplier := 1;
    }
    StartBelowSize(size);
    PredecessorCoprime(size);
    while Gcd(multiplier, size) != 1
      invariant Start(size) <= multiplier < size
      invariant forall m :: Start(size) <= m < multiplier ==> Gcd(m, size) != 1
      decreases size - multiplier
    {
      multiplier := multiplier + 1;
      assert multiplier < size;  // so the wrap below is never taken
      if multiplier >= size {
        multiplier := 1;
      }
    }
    r := Ok(FtsFilterIdPermutation(size, multiplier, OFFSET_SEED % size));
  }

  // ---- the map is a bijection on [0, size) ----

  lemma SolveModulo(m: int, n: int, s: int, t: int, shift: int, k: int)
    requires s * m + t * n == 1
    ensures m * (s * shift - k * n) - shift == (-(t * shift) - m * k) * n
  {
    Times(s * m, t * n, shift);
    Times(m, s, shift);
    Times(m, k, n);
    Times(t, n, shift);
    Times(-(t * shift), m * k, n);
    Times(s * shift, k * n, m);
  }

  lemma CancelModulo(m: int, n: int, s: int, t: int, diff: int, q: int)
    requires s * m + t * n == 1 && m * diff == q * n
    ensures diff == (s * q + t * diff) * n
  {
    Times(s * m, t * n, diff);
    Times(s, m, diff);
    Times(s, q, n);
    Times(t, n, diff);
    Times(s * q, t * diff, n);
  }

  lemma Quotient(x: int, n: int) returns (k: int)
    requires n > 0
    ensures x % n == x - k * n
  {
    k := x / n;
  }

  lemma ModularSolution(m: int, n: int, s: int, t: int, shift: int) returns (x: int, z: int)
    requires n > 0 && s * m + t * n == 1
    ensures 0 <= x < n && m * x - shift == z * n
  {
    var k := Quotient(s * shift, n);
    x := s * shift % n;
    SolveModulo(m, n, s, t, shift, k);
    z := -(t * shift) - m * k;
  }

  lemma PreimageUnder(m: int, n: int, offset: int, id: int, s: int, t: int) returns (x: int)
    requires 0 <= id < n && s * m + t * n == 1
    ensures 0 <= x < n && (m * x + offset) % n == id
  {
    var z;
    x, z := ModularSolution(m, n, s, t, id - offset);
    SameRemainder(m * x + offset, id, z, n);
    SmallRemainder(id, n);
  }

  /** Every id has an ordinal that is mapped to it. */
  lemma OrdinalOf(p: FtsFilterIdPermutation, id: nat) returns (ordinal: nat)
    requires p.Valid() && id < p.size
    ensures ordinal < p.size && p.Map(ordinal) == Ok(id)
  {
    var s, t := Bezout(p.multiplier, p.size);
    ordinal := PreimageUnder(p.multiplier, p.size, p.offset, id, s, t);
  }

  lemma EqualRemainders(a: int, b: int, n: int) returns (q: int)
    requires n > 0 && a % n == b % n
    ensures a - b == q * n
  {
    var k := Quotient(a, n);
    var l := Quotient(b, n);
    q := k - l;
    Times(k, l, n);
  }

  lemma Cancellation(m: int, n: int, s: int, t: int, x: int, y: int, q: int)
    requires s * m + t * n == 1 && 0 <= x < n && 0 <= y < n && m * x - m * y == q * n
    ensures x == y
  {
    Times(x, y, m);
    CancelModulo(m, n, s, t, x - y, q);
    MultipleBounds(s * q + t * (x - y), n);
  }

  /** No two ordinals share an id. */
  lemma MapInjective(p: FtsFilterIdPermutation, x: nat, y: nat)
    requires p.Valid() && x < p.size && y < p.size && p.Map(x) == p.Map(y)
    ensures x == y
  {
    var s, t := Bezout(p.multiplier, p.size);
    var q := EqualRemainders(p.multiplier * x + p.offset, p.multiplier * y + p.offset, p.size);
    Cancellation(p.multiplier, p.size, s, t, x, y, q);
  }

  ghost function Passing(p: FtsFilterIdPermutation, threshold: nat): (s: set<nat>)
    requires p.size > 0
    ensures forall o: nat :: o in s <==> o < p.size && p.Map(o).value >= threshold
  {
    set o: nat | o < p.size && p.Map(o).value >= threshold
  }

  /** matched_doc_count: exactly size - threshold ordinals get an id of at least the threshold. */
  lemma {:induction false} PassingCount(p: FtsFilterIdPermutation, threshold: nat)
    requires p.Valid() && threshold <= p.size
    ensures |Passing(p, threshold)| == p.size - threshold
    decreases p.size - threshold
  {
    if threshold == p.size {
      assert Passing(p, threshold) == {};
    } else {
      PassingCount(p, threshold + 1);
      var o := OrdinalOf(p, threshold);
      forall x | x in Passing(p, threshold) && x !in Passing(p, threshold + 1) ensures x == o {
        MapInjective(p, x, o);
      }
      assert Passing(p, threshold) == Passing(p, threshold + 1) + {o};
    }
  }

  /** Filter ids start at the offset and go up by the multiplier from one document to the next, around size. */
  lemma MapStep(p: FtsFilterIdPermutation, x: nat)
    requires p.Valid() && x + 1 < p.size
    ensures p.Map(0) == Ok(p.offset)
    ensures var next := p.Map(x).value + p.multiplier;
            p.Map(x + 1) == Ok(if next < p.size then next else next - p.size)
  {
    var a, m, n := p.multiplier * x + p.offset, p.multiplier, p.size;
    SmallRemainder(p.offset, n);
    Times(x, 1, m);
    var k := a / n;
    assert a == k * n + a % n;
    Times(k, 1, n);
    if a % n + m < n {
      QuotientOf(a + m, n, k, a % n + m);
    } else {
      QuotientOf(a + m, n, k + 1, a % n + m - n);
    }
  }
}
