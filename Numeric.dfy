/** Arithmetic shared by the statistical tests: sums of counts and of reals,
    powers, integer division facts, Python slice bounds, and the shape of a
    float64 result that may be NaN. */
module Numeric {

  /** A float64 result of a test. Finite values are computed exactly over the
      reals; NaN is what IEEE arithmetic yields for 0/0. */
  datatype Float = Num(value: real) | NaN

  /** Sum of a sequence of counts (NumPy's `sum` on an integer array). */
  function Sum(s: seq<nat>): nat
  {
    if s == [] then 0 else s[0] + Sum(s[1..])
  }

  /** Sum of a sequence of reals. */
  function RealSum(s: seq<real>): real
  {
    if s == [] then 0.0 else s[0] + RealSum(s[1..])
  }

  function Pow(b: nat, e: nat): (r: nat)
    ensures b > 0 ==> r > 0
  {
    if e == 0 then 1 else b * Pow(b, e - 1)
  }

  lemma {:induction false} SumAppend(a: seq<nat>, b: seq<nat>)
    ensures Sum(a + b) == Sum(a) + Sum(b)
  {
    if a == [] {
      assert a + b == b;
    } else {
      assert (a + b)[1..] == a[1..] + b;
      SumAppend(a[1..], b);
    }
  }

  /** Adding one to a single entry adds one to the total. */
  lemma {:induction false} SumIncrement(h: seq<nat>, i: nat)
    requires i < |h|
    ensures Sum(h[i := h[i] + 1]) == Sum(h) + 1
  {
    if i > 0 {
      assert h[i := h[i] + 1][1..] == h[1..][i - 1 := h[i] + 1];
      SumIncrement(h[1..], i - 1);
    }
  }

  /** No entry exceeds the total. */
  lemma {:induction false} EntryAtMostSum(h: seq<nat>, i: nat)
    requires i < |h|
    ensures h[i] <= Sum(h)
  {
    if i > 0 {
      EntryAtMostSum(h[1..], i - 1);
    }
  }

  /** No entry of a non-negative real sequence exceeds its sum. */
  lemma {:induction false} RealEntryAtMostSum(s: seq<real>, i: nat)
    requires i < |s| && forall j :: 0 <= j < |s| ==> s[j] >= 0.0
    ensures s[i] <= RealSum(s)
  {
    RealSumNonNegative(s[1..]);
    if i > 0 {
      RealEntryAtMostSum(s[1..], i - 1);
    }
  }

  lemma {:induction false} RealSumNonNegative(s: seq<real>)
    requires forall j :: 0 <= j < |s| ==> s[j] >= 0.0
    ensures RealSum(s) >= 0.0
  {
    if s != [] {
      RealSumNonNegative(s[1..]);
    }
  }

  /** Entries of a sequence that sums to zero are all zero. */
  lemma ZeroSum(h: seq<nat>)
    requires Sum(h) == 0
    ensures forall i :: 0 <= i < |h| ==> h[i] == 0
  {
    forall i | 0 <= i < |h|
      ensures h[i] == 0
    {
      EntryAtMostSum(h, i);
    }
  }

  /** A sequence of n copies of c sums to n times c. */
  lemma {:induction false} SumConstant(s: seq<nat>, c: nat)
    requires forall i :: 0 <= i < |s| ==> s[i] == c
    ensures Sum(s) == |s| * c
  {
    if s != [] {
      SumConstant(s[1..], c);
    }
  }

  lemma {:induction false} RealSumConstant(s: seq<real>, c: real)
    requires forall i :: 0 <= i < |s| ==> s[i] == c
    ensures RealSum(s) == |s| as real * c
  {
    if s != [] {
      RealSumConstant(s[1..], c);
    }
  }

  lemma DivideSelf(x: real)
    requires x > 0.0
    ensures x / x == 1.0
  {
  }

  /** Euclidean division is determined by quotient and remainder. */
  lemma DivisionUnique(a: nat, m: nat, q: nat, r: nat)
    requires 0 < m && r < m && a == q * m + r
    ensures a / m == q && a % m == r
  {
    var q', r' := a / m, a % m;
    assert (q - q') * m == r' - r;
    MultiplyMonotone(1, q - q', m);
    MultiplyMonotone(1, q' - q, m);
  }

  lemma MultiplyMonotone(x: int, y: int, k: nat)
    ensures x <= y ==> x * k <= y * k
  {
  }

  /** Dividing by b and then by c is dividing by b * c. */
  lemma DivideTwice(a: nat, b: nat, c: nat)
    requires b > 0 && c > 0
    ensures a / b / c == a / (b * c)
  {
    var q, r := a / b, a % b;
    var q2, r2 := q / c, q % c;
    assert a == q * b + r;
    assert q == q2 * c + r2;
    Recombine(q, q2, r2, r, b, c);
    DivisionUnique(a, b * c, q2, r2 * b + r);
  }

  lemma Recombine(q: nat, q2: nat, r2: nat, r: nat, b: nat, c: nat)
    requires r2 < c && r < b && q == q2 * c + r2
    ensures q * b + r == q2 * (b * c) + (r2 * b + r)
    ensures r2 * b + r < b * c
  {
    MultiplyMonotone(r2, c - 1, b);
  }

  lemma SumOfQuotients(a: real, b: real, m: real)
    requires m > 0.0
    ensures a / m + b / m == (a + b) / m
  {
  }

  /** A part over a positive whole lies in [0, 1]. */
  lemma FractionInUnitInterval(a: real, t: real)
    requires 0.0 <= a <= t && t > 0.0
    ensures 0.0 <= a / t <= 1.0
  {
  }

  /** Python's normalisation of a slice bound `i` on a sequence of length n:
      a negative bound counts from the end; the result is clamped to [0, n]. */
  function SliceBound(i: int, n: nat): (r: nat)
    ensures r <= n
  {
    if i < 0 then (if i + n < 0 then 0 else i + n)
    else if i > n then n
    else i
  }
}
