/** The statistic of `chi_square_test`: the byte histogram against a flat
    expectation of `len(byte_array) / 256` per bin, combined as the sum of
    (observed - expected)^2 / expected. The p-value is not modelled. */
module ChiSquare {
  import opened Numeric
  import opened Samples
  import opened Histogram

  /** `len(byte_array) / 256`: true division, not rounded. */
  function Expected(byteLength: nat): (e: real)
    ensures byteLength > 0 ==> e > 0.0
    ensures byteLength == 0 ==> e == 0.0
  {
    byteLength as real / Bins as real
  }

  /** `np.full(256, len(byte_array) / 256)`. */
  function ExpectedCounts(byteLength: nat): (e: seq<real>)
    ensures |e| == Bins
    ensures forall i :: 0 <= i < Bins ==> e[i] == e[0]
    ensures RealSum(e) == byteLength as real
  {
    var e := seq(Bins, _ => Expected(byteLength));
    RealSumConstant(e, Expected(byteLength));
    e
  }

  /** One bin's contribution (o - e)^2 / e. */
  function Term(o: nat, e: real): (t: real)
    requires e > 0.0
    ensures t >= 0.0
    ensures t == 0.0 <==> o as real == e
  {
    var d := o as real - e;
    SquareOverPositive(d, e);
    d * d / e
  }

  /** A square over a positive number is non-negative, and zero only for zero. */
  lemma SquareOverPositive(d: real, e: real)
    requires e > 0.0
    ensures d * d / e >= 0.0
    ensures d * d / e == 0.0 <==> d == 0.0
  {
    if d > 0.0 {
      assert d / e > 0.0;
      assert d * d / e == d * (d / e);
    } else if d < 0.0 {
      assert (-d) / e > 0.0;
      assert d * d / e == (-d) * ((-d) / e);
    }
  }

  /** Sum of (o - e)^2 / e over the bins. */
  function Statistic(obs: seq<nat>, exp: seq<real>): (r: real)
    requires |obs| == |exp|
    requires forall i :: 0 <= i < |exp| ==> exp[i] > 0.0
    ensures r >= 0.0
    ensures r == 0.0 <==> forall i :: 0 <= i < |obs| ==> obs[i] as real == exp[i]
  {
    if obs == [] then 0.0
    else
      MatchesSplit(obs, exp);
      Term(obs[0], exp[0]) + Statistic(obs[1..], exp[1..])
  }

  /** All counts match exactly when the first does and all the others do. */
  lemma MatchesSplit(obs: seq<nat>, exp: seq<real>)
    requires |obs| == |exp| > 0
    ensures (forall i :: 0 <= i < |obs| ==> obs[i] as real == exp[i])
        <==> obs[0] as real == exp[0]
             && forall i :: 0 <= i < |obs| - 1 ==> obs[1..][i] as real == exp[1..][i]
  {
    if obs[0] as real == exp[0] && forall i :: 0 <= i < |obs| - 1 ==> obs[1..][i] as real == exp[1..][i] {
      forall i | 0 < i < |obs|
        ensures obs[i] as real == exp[i]
      {
        assert obs[1..][i - 1] == obs[i];
      }
    }
  }

  /** k squared, for an integer k. */
  function Square(k: int): (r: nat)
    ensures k != 0 ==> r > 0
  {
    if k < 0 then (-k) * (-k) else k * k
  }

  /** With a flat expectation of n / 256 per bin, each term scaled by 256 * n
      is the integer (256 * o - n)^2; this sums those integers. */
  function ScaledSquares(obs: seq<nat>, n: nat): nat
  {
    if obs == [] then 0 else Square(Bins * obs[0] - n) + ScaledSquares(obs[1..], n)
  }

  lemma TermScaled(o: nat, n: nat, e: real)
    requires n > 0 && e == n as real / Bins as real
    ensures Term(o, e) == Square(Bins * o - n) as real / (Bins * n) as real
  {
    var d := o as real - e;
    assert Term(o, e) == d * d / e;
  }

  /** Against the flat expectation the statistic is an integer over 256 * n. */
  lemma {:induction false} StatisticScaled(obs: seq<nat>, exp: seq<real>, n: nat)
    requires n > 0 && |obs| == |exp|
    requires forall i :: 0 <= i < |exp| ==> exp[i] == n as real / Bins as real
    ensures Statistic(obs, exp) == ScaledSquares(obs, n) as real / (Bins * n) as real
  {
    if obs != [] {
      StatisticScaled(obs[1..], exp[1..], n);
      TermScaled(obs[0], n, exp[0]);
      SumOfQuotients(Square(Bins * obs[0] - n) as real, ScaledSquares(obs[1..], n) as real, (Bins * n) as real);
    }
  }

  /** Bins that all hold the same count contribute equally. */
  lemma {:induction false} ScaledSquaresConstant(obs: seq<nat>, n: nat, c: nat)
    requires forall i :: 0 <= i < |obs| ==> obs[i] == c
    ensures ScaledSquares(obs, n) == |obs| * Square(Bins * c - n)
  {
    if obs != [] {
      ScaledSquaresConstant(obs[1..], n, c);
    }
  }

  /** The scaled squares vanish exactly when every count is n / 256. */
  lemma {:induction false} ScaledSquaresZeroIff(obs: seq<nat>, n: nat)
    ensures ScaledSquares(obs, n) == 0 <==> forall i :: 0 <= i < |obs| ==> Bins * obs[i] == n
  {
    if obs != [] {
      ScaledSquaresZeroIff(obs[1..], n);
      if ScaledSquares(obs, n) == 0 {
        forall i | 0 <= i < |obs|
          ensures Bins * obs[i] == n
        {
          if i > 0 {
            assert obs[1..][i - 1] == obs[i];
          }
        }
      }
      if forall i :: 0 <= i < |obs| ==> Bins * obs[i] == n {
        assert forall i :: 0 <= i < |obs| - 1 ==> Bins * obs[1..][i] == n by {
          forall i | 0 <= i < |obs| - 1
            ensures Bins * obs[1..][i] == n
          {
            assert obs[1..][i] == obs[i + 1];
          }
        }
      }
    }
  }

  lemma QuotientSign(a: nat, m: nat)
    requires m > 0
    ensures a as real / m as real >= 0.0
    ensures a as real / m as real == 0.0 <==> a == 0
  {
  }

  /** Sum of o^2 / e over the bins. */
  function SquaresOverExpected(obs: seq<nat>, exp: seq<real>): real
    requires |obs| == |exp|
    requires forall i :: 0 <= i < |exp| ==> exp[i] > 0.0
  {
    if obs == [] then 0.0
    else (obs[0] * obs[0]) as real / exp[0] + SquaresOverExpected(obs[1..], exp[1..])
  }

  /** The textbook expansion: sum (o - e)^2 / e = sum o^2 / e - 2 sum o + sum e. */
  lemma {:induction false} StatisticExpanded(obs: seq<nat>, exp: seq<real>)
    requires |obs| == |exp|
    requires forall i :: 0 <= i < |exp| ==> exp[i] > 0.0
    ensures Statistic(obs, exp)
         == SquaresOverExpected(obs, exp) - 2.0 * Sum(obs) as real + RealSum(exp)
  {
    if obs != [] {
      StatisticExpanded(obs[1..], exp[1..]);
      TermExpanded(obs[0], exp[0]);
    }
  }

  lemma TermExpanded(n: nat, e: real)
    requires e > 0.0
    ensures Term(n, e) == (n * n) as real / e - 2.0 * n as real + e
  {
    var o := n as real;
    assert Term(n, e) == (o - e) * (o - e) / e;
    assert (o - e) * (o - e) == o * o - 2.0 * o * e + e * e;
    assert (2.0 * o * e) / e == 2.0 * o;
    assert (e * e) / e == e;
  }

  /** `chisquare(counts, expected)[0]` for a sample sequence. With no bytes
      every expected count is 0 and every term is 0 / 0, so the statistic is NaN. */
  function ChiSquareStatistic(values: seq<U64>): (r: Float)
    ensures r.Num? <==> |values| > 0
    ensures r.Num? ==> r.value >= 0.0
  {
    var n := |ToBytes(values)|;
    if n == 0 then NaN
    else Num(Statistic(ByteHistogram(values), ExpectedCounts(n)))
  }

  /** For a non-empty input the statistic is defined and is the flat-expectation
      sum over the byte histogram. */
  lemma ChiSquareOfNonEmpty(values: seq<U64>)
    requires |values| > 0
    ensures ChiSquareStatistic(values)
         == Num(Statistic(ByteHistogram(values), ExpectedCounts(BytesPerSample * |values|)))
  {
  }

  /** For a non-empty input the statistic is 0 exactly when every bin holds
      `len(byte_array) / 256` bytes, that is when 256 times each count is the
      number of bytes. */
  lemma ChiSquareZeroIffFlat(values: seq<U64>)
    requires |values| > 0
    ensures ChiSquareStatistic(values) == Num(0.0)
        <==> forall v :: 0 <= v < Bins ==> Bins * ByteHistogram(values)[v] == BytesPerSample * |values|
  {
    var n := |ToBytes(values)|;
    var h := ByteHistogram(values);
    StatisticScaled(h, ExpectedCounts(n), n);
    ScaledSquaresZeroIff(h, n);
    QuotientSign(ScaledSquares(h, n), Bins * n);
  }

  /** For a non-empty input the statistic is the sum of squared counts over
      the expected count, less the number of bytes. */
  lemma ChiSquareClosedForm(values: seq<U64>)
    requires |values| > 0
    ensures var n := BytesPerSample * |values|;
      ChiSquareStatistic(values)
        == Num(SquaresOverExpected(ByteHistogram(values), ExpectedCounts(n)) - n as real)
  {
    var n := |ToBytes(values)|;
    StatisticExpanded(ByteHistogram(values), ExpectedCounts(n));
  }
}
