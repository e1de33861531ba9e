/** The probability step of `shannon_entropy`: bin counts divided by their
    total, then only the strictly positive probabilities kept (`p[p > 0]`).
    The entropy is minus the sum of p * log2(p) over those; log2 is a
    parameter of the model, not computed. */
module Entropy {
  import opened Numeric
  import opened Samples
  import opened Histogram

  /** `counts / total`, elementwise in float64: 0 / 0 is NaN. A zero total
      must come with all counts zero, as at the one call site in
      `Probabilities`, where the total is the counts' own sum. */
  function Normalize(h: seq<nat>, total: nat): (p: seq<Float>)
    requires total == 0 ==> forall i :: 0 <= i < |h| ==> h[i] == 0
    ensures |p| == |h|
  {
    if h == [] then []
    else [if total == 0 then NaN else Num(h[0] as real / total as real)] + Normalize(h[1..], total)
  }

  /** `p[p > 0]`: the positive entries, in order; NaN compares false. */
  function KeepPositive(p: seq<Float>): (q: seq<real>)
    ensures forall i :: 0 <= i < |q| ==> q[i] > 0.0
  {
    if p == [] then []
    else if p[0].Num? && p[0].value > 0.0 then [p[0].value] + KeepPositive(p[1..])
    else KeepPositive(p[1..])
  }

  /** The non-zero counts of a histogram, in bin order. */
  function NonZeroCounts(h: seq<nat>): seq<nat>
  {
    if h == [] then []
    else if h[0] > 0 then [h[0]] + NonZeroCounts(h[1..])
    else NonZeroCounts(h[1..])
  }

  /** Each count as a share of the total. */
  function Shares(cs: seq<nat>, total: nat): (q: seq<real>)
    requires total > 0
    ensures |q| == |cs|
  {
    if cs == [] then [] else [cs[0] as real / total as real] + Shares(cs[1..], total)
  }

  lemma {:induction false} NormalizeAt(h: seq<nat>, total: nat, i: nat)
    requires total == 0 ==> forall j :: 0 <= j < |h| ==> h[j] == 0
    requires i < |h|
    ensures Normalize(h, total)[i] == if total == 0 then NaN else Num(h[i] as real / total as real)
  {
    if i > 0 {
      NormalizeAt(h[1..], total, i - 1);
    }
  }

  lemma {:induction false} SharesAt(cs: seq<nat>, total: nat, i: nat)
    requires total > 0 && i < |cs|
    ensures Shares(cs, total)[i] == cs[i] as real / total as real
  {
    if i > 0 {
      SharesAt(cs[1..], total, i - 1);
    }
  }

  /** With a positive total, the kept probabilities are exactly the shares of
      the non-zero bins, in bin order. */
  lemma {:induction false} KeepPositiveIsNonZeroBins(h: seq<nat>, total: nat)
    requires total > 0
    ensures KeepPositive(Normalize(h, total)) == Shares(NonZeroCounts(h), total)
  {
    if h != [] {
      KeepPositiveIsNonZeroBins(h[1..], total);
    }
  }

  /** With a zero total every probability is NaN and none is kept. */
  lemma {:induction false} KeepPositiveOfZeroTotal(h: seq<nat>)
    requires forall i :: 0 <= i < |h| ==> h[i] == 0
    ensures KeepPositive(Normalize(h, 0)) == []
  {
    if h != [] {
      KeepPositiveOfZeroTotal(h[1..]);
    }
  }

  /** The shares of the non-zero bins add up to the histogram's total over `total`. */
  lemma {:induction false} SharesSum(h: seq<nat>, total: nat)
    requires total > 0
    ensures RealSum(Shares(NonZeroCounts(h), total)) == Sum(h) as real / total as real
  {
    if h != [] {
      var t := total as real;
      var tail := Sum(h[1..]) as real;
      SharesSum(h[1..], total);
      assert RealSum(Shares(NonZeroCounts(h[1..]), total)) == tail / t;
      if h[0] > 0 {
        var head := h[0] as real;
        assert NonZeroCounts(h) == [h[0]] + NonZeroCounts(h[1..]);
        assert Shares(NonZeroCounts(h), total)[1..] == Shares(NonZeroCounts(h[1..]), total);
        assert RealSum(Shares(NonZeroCounts(h), total)) == head / t + tail / t;
        SumOfQuotients(head, tail, t);
      } else {
        assert NonZeroCounts(h) == NonZeroCounts(h[1..]);
      }
    }
  }

  /** `p = counts / counts.sum()` over the byte histogram. */
  function Probabilities(values: seq<U64>): (p: seq<Float>)
    ensures |p| == Bins
  {
    var h := ByteHistogram(values);
    if Sum(h) == 0 then ZeroSum(h); Normalize(h, 0)
    else Normalize(h, Sum(h))
  }

  /** `p_nonzero = p[p > 0]`. */
  function PositiveProbabilities(values: seq<U64>): (q: seq<real>)
    ensures forall i :: 0 <= i < |q| ==> 0.0 < q[i] <= 1.0
    ensures |values| == 0 ==> q == []
    ensures |values| > 0 ==> RealSum(q) == 1.0
  {
    var h := ByteHistogram(values);
    assert Probabilities(values) == Normalize(h, Sum(h));
    if |values| == 0 then
      KeepPositiveOfZeroTotal(h);
      KeepPositive(Probabilities(values))
    else
      NormalizedHistogramIsDistribution(h);
      var q := KeepPositive(Probabilities(values));
      forall i | 0 <= i < |q|
        ensures q[i] <= 1.0
      {
        RealEntryAtMostSum(q, i);
      }
      q
  }

  /** For a non-empty input every probability is defined, lies in [0, 1], and
      is the bin's count over the number of bytes. */
  lemma ProbabilityInUnitInterval(values: seq<U64>, v: Byte)
    requires |values| > 0
    ensures var h := ByteHistogram(values);
      && Probabilities(values)[v] == Num(h[v] as real / (BytesPerSample * |values|) as real)
      && 0.0 <= Probabilities(values)[v].value <= 1.0
  {
    var h := ByteHistogram(values);
    var total := Sum(h);
    assert Probabilities(values) == Normalize(h, total);
    NormalizeAt(h, total, v);
    ShareInUnitInterval(h, v);
  }

  lemma ShareInUnitInterval(h: seq<nat>, v: nat)
    requires v < |h| && Sum(h) > 0
    ensures 0.0 <= h[v] as real / Sum(h) as real <= 1.0
  {
    EntryAtMostSum(h, v);
    FractionInUnitInterval(h[v] as real, Sum(h) as real);
  }

  /** For a non-empty input the kept probabilities are exactly the shares of
      the bins with a non-zero count, and they add up to one. */
  lemma PositiveProbabilitiesAreDistribution(values: seq<U64>)
    requires |values| > 0
    ensures var h := ByteHistogram(values);
      PositiveProbabilities(values) == Shares(NonZeroCounts(h), Sum(h))
    ensures RealSum(PositiveProbabilities(values)) == 1.0
  {
    var h := ByteHistogram(values);
    assert PositiveProbabilities(values) == KeepPositive(Normalize(h, Sum(h)));
    NormalizedHistogramIsDistribution(h);
  }

  lemma NormalizedHistogramIsDistribution(h: seq<nat>)
    requires Sum(h) > 0
    ensures KeepPositive(Normalize(h, Sum(h))) == Shares(NonZeroCounts(h), Sum(h))
    ensures RealSum(KeepPositive(Normalize(h, Sum(h)))) == 1.0
  {
    KeepPositiveIsNonZeroBins(h, Sum(h));
    SharesSum(h, Sum(h));
    DivideSelf(Sum(h) as real);
  }

  /** Sum of p * log2(p) over the kept probabilities. */
  function PLogPSum(ps: seq<real>, log2: real -> real): real
  {
    if ps == [] then 0.0 else ps[0] * log2(ps[0]) + PLogPSum(ps[1..], log2)
  }

  /** `shannon_entropy(values)` with the given base-2 logarithm. */
  function ShannonEntropy(values: seq<U64>, log2: real -> real): (r: real)
    ensures |values| == 0 ==> r == 0.0
  {
    -PLogPSum(PositiveProbabilities(values), log2)
  }

  /** Each term p * log2(p) with 0 < p <= 1 is at most zero when log2 is at
      most zero on (0, 1]. */
  lemma {:induction false} PLogPSumNonPositive(ps: seq<real>, log2: real -> real)
    requires forall i :: 0 <= i < |ps| ==> 0.0 < ps[i] <= 1.0
    requires forall p :: 0.0 < p <= 1.0 ==> log2(p) <= 0.0
    ensures PLogPSum(ps, log2) <= 0.0
  {
    if ps != [] {
      PLogPSumNonPositive(ps[1..], log2);
      ProductNonPositive(ps[0], log2(ps[0]));
    }
  }

  lemma ProductNonPositive(p: real, l: real)
    requires p > 0.0 && l <= 0.0
    ensures p * l <= 0.0
  {
  }

  /** The entropy is never negative: every kept probability lies in (0, 1],
      where log2 is at most zero. */
  lemma EntropyNonNegative(values: seq<U64>, log2: real -> real)
    requires forall p :: 0.0 < p <= 1.0 ==> log2(p) <= 0.0
    ensures ShannonEntropy(values, log2) >= 0.0
  {
    PLogPSumNonPositive(PositiveProbabilities(values), log2);
  }

  lemma {:induction false} PLogPSumConstant(ps: seq<real>, p: real, log2: real -> real)
    requires forall i :: 0 <= i < |ps| ==> ps[i] == p
    ensures PLogPSum(ps, log2) == |ps| as real * (p * log2(p))
  {
    if ps != [] {
      PLogPSumConstant(ps[1..], p, log2);
    }
  }

  lemma {:induction false} NonZeroCountsOfSingleBin(h: seq<nat>, c: nat)
    requires c < |h| && h[c] > 0
    requires forall i :: 0 <= i < |h| && i != c ==> h[i] == 0
    ensures NonZeroCounts(h) == [h[c]]
  {
    if c == 0 {
      NonZeroCountsOfZeros(h[1..]);
    } else {
      NonZeroCountsOfSingleBin(h[1..], c - 1);
    }
  }

  lemma {:induction false} NonZeroCountsOfZeros(h: seq<nat>)
    requires forall i :: 0 <= i < |h| ==> h[i] == 0
    ensures NonZeroCounts(h) == []
  {
    if h != [] {
      NonZeroCountsOfZeros(h[1..]);
    }
  }

  lemma {:induction false} NonZeroCountsOfPositive(h: seq<nat>)
    requires forall i :: 0 <= i < |h| ==> h[i] > 0
    ensures NonZeroCounts(h) == h
  {
    if h != [] {
      NonZeroCountsOfPositive(h[1..]);
    }
  }

  /** Entropy is zero when every byte has the same value. */
  lemma EntropyOfConstantBytes(values: seq<U64>, c: Byte, log2: real -> real)
    requires |values| > 0
    requires forall j :: 0 <= j < |ToBytes(values)| ==> ToBytes(values)[j] == c
    requires log2(1.0) == 0.0
    ensures ShannonEntropy(values, log2) == 0.0
  {
    var h := ByteHistogram(values);
    ConstantHistogram(values, c);
    SingleBinDistribution(h, c);
    assert PositiveProbabilities(values) == [1.0];
    assert PLogPSum([1.0], log2) == 1.0 * log2(1.0) + PLogPSum([], log2);
  }

  /** Constant bytes fill one bin and leave the others empty. */
  lemma ConstantHistogram(values: seq<U64>, c: Byte)
    requires |values| > 0
    requires forall j :: 0 <= j < |ToBytes(values)| ==> ToBytes(values)[j] == c
    ensures var h := ByteHistogram(values);
      h[c] > 0 && h[c] == Sum(h) && forall i :: 0 <= i < |h| && i != c ==> h[i] == 0
  {
    var h := ByteHistogram(values);
    MultiplicityOfConstant(ToBytes(values), c);
    forall i | 0 <= i < |h| && i != c
      ensures h[i] == 0
    {
      var u: Byte := i;
      assert h[u] == multiset(ToBytes(values))[u];
    }
  }

  /** A histogram with a single occupied bin has the one probability 1. */
  lemma SingleBinDistribution(h: seq<nat>, c: nat)
    requires c < |h| && h[c] > 0 && h[c] == Sum(h)
    requires forall i :: 0 <= i < |h| && i != c ==> h[i] == 0
    ensures KeepPositive(Normalize(h, Sum(h))) == [1.0]
  {
    NonZeroCountsOfSingleBin(h, c);
    KeepPositiveIsNonZeroBins(h, Sum(h));
    DivideSelf(Sum(h) as real);
  }

  /** Entropy is eight bits when all 256 byte values occur equally often. */
  lemma EntropyOfFlatHistogram(values: seq<U64>, log2: real -> real)
    requires |values| > 0
    requires forall v :: 0 <= v < Bins ==> ByteHistogram(values)[v] == ByteHistogram(values)[0]
    requires log2(1.0 / 256.0) == -8.0
    ensures ShannonEntropy(values, log2) == 8.0
  {
    var h := ByteHistogram(values);
    assert PositiveProbabilities(values) == KeepPositive(Normalize(h, Sum(h)));
    FlatDistribution(h);
    PLogPSumConstant(PositiveProbabilities(values), 1.0 / 256.0, log2);
  }

  /** A histogram of 256 equal, non-empty bins gives 256 probabilities of 1/256. */
  lemma FlatDistribution(h: seq<nat>)
    requires |h| == Bins && Sum(h) > 0
    requires forall v :: 0 <= v < |h| ==> h[v] == h[0]
    ensures var ps := KeepPositive(Normalize(h, Sum(h)));
      |ps| == Bins && forall i :: 0 <= i < |ps| ==> ps[i] == 1.0 / 256.0
  {
    SumConstant(h, h[0]);
    NonZeroCountsOfPositive(h);
    KeepPositiveIsNonZeroBins(h, Sum(h));
    var ps := KeepPositive(Normalize(h, Sum(h)));
    forall i | 0 <= i < |ps|
      ensures ps[i] == 1.0 / 256.0
    {
      SharesAt(h, Sum(h), i);
      ShareOfEqualBins(h[0], 256);
    }
  }

  lemma ShareOfEqualBins(k: nat, n: nat)
    requires k > 0 && n > 0
    ensures k as real / (n * k) as real == 1.0 / n as real
  {
  }
}
