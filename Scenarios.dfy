/** End-to-end cases of the test battery on two small, fully determined
    inputs: a single all-zero sample, and the 32 samples whose raw bytes are
    0, 1, ..., 255 in order. */
module Scenarios {
  import opened Numeric
  import opened Samples
  import opened Histogram
  import opened Bits
  import opened Entropy
  import opened ChiSquare

  /** The bytes 0, 1, ..., 255. */
  function ByteRange(): (bs: seq<Byte>)
    ensures |bs| == Bins && forall i :: 0 <= i < |bs| ==> bs[i] == i
  {
    seq(Bins, i requires 0 <= i < Bins => i)
  }

  /** One sample of value zero is eight zero bytes. */
  lemma ZeroSampleBytes()
    ensures |ToBytes([0])| == 8 && forall j :: 0 <= j < 8 ==> ToBytes([0])[j] == 0
  {
    forall j | 0 <= j < 8
      ensures ToBytes([0])[j] == 0
    {
      ToBytesAt([0], 0, j);
    }
  }

  /** One sample of value zero: 64 zero bits and entropy 0. */
  lemma SingleZeroSample(log2: real -> real)
    requires log2(1.0) == 0.0
    ensures BitFrequency([0]) == (64, 0)
    ensures ShannonEntropy([0], log2) == 0.0
  {
    ZeroSampleBytes();
    BitFrequencyOfZeros([0]);
    EntropyOfConstantBytes([0], 0, log2);
  }

  /** One sample of value zero puts all eight bytes in bin 0. */
  lemma ZeroSampleHistogram()
    ensures ByteHistogram([0])[0] == 8
    ensures forall v :: 1 <= v < Bins ==> ByteHistogram([0])[v] == 0
  {
    ZeroSampleBytes();
    ConstantHistogram([0], 0);
  }

  /** The chi-square statistic of one zero sample is 2040 (against an
      expectation of 1/32 per bin). */
  lemma SingleZeroSampleChiSquare()
    ensures ChiSquareStatistic([0]) == Num(2040.0)
  {
    var values: seq<U64> := [0];
    ZeroSampleHistogram();
    ChiSquareOfNonEmpty(values);
    StatisticOfEightInOneBin(ByteHistogram(values), ExpectedCounts(8));
  }

  /** Eight bytes in bin 0 against 1/32 expected per bin give 2040. */
  lemma StatisticOfEightInOneBin(h: seq<nat>, e: seq<real>)
    requires |h| == Bins && h[0] == 8
    requires forall v :: 1 <= v < Bins ==> h[v] == 0
    requires e == ExpectedCounts(8)
    ensures Statistic(h, e) == 2040.0
  {
    StatisticScaled(h, e, 8);
    ScaledSquaresConstant(h[1..], 8, 0);
    assert Bins * 8 - 8 == 2040;
    assert Square(2040) == 2040 * 2040 == 4161600;
    assert Square(-8) == 64;
    assert ScaledSquares(h, 8) == 4161600 + 255 * 64;
  }

  /** The 32 samples whose bytes run through every value once: every bin
      holds one byte, the chi-square statistic is 0 and the entropy 8 bits. */
  lemma EveryByteValueOnce(log2: real -> real)
    requires log2(1.0 / 256.0) == -8.0
    ensures var values := FromBytes(ByteRange());
      && |values| == 32
      && ToBytes(values) == ByteRange()
      && (forall v :: 0 <= v < Bins ==> ByteHistogram(values)[v] == 1)
      && ChiSquareStatistic(values) == Num(0.0)
      && ShannonEntropy(values, log2) == 8.0
  {
    var values := FromBytes(ByteRange());
    ToBytesOfFromBytes(ByteRange());
    AllByteValuesOnce(ByteRange());
    var h := ByteHistogram(values);
    forall v | 0 <= v < Bins
      ensures h[v] == 1
    {
      var u: Byte := v;
      assert h[u] == multiset(ByteRange())[u];
    }
    ChiSquareZeroIffFlat(values);
    EntropyOfFlatHistogram(values, log2);
  }
}
