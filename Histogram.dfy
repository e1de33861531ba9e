/** The byte histogram shared by the entropy and chi-square tests:
    `np.bincount(byte_array, minlength=256)` over the raw bytes of a sample
    sequence. Every byte value has a bin, unseen values count zero. */
module Histogram {
  import opened Numeric
  import opened Samples

  const Bins: nat := 256

  /** `np.bincount(bs, minlength=256)`: bin v holds the number of bytes equal to v. */
  function BinCount(bs: seq<Byte>): (h: seq<nat>)
    ensures |h| == Bins
  {
    if bs == [] then seq(Bins, _ => 0)
    else
      var rest := BinCount(bs[1..]);
      rest[bs[0] := rest[bs[0]] + 1]
  }

  /** Each bin holds the multiplicity of its byte value. */
  lemma {:induction false} BinCountIsMultiplicity(bs: seq<Byte>)
    ensures forall v: Byte :: BinCount(bs)[v] == multiset(bs)[v]
  {
    if bs != [] {
      BinCountIsMultiplicity(bs[1..]);
      assert bs == [bs[0]] + bs[1..];
      assert multiset(bs) == multiset{bs[0]} + multiset(bs[1..]);
    }
  }

  /** The counts add up to the number of bytes. */
  lemma {:induction false} BinCountTotal(bs: seq<Byte>)
    ensures Sum(BinCount(bs)) == |bs|
  {
    if bs == [] {
      SumConstant(BinCount(bs), 0);
    } else {
      BinCountTotal(bs[1..]);
      SumIncrement(BinCount(bs[1..]), bs[0]);
    }
  }

  /** The histogram depends only on which bytes occur how often, not on their order. */
  lemma BinCountOrderInsensitive(a: seq<Byte>, b: seq<Byte>)
    requires multiset(a) == multiset(b)
    ensures BinCount(a) == BinCount(b)
  {
    BinCountIsMultiplicity(a);
    BinCountIsMultiplicity(b);
    forall v | 0 <= v < Bins
      ensures BinCount(a)[v] == BinCount(b)[v]
    {
      var u: Byte := v;
      assert BinCount(a)[u] == multiset(a)[u];
    }
  }

  /** A constant byte sequence occurs only in its own bin. */
  lemma {:induction false} MultiplicityOfConstant(bs: seq<Byte>, c: Byte)
    requires forall j :: 0 <= j < |bs| ==> bs[j] == c
    ensures multiset(bs)[c] == |bs|
    ensures forall v: Byte :: v != c ==> multiset(bs)[v] == 0
  {
    if bs != [] {
      MultiplicityOfConstant(bs[1..], c);
      assert bs == [bs[0]] + bs[1..];
    }
  }

  /** The sequence 0, 1, ..., 255 holds every byte value exactly once. */
  lemma AllByteValuesOnce(bs: seq<Byte>)
    requires |bs| == Bins && forall i :: 0 <= i < |bs| ==> bs[i] == i
    ensures forall v: Byte :: multiset(bs)[v] == 1
  {
    RangeMultiplicity(bs, Bins);
    assert bs[..Bins] == bs;
  }

  lemma {:induction false} RangeMultiplicity(bs: seq<Byte>, k: nat)
    requires k <= |bs| && forall i :: 0 <= i < |bs| ==> bs[i] == i
    ensures forall v: Byte :: multiset(bs[..k])[v] == if v < k then 1 else 0
  {
    if k > 0 {
      RangeMultiplicity(bs, k - 1);
      assert bs[..k] == bs[..k - 1] + [bs[k - 1]];
    }
  }

  /** The histogram of a sample sequence's raw bytes, as both the entropy and
      the chi-square test build it. */
  function ByteHistogram(values: seq<U64>): (h: seq<nat>)
    ensures |h| == Bins
    ensures Sum(h) == BytesPerSample * |values|
    ensures forall v: Byte :: h[v] == multiset(ToBytes(values))[v]
  {
    var bs := ToBytes(values);
    BinCountTotal(bs);
    BinCountIsMultiplicity(bs);
    BinCount(bs)
  }
}
