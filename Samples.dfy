/** Sample sequences and their raw bytes.

    A sample is a 64-bit unsigned integer (NumPy's `uint64`). The tests see a
    sequence of samples through its underlying buffer (`values.tobytes()` and
    `values.view(np.uint8)`), which holds each sample's eight bytes in the
    native little-endian order, sample after sample. Loading reverses this:
    a buffer whose length is a multiple of eight is read back as samples. */
module Samples {
  import opened Numeric

  const BytesPerSample: nat := 8
  const SampleBound: nat := 0x1_0000_0000_0000_0000

  type U64 = v: nat | v < 0x1_0000_0000_0000_0000
  type Byte = b: nat | b < 256

  /** Byte k (k = 0 is the least significant) of a sample. */
  function ByteAt(v: U64, k: nat): Byte
  {
    (v / Pow(256, k)) % 256
  }

  /** The w least significant base-256 digits of x, least significant first. */
  function LittleEndian(x: nat, w: nat): (r: seq<Byte>)
    ensures |r| == w
  {
    if w == 0 then [] else [x % 256] + LittleEndian(x / 256, w - 1)
  }

  /** The number whose little-endian base-256 digits are bs. */
  function Value(bs: seq<Byte>): nat
  {
    if bs == [] then 0 else bs[0] + 256 * Value(bs[1..])
  }

  lemma {:induction false} LittleEndianAt(x: nat, w: nat, k: nat)
    requires k < w
    ensures LittleEndian(x, w)[k] == (x / Pow(256, k)) % 256
  {
    if k > 0 {
      LittleEndianAt(x / 256, w - 1, k - 1);
      DivideTwice(x, 256, Pow(256, k - 1));
    }
  }

  lemma {:induction false} ValueOfLittleEndian(x: nat, w: nat)
    requires x < Pow(256, w)
    ensures Value(LittleEndian(x, w)) == x
  {
    if w > 0 {
      assert x / 256 < Pow(256, w - 1);
      ValueOfLittleEndian(x / 256, w - 1);
    }
  }

  lemma {:induction false} LittleEndianOfValue(bs: seq<Byte>)
    ensures Value(bs) < Pow(256, |bs|)
    ensures LittleEndian(Value(bs), |bs|) == bs
  {
    if bs != [] {
      LittleEndianOfValue(bs[1..]);
      var v := Value(bs[1..]);
      assert Value(bs) < 256 * Pow(256, |bs| - 1) by {
        MultiplyMonotone(v + 1, Pow(256, |bs| - 1), 256);
      }
      DivisionUnique(Value(bs), 256, v, bs[0]);
    }
  }

  lemma SampleBoundIsPow()
    ensures Pow(256, BytesPerSample) == SampleBound
  {
  }

  /** The eight bytes of one sample in memory order. */
  function SampleBytes(v: U64): (r: seq<Byte>)
    ensures |r| == BytesPerSample
    ensures forall k :: 0 <= k < BytesPerSample ==> r[k] == ByteAt(v, k)
  {
    var r := LittleEndian(v, BytesPerSample);
    forall k | 0 <= k < BytesPerSample
      ensures r[k] == ByteAt(v, k)
    {
      LittleEndianAt(v, BytesPerSample, k);
    }
    r
  }

  /** `values.tobytes()`: the buffer underlying a sample sequence. */
  function ToBytes(vs: seq<U64>): (r: seq<Byte>)
    ensures |r| == BytesPerSample * |vs|
  {
    if vs == [] then [] else SampleBytes(vs[0]) + ToBytes(vs[1..])
  }

  /** Byte k of sample i sits at position 8 * i + k of the buffer. */
  lemma {:induction false} ToBytesAt(vs: seq<U64>, i: nat, k: nat)
    requires i < |vs| && k < BytesPerSample
    ensures ToBytes(vs)[BytesPerSample * i + k] == ByteAt(vs[i], k)
  {
    if i > 0 {
      ToBytesAt(vs[1..], i - 1, k);
    }
  }

  /** Reading a buffer back as samples (`np.fromfile(..., dtype=np.uint64)`). */
  function FromBytes(bs: seq<Byte>): (r: seq<U64>)
    requires |bs| % BytesPerSample == 0
    ensures |r| == |bs| / BytesPerSample
  {
    if bs == [] then []
    else
      LittleEndianOfValue(bs[..BytesPerSample]);
      SampleBoundIsPow();
      [Value(bs[..BytesPerSample])] + FromBytes(bs[BytesPerSample..])
  }

  /** Writing samples out and reading them back gives the same samples. */
  lemma {:induction false} FromBytesOfToBytes(vs: seq<U64>)
    ensures FromBytes(ToBytes(vs)) == vs
  {
    if vs != [] {
      var bs := ToBytes(vs);
      assert bs[..BytesPerSample] == LittleEndian(vs[0], BytesPerSample);
      assert bs[BytesPerSample..] == ToBytes(vs[1..]);
      SampleBoundIsPow();
      ValueOfLittleEndian(vs[0], BytesPerSample);
      FromBytesOfToBytes(vs[1..]);
    }
  }

  /** Reading a buffer as samples and writing them out gives the same buffer. */
  lemma {:induction false} ToBytesOfFromBytes(bs: seq<Byte>)
    requires |bs| % BytesPerSample == 0
    ensures ToBytes(FromBytes(bs)) == bs
  {
    if bs != [] {
      var vs := FromBytes(bs);
      LittleEndianOfValue(bs[..BytesPerSample]);
      assert vs[0] == Value(bs[..BytesPerSample]);
      assert vs[1..] == FromBytes(bs[BytesPerSample..]);
      ToBytesOfFromBytes(bs[BytesPerSample..]);
      assert bs == bs[..BytesPerSample] + bs[BytesPerSample..];
    }
  }
}
