/** The bit-frequency test: `np.unpackbits(values.view(np.uint8))` expands
    every byte of the sample buffer into eight bits, and the test reports how
    many of them are zero and how many are one. */
module Bits {
  import opened Numeric
  import opened Samples

  const BitsPerByte: nat := 8

  type Bit = b: nat | b < 2

  /** The order in which `unpackbits` emits the bits of a byte: `Big` (most
      significant first, NumPy's default) or `Little`. */
  datatype BitOrder = Big | Little

  /** The w low bits of x in the given order. */
  function Bits(x: nat, w: nat, order: BitOrder): (r: seq<Bit>)
    ensures |r| == w
  {
    if w == 0 then []
    else match order
      case Big => Bits(x / 2, w - 1, order) + [x % 2]
      case Little => [x % 2] + Bits(x / 2, w - 1, order)
  }

  /** The eight bits of one byte. */
  function UnpackByte(b: Byte, order: BitOrder): seq<Bit>
  {
    Bits(b, BitsPerByte, order)
  }

  /** `np.unpackbits(bs, bitorder=...)`: the bits of every byte, byte after byte. */
  function UnpackBits(bs: seq<Byte>, order: BitOrder): (r: seq<Bit>)
    ensures |r| == BitsPerByte * |bs|
  {
    if bs == [] then [] else UnpackByte(bs[0], order) + UnpackBits(bs[1..], order)
  }

  /** The number whose bits, most significant first, are `bits`; the inverse
      of unpacking, used to fix the bit order. */
  function PackBits(bits: seq<Bit>): nat
  {
    if bits == [] then 0 else 2 * PackBits(bits[..|bits| - 1]) + bits[|bits| - 1]
  }

  /** Number of one bits in x. */
  function PopCount(x: nat): nat
  {
    if x == 0 then 0 else x % 2 + PopCount(x / 2)
  }

  /** Total number of one bits over a byte sequence. */
  function PopCountSum(bs: seq<Byte>): nat
  {
    if bs == [] then 0 else PopCount(bs[0]) + PopCountSum(bs[1..])
  }

  /** Packing the unpacked bits of a byte gives the byte back. */
  lemma {:induction false} PackBitsOfBits(x: nat, w: nat)
    requires x < Pow(2, w)
    ensures PackBits(Bits(x, w, Big)) == x
  {
    if w > 0 {
      var r := Bits(x, w, Big);
      assert r[..|r| - 1] == Bits(x / 2, w - 1, Big);
      PackBitsOfBits(x / 2, w - 1);
    }
  }

  lemma PackUnpackByte(b: Byte)
    ensures PackBits(UnpackByte(b, Big)) == b
  {
    assert Pow(2, BitsPerByte) == 256;
    PackBitsOfBits(b, BitsPerByte);
  }

  /** The ones among the w low bits of x number PopCount(x), in either order. */
  lemma {:induction false} OnesOfBits(x: nat, w: nat, order: BitOrder)
    requires x < Pow(2, w)
    ensures Sum(Bits(x, w, order)) == PopCount(x)
  {
    if w > 0 {
      OnesOfBits(x / 2, w - 1, order);
      match order
      case Big => SumAppend(Bits(x / 2, w - 1, order), [x % 2]);
      case Little => SumAppend([x % 2], Bits(x / 2, w - 1, order));
    }
  }

  /** The ones among the unpacked bits are the sum of the bytes' popcounts. */
  lemma {:induction false} OnesOfUnpackBits(bs: seq<Byte>, order: BitOrder)
    ensures Sum(UnpackBits(bs, order)) == PopCountSum(bs)
  {
    if bs != [] {
      assert Pow(2, BitsPerByte) == 256;
      OnesOfBits(bs[0], BitsPerByte, order);
      OnesOfUnpackBits(bs[1..], order);
      SumAppend(UnpackByte(bs[0], order), UnpackBits(bs[1..], order));
    }
  }

  /** A sequence of bits has no more ones than it has bits. */
  lemma {:induction false} OnesAtMostLength(bits: seq<Bit>)
    ensures Sum(bits) <= |bits|
  {
    if bits != [] {
      OnesAtMostLength(bits[1..]);
    }
  }

  /** `bit_frequency` with the bits unpacked in a given order: (zeros, ones). */
  function BitFrequencyIn(values: seq<U64>, order: BitOrder): (r: (nat, nat))
    ensures r.0 + r.1 == BitsPerByte * BytesPerSample * |values|
    ensures r.1 == PopCountSum(ToBytes(values))
  {
    var bits := UnpackBits(ToBytes(values), order);
    var ones := Sum(bits);
    OnesAtMostLength(bits);
    OnesOfUnpackBits(ToBytes(values), order);
    (|bits| - ones, ones)
  }

  /** `bit_frequency(values)`: NumPy unpacks most significant bit first. */
  function BitFrequency(values: seq<U64>): (r: (nat, nat))
    ensures r.0 + r.1 == 64 * |values|
    ensures r.1 == PopCountSum(ToBytes(values))
  {
    BitFrequencyIn(values, Big)
  }

  /** The counts do not depend on the order in which bits are unpacked. */
  lemma BitOrderIrrelevant(values: seq<U64>)
    ensures BitFrequencyIn(values, Big) == BitFrequencyIn(values, Little)
  {
  }

  lemma {:induction false} PopCountSumOfZeros(bs: seq<Byte>)
    requires forall j :: 0 <= j < |bs| ==> bs[j] == 0
    ensures PopCountSum(bs) == 0
  {
    if bs != [] {
      PopCountSumOfZeros(bs[1..]);
    }
  }

  /** Samples that are all zero give 64 zeros per sample and no ones. */
  lemma BitFrequencyOfZeros(values: seq<U64>)
    requires forall i :: 0 <= i < |values| ==> values[i] == 0
    ensures BitFrequency(values) == (64 * |values|, 0)
  {
    var bs := ToBytes(values);
    forall j | 0 <= j < |bs|
      ensures bs[j] == 0
    {
      ToBytesAt(values, j / BytesPerSample, j % BytesPerSample);
    }
    PopCountSumOfZeros(bs);
  }
}
