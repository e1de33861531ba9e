# Randomness test battery: exact-arithmetic model

This project models the arithmetic core of `analysis.py`. That script runs a
small battery of statistical tests over two sequences of 64-bit hardware
random samples, one from RDRAND and one from RDSEED. It is modelled as pure
functions and lemmas, the form the code has: every test is a single NumPy
expression, with no loops and no mutable state.

- **Samples** (`Samples.dfy`): samples are naturals below 2^64. Byte k of a
  sample is `(v / 256^k) % 256`, in little-endian order. `ToBytes` is
  `values.tobytes()` / `values.view(np.uint8)`; `FromBytes` reads a buffer
  back as samples. The two round trips are proved.
- **Histogram** (`Histogram.dfy`): `np.bincount(byte_array, minlength=256)`
  is modelled as `BinCount`. `ByteHistogram` builds it from the samples. The
  entropy test and the chi-square test both call this one function, so they
  see the same histogram.
- **Bit frequency** (`Bits.dfy`): `np.unpackbits` on the byte buffer, in
  either bit order. `bit_frequency` then returns `(zeros, ones)`.
- **Entropy probabilities** (`Entropy.dfy`):
  - `p = counts / counts.sum()` is computed per bin as a float that may be
    NaN;
  - `p[p > 0]` keeps the positive probabilities;
  - the entropy is `-sum(p * log2(p))`, with `log2` passed in as a function
    parameter.
- **Chi-square statistic** (`ChiSquare.dfy`): the expected count per bin is
  `len(byte_array) / 256`, exact and unrounded. The statistic is
  `sum((o - e)^2 / e)` over exact reals. Against this flat expectation it is
  proved equal to an integer sum of squares over `256 * n`. The statistic is
  non-negative for any positive expectation, and zero exactly when every
  count equals its expected count. For the test's flat expectation that
  means every bin holds `n / 256` bytes.
- **Lag slices** (`Autocorrelation.dfy`): `x[:-lag]` and `x[lag:]`, modelled
  with Python's slice semantics (`Numeric.SliceBound`) for any integer lag.
- **Scatter prefixes** (`Scatter.dfy`): `a[:5000]` and `b[:5000]`.
- **Scenarios** (`Scenarios.dfy`): two inputs whose results are fully
  determined.
  - A single zero sample gives `(64, 0)` bits, entropy 0 and chi-square 2040.
  - The 32 samples whose bytes are 0, 1, ..., 255 put one byte in every bin,
    which gives chi-square 0 and entropy 8.

Floating-point results are modelled as `Numeric.Float`, an exact real or NaN.

### Degenerate inputs

The code checks none of its inputs, and the model follows what it does.

- **Empty input.** A caller might expect an error, but the code computes on.
  - `counts / counts.sum()` is 0/0 in every bin, so every probability is
    NaN.
  - NaN fails `p > 0`, so nothing is kept and the entropy is the empty sum
    (`-0.0`, which equals 0).
  - The expected count is 0 in every bin, so the chi-square statistic is NaN.
  - `bit_frequency` returns `(0, 0)`.

  `Entropy.ShannonEntropy`, `Entropy.PositiveProbabilities` and
  `ChiSquare.ChiSquareStatistic` (result `NaN` exactly when the input is
  empty) state this.
- **Autocorrelation with n <= lag.** The code slices anyway, and both views
  are empty (`Autocorrelation.LagViews`). With `lag == 0`, `x[:-0]` is empty
  while `x[0:]` is the whole sequence.
- **Scatter prefixes.** Each source is cut to 5000 samples on its own. The
  two prefixes therefore have equal length only under the condition
  `Scatter.ScatterInputsAligned` states. `collector.c` writes the same
  number of samples for both sources as long as every write succeeds, so in
  the shipped pipeline the lengths then agree.

## Model

| member | source | states |
|---|---|---|
| Samples.SampleBytes | analysis.py:19 | one sample is eight bytes, and byte k is `(v / 256^k) % 256` (little-endian) |
| Samples.ToBytes | analysis.py:19 | n samples reinterpret as exactly 8·n bytes |
| Samples.ToBytesAt | analysis.py:19 | byte k of sample i sits at position 8·i + k of the buffer |
| Samples.FromBytes | analysis.py:10 | a buffer of 8·m bytes reads back as m samples |
| Samples.FromBytesOfToBytes | analysis.py:10 | reading back the bytes of a sample sequence gives the same samples |
| Samples.ToBytesOfFromBytes | analysis.py:10 | writing out the samples read from a whole-sample buffer gives the same buffer |
| Histogram.BinCount | analysis.py:20 | the histogram always has 256 bins |
| Histogram.BinCountIsMultiplicity | analysis.py:20 | bin v holds the number of bytes equal to v, and unseen values hold 0 |
| Histogram.BinCountTotal | analysis.py:20 | the counts add up to the number of bytes |
| Histogram.BinCountOrderInsensitive | analysis.py:20 | byte sequences that are permutations of each other have the same histogram |
| Histogram.ByteHistogram | analysis.py:19-20 | the histogram of n samples has 256 bins summing to 8·n, each the multiplicity of its byte in the sample buffer; the chi-square test builds the same histogram at analysis.py:76-77 |
| Bits.UnpackBits | analysis.py:30 | unpacking yields eight bits per byte |
| Bits.PackUnpackByte | analysis.py:30 | the eight bits of a byte, most significant first, pack back to that byte |
| Bits.OnesOfUnpackBits | analysis.py:30-31 | the number of ones among the unpacked bits is the sum of the bytes' popcounts, in either bit order |
| Bits.BitFrequency | analysis.py:29-33 | `bit_frequency` (most significant bit first): zeros + ones == 64·n, and ones is the sum of the per-byte popcounts |
| Bits.BitFrequencyIn | analysis.py:29-33 | zeros + ones == 64·n (so the empty input gives (0, 0)), and ones is the sum of the per-byte popcounts |
| Bits.BitOrderIrrelevant | analysis.py:30-33 | the (zeros, ones) pair is the same whichever bit order `unpackbits` uses |
| Bits.BitFrequencyOfZeros | analysis.py:29-33 | all-zero samples give (64·n, 0) |
| Entropy.Normalize | analysis.py:21 | one probability per bin; requires that a zero total comes with all counts zero, as at the one call site, where the total is the counts' own sum |
| Entropy.NormalizeAt | analysis.py:21 | probability i is count i over the total, or NaN when the total is 0 |
| Entropy.KeepPositive | analysis.py:22 | every kept probability is strictly positive |
| Entropy.KeepPositiveIsNonZeroBins | analysis.py:21-22 | with a positive total, `p[p > 0]` is exactly the shares of the non-zero bins, in bin order |
| Entropy.KeepPositiveOfZeroTotal | analysis.py:21-22 | with a zero total nothing is kept |
| Entropy.SharesSum | analysis.py:21-22 | the shares of the non-zero bins add up to the histogram's total over the divisor |
| Entropy.Probabilities | analysis.py:19-21 | the entropy test has 256 probabilities |
| Entropy.PositiveProbabilities | analysis.py:19-22 | `p[p > 0]`: every kept probability lies in (0, 1]; for the empty input nothing is kept, otherwise they sum to 1 |
| Entropy.ProbabilityInUnitInterval | analysis.py:19-21 | for a non-empty input, each probability is defined, equals count / (8·n), and lies in [0, 1] |
| Entropy.PositiveProbabilitiesAreDistribution | analysis.py:19-22 | for a non-empty input, the kept probabilities are the shares of the non-zero bins and sum to 1 |
| Entropy.ShannonEntropy | analysis.py:18-23 | the entropy of the empty input is 0: every probability is NaN, nothing is kept, and the sum over no terms is 0 |
| Entropy.EntropyNonNegative | analysis.py:18-23 | the entropy is ≥ 0 for every input, given log2(p) ≤ 0 on (0, 1] |
| Entropy.ConstantHistogram | analysis.py:19-20 | when all bytes are equal, their bin holds every byte and every other bin is empty |
| Entropy.SingleBinDistribution | analysis.py:21-22 | a histogram with one occupied bin has the single probability 1 |
| Entropy.EntropyOfConstantBytes | analysis.py:18-23 | when all bytes are equal the entropy is 0, given log2(1) = 0 |
| Entropy.FlatDistribution | analysis.py:21-22 | 256 equal non-empty bins give 256 probabilities of 1/256 |
| Entropy.EntropyOfFlatHistogram | analysis.py:18-23 | when all 256 byte values occur equally often the entropy is 8, given log2(1/256) = -8 |
| ChiSquare.Expected | analysis.py:78 | the expected count `len / 256` is positive for a non-empty buffer and 0 for the empty one |
| ChiSquare.ExpectedCounts | analysis.py:78 | 256 identical expected counts that add up to the byte length |
| ChiSquare.Term | analysis.py:79 | one bin's term (o − e)²/e is ≥ 0, and 0 exactly when o = e |
| ChiSquare.Statistic | analysis.py:79 | for any positive expectation, Σ (o − e)²/e is ≥ 0, and 0 exactly when every observed count equals its expected count |
| ChiSquare.TermScaled | analysis.py:79 | against the flat expectation, a bin's term (o − e)²/e is (256·o − n)² / (256·n) |
| ChiSquare.StatisticScaled | analysis.py:78-79 | against the flat expectation, the statistic is an integer sum of squares over 256·n |
| ChiSquare.ScaledSquaresZeroIff | analysis.py:78-79 | the sum of squares is 0 exactly when every bin holds n / 256 |
| ChiSquare.StatisticExpanded | analysis.py:79 | Σ (o − e)²/e = Σ o²/e − 2·Σ o + Σ e |
| ChiSquare.ChiSquareStatistic | analysis.py:75-79 | the statistic is defined (not NaN) exactly when the input is non-empty, and is then ≥ 0 |
| ChiSquare.ChiSquareZeroIffFlat | analysis.py:76-79 | for a non-empty input the statistic is 0 exactly when every bin holds 8·n / 256 bytes (256 · count = 8·n) |
| ChiSquare.ChiSquareClosedForm | analysis.py:76-79 | for a non-empty input the statistic is Σ o²/e minus the byte length |
| Autocorrelation.Leading | analysis.py:41 | `x[:-lag]` is a prefix of x; for lag ≥ 1 it has max(n − lag, 0) elements, and for lag = 0 it is empty |
| Autocorrelation.Trailing | analysis.py:41 | `x[lag:]` is a suffix of x; for lag ≥ 0 it has max(n − lag, 0) elements |
| Autocorrelation.LagViews | analysis.py:41 | for 1 ≤ lag < n both views have n − lag elements, with element i of `x[lag:]` equal to element i + lag of x; for lag ≥ n both are empty; for lag = 0 the first is empty and the second is x |
| Autocorrelation.DefaultLagPairs | analysis.py:39-41 | with the default lag 1, the views pair each element with its successor |
| Scatter.ScatterPrefix | analysis.py:63 | `s[:5000]` is a prefix of s of length min(5000, \|s\|) |
| Scatter.ScatterInputs | analysis.py:63 | the two plotted sequences are prefixes of the sources, each of length min(5000, its source's length) |
| Scatter.ScatterInputsAligned | analysis.py:63 | the two plotted prefixes have equal length exactly when the sources do, or when both have at least 5000 samples |
| Scenarios.ZeroSampleBytes | analysis.py:19 | one zero sample is eight zero bytes |
| Scenarios.SingleZeroSample | analysis.py:18-33 | one zero sample has bit frequency (64, 0) and entropy 0 |
| Scenarios.ZeroSampleHistogram | analysis.py:76-77 | one zero sample puts all eight bytes in bin 0 |
| Scenarios.StatisticOfEightInOneBin | analysis.py:78-79 | eight bytes in bin 0 against 1/32 expected per bin give 2040 |
| Scenarios.SingleZeroSampleChiSquare | analysis.py:75-79 | the chi-square statistic of one zero sample is 2040 |
| Scenarios.EveryByteValueOnce | analysis.py:18-23 | the 32 samples with bytes 0..255 read back to those bytes, put one byte in every bin, and give chi-square 0 and entropy 8 |

## Left out

- `load_data` (analysis.py:9-12) reads files with `np.fromfile`. Only the reinterpretation of a buffer as samples is modelled (`Samples.FromBytes`). The two sample sequences are parameters.
- Samples.FromBytes: requires a whole number of samples. How `np.fromfile` treats a trailing partial sample is not modelled; `collector.c` only writes whole samples, as long as every write succeeds.
- The `log2` sum (analysis.py:23) is modelled with `log2` as a function parameter. The lemmas take as hypotheses only the facts they need: log2(1) = 0, log2(1/256) = -8, and log2(p) ≤ 0 on (0, 1].
- Entropy.Normalize: requires that a zero total comes with all counts zero, as at the one call site, where the total is the counts' own sum. NumPy's `inf` for a positive count over 0 therefore never arises and is not modelled.
- Entropy.ShannonEntropy: the upper bound entropy ≤ 8 is not proved, because it needs the concavity of the logarithm (Jensen's inequality), which the hypotheses about the `log2` parameter do not provide; the lower bound is `Entropy.EntropyNonNegative`. The float64 rounding of the division, the logarithm and the sum is not modelled; all arithmetic is exact. The empty input's `-0.0` is the real 0.
- ChiSquare.ChiSquareStatistic: evaluated over exact reals. The float64 rounding of `len(byte_array) / 256` in `np.full` and of SciPy's sum of terms (analysis.py:78-79) is not modelled.
- The chi-square p-value from `scipy.stats.chisquare` (analysis.py:79) is a foreign incomplete-gamma computation in floating point. Only the statistic is modelled. SciPy's check that observed and expected sums agree always holds here, because both equal the byte length (`ChiSquare.ExpectedCounts`).
- The autocorrelation coefficient (analysis.py:40-41) is left out: its `float64` cast loses precision, and `np.corrcoef` is floating-point statistics. Only the lag slices are modelled.
- `plot_hist` and the matplotlib rendering in `scatter_compare` (analysis.py:47-69) are left out because they are figure state and image output. Only the `[:5000]` prefixes are modelled.
- `main` (analysis.py:86 onward) is left out because it only does printing and orchestration.
- `collector.c` is not part of this model: it holds hardware intrinsics, retry loops, sleeping, heap allocation and file writing.
