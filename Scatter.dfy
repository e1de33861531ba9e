/** The data shaping of `scatter_compare`: each source's sample sequence is
    cut to its first 5000 elements (`a[:5000]`, `b[:5000]`) before plotting.
    The plotting itself is not modelled. */
module Scatter {
  import opened Numeric

  const ScatterLimit: nat := 5000

  /** `s[:5000]`. */
  function ScatterPrefix<T>(s: seq<T>): (r: seq<T>)
    ensures |r| == if |s| < ScatterLimit then |s| else ScatterLimit
    ensures r <= s
  {
    s[..SliceBound(ScatterLimit, |s|)]
  }

  /** The two prefixes handed to the scatter plot. */
  function ScatterInputs<T>(a: seq<T>, b: seq<T>): (r: (seq<T>, seq<T>))
    ensures r.0 <= a && |r.0| == if |a| < ScatterLimit then |a| else ScatterLimit
    ensures r.1 <= b && |r.1| == if |b| < ScatterLimit then |b| else ScatterLimit
  {
    (ScatterPrefix(a), ScatterPrefix(b))
  }

  /** The prefixes pair up element for element exactly when both sources have
      the same length or both reach the limit. */
  lemma ScatterInputsAligned<T>(a: seq<T>, b: seq<T>)
    ensures var (x, y) := ScatterInputs(a, b);
      |x| == |y| <==> |a| == |b| || (|a| >= ScatterLimit && |b| >= ScatterLimit)
  {
  }
}
