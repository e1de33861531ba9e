/** The index arithmetic of `autocorrelation`: the two lagged views
    `x[:-lag]` and `x[lag:]` that are handed to the correlation coefficient.
    The coefficient itself (a float64 cast and `np.corrcoef`) is not modelled. */
module Autocorrelation {
  import opened Numeric

  const DefaultLag: int := 1

  /** `x[:-lag]`, with Python's slice semantics for any integer lag. */
  function Leading<T>(x: seq<T>, lag: int): (r: seq<T>)
    ensures r <= x
    ensures lag >= 1 ==> |r| == if lag < |x| then |x| - lag else 0
    ensures lag == 0 ==> r == []
  {
    x[..SliceBound(-lag, |x|)]
  }

  /** `x[lag:]`, with Python's slice semantics for any integer lag. */
  function Trailing<T>(x: seq<T>, lag: int): (r: seq<T>)
    ensures |r| <= |x| && r == x[|x| - |r|..]
    ensures lag >= 0 ==> |r| == if lag < |x| then |x| - lag else 0
  {
    x[SliceBound(lag, |x|)..]
  }

  /** For 1 <= lag < n both views have n - lag elements and pair element i
      with element i + lag. */
  function LagViews<T>(x: seq<T>, lag: int): (r: (seq<T>, seq<T>))
    ensures 1 <= lag < |x| ==>
      && |r.0| == |x| - lag && |r.1| == |x| - lag
      && (forall i :: 0 <= i < |x| - lag ==> r.0[i] == x[i] && r.1[i] == x[i + lag])
    ensures lag >= |x| && lag >= 1 ==> r.0 == [] && r.1 == []
    ensures lag == 0 ==> r.0 == [] && r.1 == x
  {
    (Leading(x, lag), Trailing(x, lag))
  }

  /** Every adjacent pair (x[i], x[i + 1]) appears at the same position of the
      two default-lag views, and nothing else does. */
  lemma DefaultLagPairs<T>(x: seq<T>)
    requires |x| >= 2
    ensures var (a, b) := LagViews(x, DefaultLag);
      |a| == |b| == |x| - 1
      && forall i :: 0 <= i < |a| ==> a[i] == x[i] && b[i] == x[i + 1]
  {
  }
}
