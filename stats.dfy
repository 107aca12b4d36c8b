/**
 * What the plotting code borrows from numpy and scipy, as parameters: the
 * estimators over a list of values, the square root and floating-point
 * division. Only their names are fixed here; the dispatch and index logic
 * that call them are the model.
 */
module Stats {
  /** numpy's estimators and arithmetic, as the plotting code calls them. */
  datatype Numerics = Numerics(
    mean: seq<real> -> real,
    median: seq<real> -> real,
    std: seq<real> -> real,
    percentile: (seq<real>, real) -> real,
    sqrt: real -> real,
    divide: (real, real) -> real)

  /** Why a statistic cannot be computed: an unsupported name, or a name the code never defined. */
  datatype StatError = NotImplemented | Undefined(name: string)

  /** The smallest value of a non-empty list: Python's `min`. */
  function MinOf(s: seq<real>): (m: real)
    requires |s| > 0
    ensures exists i :: 0 <= i < |s| && s[i] == m
    ensures forall i :: 0 <= i < |s| ==> m <= s[i]
  {
    if |s| == 1 then s[0]
    else
      var m := MinOf(s[1..]);
      assert forall i :: 1 <= i < |s| ==> s[1..][i - 1] == s[i];
      if s[0] <= m then s[0] else m
  }

  /** The largest value of a non-empty list: Python's `max`. */
  function MaxOf(s: seq<real>): (m: real)
    requires |s| > 0
    ensures exists i :: 0 <= i < |s| && s[i] == m
    ensures forall i :: 0 <= i < |s| ==> s[i] <= m
  {
    if |s| == 1 then s[0]
    else
      var m := MaxOf(s[1..]);
      assert forall i :: 1 <= i < |s| ==> s[1..][i - 1] == s[i];
      if s[0] >= m then s[0] else m
  }

  /** Elementwise `a - b` of two arrays of one length. */
  function Minus(a: seq<real>, b: seq<real>): (r: seq<real>)
    requires |a| == |b|
    ensures |r| == |a| && forall i :: 0 <= i < |a| ==> r[i] + b[i] == a[i]
  {
    seq(|a|, i requires 0 <= i < |a| => a[i] - b[i])
  }

  /** Elementwise `a + b` of two arrays of one length. */
  function Plus(a: seq<real>, b: seq<real>): (r: seq<real>)
    requires |a| == |b|
    ensures |r| == |a| && forall i :: 0 <= i < |a| ==> r[i] - b[i] == a[i]
  {
    seq(|a|, i requires 0 <= i < |a| => a[i] + b[i])
  }

  /** `a - e` and `a + e` lie symmetrically about `a`, `e` away on each side. */
  lemma SymmetricBounds(a: seq<real>, e: seq<real>)
    requires |a| == |e|
    ensures forall i :: 0 <= i < |a| ==>
      Minus(a, e)[i] + Plus(a, e)[i] == 2.0 * a[i] && Plus(a, e)[i] - a[i] == e[i]
  {
  }
}
