/**
 * The binned statistics of arya/plotting/binnedplot.py: choosing the bin
 * edges and centres, scipy's assignment of rows to bins, the statistic
 * and error-bar dispatch, the columns of one binned table, and the
 * `BinnedData` constructor that stacks one such table per group.
 *
 * The estimators and the edge generators (`np.linspace`, `np.arange`,
 * astropy's Bayesian blocks) are parameters.
 */
module Binned {
  import opened Wrappers
  import opened Stats
  import opened PlotDatas

  /** astropy's "blocks" edges over a range, `np.arange(lo, hi, width)` and `np.linspace(lo, hi, n)`. */
  datatype Binning = Binning(
    blocks: (seq<real>, real, real) -> seq<real>,
    arange: (real, real, real) -> seq<real>,
    linspace: (real, real, int) -> seq<real>)

  /** The `bins` argument: None, an int count, or an array of edges. */
  datatype BinsArg = Auto | Count(n: int) | Edges(edges: seq<real>)

  /** `min` and `max` of an empty column raise ValueError. */
  datatype BinsError = EmptyData

  /** The number of bins a list of edges delimits. */
  function NumBins(edges: seq<real>): nat
  {
    if |edges| < 2 then 0 else |edges| - 1
  }

  /** `(bins[1:] + bins[:-1]) / 2`: one centre per bin. */
  function Centres(edges: seq<real>): (c: seq<real>)
    ensures |c| == NumBins(edges)
    ensures forall i :: 0 <= i < |c| ==> c[i] - edges[i] == edges[i + 1] - c[i]
    decreases |edges|
  {
    if |edges| < 2 then []
    else
      var rest := Centres(edges[1..]);
      assert forall i :: 1 <= i < |edges| ==> edges[1..][i - 1] == edges[i];
      [(edges[0] + edges[1]) / 2.0] + rest
  }

  /** Edges that increase strictly, as scipy expects of them. */
  predicate Increasing(edges: seq<real>)
  {
    forall i, j :: 0 <= i < j < |edges| ==> edges[i] < edges[j]
  }

  /** Between strictly increasing edges, each centre lies strictly inside its bin. */
  lemma CentresInsideBins(edges: seq<real>)
    requires Increasing(edges)
    ensures forall i :: 0 <= i < |Centres(edges)| ==> edges[i] < Centres(edges)[i] < edges[i + 1]
  {
  }

  /** The range `make_bins` bins over: the one given, else the data's (min, max). */
  function BinRange(x: seq<real>, binrange: Option<(real, real)>): (r: Result<(real, real), BinsError>)
    ensures r.Err? <==> binrange.None? && |x| == 0
    ensures r.Ok? && binrange.None? ==> forall i :: 0 <= i < |x| ==> r.value.0 <= x[i] <= r.value.1
    ensures binrange.Some? ==> r == Ok(binrange.value)
    ensures binrange.None? && |x| > 0 ==> r == Ok((MinOf(x), MaxOf(x)))
  {
    if binrange.Some? then Ok(binrange.value)
    else if |x| == 0 then Err(EmptyData)
    else Ok((MinOf(x), MaxOf(x)))
  }

  /** The edges chosen from `bins` and `binwidth` over the range (lo, hi). */
  function ChooseEdges(bn: Binning, x: seq<real>, bins: BinsArg, lo: real, hi: real, binwidth: Option<real>): seq<real>
  {
    match bins
    case Auto => if binwidth.None? then bn.blocks(x, lo, hi) else bn.arange(lo, hi, binwidth.value)
    case Count(n) => bn.linspace(lo, hi, n)
    case Edges(e) => e
  }

  /** `make_bins(x, bins, binrange, binwidth)`: the edges and their centres. */
  function MakeBins(bn: Binning, x: seq<real>, bins: BinsArg, binrange: Option<(real, real)>, binwidth: Option<real>)
    : (r: Result<(seq<real>, seq<real>), BinsError>)
    ensures r.Err? <==> binrange.None? && |x| == 0
    ensures r.Ok? ==> (|r.value.1| == NumBins(r.value.0)
      && forall i :: 0 <= i < |r.value.1| ==> r.value.1[i] - r.value.0[i] == r.value.0[i + 1] - r.value.1[i])
    ensures r.Ok? && bins.Edges? ==> r.value.0 == bins.edges
  {
    match BinRange(x, binrange)
    case Err(e) => Err(e)
    case Ok(range) =>
      var edges := ChooseEdges(bn, x, bins, range.0, range.1, binwidth);
      Ok((edges, Centres(edges)))
  }

  /**
   * Which generator `make_bins` asks, and over which range: without a
   * `binrange` it is the data's minimum and maximum; an int asks linspace,
   * no `bins` asks blocks or, with a width, arange.
   */
  lemma MakeBinsSpec(bn: Binning, x: seq<real>, bins: BinsArg, binrange: Option<(real, real)>, binwidth: Option<real>)
    requires binrange.Some? || |x| > 0
    ensures var (lo, hi) := if binrange.Some? then binrange.value else (MinOf(x), MaxOf(x));
      var r := MakeBins(bn, x, bins, binrange, binwidth);
      r.Ok?
      && (bins.Auto? && binwidth.None? ==> r.value.0 == bn.blocks(x, lo, hi))
      && (bins.Auto? && binwidth.Some? ==> r.value.0 == bn.arange(lo, hi, binwidth.value))
      && (bins.Count? ==> r.value.0 == bn.linspace(lo, hi, bins.n))
  {
  }

  /**
   * Row value `v` falls in bin `i` as scipy's `binned_statistic` places it:
   * each bin is half-open on the right except the last, which is closed.
   */
  predicate InBin(v: real, edges: seq<real>, i: nat)
    requires i + 1 < |edges|
  {
    edges[i] <= v && (v < edges[i + 1] || (i + 2 == |edges| && v == edges[i + 1]))
  }

  lemma FindBin(edges: seq<real>, v: real, lo: nat) returns (i: nat)
    requires Increasing(edges) && lo + 1 < |edges|
    requires edges[lo] <= v < edges[|edges| - 1]
    ensures i + 1 < |edges| && InBin(v, edges, i)
    decreases |edges| - lo
  {
    if v < edges[lo + 1] {
      i := lo;
    } else {
      i := FindBin(edges, v, lo + 1);
    }
  }

  /**
   * Over strictly increasing edges, a value lies in some bin exactly when it
   * lies between the first and the last edge, and then in only one.
   */
  lemma BinsPartition(edges: seq<real>, v: real)
    requires Increasing(edges) && |edges| >= 2
    ensures (exists i: nat :: i + 1 < |edges| && InBin(v, edges, i)) <==> edges[0] <= v <= edges[|edges| - 1]
    ensures forall i: nat, j: nat :: i + 1 < |edges| && j + 1 < |edges| && InBin(v, edges, i) && InBin(v, edges, j) ==> i == j
  {
    if edges[0] <= v < edges[|edges| - 1] {
      var i := FindBin(edges, v, 0);
    } else if v == edges[|edges| - 1] {
      assert InBin(v, edges, |edges| - 2);
    }
    forall i: nat, j: nat | i + 1 < |edges| && j + 1 < |edges| && InBin(v, edges, i) && InBin(v, edges, j)
      ensures i == j
    {
    }
  }

  /** The rows among the first `n` whose x falls in bin `i`, in row order. */
  function BinRows(x: seq<real>, edges: seq<real>, i: nat, n: nat): (rows: seq<nat>)
    requires i + 1 < |edges| && n <= |x|
    ensures forall a :: 0 <= a < |rows| ==> rows[a] < n
    ensures forall k: nat :: k in rows <==> k < n && InBin(x[k], edges, i)
    ensures forall a, b :: 0 <= a < b < |rows| ==> rows[a] < rows[b]
  {
    if n == 0 then []
    else
      var prev := BinRows(x, edges, i, n - 1);
      var last: seq<nat> := if InBin(x[n - 1], edges, i) then [n - 1] else [];
      var rows := prev + last;
      assert forall a :: 0 <= a < |prev| ==> rows[a] == prev[a];
      assert forall a :: |prev| <= a < |rows| ==> rows[a] == n - 1;
      rows
  }

  /**
   * Over strictly increasing edges, every row whose x lies between the
   * first and the last edge belongs to exactly one bin, and every other row
   * to none.
   */
  lemma RowsPartitioned(x: seq<real>, edges: seq<real>, k: nat)
    requires Increasing(edges) && |edges| >= 2 && k < |x|
    ensures (exists i: nat :: i + 1 < |edges| && k in BinRows(x, edges, i, |x|)) <==> edges[0] <= x[k] <= edges[|edges| - 1]
    ensures forall i: nat, j: nat :: (i + 1 < |edges| && j + 1 < |edges|
      && k in BinRows(x, edges, i, |x|) && k in BinRows(x, edges, j, |x|)) ==> i == j
  {
    BinsPartition(edges, x[k]);
    if edges[0] <= x[k] <= edges[|edges| - 1] {
      var i: nat :| i + 1 < |edges| && InBin(x[k], edges, i);
      assert k in BinRows(x, edges, i, |x|);
    }
  }

  /** The y values of the rows in bin `i`. */
  function BinValues(x: seq<real>, y: seq<real>, edges: seq<real>, i: nat): (vs: seq<real>)
    requires |x| == |y| && i + 1 < |edges|
  {
    var rows := BinRows(x, edges, i, |x|);
    seq(|rows|, j requires 0 <= j < |rows| => y[rows[j]])
  }

  /** A statistic scipy's `binned_statistic` computes per bin. */
  datatype Statistic = CountOf | MeanOf | MedianOf | StdOf | PercentileOf(q: real)

  /** The statistic of one bin's values; a count is the number of values. */
  function Apply(num: Numerics, s: Statistic, vs: seq<real>): real
  {
    match s
    case CountOf => |vs| as real
    case MeanOf => num.mean(vs)
    case MedianOf => num.median(vs)
    case StdOf => num.std(vs)
    case PercentileOf(q) => num.percentile(vs, q)
  }

  /** `binned_statistic(x, y, bins=edges, statistic=s)[0]`. */
  function BinnedStatistic(num: Numerics, x: seq<real>, y: seq<real>, edges: seq<real>, s: Statistic): (r: seq<real>)
    requires |x| == |y|
    ensures |r| == NumBins(edges)
  {
    seq(NumBins(edges), i requires 0 <= i < NumBins(edges) => Apply(num, s, BinValues(x, y, edges, i)))
  }

  /** The statistic names `_binned_stat` accepts. */
  const Supported: set<string> := {"count", "mean", "median", "std"}

  /** The scipy statistic a supported name asks for. */
  function StatisticOf(stat: string): Statistic
  {
    if stat == "count" then CountOf
    else if stat == "mean" then MeanOf
    else if stat == "median" then MedianOf
    else StdOf
  }

  /**
   * `_binned_stat(x, y, bins, stat, percentile)`: a percentile, when given,
   * wins over `stat`; otherwise one of four names, and NotImplementedError
   * for any other.
   */
  function BinnedStat(num: Numerics, x: seq<real>, y: seq<real>, edges: seq<real>, stat: string, percentile: Option<real>)
    : (r: Result<seq<real>, StatError>)
    requires |x| == |y|
    ensures percentile.Some? ==> r == Ok(BinnedStatistic(num, x, y, edges, PercentileOf(percentile.value)))
    ensures percentile.None? ==> (r.Ok? <==> stat in Supported)
    ensures r.Err? ==> r.error == NotImplemented
    ensures r.Ok? ==> |r.value| == NumBins(edges)
    ensures percentile.None? && stat == "count" ==> (r.Ok?
      && forall i :: 0 <= i < |r.value| ==> r.value[i] == |BinRows(x, edges, i, |x|)| as real)
  {
    if percentile.Some? then Ok(BinnedStatistic(num, x, y, edges, PercentileOf(percentile.value)))
    else if stat in Supported then Ok(BinnedStatistic(num, x, y, edges, StatisticOf(stat)))
    else Err(NotImplemented)
  }

  /** The (stat, errorbar) pairs `_binned_stat_range` accepts. */
  const RangeModes: set<(string, string)> := {("count", "std"), ("mean", "std"), ("mean", "sterr"), ("median", "pi")}

  /** `np.sqrt` elementwise. */
  function SqrtAll(num: Numerics, c: seq<real>): (r: seq<real>)
    ensures |r| == |c|
  {
    seq(|c|, i requires 0 <= i < |c| => num.sqrt(c[i]))
  }

  /** `a / b` elementwise. */
  function Quotients(num: Numerics, a: seq<real>, b: seq<real>): (r: seq<real>)
    requires |a| == |b|
    ensures |r| == |a|
  {
    seq(|a|, i requires 0 <= i < |a| => num.divide(a[i], b[i]))
  }

  /**
   * `_binned_stat_range(x, y, bins, stat, errorbar)`: the low, central and
   * high value per bin. The count and mean modes put the bounds one error
   * either side of the centre; the median mode takes the 16th and 84th
   * percentiles.
   */
  function BinnedStatRange(num: Numerics, x: seq<real>, y: seq<real>, edges: seq<real>, stat: string, errorbar: string)
    : (r: Result<(seq<real>, seq<real>, seq<real>), StatError>)
    requires |x| == |y|
    ensures r.Ok? <==> (stat, errorbar) in RangeModes
    ensures r.Err? ==> r.error == NotImplemented
    ensures r.Ok? ==> |r.value.0| == |r.value.1| == |r.value.2| == NumBins(edges)
    ensures r.Ok? && errorbar != "pi" ==>
      forall i :: 0 <= i < |r.value.1| ==> r.value.0[i] + r.value.2[i] == 2.0 * r.value.1[i]
    ensures r.Ok? && stat == "count" ==> forall i :: 0 <= i < |r.value.1| ==>
      r.value.1[i] == |BinRows(x, edges, i, |x|)| as real && r.value.2[i] - r.value.1[i] == num.sqrt(r.value.1[i])
    ensures r.Ok? && stat == "mean" ==> r.value.1 == BinnedStatistic(num, x, y, edges, MeanOf)
    ensures r.Ok? && stat == "mean" && errorbar == "std" ==> forall i :: 0 <= i < |r.value.1| ==>
      r.value.2[i] - r.value.1[i] == BinnedStatistic(num, x, y, edges, StdOf)[i]
    ensures r.Ok? && errorbar == "sterr" ==> forall i :: 0 <= i < |r.value.1| ==>
      r.value.2[i] - r.value.1[i]
        == num.divide(BinnedStatistic(num, x, y, edges, StdOf)[i], num.sqrt(|BinRows(x, edges, i, |x|)| as real))
    ensures r.Ok? && stat == "median" ==>
      r.value.0 == BinnedStatistic(num, x, y, edges, PercentileOf(16.0))
      && r.value.1 == BinnedStatistic(num, x, y, edges, MedianOf)
      && r.value.2 == BinnedStatistic(num, x, y, edges, PercentileOf(84.0))
  {
    if stat == "count" && errorbar == "std" then
      var c := BinnedStatistic(num, x, y, edges, CountOf);
      var e := SqrtAll(num, c);
      SymmetricBounds(c, e);
      Ok((Minus(c, e), c, Plus(c, e)))
    else if stat == "mean" && errorbar == "std" then
      var c := BinnedStatistic(num, x, y, edges, MeanOf);
      var e := BinnedStatistic(num, x, y, edges, StdOf);
      SymmetricBounds(c, e);
      Ok((Minus(c, e), c, Plus(c, e)))
    else if stat == "mean" && errorbar == "sterr" then
      var c := BinnedStatistic(num, x, y, edges, MeanOf);
      var e := Quotients(num, BinnedStatistic(num, x, y, edges, StdOf),
                         SqrtAll(num, BinnedStatistic(num, x, y, edges, CountOf)));
      SymmetricBounds(c, e);
      Ok((Minus(c, e), c, Plus(c, e)))
    else if stat == "median" && errorbar == "pi" then
      Ok((BinnedStatistic(num, x, y, edges, PercentileOf(16.0)),
          BinnedStatistic(num, x, y, edges, MedianOf),
          BinnedStatistic(num, x, y, edges, PercentileOf(84.0))))
    else
      Err(NotImplemented)
  }

  /** A table: its columns, named, in insertion order. */
  type Table = seq<(string, seq<real>)>

  /** Why `BinnedData` fails. */
  datatype BinnedError =
    | HueBinning            // `bin_hues` is called with four arguments but takes three: TypeError
    | MissingColumn(key: string)   // `data["x"]`: KeyError
    | NoAttribute(name: string)    // `data.y`: AttributeError
    | Bins(bins: BinsError)
    | Stat(stat: StatError)

  /** Every column of the frame has the same number of rows. */
  predicate Rectangular(data: Frame)
  {
    forall a, b :: a in data && b in data ==> |data[a]| == |data[b]|
  }

  /** The names of a table's columns, in order. */
  function Names(t: Table): (names: seq<string>)
    ensures |names| == |t| && forall i :: 0 <= i < |t| ==> names[i] == t[i].0
  {
    seq(|t|, i requires 0 <= i < |t| => t[i].0)
  }

  /** The binned mean of each group column, in `group_cols` order. */
  function GroupMeans(num: Numerics, data: Frame, cols: seq<string>, edges: seq<real>): (t: Table)
    requires "x" in data && Rectangular(data) && forall c :: c in cols ==> c in data
    ensures |t| == |cols| && Names(t) == cols
    ensures forall j :: 0 <= j < |t| ==> |t[j].1| == NumBins(edges)
    ensures forall j :: 0 <= j < |t| ==> t[j].1 == BinnedStatistic(num, data["x"], data[cols[j]], edges, MeanOf)
  {
    seq(|cols|, j requires 0 <= j < |cols| => (cols[j], BinnedStatistic(num, data["x"], data[cols[j]], edges, MeanOf)))
  }

  /**
   * The columns `make_binned` writes before the group columns: the centres
   * as x, the error bounds as y_l and y_h when an error bar is asked for,
   * then the binned y.
   */
  function BinnedHead(num: Numerics, x: seq<real>, y: seq<real>, edges: seq<real>, stat: string, errorbar: Option<string>)
    : (r: Result<Table, StatError>)
    requires |x| == |y|
    ensures r.Err? <==> (errorbar.Some? && (stat, errorbar.value) !in RangeModes) || (errorbar.None? && stat !in Supported)
    ensures r.Err? ==> r.error == NotImplemented
    ensures r.Ok? ==> Names(r.value) == ["x"] + (if errorbar.Some? then ["y_l", "y_h"] else []) + ["y"]
    ensures r.Ok? ==> r.value[0].1 == Centres(edges) && forall j :: 0 <= j < |r.value| ==> |r.value[j].1| == NumBins(edges)
    ensures r.Ok? && errorbar.Some? ==>
      var range := BinnedStatRange(num, x, y, edges, stat, errorbar.value).value;
      r.value[1].1 == range.0 && r.value[2].1 == range.2 && r.value[3].1 == range.1
    ensures r.Ok? && errorbar.None? ==> r.value[1].1 == BinnedStat(num, x, y, edges, stat, None).value
  {
    if errorbar.Some? then
      var range := BinnedStatRange(num, x, y, edges, stat, errorbar.value);
      if range.Err? then Err(range.error)
      else
        var t := [("x", Centres(edges)), ("y_l", range.value.0), ("y_h", range.value.2), ("y", range.value.1)];
        assert Names(t) == ["x", "y_l", "y_h", "y"];
        Ok(t)
    else
      var c := BinnedStat(num, x, y, edges, stat, None);
      if c.Err? then Err(c.error)
      else
        var t := [("x", Centres(edges)), ("y", c.value)];
        assert Names(t) == ["x", "y"];
        Ok(t)
  }

  /** The names of two tables joined are their names joined. */
  lemma NamesAppend(a: Table, b: Table)
    ensures Names(a + b) == Names(a) + Names(b)
  {
    assert forall i :: 0 <= i < |a + b| ==> Names(a + b)[i] == (Names(a) + Names(b))[i];
  }

  /**
   * `make_binned`: the head columns, then the binned mean of every group
   * column. The group argument is never read, so the table does not
   * depend on it; `data.y` fails when the plot has no y.
   */
  function MakeBinned(num: Numerics, data: Frame, cols: seq<string>, edges: seq<real>, stat: string, errorbar: Option<string>)
    : Result<Table, BinnedError>
    requires "x" in data && Rectangular(data) && forall c :: c in cols ==> c in data
  {
    if "y" !in data then Err(NoAttribute("y"))
    else
      var head := BinnedHead(num, data["x"], data["y"], edges, stat, errorbar);
      if head.Err? then Err(Stat(head.error))
      else Ok(head.value + GroupMeans(num, data, cols, edges))
  }

  /**
   * `make_binned` fails only for a missing y or an unsupported statistic;
   * otherwise its columns are x, then y_l and y_h exactly when an error bar
   * is asked for, then y, then the group columns holding their binned means,
   * all with one row per bin and the centres as x.
   */
  lemma MakeBinnedSpec(num: Numerics, data: Frame, cols: seq<string>, edges: seq<real>, stat: string, errorbar: Option<string>)
    requires "x" in data && Rectangular(data) && forall c :: c in cols ==> c in data
    ensures var r := MakeBinned(num, data, cols, edges, stat, errorbar);
      (r.Err? <==> ("y" !in data
        || (errorbar.Some? && (stat, errorbar.value) !in RangeModes)
        || (errorbar.None? && stat !in Supported)))
      && (r.Err? ==> r.error == if "y" !in data then NoAttribute("y") else Stat(NotImplemented))
      && (r.Ok? ==> Names(r.value) == ["x"] + (if errorbar.Some? then ["y_l", "y_h"] else []) + ["y"] + cols)
      && (r.Ok? ==> r.value[0].1 == Centres(edges) && forall j :: 0 <= j < |r.value| ==> |r.value[j].1| == NumBins(edges))
      && (r.Ok? ==> r.value[|r.value| - |cols|..] == GroupMeans(num, data, cols, edges))
      &&
      (r.Ok? && errorbar.Some? ==>
        var range := BinnedStatRange(num, data["x"], data["y"], edges, stat, errorbar.value).value;
        r.value[1].1 == range.0 && r.value[2].1 == range.2 && r.value[3].1 == range.1)
      && (r.Ok? && errorbar.None? ==> r.value[1].1 == BinnedStat(num, data["x"], data["y"], edges, stat, None).value)
      && (r.Ok? ==> |cols| <= |r.value| && forall j :: 0 <= j < |cols| ==>
        r.value[|r.value| - |cols|..][j].1 == BinnedStatistic(num, data["x"], data[cols[j]], edges, MeanOf))
  {
    MakeBinnedShape(num, data, cols, edges, stat, errorbar);
    MakeBinnedBand(num, data, cols, edges, stat, errorbar);
    MakeBinnedY(num, data, cols, edges, stat, errorbar);
    MakeBinnedMeans(num, data, cols, edges, stat, errorbar);
  }

  /** The outcome and the column layout of `make_binned`. */
  lemma MakeBinnedShape(num: Numerics, data: Frame, cols: seq<string>, edges: seq<real>, stat: string, errorbar: Option<string>)
    requires "x" in data && Rectangular(data) && forall c :: c in cols ==> c in data
    ensures var r := MakeBinned(num, data, cols, edges, stat, errorbar);
      (r.Err? <==> ("y" !in data
        || (errorbar.Some? && (stat, errorbar.value) !in RangeModes)
        || (errorbar.None? && stat !in Supported)))
      && (r.Err? ==> r.error == if "y" !in data then NoAttribute("y") else Stat(NotImplemented))
      && (r.Ok? ==> Names(r.value) == ["x"] + (if errorbar.Some? then ["y_l", "y_h"] else []) + ["y"] + cols)
      && (r.Ok? ==> r.value[0].1 == Centres(edges) && forall j :: 0 <= j < |r.value| ==> |r.value[j].1| == NumBins(edges))
      && (r.Ok? ==> r.value[|r.value| - |cols|..] == GroupMeans(num, data, cols, edges))
  {
    if "y" in data {
      var head := BinnedHead(num, data["x"], data["y"], edges, stat, errorbar);
      if head.Ok? {
        var means := GroupMeans(num, data, cols, edges);
        assert MakeBinned(num, data, cols, edges, stat, errorbar) == Ok(head.value + means);
        NamesAppend(head.value, means);
        JoinedColumns(head.value, means);
      }
    }
  }

  /** With an error bar, y_l, y_h and y hold the low end, high end and centre of the binned band of y. */
  lemma MakeBinnedBand(num: Numerics, data: Frame, cols: seq<string>, edges: seq<real>, stat: string, errorbar: Option<string>)
    requires "x" in data && Rectangular(data) && forall c :: c in cols ==> c in data
    ensures var r := MakeBinned(num, data, cols, edges, stat, errorbar);
      r.Ok? && errorbar.Some? ==>
        var range := BinnedStatRange(num, data["x"], data["y"], edges, stat, errorbar.value).value;
        r.value[1].1 == range.0 && r.value[2].1 == range.2 && r.value[3].1 == range.1
  {
    if "y" in data {
      var head := BinnedHead(num, data["x"], data["y"], edges, stat, errorbar);
      if head.Ok? {
        var means := GroupMeans(num, data, cols, edges);
        var t := head.value + means;
        assert MakeBinned(num, data, cols, edges, stat, errorbar) == Ok(t);
        if errorbar.Some? {
          assert |Names(head.value)| == 4;
          assert t[1] == head.value[1] && t[2] == head.value[2] && t[3] == head.value[3];
        }
      }
    }
  }

  /** Without an error bar, y holds the binned statistic of y. */
  lemma MakeBinnedY(num: Numerics, data: Frame, cols: seq<string>, edges: seq<real>, stat: string, errorbar: Option<string>)
    requires "x" in data && Rectangular(data) && forall c :: c in cols ==> c in data
    ensures var r := MakeBinned(num, data, cols, edges, stat, errorbar);
      r.Ok? && errorbar.None? ==> r.value[1].1 == BinnedStat(num, data["x"], data["y"], edges, stat, None).value
  {
    if "y" in data {
      var head := BinnedHead(num, data["x"], data["y"], edges, stat, errorbar);
      if head.Ok? {
        var means := GroupMeans(num, data, cols, edges);
        var t := head.value + means;
        assert MakeBinned(num, data, cols, edges, stat, errorbar) == Ok(t);
        if errorbar.None? {
          assert |Names(head.value)| == 2;
          assert t[1] == head.value[1];
        }
      }
    }
  }

  /** Each group column holds the binned means of that column. */
  lemma MakeBinnedMeans(num: Numerics, data: Frame, cols: seq<string>, edges: seq<real>, stat: string, errorbar: Option<string>)
    requires "x" in data && Rectangular(data) && forall c :: c in cols ==> c in data
    ensures var r := MakeBinned(num, data, cols, edges, stat, errorbar);
      r.Ok? ==> |cols| <= |r.value| && forall j :: 0 <= j < |cols| ==>
        r.value[|r.value| - |cols|..][j].1 == BinnedStatistic(num, data["x"], data[cols[j]], edges, MeanOf)
  {
    MakeBinnedShape(num, data, cols, edges, stat, errorbar);
  }

  /** The columns of two tables joined: the first table's, then the second's. */
  lemma JoinedColumns(head: Table, tail: Table)
    ensures (head + tail)[|head + tail| - |tail|..] == tail
    ensures forall j :: 0 <= j < |head| ==> (head + tail)[j] == head[j]
    ensures forall j :: 0 <= j < |tail| ==> (head + tail)[|head + tail| - |tail| + j] == tail[j]
  {
  }

  /** A row's values in the group columns: its groupby key. */
  function KeyOf(data: Frame, cols: seq<string>, k: nat): (key: seq<real>)
    requires forall c :: c in cols ==> c in data && k < |data[c]|
    ensures |key| == |cols| && forall j :: 0 <= j < |cols| ==> key[j] == data[cols[j]][k]
  {
    if |cols| == 0 then [] else [data[cols[0]][k]] + KeyOf(data, cols[1..], k)
  }

  /** The distinct keys among the first `n` rows. */
  function GroupKeys(data: Frame, cols: seq<string>, n: nat): set<seq<real>>
    requires forall c :: c in cols ==> c in data && n <= |data[c]|
  {
    set k | 0 <= k < n :: KeyOf(data, cols, k)
  }

  /**
   * How many items `groups()` yields: one, the whole frame, when there are
   * no group columns, else one key per distinct combination of values.
   */
  function NumGroups(data: Frame, cols: seq<string>): nat
    requires "x" in data && Rectangular(data) && forall c :: c in cols ==> c in data
  {
    if |cols| == 0 then 1 else |GroupKeys(data, cols, |data["x"]|)|
  }

  /** Rows make at least one group; with group columns and no rows there is none. */
  lemma NumGroupsBounds(data: Frame, cols: seq<string>)
    requires "x" in data && Rectangular(data) && forall c :: c in cols ==> c in data
    ensures |data["x"]| > 0 ==> NumGroups(data, cols) >= 1
    ensures |data["x"]| == 0 && |cols| > 0 ==> NumGroups(data, cols) == 0
  {
    if |data["x"]| > 0 && |cols| > 0 {
      assert KeyOf(data, cols, 0) in GroupKeys(data, cols, |data["x"]|);
    }
  }

  /** `s` repeated `k` times. */
  function Repeat(s: seq<real>, k: nat): (r: seq<real>)
    ensures |r| == k * |s|
  {
    if k == 0 then [] else Repeat(s, k - 1) + s
  }

  /** Entry `j` of repetition `g` is entry `j` of `s`. */
  lemma {:induction false} RepeatAt(s: seq<real>, k: nat, g: nat, j: nat)
    requires g < k && j < |s|
    ensures g * |s| + j < |Repeat(s, k)| && Repeat(s, k)[g * |s| + j] == s[j]
  {
    if g < k - 1 {
      RepeatAt(s, k - 1, g, j);
    } else {
      assert g * |s| + j == |Repeat(s, k - 1)| + j;
    }
  }

  /** `k` copies of a table stacked with `ignore_index`: each column repeated; no columns when `k` is 0. */
  function Stack(t: Table, k: nat): (r: Table)
    ensures k == 0 ==> r == []
    ensures k > 0 ==> Names(r) == Names(t)
  {
    if k == 0 then []
    else
      var r := seq(|t|, c requires 0 <= c < |t| => (t[c].0, Repeat(t[c].1, k)));
      assert forall c :: 0 <= c < |t| ==> Names(r)[c] == Names(t)[c];
      r
  }

  /**
   * The stacked table holds the one binned table once per group: entry `j`
   * of copy `g` of each column is entry `j` of that column.
   */
  lemma StackRepeats(t: Table, k: nat, c: nat, g: nat, j: nat)
    requires c < |t| && g < k && j < |t[c].1|
    ensures |Stack(t, k)| == |t| && |Stack(t, k)[c].1| == k * |t[c].1|
    ensures g * |t[c].1| + j < |Stack(t, k)[c].1| && Stack(t, k)[c].1[g * |t[c].1| + j] == t[c].1[j]
  {
    RepeatAt(t[c].1, k, g, j);
  }

  /** `pd.concat([df, t], ignore_index=True)`: the empty frame adds nothing; columns of one name are appended. */
  function Concat(df: Table, t: Table): (r: Table)
    requires |df| == 0 || Names(df) == Names(t)
    ensures |df| == 0 ==> r == t
  {
    if |df| == 0 then t
    else seq(|t|, c requires 0 <= c < |t| => (t[c].0, df[c].1 + t[c].1))
  }

  /** Appending one more copy of the table to `g` stacked copies gives `g + 1` copies. */
  lemma StackStep(t: Table, g: nat)
    ensures |Stack(t, g)| == 0 || Names(Stack(t, g)) == Names(t)
    ensures Concat(Stack(t, g), t) == Stack(t, g + 1)
  {
    if g == 0 {
      var one := Stack(t, 1);
      forall c | 0 <= c < |t|
        ensures one[c] == t[c]
      {
        assert Repeat(t[c].1, 1) == [] + t[c].1 == t[c].1;
      }
    } else {
      var r := Concat(Stack(t, g), t);
      assert forall c :: 0 <= c < |t| ==> Names(Stack(t, g))[c] == Names(t)[c];
      if |t| > 0 {
        assert |Stack(t, g)| == |t|;
      }
    }
  }

  /**
   * The loop over `groups()`: each group appends the result of
   * `make_binned` to the frame. That result does not depend on the group,
   * so every iteration receives the same `table`, and the frame ends up as
   * that table stacked `k` times; no group leaves the empty frame, and a
   * failing table fails at the first group.
   */
  method BinGroups(table: Result<Table, BinnedError>, k: nat) returns (r: Result<Table, BinnedError>)
    ensures k == 0 ==> r == Ok([])
    ensures k > 0 && table.Err? ==> r == Err(table.error)
    ensures k > 0 && table.Ok? ==> r == Ok(Stack(table.value, k))
  {
    var df: Table := [];
    var g := 0;
    while g < k
      invariant 0 <= g <= k
      invariant g == 0 ==> df == []
      invariant g > 0 ==> table.Ok? && df == Stack(table.value, g)
    {
      var t := table;
      if t.Err? {
        return Err(t.error);
      }
      StackStep(t.value, g);
      df := Concat(df, t.value);
      g := g + 1;
    }
    return Ok(df);
  }

  /** No value appears twice. */
  predicate Distinct<T(==)>(s: seq<T>)
  {
    forall i, j :: 0 <= i < j < |s| ==> s[i] != s[j]
  }

  /**
   * `BinnedData(...)`, after the plot data `pd` is projected: hue binning
   * fails first, then a missing x, then the bin edges; otherwise the binned
   * table of the whole data is stacked once per group. `cols` is the order
   * in which `group_cols` lists its set; `hueBinning` says whether any of
   * `hue_bins`, `hue_binrange` or `hue_binwidth` was given.
   */
  method NewBinnedData(num: Numerics, bn: Binning, pd: PlotData, hueBinning: bool, bins: BinsArg,
                       binwidth: Option<real>, binrange: Option<(real, real)>, stat: string,
                       errorbar: Option<string>, cols: seq<string>) returns (r: Result<Table, BinnedError>)
    requires pd.data.Keys == pd.vars.Keys && Rectangular(pd.data)
    requires (forall c :: c in cols <==> c in GroupCols(pd)) && Distinct(cols)
    ensures "hue" in pd.vars && hueBinning ==> r == Err(HueBinning)
    ensures !("hue" in pd.vars && hueBinning) && "x" !in pd.data ==> r == Err(MissingColumn("x"))
    ensures !("hue" in pd.vars && hueBinning) && "x" in pd.data ==>
      var bs := MakeBins(bn, pd.data["x"], bins, binrange, binwidth);
      (bs.Err? ==> r == Err(Bins(bs.error)))
      && (bs.Ok? ==>
        var k := NumGroups(pd.data, cols);
        var t := MakeBinned(num, pd.data, cols, bs.value.0, stat, errorbar);
        (k == 0 ==> r == Ok([]))
        && (k > 0 && t.Err? ==> r == Err(t.error))
        && (k > 0 && t.Ok? ==> r == Ok(Stack(t.value, k))))
  {
    if "hue" in pd.vars && hueBinning {
      return Err(HueBinning);
    }
    if "x" !in pd.data {
      return Err(MissingColumn("x"));
    }
    var data: Frame := pd.data;
    assert forall c :: c in cols ==> c in data;
    var bs := MakeBins(bn, data["x"], bins, binrange, binwidth);
    if bs.Err? {
      return Err(Bins(bs.error));
    }
    r := BinGroups(MakeBinned(num, data, cols, bs.value.0, stat, errorbar), NumGroups(data, cols));
  }
}