/**
 * The running-median summary of arya/plotting/medianplot.py: each group of
 * rows is sorted by x and cut into consecutive windows of `binsize` rows,
 * and every window becomes one output row holding the chosen statistic of
 * its x values and of its y values, plus, on request, an error band
 * computed over the whole group's y values.
 *
 * The estimators are parameters (see module Stats); the order in which
 * pandas lists the groups is a parameter `keys`.
 */
module Medians {
  import opened Wrappers
  import opened Stats
  import opened PlotDatas
  import Binned

  /** Why summarising a group fails: a KeyError, `N % 0`, or an error of the statistic. */
  datatype MedianError = MissingColumn(key: string) | ZeroDivision | Stat(err: StatError)

  /** One output row: the statistic of the window's x and y, and the band (y_l, y_h) when requested. */
  datatype MedianRow = MedianRow(x: real, y: real, bounds: Option<(real, real)>)

  // ---------------------------------------------------------------------
  // The statistics
  // ---------------------------------------------------------------------

  /**
   * `_stat`: a percentile when one is asked for; otherwise the count, mean,
   * median or standard deviation by name. "mode" refers to a variable `y`
   * the function never defines, and any other name is not implemented.
   */
  function StatOf(num: Numerics, xs: seq<real>, stat: string, percentile: Option<real>): (r: Result<real, StatError>)
    ensures percentile.Some? ==> r == Ok(num.percentile(xs, percentile.value))
    ensures percentile.None? ==> (r.Ok? <==> stat in Binned.Supported)
    ensures percentile.None? && r.Ok? ==> r.value == Binned.Apply(num, Binned.StatisticOf(stat), xs)
    ensures percentile.None? && stat == "mode" ==> r == Err(Undefined("y"))
    ensures percentile.None? && stat !in Binned.Supported && stat != "mode" ==> r == Err(NotImplemented)
  {
    if percentile.Some? then Ok(num.percentile(xs, percentile.value))
    else if stat == "count" then Ok(|xs| as real)
    else if stat == "mean" then Ok(num.mean(xs))
    else if stat == "median" then Ok(num.median(xs))
    else if stat == "std" then Ok(num.std(xs))
    else if stat == "mode" then Err(Undefined("y"))
    else Err(NotImplemented)
  }

  /** The (statistic, error bar) pairs `_stat_range` implements; unlike the binned plot, no "count". */
  const MedianRangeModes: set<(string, string)> := {("mean", "std"), ("mean", "sterr"), ("median", "pi")}

  /**
   * `_stat_range`: the band (low, high) of a list of values: the mean plus
   * and minus the standard deviation or the standard error, or the 16th and
   * 84th percentiles around the median. Every other pair is not implemented.
   */
  function StatRange(num: Numerics, ys: seq<real>, stat: string, errorbar: string): (r: Result<(real, real), StatError>)
    ensures r.Ok? <==> (stat, errorbar) in MedianRangeModes
    ensures r.Err? ==> r.error == NotImplemented
    ensures r.Ok? && stat == "mean" ==> r.value.0 + r.value.1 == 2.0 * num.mean(ys)
    ensures r.Ok? && errorbar == "std" ==> r.value.1 - num.mean(ys) == num.std(ys)
    ensures r.Ok? && errorbar == "sterr" ==>
      r.value.1 - num.mean(ys) == num.divide(num.std(ys), num.sqrt(|ys| as real))
    ensures r.Ok? && stat == "median" ==> r.value == (num.percentile(ys, 16.0), num.percentile(ys, 84.0))
  {
    if stat == "mean" && errorbar == "std" then
      var c := num.mean(ys);
      var e := num.std(ys);
      Ok((c - e, c + e))
    else if stat == "mean" && errorbar == "sterr" then
      var c := num.mean(ys);
      var e := num.divide(num.std(ys), num.sqrt(|ys| as real));
      Ok((c - e, c + e))
    else if stat == "median" && errorbar == "pi" then
      Ok((StatOf(num, ys, stat, Some(16.0)).value, StatOf(num, ys, stat, Some(84.0)).value))
    else Err(NotImplemented)
  }

  // ---------------------------------------------------------------------
  // Sorting a group by x
  // ---------------------------------------------------------------------

  /** Row positions all inside a column of length `n`. */
  predicate Below(order: seq<nat>, n: nat)
  {
    forall a :: 0 <= a < |order| ==> order[a] < n
  }

  /** The values at the given row positions, in that order: `iloc[order]`. */
  function Permute(s: seq<real>, order: seq<nat>): (r: seq<real>)
    requires Below(order, |s|)
    ensures |r| == |order|
    ensures forall a :: 0 <= a < |order| ==> r[a] == s[order[a]]
  {
    seq(|order|, a requires 0 <= a < |order| => s[order[a]])
  }

  /** The rows `order` lists have non-decreasing x. */
  predicate SortedBy(xs: seq<real>, order: seq<nat>)
    requires Below(order, |xs|)
  {
    forall a, b :: 0 <= a < b < |order| ==> xs[order[a]] <= xs[order[b]]
  }

  /** Rows 0 .. n-1. */
  function Range(n: nat): (r: seq<nat>)
    ensures |r| == n && forall a :: 0 <= a < n ==> r[a] == a
  {
    if n == 0 then [] else Range(n - 1) + [n - 1]
  }

  /** Inserts row `k` after every row of `order` whose x is at most x[k]. */
  function InsertIdx(xs: seq<real>, order: seq<nat>, k: nat): (r: seq<nat>)
    requires k < |xs| && Below(order, |xs|)
    ensures |r| == |order| + 1 && Below(r, |xs|)
  {
    if |order| == 0 then [k]
    else
      var last := order[|order| - 1];
      if xs[last] <= xs[k] then order + [k]
      else InsertIdx(xs, order[..|order| - 1], k) + [last]
  }

  /** Rows 0 .. n-1 ordered by x, ties in row order: `sort_values(by="x")`. */
  function SortIdx(xs: seq<real>, n: nat): (r: seq<nat>)
    requires n <= |xs|
    ensures |r| == n && Below(r, |xs|)
  {
    if n == 0 then [] else InsertIdx(xs, SortIdx(xs, n - 1), n - 1)
  }

  /** Inserting adds exactly the inserted row. */
  lemma {:induction false} InsertIdxPerm(xs: seq<real>, order: seq<nat>, k: nat)
    requires k < |xs| && Below(order, |xs|)
    ensures multiset(InsertIdx(xs, order, k)) == multiset(order) + multiset{k}
  {
    if |order| > 0 {
      var last := order[|order| - 1];
      var init := order[..|order| - 1];
      assert order == init + [last];
      if xs[k] < xs[last] {
        InsertIdxPerm(xs, init, k);
      }
    }
  }

  /** A bound on x that holds for every listed row and for row k holds for every row after inserting k. */
  lemma InsertedBelow(xs: seq<real>, order: seq<nat>, k: nat, bound: real)
    requires k < |xs| && Below(order, |xs|) && xs[k] <= bound
    requires forall a :: 0 <= a < |order| ==> xs[order[a]] <= bound
    ensures forall a :: 0 <= a < |order| + 1 ==> xs[InsertIdx(xs, order, k)[a]] <= bound
  {
    var ins := InsertIdx(xs, order, k);
    InsertIdxPerm(xs, order, k);
    forall a | 0 <= a < |ins|
      ensures xs[ins[a]] <= bound
    {
      assert ins[a] in multiset(order) + multiset{k};
      if ins[a] != k {
        var b :| 0 <= b < |order| && order[b] == ins[a];
      }
    }
  }

  /** Inserting into a sorted order keeps it sorted. */
  lemma {:induction false} InsertIdxSorted(xs: seq<real>, order: seq<nat>, k: nat)
    requires k < |xs| && Below(order, |xs|) && SortedBy(xs, order)
    ensures SortedBy(xs, InsertIdx(xs, order, k))
  {
    if |order| > 0 {
      var last := order[|order| - 1];
      var init := order[..|order| - 1];
      if xs[k] < xs[last] {
        InsertIdxSorted(xs, init, k);
        var ins := InsertIdx(xs, init, k);
        InsertedBelow(xs, init, k, xs[last]);
        var r := ins + [last];
        assert forall a :: 0 <= a < |ins| ==> r[a] == ins[a];
        assert r[|ins|] == last;
      }
    }
  }

  /** Sorting yields non-decreasing x. */
  lemma {:induction false} SortIdxSorted(xs: seq<real>, n: nat)
    requires n <= |xs|
    ensures SortedBy(xs, SortIdx(xs, n))
  {
    if n > 0 {
      SortIdxSorted(xs, n - 1);
      InsertIdxSorted(xs, SortIdx(xs, n - 1), n - 1);
    }
  }

  /** Sorting lists every row exactly once. */
  lemma {:induction false} SortIdxPerm(xs: seq<real>, n: nat)
    requires n <= |xs|
    ensures multiset(SortIdx(xs, n)) == multiset(Range(n))
  {
    if n > 0 {
      var prev := SortIdx(xs, n - 1);
      var last: nat := n - 1;
      SortIdxPerm(xs, last);
      InsertIdxPerm(xs, prev, last);
      calc {
        multiset(SortIdx(xs, n));
        multiset(InsertIdx(xs, prev, last));
        multiset(prev) + multiset{last};
        multiset(Range(last)) + multiset{last};
        multiset(Range(last) + [last]);
      }
    }
  }

  /** Column `c` of a group, with the rows in order of x. */
  function SortedCol(group: Frame, c: string): (s: seq<real>)
    requires Binned.Rectangular(group) && "x" in group && c in group
    ensures |s| == |group["x"]|
    ensures forall a :: 0 <= a < |s| ==> s[a] == group[c][SortIdx(group["x"], |group["x"]|)[a]]
  {
    Permute(group[c], SortIdx(group["x"], |group["x"]|))
  }

  /**
   * Sorting moves whole rows: the x and the y at each sorted position come
   * from one and the same row of the group.
   */
  lemma SortedRowsStayWhole(group: Frame)
    requires Binned.Rectangular(group) && "x" in group && "y" in group
    ensures forall a :: 0 <= a < |group["x"]| ==>
      exists k :: (0 <= k < |group["x"]| && SortedCol(group, "x")[a] == group["x"][k] && SortedCol(group, "y")[a] == group["y"][k])
  {
    var order := SortIdx(group["x"], |group["x"]|);
    forall a | 0 <= a < |group["x"]|
      ensures exists k :: (0 <= k < |group["x"]| && SortedCol(group, "x")[a] == group["x"][k] && SortedCol(group, "y")[a] == group["y"][k])
    {
      var k := order[a];
      assert SortedCol(group, "x")[a] == group["x"][k] && SortedCol(group, "y")[a] == group["y"][k];
    }
  }

  /** The x column, once sorted, is non-decreasing and holds every row's x exactly once. */
  lemma SortedX(group: Frame)
    requires Binned.Rectangular(group) && "x" in group
    ensures forall a, b :: 0 <= a < b < |group["x"]| ==> SortedCol(group, "x")[a] <= SortedCol(group, "x")[b]
    ensures multiset(SortIdx(group["x"], |group["x"]|)) == multiset(Range(|group["x"]|))
  {
    SortIdxSorted(group["x"], |group["x"]|);
    SortIdxPerm(group["x"], |group["x"]|);
  }

  // ---------------------------------------------------------------------
  // The windows
  // ---------------------------------------------------------------------

  /** The extra rows of the first window: half of what `binsize` leaves over. */
  function Offset(n: nat, b: nat): (o: nat)
    requires b > 0
    ensures 2 * o <= n % b < b
  {
    (n % b) / 2
  }

  /** How many windows start at row `i` or later: one per start `s` with `s + 2*b < n`. */
  function CountFrom(n: nat, b: nat, i: nat): nat
    requires b > 0
    decreases n - i
  {
    if i + 2 * b < n then 1 + CountFrom(n, b, i + b) else 0
  }

  /** The number of windows of a group of `n` rows. */
  function NumWindows(n: nat, b: nat): nat
    requires b > 0
  {
    CountFrom(n, b, 0)
  }

  /** Window `w` starts at row w*b. */
  function WindowStart(w: nat, b: nat): nat
  {
    w * b
  }

  /** Consecutive windows start b rows apart. */
  lemma NextStart(w: nat, b: nat)
    ensures WindowStart(w + 1, b) == WindowStart(w, b) + b
  {
    assert (w + 1) * b == w * b + b;
  }

  /** The first window takes the offset's extra rows; every later one ends b rows after its start. */
  function WindowStop(w: nat, n: nat, b: nat): nat
    requires b > 0
  {
    if w == 0 then b + Offset(n, b) else WindowStart(w, b) + b
  }

  /** Counting from row i: the last counted start lies below n - 2b, the next one would not. */
  lemma {:induction false} CountFromBounds(n: nat, b: nat, i: nat)
    requires b > 0
    ensures var c := CountFrom(n, b, i);
      (c == 0 || i + (c - 1) * b + 2 * b < n) && n <= i + c * b + 2 * b
    decreases n - i
  {
    if i + 2 * b < n {
      CountFromBounds(n, b, i + b);
      var c' := CountFrom(n, b, i + b);
      assert (c' + 1) * b == c' * b + b;
      if c' > 0 {
        assert c' * b == (c' - 1) * b + b;
      }
    }
  }

  /** Every start counted from row i lies below n - 2b. */
  lemma {:induction false} CountedStarts(n: nat, b: nat, i: nat, k: nat)
    requires b > 0 && k < CountFrom(n, b, i)
    ensures i + k * b + 2 * b < n
    decreases n - i
  {
    if k > 0 {
      CountedStarts(n, b, i + b, k - 1);
      assert k * b == (k - 1) * b + b;
    }
  }

  /** Window w exists exactly when its start leaves more than 2b rows. */
  lemma StartCounted(n: nat, b: nat, w: nat)
    requires b > 0
    ensures w < NumWindows(n, b) <==> WindowStart(w, b) + 2 * b < n
  {
    var c := NumWindows(n, b);
    CountFromBounds(n, b, 0);
    if w < c {
      MulMono(w, c - 1, b);
    } else {
      MulMono(c, w, b);
    }
  }

  /** Multiplying by a natural number keeps the order. */
  lemma {:induction false} MulMono(a: nat, a': nat, b: nat)
    requires a <= a'
    ensures a * b <= a' * b
    decreases a' - a
  {
    if a < a' {
      MulMono(a, a' - 1, b);
      assert a' * b == (a' - 1) * b + b;
    }
  }

  /**
   * The number of windows is the least w whose start w*b leaves at most 2b
   * rows: a group of at most 2b rows has none.
   */
  lemma NumWindowsLeast(n: nat, b: nat)
    requires b > 0
    ensures var w := NumWindows(n, b);
      (w == 0 || (w - 1) * b + 2 * b < n) && n <= w * b + 2 * b
    ensures NumWindows(n, b) == 0 <==> n <= 2 * b
  {
    CountFromBounds(n, b, 0);
  }

  /** A group of more than 2b rows leaves at least 2b plus its remainder modulo b. */
  lemma RemainderRoom(n: nat, b: nat)
    requires b > 0 && 2 * b < n
    ensures 2 * b + n % b <= n
  {
    var q := n / b;
    assert n == q * b + n % b;
    if q <= 1 {
      assert false;
    }
    assert q * b == (q - 2) * b + 2 * b;
  }

  /**
   * Every window is a non-empty run of rows that ends more than b rows
   * before the end of the group: the last b+1 rows in order of x never
   * enter a window, and the first window overlaps the second by the offset.
   */
  lemma WindowInBounds(n: nat, b: nat, w: nat)
    requires b > 0 && w < NumWindows(n, b)
    ensures WindowStart(w, b) < WindowStop(w, n, b)
    ensures WindowStop(w, n, b) + b < n
    ensures w > 0 ==> WindowStop(w - 1, n, b) == WindowStart(w, b) + (if w == 1 then Offset(n, b) else 0)
  {
    CountedStarts(n, b, 0, w);
    if w == 0 {
      RemainderRoom(n, b);
    } else {
      assert w * b == (w - 1) * b + b;
    }
  }

  // ---------------------------------------------------------------------
  // One group
  // ---------------------------------------------------------------------

  /**
   * The first error a window meets, the same for every window: the
   * statistic of x, the lookup of y, then the error band.
   */
  function RowFailure(group: Frame, stat: string, errorbar: Option<string>): Option<MedianError>
  {
    if stat !in Binned.Supported then Some(Stat(if stat == "mode" then Undefined("y") else NotImplemented))
    else if "y" !in group then Some(MissingColumn("y"))
    else if errorbar.Some? && (stat, errorbar.value) !in MedianRangeModes then Some(Stat(NotImplemented))
    else None
  }

  /** A statistic and an error bar every window can compute. */
  predicate Summarisable(stat: string, errorbar: Option<string>)
  {
    stat in Binned.Supported && (errorbar.Some? ==> (stat, errorbar.value) in MedianRangeModes)
  }

  /**
   * The output row of the window [i, j) of the group's x and y sorted by x
   * (`sx`, `sy`); the band comes from the group's y in row order (`ys`).
   */
  function WindowSummary(num: Numerics, sx: seq<real>, sy: seq<real>, ys: seq<real>, stat: string, errorbar: Option<string>,
                         i: nat, j: nat): MedianRow
    requires Summarisable(stat, errorbar) && |sy| == |sx| && i <= j <= |sx|
  {
    MedianRow(
      Binned.Apply(num, Binned.StatisticOf(stat), sx[i..j]),
      Binned.Apply(num, Binned.StatisticOf(stat), sy[i..j]),
      if errorbar.None? then None else Some(StatRange(num, ys, stat, errorbar.value).value))
  }

  /** The summaries of the first m windows. */
  function SummariesUpTo(num: Numerics, sx: seq<real>, sy: seq<real>, ys: seq<real>, stat: string, binsize: nat,
                         errorbar: Option<string>, m: nat): (rows: seq<MedianRow>)
    requires Summarisable(stat, errorbar) && |sy| == |sx| && binsize > 0 && m <= NumWindows(|sx|, binsize)
    ensures |rows| == m
  {
    if m == 0 then []
    else
      WindowInBounds(|sx|, binsize, m - 1);
      SummariesUpTo(num, sx, sy, ys, stat, binsize, errorbar, m - 1) +
        [WindowSummary(num, sx, sy, ys, stat, errorbar, WindowStart(m - 1, binsize), WindowStop(m - 1, |sx|, binsize))]
  }

  /** Row k of the summaries is the summary of window k. */
  lemma {:induction false} SummaryAt(num: Numerics, sx: seq<real>, sy: seq<real>, ys: seq<real>, stat: string,
                                     binsize: nat, errorbar: Option<string>, m: nat, k: nat)
    requires Summarisable(stat, errorbar) && |sy| == |sx| && binsize > 0 && k < m <= NumWindows(|sx|, binsize)
    ensures WindowStop(k, |sx|, binsize) < |sx|
    ensures SummariesUpTo(num, sx, sy, ys, stat, binsize, errorbar, m)[k] ==
      WindowSummary(num, sx, sy, ys, stat, errorbar, WindowStart(k, binsize), WindowStop(k, |sx|, binsize))
  {
    WindowInBounds(|sx|, binsize, k);
    if k < m - 1 {
      SummaryAt(num, sx, sy, ys, stat, binsize, errorbar, m - 1, k);
    }
  }

  /** Appending the summary of window m to the first m summaries gives the first m+1. */
  lemma SummariesGrow(num: Numerics, sx: seq<real>, sy: seq<real>, ys: seq<real>, stat: string, binsize: nat,
                      errorbar: Option<string>, rows: seq<MedianRow>, row: MedianRow, m: nat)
    requires Summarisable(stat, errorbar) && |sy| == |sx| && binsize > 0 && m < NumWindows(|sx|, binsize)
    requires m > 0 ==> rows == SummariesUpTo(num, sx, sy, ys, stat, binsize, errorbar, m)
    requires m == 0 ==> rows == []
    requires WindowStop(m, |sx|, binsize) <= |sx|
    requires row == WindowSummary(num, sx, sy, ys, stat, errorbar, WindowStart(m, binsize), WindowStop(m, |sx|, binsize))
    ensures rows + [row] == SummariesUpTo(num, sx, sy, ys, stat, binsize, errorbar, m + 1)
  {
  }

  /**
   * What `bin` returns for one group: a KeyError without x, a division by
   * zero for binsize 0, nothing for at most 2*binsize rows, else the first
   * error or one summary per window.
   */
  function BinOutcome(num: Numerics, group: Frame, stat: string, binsize: nat, errorbar: Option<string>)
    : Result<seq<MedianRow>, MedianError>
    requires Binned.Rectangular(group)
  {
    if "x" !in group then Err(MissingColumn("x"))
    else if binsize == 0 then Err(ZeroDivision)
    else
      var w := NumWindows(|group["x"]|, binsize);
      if w == 0 then Ok([])
      else if RowFailure(group, stat, errorbar).Some? then Err(RowFailure(group, stat, errorbar).value)
      else Ok(SummariesUpTo(num, SortedCol(group, "x"), SortedCol(group, "y"), group["y"], stat, binsize, errorbar, w))
  }

  /** Every row of a group's summary carries the same band, the one of the whole group's y. */
  lemma SameBandEveryRow(num: Numerics, group: Frame, stat: string, binsize: nat, errorbar: Option<string>)
    requires Binned.Rectangular(group)
    requires BinOutcome(num, group, stat, binsize, errorbar).Ok?
    ensures var rows := BinOutcome(num, group, stat, binsize, errorbar).value;
      forall k :: 0 <= k < |rows| ==>
        (rows[k].bounds == if errorbar.None? then None else Some(StatRange(num, group["y"], stat, errorbar.value).value))
  {
    if "x" in group && binsize > 0 && NumWindows(|group["x"]|, binsize) > 0 {
      var sx, sy := SortedCol(group, "x"), SortedCol(group, "y");
      forall k | 0 <= k < NumWindows(|sx|, binsize) {
        SummaryAt(num, sx, sy, group["y"], stat, binsize, errorbar, NumWindows(|sx|, binsize), k);
      }
    }
  }

  /**
   * The body of `bin`'s loop: the row of window w, which spans the sorted
   * rows [i, j), or the first error it meets.
   */
  method SummariseWindow(num: Numerics, group: Frame, stat: string, binsize: nat, errorbar: Option<string>,
                         sx: seq<real>, sy: seq<real>, i: nat, j: nat, ghost w: nat)
    returns (r: Result<MedianRow, MedianError>)
    requires Binned.Rectangular(group) && "x" in group && binsize > 0
    requires |sx| == |group["x"]| && ("y" in group ==> |sy| == |sx|)
    requires i == WindowStart(w, binsize) && j == WindowStop(w, |sx|, binsize) && i <= j <= |sx|
    ensures RowFailure(group, stat, errorbar).Some? ==> r == Err(RowFailure(group, stat, errorbar).value)
    ensures RowFailure(group, stat, errorbar).None? ==>
      r == Ok(WindowSummary(num, sx, sy, group["y"], stat, errorbar, WindowStart(w, binsize), WindowStop(w, |sx|, binsize)))
  {
    var x := StatOf(num, sx[i..j], stat, None);
    if x.Err? {
      return Err(Stat(x.error));
    }
    if "y" !in group {
      return Err(MissingColumn("y"));
    }
    var y := StatOf(num, sy[i..j], stat, None);
    var bounds: Option<(real, real)> := None;
    if errorbar.Some? {
      var band := StatRange(num, group["y"], stat, errorbar.value);
      if band.Err? {
        return Err(Stat(band.error));
      }
      bounds := Some(band.value);
    }
    r := Ok(MedianRow(x.value, y.value, bounds));
  }

  /**
   * `MedianData.bin`: sorts the group by x and walks the windows, one
   * output row per window, stopping at the first error.
   */
  method Bin(num: Numerics, group: Frame, stat: string, binsize: nat, errorbar: Option<string>)
    returns (r: Result<seq<MedianRow>, MedianError>)
    requires Binned.Rectangular(group)
    ensures r == BinOutcome(num, group, stat, binsize, errorbar)
  {
    if "x" !in group {
      return Err(MissingColumn("x"));
    }
    if binsize == 0 {
      return Err(ZeroDivision);
    }
    var sx := SortedCol(group, "x");
    var sy := if "y" in group then SortedCol(group, "y") else [];
    r := WalkWindows(num, group, stat, binsize, errorbar, sx, sy);
  }

  /**
   * Where the window starting at row i ends. The branch for a window near
   * the end of the group, which would end at row -1, is never taken while
   * the loop runs.
   */
  method WindowEnd(i: nat, n: nat, binsize: nat, offset: nat) returns (j: nat)
    requires binsize > 0 && offset == Offset(n, binsize) && i + 2 * binsize < n
    ensures j == if i == 0 then binsize + offset else i + binsize
  {
    if i == 0 {
      j := i + binsize + offset;
    } else if i > n - 2 * binsize + offset {
      assert false;
    } else {
      j := i + binsize;
    }
  }

  /** The loop of `bin` over the group's x and y sorted by x: one row per window, stopping at the first error. */
  method WalkWindows(num: Numerics, group: Frame, stat: string, binsize: nat, errorbar: Option<string>,
                     sx: seq<real>, sy: seq<real>)
    returns (r: Result<seq<MedianRow>, MedianError>)
    requires Binned.Rectangular(group) && "x" in group && binsize > 0
    requires |sx| == |group["x"]| && ("y" in group ==> |sy| == |sx|)
    ensures NumWindows(|sx|, binsize) == 0 ==> r == Ok([])
    ensures NumWindows(|sx|, binsize) > 0 && RowFailure(group, stat, errorbar).Some? ==>
      r == Err(RowFailure(group, stat, errorbar).value)
    ensures NumWindows(|sx|, binsize) > 0 && RowFailure(group, stat, errorbar).None? ==>
      r == Ok(SummariesUpTo(num, sx, sy, group["y"], stat, binsize, errorbar, NumWindows(|sx|, binsize)))
  {
    var n := |sx|;
    var offset := (n % binsize) / 2;
    var rows: seq<MedianRow> := [];
    var i := 0;
    while i + 2 * binsize < n
      invariant i == WindowStart(|rows|, binsize) && (i == 0 <==> |rows| == 0)
      invariant |rows| <= NumWindows(n, binsize)
      invariant |rows| > 0 ==> RowFailure(group, stat, errorbar).None?
      invariant |rows| > 0 ==> rows == SummariesUpTo(num, sx, sy, group["y"], stat, binsize, errorbar, |rows|)
      decreases n - i
    {
      StartCounted(n, binsize, |rows|);
      WindowInBounds(n, binsize, |rows|);
      var j := WindowEnd(i, n, binsize, offset);
      var row := SummariseWindow(num, group, stat, binsize, errorbar, sx, sy, i, j, |rows|);
      if row.Err? {
        return Err(row.error);
      }
      NextStart(|rows|, binsize);
      SummariesGrow(num, sx, sy, group["y"], stat, binsize, errorbar, rows, row.value, |rows|);
      rows := rows + [row.value];
      i := i + binsize;
    }
    StartCounted(n, binsize, |rows|);
    assert |rows| == NumWindows(n, binsize);
    r := Ok(rows);
  }

  // ---------------------------------------------------------------------
  // The groups
  // ---------------------------------------------------------------------

  /** The rows below n whose group key is `key`, in row order. */
  function RowsWithKey(data: Frame, cols: seq<string>, key: seq<real>, n: nat): (rows: seq<nat>)
    requires forall c :: c in cols ==> c in data && n <= |data[c]|
    ensures Below(rows, n)
    ensures forall k: nat :: k in rows <==> k < n && Binned.KeyOf(data, cols, k) == key
    ensures forall a, b :: 0 <= a < b < |rows| ==> rows[a] < rows[b]
  {
    if n == 0 then []
    else
      var prev := RowsWithKey(data, cols, key, n - 1);
      var last: seq<nat> := if Binned.KeyOf(data, cols, n - 1) == key then [n - 1] else [];
      var rows := prev + last;
      assert forall a :: 0 <= a < |prev| ==> rows[a] == prev[a];
      assert forall a :: |prev| <= a < |rows| ==> rows[a] == n - 1;
      rows
  }

  /** The frame made of the given rows of every column. */
  function SubFrame(data: Frame, rows: seq<nat>): (sub: Frame)
    requires forall c :: c in data ==> Below(rows, |data[c]|)
    ensures sub.Keys == data.Keys && Binned.Rectangular(sub)
    ensures forall c :: c in sub ==> |sub[c]| == |rows|
    ensures forall c, a :: c in data && 0 <= a < |rows| && rows[a] < |data[c]| ==> sub[c][a] == data[c][rows[a]]
  {
    map c | c in data :: Permute(data[c], rows)
  }

  /** The length every group column has. */
  function NumRows(data: Frame, cols: seq<string>): nat
    requires forall c :: c in cols ==> c in data
  {
    if |cols| == 0 then 0 else |data[cols[0]]|
  }

  /** The non-empty groups among those of the given keys, in the order of the keys. */
  function GroupsOf(data: Frame, cols: seq<string>, keys: seq<seq<real>>): (gs: seq<Frame>)
    requires Binned.Rectangular(data) && forall c :: c in cols ==> c in data
    ensures |gs| <= |keys|
    ensures forall g :: 0 <= g < |gs| ==> Binned.Rectangular(gs[g]) && gs[g].Keys == data.Keys
  {
    if |keys| == 0 then []
    else
      var rows := RowsWithKey(data, cols, keys[0], NumRows(data, cols));
      (if |rows| > 0 then [SubFrame(data, rows)] else []) + GroupsOf(data, cols, keys[1..])
  }

  /** `grp` is the non-empty frame of the rows whose group columns hold `key`. */
  predicate KeyGroup(data: Frame, cols: seq<string>, key: seq<real>, grp: Frame)
    requires Binned.Rectangular(data) && forall c :: c in cols ==> c in data
  {
    var rows := RowsWithKey(data, cols, key, NumRows(data, cols));
    |rows| > 0 && grp == SubFrame(data, rows)
  }

  /** `MedianData.groups`: the whole frame without group columns, else one frame per non-empty group. */
  function Groups(data: Frame, cols: seq<string>, keys: seq<seq<real>>): (gs: seq<Frame>)
    requires Binned.Rectangular(data) && forall c :: c in cols ==> c in data
    ensures forall g :: 0 <= g < |gs| ==> Binned.Rectangular(gs[g]) && gs[g].Keys == data.Keys
    ensures |cols| == 0 ==> gs == [data]
  {
    if |cols| == 0 then [data] else GroupsOf(data, cols, keys)
  }

  /** The keys list each group key of the data exactly once. */
  ghost predicate EnumeratesKeys(data: Frame, cols: seq<string>, keys: seq<seq<real>>)
    requires forall c :: c in cols ==> c in data
    requires forall c :: c in cols ==> NumRows(data, cols) <= |data[c]|
  {
    (forall key :: key in keys <==> key in Binned.GroupKeys(data, cols, NumRows(data, cols))) && Binned.Distinct(keys)
  }

  /**
   * When every key occurs in the data, no group is dropped as empty: group
   * g is the frame of the rows whose key is keys[g], and it has rows.
   */
  lemma {:induction false} NoGroupEmpty(data: Frame, cols: seq<string>, keys: seq<seq<real>>)
    requires Binned.Rectangular(data) && forall c :: c in cols ==> c in data
    requires forall key :: key in keys ==> key in Binned.GroupKeys(data, cols, NumRows(data, cols))
    ensures |GroupsOf(data, cols, keys)| == |keys|
    ensures forall g :: 0 <= g < |keys| ==> KeyGroup(data, cols, keys[g], GroupsOf(data, cols, keys)[g])
  {
    if |keys| > 0 {
      var n := NumRows(data, cols);
      assert keys[0] in keys;
      var k :| 0 <= k < n && Binned.KeyOf(data, cols, k) == keys[0];
      assert k in RowsWithKey(data, cols, keys[0], n);
      NoGroupEmpty(data, cols, keys[1..]);
      GroupsOfCons(data, cols, keys);
    }
  }

  /** A first key with rows puts its group in front of the others'. */
  lemma GroupsOfCons(data: Frame, cols: seq<string>, keys: seq<seq<real>>)
    requires Binned.Rectangular(data) && forall c :: c in cols ==> c in data
    requires |keys| > 0 && |RowsWithKey(data, cols, keys[0], NumRows(data, cols))| > 0
    requires |GroupsOf(data, cols, keys[1..])| == |keys| - 1
    requires forall g :: 0 <= g < |keys| - 1 ==> KeyGroup(data, cols, keys[1..][g], GroupsOf(data, cols, keys[1..])[g])
    ensures |GroupsOf(data, cols, keys)| == |keys|
    ensures forall g :: 0 <= g < |keys| ==> KeyGroup(data, cols, keys[g], GroupsOf(data, cols, keys)[g])
  {
    var rest := GroupsOf(data, cols, keys[1..]);
    var gs := GroupsOf(data, cols, keys);
    assert gs == [SubFrame(data, RowsWithKey(data, cols, keys[0], NumRows(data, cols)))] + rest;
    assert KeyGroup(data, cols, keys[0], gs[0]);
    forall g | 1 <= g < |keys|
      ensures KeyGroup(data, cols, keys[g], gs[g])
    {
      assert gs[g] == rest[g - 1] && keys[1..][g - 1] == keys[g];
    }
  }

  /**
   * With keys that list each group key once, the groups are one per key,
   * group g is the non-empty frame of the rows whose key is keys[g], and
   * every row of the data belongs to exactly one of them.
   */
  lemma GroupsPartition(data: Frame, cols: seq<string>, keys: seq<seq<real>>, k: nat)
    requires Binned.Rectangular(data) && |cols| > 0 && forall c :: c in cols ==> c in data
    requires EnumeratesKeys(data, cols, keys) && k < NumRows(data, cols)
    ensures |Groups(data, cols, keys)| == |keys|
    ensures forall g :: 0 <= g < |keys| ==>
      Groups(data, cols, keys)[g] == SubFrame(data, RowsWithKey(data, cols, keys[g], NumRows(data, cols)))
      && forall c :: c in data ==> |Groups(data, cols, keys)[g][c]| > 0
    ensures exists g :: 0 <= g < |keys| && k in RowsWithKey(data, cols, keys[g], NumRows(data, cols))
    ensures forall g, h :: (0 <= g < |keys| && 0 <= h < |keys|
      && k in RowsWithKey(data, cols, keys[g], NumRows(data, cols))
      && k in RowsWithKey(data, cols, keys[h], NumRows(data, cols))) ==> g == h
  {
    NoGroupEmpty(data, cols, keys);
    var n := NumRows(data, cols);
    var key := Binned.KeyOf(data, cols, k);
    assert key in Binned.GroupKeys(data, cols, n);
    var g :| 0 <= g < |keys| && keys[g] == key;
    assert k in RowsWithKey(data, cols, keys[g], n);
  }

  /** The rows of all groups one after the other, or the first group's error. */
  function Collect(num: Numerics, gs: seq<Frame>, stat: string, binsize: nat, errorbar: Option<string>)
    : Result<seq<MedianRow>, MedianError>
    requires forall g :: 0 <= g < |gs| ==> Binned.Rectangular(gs[g])
  {
    if |gs| == 0 then Ok([])
    else
      var init := Collect(num, gs[..|gs| - 1], stat, binsize, errorbar);
      var last := BinOutcome(num, gs[|gs| - 1], stat, binsize, errorbar);
      if init.Err? then init
      else if last.Err? then Err(last.error)
      else Ok(init.value + last.value)
  }

  /** Once some prefix of the groups fails, the whole collection fails the same way. */
  lemma {:induction false} CollectErrPersists(num: Numerics, gs: seq<Frame>, stat: string, binsize: nat,
                                               errorbar: Option<string>, m: nat)
    requires forall g :: 0 <= g < |gs| ==> Binned.Rectangular(gs[g])
    requires m <= |gs| && Collect(num, gs[..m], stat, binsize, errorbar).Err?
    ensures Collect(num, gs, stat, binsize, errorbar) == Collect(num, gs[..m], stat, binsize, errorbar)
  {
    if m < |gs| {
      assert gs[..|gs| - 1][..m] == gs[..m];
      CollectErrPersists(num, gs[..|gs| - 1], stat, binsize, errorbar, m);
    } else {
      assert gs[..m] == gs;
    }
  }

  /** Collecting one more group appends its rows, or stops at its error. */
  lemma CollectStep(num: Numerics, gs: seq<Frame>, stat: string, binsize: nat, errorbar: Option<string>, g: nat)
    requires forall h :: 0 <= h < |gs| ==> Binned.Rectangular(gs[h])
    requires g < |gs| && Collect(num, gs[..g], stat, binsize, errorbar).Ok?
    ensures var last := BinOutcome(num, gs[g], stat, binsize, errorbar);
      Collect(num, gs[..g + 1], stat, binsize, errorbar) ==
        if last.Err? then Err(last.error) else Ok(Collect(num, gs[..g], stat, binsize, errorbar).value + last.value)
  {
    assert gs[..g + 1][..g] == gs[..g] && gs[..g + 1][g] == gs[g];
  }

  /**
   * The `MedianData` constructor: projects the roles, finds the group
   * columns among hue, style and size, and concatenates the summary rows of
   * every group in turn.
   */
  method NewMedianData(num: Numerics, pd: PlotData, stat: string, binsize: nat, errorbar: Option<string>,
                       cols: seq<string>, keys: seq<seq<real>>)
    returns (r: Result<seq<MedianRow>, MedianError>)
    requires pd.data.Keys == pd.vars.Keys && Binned.Rectangular(pd.data)
    requires (forall c :: c in cols <==> c in GroupCols(pd)) && Binned.Distinct(cols)
    ensures r == Collect(num, Groups(pd.data, cols, keys), stat, binsize, errorbar)
  {
    var gs := Groups(pd.data, cols, keys);
    var df: seq<MedianRow> := [];
    var g := 0;
    while g < |gs|
      invariant 0 <= g <= |gs|
      invariant Collect(num, gs[..g], stat, binsize, errorbar) == Ok(df)
    {
      var rows := Bin(num, gs[g], stat, binsize, errorbar);
      CollectStep(num, gs, stat, binsize, errorbar, g);
      if rows.Err? {
        CollectErrPersists(num, gs, stat, binsize, errorbar, g + 1);
        return Err(rows.error);
      }
      df := df + rows.value;
      g := g + 1;
    }
    assert gs[..g] == gs;
    r := Ok(df);
  }
}
