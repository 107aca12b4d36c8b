# arya: layout grid, legends, binned and median summaries, style — a Dafny model

This project models the core of *arya*, a small plotting layer over
matplotlib. The model covers these parts:

- **Grid** (`arya_old/figure/grid.py`): a growable two-dimensional grid of optional cells. It can be strict, in which case it refuses to overwrite an occupied cell.
- **Layout manager** (`arya/figure/layout.py`):
  - places subplots in a grid of its own;
  - chooses the next free position;
  - computes the figure's width (the widest row) and height (the sum of the rows' tallest cells);
  - walks the grid to give every subplot its offset.
- **Subplot** (`arya/figure/subplot.py`): a size, a four-sided padding and axis attributes. `set` applies keyword settings one at a time and raises on the first unknown or read-only name.
- **Old subplot** (`arya_old/figure/subfigure.py`): a size and a (left, right, top, bottom) padding. It merges a partial padding, and it places its axes inside the padded box.
- **Legend** (`arya/figure/legend.py`):
  - the location-name table and the re-creation of the legend it drives;
  - the choice of the least-bad corner;
  - the marker-size and colour getters and setters of the legend handles.
- **Plot data** (`arya/plotting/_plot_data.py`): the projection of a data frame onto the roles x, y, hue, size and style.
- **Binned data** (`arya/plotting/binnedplot.py`):
  - bin edges and centres;
  - per-bin statistics with their error bounds;
  - the per-group tables and their concatenation.
- **Median data** (`arya/plotting/medianplot.py`):
  - sorting each group by x;
  - walking windows of `binsize` rows and summarising each window's x and y;
  - the error band;
  - the concatenation over the groups.
- **Style** (`arya/style/style.py`):
  - the colour, marker and fill tables;
  - the figure size;
  - the marker cycle;
  - the setters that write font sizes, line widths and tick lengths into matplotlib's configuration.

**How the source's constructs are modelled**

- Objects whose fields the source updates in place are classes: `Grid`, `LayoutManager`, both subplot classes, `Legend`, and the style module's globals gathered in `Style`.
- Data frames are maps from column names to columns of reals (`Frame`).
- Results that the source raises as exceptions are `Result`/`Option` values naming the error.
- Numeric routines of numpy, scipy and astropy are not part of this model. They enter as the fields of a `Numerics` (or `Binning`) record of functions passed as parameters. Examples: mean, median, std, percentile, sqrt, float division, linspace, arange, Bayesian blocks.
- `eval_position`, the legend's badness score, is a parameter too.

**Where the model follows the code, not the design**

Where the documented design and the code disagree, the model follows the code:

- Bins with fewer than `cmin` samples are not dropped; no such parameter exists.
- The `mode` statistic is a NameError (it refers to undefined `y` and `bins`), not a most-frequent value.
- A strict grid raises ValueError on an occupied cell.
- The layout manager has no alignment argument.

**Behaviour of the code as written**

- `make_binned` ignores the group it is given. It bins the whole frame each time. Iterating over a pandas groupby also hands it the group *key*, not the group's rows.
- `medianplot`'s error band is computed over the group's whole `y` column. It is not computed per window.

## Model

| member | source | states |
|---|---|---|
| `Grids.Grid.constructor` | arya_old/figure/grid.py:19-22 | The grid has the requested rows, columns and strictness, and every cell is empty. |
| `Grids.Grid.Get` | arya_old/figure/grid.py:35-36 | A position inside the grid yields its cell. Any other position is an IndexError naming that position. |
| `Grids.Grid.AppendRows` | arya_old/figure/grid.py:85-88 | Grows to `row + 1` rows. Old rows are unchanged. New rows are empty and as wide as the grid. |
| `Grids.Grid.ExtendRows` | arya_old/figure/grid.py:90-93 | Widens every row to `col + 1` columns. Old cells are kept and new cells are empty. |
| `Grids.Grid.AddItem` | arya_old/figure/grid.py:85-95 | The grid grows to cover `(row, col)` and never shrinks. The cell holds the value, every other old cell keeps its content, and every other new cell is empty. |
| `Grids.Grid.Set` | arya_old/figure/grid.py:48-54 | It fails exactly when the grid is strict and the position is an occupied in-bounds cell; the error names the position and nothing changes. Otherwise it behaves as `AddItem`. |
| `Grids.Grid.Items` | arya_old/figure/grid.py:56-71 | Returns the row-major enumeration `Entries` of the whole grid. |
| `Grids.RowEntriesSpec` | arya_old/figure/grid.py:68-71 | One row's entries are in column order and come from that row. Each holds its cell, and every reported cell appears. |
| `Grids.EntriesSound` | arya_old/figure/grid.py:67-71 | Every yielded `(row, col, element)` is in bounds and holds the cell's element. A None is yielded only when None cells are not skipped. |
| `Grids.EntriesComplete` | arya_old/figure/grid.py:67-71 | Every cell that is not skipped is yielded. |
| `Grids.EntriesSorted` | arya_old/figure/grid.py:67-71 | Entries come in strictly increasing row-major order, so each position appears at most once. |
| `Grids.EntriesCount` | arya_old/figure/grid.py:67-71 | Without skipping, a rectangular grid yields exactly `rows * ncols` entries. |
| `Grids.RowCount` | arya_old/figure/grid.py:68-71 | Without skipping, a row prefix of length c yields c entries. |
| `Grids.EmptyGridYieldsNothing` | arya_old/figure/grid.py:67-71 | When None cells are skipped, an all-empty grid yields nothing. |
| `Grids.EmptyRowYieldsNothing` | arya_old/figure/grid.py:68-71 | When None cells are skipped, an all-empty row yields nothing. |
| `LayoutMath.WidthIsMaxRowSum` | arya/figure/layout.py:92-105 | The width is at least 0 and at least every row's summed total width. It is 0 or equals one row's sum: the maximum. |
| `LayoutMath.RowHeightIsMax` | arya/figure/layout.py:111-117 | A row's height is at least 0 and at least every occupied cell's total height. It is 0 or equals one of them: the maximum. |
| `LayoutMath.HeightMonotone` | arya/figure/layout.py:107-119 | Adding rows never lowers the height. |
| `LayoutMath.RowWidthMonotone` | arya/figure/layout.py:96-103 | With non-negative sizes, a longer row prefix is never narrower. |
| `LayoutMath.Fits` | arya/figure/layout.py:121-139 | A subplot's x offset plus its width is within the figure width. Its y offset plus its height is within the figure height. |
| `LayoutMath.RowPlacementsSpec` | arya/figure/layout.py:128-139 | A row places exactly its occupied cells. Each is at x = the widths before it in the row, y = the heights of the rows above. |
| `LayoutMath.PlacementsSpec` | arya/figure/layout.py:121-139 | The walk places exactly the occupied cells, each at its accumulated offset. |
| `LayoutMath.AllPlacementsFit` | arya/figure/layout.py:121-139 | With non-negative sizes, every placed subplot lies inside the figure size that was set. |
| `Layout.PlacementsFitFigure` | arya/figure/layout.py:121-139 | The same, stated over the manager's subplot objects and their total sizes. |
| `Layout.FreeColFrom` | arya/figure/layout.py:70-73 | Returns the first free column of a row at or after c, or the row length if none is free. |
| `Layout.FreeRowFrom` | arya/figure/layout.py:76-80 | Returns the first row at or after r with a free cell in column c, or the row count if there is none. |
| `Layout.FreeCellFrom` | arya/figure/layout.py:82-85 | Returns the first free cell in row-major order from row r, or nothing if all are occupied. |
| `Layout.NextPosBothGiven` | arya/figure/layout.py:66-68 | A given row and column are returned unchanged. |
| `Layout.NextPosRowOnly` | arya/figure/layout.py:70-73 | A given row yields the first free column in it, or `ncols` if it is full. |
| `Layout.NextPosColOnly` | arya/figure/layout.py:75-80 | A given column yields the first row free in it, or `nrows` if it is full. |
| `Layout.NextPosIndexError` | arya/figure/layout.py:66-80 | IndexError exactly when one coordinate is given out of range while the other dimension is non-empty. |
| `Layout.NextPosNoneGiven` | arya/figure/layout.py:82-90 | With nothing given, returns the first free cell in row-major order. If none is free, returns a new row `(nrows, 0)` when the grid is wider than tall, else a new column `(0, ncols)`, outside the grid. |
| `Layout.LayoutManager.constructor` | arya/figure/layout.py:10-21 | A fresh non-strict grid of the given size with every cell empty. |
| `Layout.LayoutManager.GetNextPos` | arya/figure/layout.py:66-90 | The loops return `NextPos`, whose cases the `NextPos*` lemmas state. |
| `Layout.LayoutManager.AddSubplot` | arya/figure/layout.py:39-48 | A missing row or column is chosen by `NextPos` (an IndexError there changes nothing). The subplot is then stored at that position, growing the grid. Other cells are kept, new ones are empty, and the subplot is returned. |
| `Layout.LayoutManager.RowTotalWidth` | arya/figure/layout.py:96-101 | The loop sums the total widths of the row's occupied cells. |
| `Layout.LayoutManager.Width` | arya/figure/layout.py:92-105 | The figure width is the maximum row sum, per `WidthIsMaxRowSum`. |
| `Layout.LayoutManager.RowMaxHeight` | arya/figure/layout.py:111-116 | The loop finds the tallest occupied cell of the row. |
| `Layout.LayoutManager.Height` | arya/figure/layout.py:107-119 | The figure height is the sum of the rows' maximum heights. |
| `Layout.LayoutManager.PlaceRow` | arya/figure/layout.py:128-139 | One row's offsets, and the row's height added to y afterwards. |
| `Layout.LayoutManager.Positions` | arya/figure/layout.py:126-139 | The row-by-row walk yields `Placements`, characterised by `PlacementsSpec` and `AllPlacementsFit`. |
| `Layout.LayoutManager.FigureSize` | arya/figure/layout.py:125 | The figure is resized to (width, height). |
| `Layout.LayoutManager.UpdatePositions` | arya/figure/layout.py:121-139 | The figure size and every subplot's offset, as above. |
| `Subplots.SetRaisesIffBadKey` | arya/figure/subplot.py:97-101 | `set` raises exactly when some key is not an attribute, or is a read-only property. |
| `Subplots.SetStopsAtFirstBadKey` | arya/figure/subplot.py:97-101 | The error names the first bad key. The settings before it have been applied and none after it. |
| `Subplots.SetChangesOnlyNamed` | arya/figure/subplot.py:97-101 | An attribute no keyword names keeps its value. |
| `Subplots.SetStoresValue` | arya/figure/subplot.py:97-99 | When every key is valid, an attribute named once ends up holding its keyword's value. |
| `Subplots.Subplot.constructor` | arya/figure/subplot.py:35-38 | Width and height come from the size. The padding is 0.1 on all four sides. |
| `Subplots.Subplot.TotalWidth` | arya/figure/subplot.py:43-45 | The width plus the paddings at positions 0 and 2 (left and right). |
| `Subplots.Subplot.TotalHeight` | arya/figure/subplot.py:47-49 | The height plus the paddings at positions 1 and 3 (bottom and top). |
| `Subplots.Subplot.Set` | arya/figure/subplot.py:83-101 | The new attributes and the error are those of `SetOutcome`, characterised by the four `Set*` lemmas. |
| `Subfigures.MergeReplacesGivenSides` | arya_old/figure/subfigure.py:31-36 | Each given side replaces the old one, and each omitted side is kept. |
| `Subfigures.MergeNothingIsIdentity` | arya_old/figure/subfigure.py:31-36 | Giving no side leaves the padding as it was. |
| `Subfigures.MergeIdempotent` | arya_old/figure/subfigure.py:31-36 | Applying the same partial padding twice equals applying it once. |
| `Subfigures.MergeCompose` | arya_old/figure/subfigure.py:31-36 | Two successive merges equal one merge where the later given sides win. |
| `Subfigures.AxesRect` | arya_old/figure/subfigure.py:25-27 | The axes have the subplot's size and sit inset by the left and bottom padding. |
| `Subfigures.AxesFillPaddedBox` | arya_old/figure/subfigure.py:17-27 | The axes plus the right and top padding end exactly at the subplot's `TotalWidth` and `TotalHeight` from the given corner. |
| `Subfigures.SubPlot.constructor` | arya_old/figure/subfigure.py:6-14 | Size and padding as given, no axes yet. |
| `Subfigures.SubPlot.Default` | arya_old/figure/subfigure.py:6-14 | The default size `FIG_SIZE` and a 0.1 padding on every side. |
| `Subfigures.SubPlot.TotalWidth` | arya_old/figure/subfigure.py:17-19 | The total width exceeds the width by the left and right padding. |
| `Subfigures.SubPlot.TotalHeight` | arya_old/figure/subfigure.py:21-23 | The total height exceeds the height by the top and bottom padding. |
| `Subfigures.SubPlot.CreateAxes` | arya_old/figure/subfigure.py:25-29 | Records the axes rectangle, then fails because no plot instance is ever set. Size and padding are unchanged. |
| `Subfigures.SubPlot.SetPadding` | arya_old/figure/subfigure.py:31-36 | The padding becomes `MergePadding` of the old one. Nothing else changes. |
| `Legends.MinOf` | arya/figure/legend.py:120-123 | The smallest badness: attained, and no larger than any. |
| `Legends.IndexOf` | arya/figure/legend.py:123 | The first index holding a value. |
| `Legends.BestPositionSpec` | arya/figure/legend.py:113-123 | The result is -1 exactly when every corner's badness exceeds the limit. Otherwise it is the first corner (codes 1-4) of minimal badness. |
| `Legends.FindBestPosition` | arya/figure/legend.py:113-123 | Scoring the four corners in turn yields `BestPosition`. |
| `Legends.LocationCodeSpec` | arya/figure/legend.py:91-99 | The name table is one-to-one onto {1, 2, 3, 4, -1, -2}. Any other name is a KeyError naming it. |
| `Legends.PlaceCode` | arya/figure/legend.py:103-108 | Codes -1 and -2 become "upper left" anchored at (1, 1) and (0, 0). Any other code is passed on unanchored. |
| `Legends.LocateNameSpec` | arya/figure/legend.py:87-108 | A known name places the legend by its code. It is anchored exactly for the two outside names. |
| `Legends.ShownColorsSpec` | arya/figure/legend.py:59-73 | Raises exactly when some handle's colour is unsupported. Otherwise there is one entry per reported handle, and all-string colours are returned as they are. |
| `Legends.MsListIsNotSpread` | arya/figure/legend.py:39-43 | Counterexample: with two handles, `ms = [1.0, 2.0]` hands the whole list to each handle. |
| `Legends.MarkerSizes` | arya/figure/legend.py:30-32 | One marker size per handle, in order. |
| `Legends.SetSizesRoundTrip` | arya/figure/legend.py:34-43 | It is a ValueError exactly when the list length differs from the handle count. Otherwise reading the sizes back gives the number repeated, or the list itself, colours untouched, and any other value changes nothing. |
| `Legends.Recolored` | arya/figure/legend.py:76-79 | Handle i takes colour i where the list has one and keeps its own otherwise. Sizes are unchanged. |
| `Legends.Legend.constructor` | arya/figure/legend.py:6-14 | A given location is used as is. Without one, the best corner is chosen and placed. |
| `Legends.Legend.Locate` | arya/figure/legend.py:87-108 | The legend is placed by `LocateOutcome`, or by the best corner when no location is given. An unknown name is a KeyError that leaves the placement unchanged. |
| `Legends.Legend.Ms` | arya/figure/legend.py:30-32 | Returns `MarkerSizes` of the handles. |
| `Legends.Legend.SetMs` | arya/figure/legend.py:34-43 | The handles become `SetSizes` of the old ones (the corrected setter, see Findings), or the error leaves them unchanged. |
| `Legends.Legend.Colors` | arya/figure/legend.py:59-73 | The loop returns `ShownColors` of the handles. |
| `Legends.Legend.SetColors` | arya/figure/legend.py:76-79 | Handles are recoloured in order. An IndexError is raised exactly when there are fewer colours than handles, after the first ones are set. |
| `PlotDatas.NewPlotData` | arya/plotting/_plot_data.py:7-22 | It is a KeyError exactly when a given role names a missing column, and the error names the first such column. Otherwise every given role is projected onto its column under the role's name, and no other column appears. |
| `PlotDatas.Get` | arya/plotting/_plot_data.py:35-36 | A present key yields its column. Otherwise it is a KeyError naming the key. |
| `PlotDatas.GroupCols` | arya/plotting/binnedplot.py:20 | The group columns are exactly those among hue, style and size that have a role. |
| `Stats.MinOf` | arya/plotting/binnedplot.py:152-153 | The minimum of x: attained and a lower bound. |
| `Stats.MaxOf` | arya/plotting/binnedplot.py:152-153 | The maximum of x: attained and an upper bound. |
| `Stats.SymmetricBounds` | arya/plotting/binnedplot.py:200-219 | Lower and upper bounds built as centre minus and plus e average to the centre and lie e above it. |
| `Binned.Centres` | arya/plotting/binnedplot.py:164 | One centre per bin, equidistant from the bin's two edges. |
| `Binned.CentresInsideBins` | arya/plotting/binnedplot.py:164 | With increasing edges, each centre lies strictly inside its bin. |
| `Binned.BinRange` | arya/plotting/binnedplot.py:152-153 | A given range is returned unchanged. Without one, non-empty data gives `(min x, max x)`, which encloses every x. It fails only for no range and empty data. |
| `Binned.MakeBins` | arya/plotting/binnedplot.py:151-166 | Fails only for no range and empty data. Given edges are used as they are. Centres pair with the edges. |
| `Binned.MakeBinsSpec` | arya/plotting/binnedplot.py:151-166 | Which edge generator runs: blocks when nothing is given, arange for a bin width, linspace for a count, over the given or data range. |
| `Binned.BinsPartition` | arya/plotting/binnedplot.py:174-186 | With increasing edges, a value lies in exactly one bin (the last bin closed) exactly when it is within the outer edges. |
| `Binned.BinRows` | arya/plotting/binnedplot.py:174-186 | The rows of bin i are exactly the rows whose x falls in it, in increasing order. |
| `Binned.RowsPartitioned` | arya/plotting/binnedplot.py:174-186 | A row is in some bin exactly when its x is within the edges, and then in only one. |
| `Binned.BinnedStatistic` | arya/plotting/binnedplot.py:174-184 | One statistic per bin. |
| `Binned.BinnedStat` | arya/plotting/binnedplot.py:169-189 | A percentile wins. Otherwise it succeeds exactly for count, mean, median and std, and raises NotImplementedError for anything else. Count is each bin's row count. |
| `Binned.BinnedStatRange` | arya/plotting/binnedplot.py:192-228 | Succeeds exactly for (count, std), (mean, std), (mean, sterr) and (median, pi); otherwise NotImplementedError. The std and sterr bands are symmetric about the centre: the count band uses sqrt of the count, the mean bands the std, or the std divided by sqrt of the count. The median band is the 16th and 84th percentiles. |
| `Binned.GroupMeans` | arya/plotting/binnedplot.py:55-56 | One column per group column, named after it. Its values are that column's binned means over x. |
| `Binned.BinnedHead` | arya/plotting/binnedplot.py:44-54 | The columns x, [y_l, y_h,] y. x holds the bin centres. With an error bar, y_l, y_h and y are the low, high and central values of the binned band. Without one, y is the binned statistic. It fails exactly when the statistic or band is unsupported. |
| `Binned.MakeBinnedSpec` | arya/plotting/binnedplot.py:43-58 | A missing y is an AttributeError. An unsupported statistic is NotImplementedError. Otherwise the table's columns are x, [y_l, y_h,] y and the group means, each one value per bin. y_l, y_h and y hold the band or the statistic of y, and each group column holds its binned means. |
| `Binned.MakeBinnedShape` | arya/plotting/binnedplot.py:43-58 | The outcome and column layout alone: the errors, the names x, [y_l, y_h,] y and the group columns, x as the bin centres, and the group means at the end. |
| `Binned.MakeBinnedBand` | arya/plotting/binnedplot.py:46-50 | With an error bar, y_l, y_h and y are the low end, high end and centre of `_binned_stat_range`. |
| `Binned.MakeBinnedY` | arya/plotting/binnedplot.py:51-54 | Without an error bar, y is `_binned_stat` of y. |
| `Binned.MakeBinnedMeans` | arya/plotting/binnedplot.py:55-56 | The j-th trailing column is the binned mean of group column j. |
| `Binned.NumGroupsBounds` | arya/plotting/binnedplot.py:61-66 | Non-empty data has at least one group. Empty data grouped by some column has none. |
| `Binned.Stack` | arya/plotting/binnedplot.py:35-38 | Concatenating a table k times keeps its column names, and zero times gives the empty frame. |
| `Binned.StackRepeats` | arya/plotting/binnedplot.py:35-38 | Row j of copy g of the stacked table is row j of the table. |
| `Binned.Concat` | arya/plotting/binnedplot.py:37-38 | Concatenating onto the empty frame gives the new table. |
| `Binned.StackStep` | arya/plotting/binnedplot.py:35-38 | One more loop iteration appends one more copy. |
| `Binned.BinGroups` | arya/plotting/binnedplot.py:35-38 | The loop over k groups yields the empty frame, the error, or the table stacked k times. |
| `Binned.NewBinnedData` | arya/plotting/binnedplot.py:13-40 | Binning the hue is a TypeError. A missing x is a KeyError. Otherwise a bins error, or every group's table, which is the same table, stacked. |
| `Medians.StatOf` | arya/plotting/medianplot.py:209-230 | A percentile wins. Otherwise it succeeds exactly for count, mean, median and std. Mode is a NameError. Anything else is NotImplementedError. |
| `Medians.StatRange` | arya/plotting/medianplot.py:234-263 | Succeeds exactly for (mean, std), (mean, sterr) and (median, pi); otherwise NotImplementedError. The mean bands are symmetric: std above the mean, or std divided by sqrt of the count. The median band is the 16th and 84th percentiles. |
| `Medians.SortIdxSorted` | arya/plotting/medianplot.py:124 | The sort order puts x in non-decreasing order. |
| `Medians.SortIdxPerm` | arya/plotting/medianplot.py:124 | The sort order is a permutation of the row indices. |
| `Medians.SortedCol` | arya/plotting/medianplot.py:124 | Column c reordered by x's sort order: position a holds row `SortIdx[a]` of c. |
| `Medians.SortedRowsStayWhole` | arya/plotting/medianplot.py:124 | Sorting keeps rows whole: x and y at each sorted position come from the same original row. |
| `Medians.SortedX` | arya/plotting/medianplot.py:124 | Sorting by x gives a non-decreasing x column that is a permutation of the rows. |
| `Medians.Offset` | arya/plotting/medianplot.py:129-130 | The offset is at most half the remainder `N mod binsize`. |
| `Medians.NextStart` | arya/plotting/medianplot.py:162 | Each window starts binsize rows after the previous one. |
| `Medians.StartCounted` | arya/plotting/medianplot.py:138 | Window w is walked exactly when its start plus twice binsize is below N. |
| `Medians.NumWindowsLeast` | arya/plotting/medianplot.py:137-138 | The loop runs just long enough to stop. There are no windows exactly when N <= 2 * binsize. |
| `Medians.WindowInBounds` | arya/plotting/medianplot.py:138-146 | Every window is non-empty and ends more than binsize rows before the end. The first window reaches the offset into the second. |
| `Medians.SummariesUpTo` | arya/plotting/medianplot.py:137-162 | One summary row per walked window. |
| `Medians.SummaryAt` | arya/plotting/medianplot.py:146-160 | Row k summarises the sorted rows of window k. |
| `Medians.SameBandEveryRow` | arya/plotting/medianplot.py:153-154 | Every row carries the same error band, that of the group's whole y column. |
| `Medians.SummariseWindow` | arya/plotting/medianplot.py:146-160 | One window's row (x and y statistics, and the band if asked), or the first error met. |
| `Medians.Bin` | arya/plotting/medianplot.py:123-165 | Returns `BinOutcome`: missing x, then a zero binsize, then no windows, then a statistic error, otherwise the rows of every window. |
| `Medians.WindowEnd` | arya/plotting/medianplot.py:139-144 | The first window ends `binsize + offset` rows in; later ones binsize rows after their start. The `j = -1` branch is unreachable. |
| `Medians.WalkWindows` | arya/plotting/medianplot.py:137-163 | The loop yields nothing, the first error, or the summaries of all windows. |
| `Medians.RowsWithKey` | arya/plotting/medianplot.py:173 | The rows of a group are exactly those whose group columns equal its key, in order. |
| `Medians.SubFrame` | arya/plotting/medianplot.py:173 | A group keeps every column, each as long as its row list. Cell a of column c is `data[c][rows[a]]`. |
| `Medians.GroupsOf` | arya/plotting/medianplot.py:172-175 | At most one group per key, each a rectangular frame with the data's columns. What each group holds is stated by `NoGroupEmpty`. |
| `Medians.Groups` | arya/plotting/medianplot.py:168-178 | Every group is a rectangular frame with the data's columns. Without group columns the only group is the whole frame. |
| `Medians.NoGroupEmpty` | arya/plotting/medianplot.py:172-175 | Keys drawn from the data give non-empty groups, so none is dropped. Group g is the frame of the rows holding key g. |
| `Medians.GroupsPartition` | arya/plotting/medianplot.py:168-178 | The groups partition the rows: every row is in one group and only one. Group g is the non-empty frame of the rows holding key g. |
| `Medians.CollectErrPersists` | arya/plotting/medianplot.py:114-117 | Once a group fails, the whole construction fails with that error. |
| `Medians.CollectStep` | arya/plotting/medianplot.py:114-117 | Each further group appends its rows, or its error ends the construction. |
| `Medians.NewMedianData` | arya/plotting/medianplot.py:104-120 | The loop over the groups yields `Collect` of their binned rows. |
| `Styles.TablesAligned` | arya/style/style.py:13-19 | The colour, marker and fill tables all describe ten styles. |
| `Styles.MarkerEntry` | arya/style/style.py:121-130 | Style i has its colour and marker. An unfilled marker gets face colour "none" and an edge of its colour. A filled one has neither key. |
| `Styles.SmallSize` | arya/style/style.py:65-66 | The small size is the one given, or four fifths of the medium size. |
| `Styles.FontSettings` | arya/style/style.py:64-78 | Exactly seven keys. The medium size goes to body, figure-title, axis-label and legend fonts, and the small size to axis-title and tick labels. |
| `Styles.WidthSettings` | arya/style/style.py:81-89 | Exactly eight keys. Line, axis and major-tick widths are lw, minor-tick widths half of it, and marker and cap sizes ms. |
| `Styles.TickSettings` | arya/style/style.py:92-97 | Exactly four keys: major ticks L long and minor ticks l long, on both axes. |
| `Styles.Style.constructor` | arya/style/style.py:21 | The figure size starts at (10/3, 10/4) and there is no marker cycle yet. |
| `Styles.Style.GetSize` | arya/style/style.py:55-57 | Returns the current figure size. |
| `Styles.Style.SetSize` | arya/style/style.py:59-61 | `get_size` then returns the new size, and nothing else changes. |
| `Styles.Style.ResetMarkers` | arya/style/style.py:118-134 | The cycle holds the ten `MarkerEntry` styles and restarts at the first. |
| `Styles.Style.NextMarker` | arya/style/style.py:137-138 | Before any reset it is a NameError. Otherwise draw k after a reset returns style k mod 10. |
| `Styles.Style.SetFontsize` | arya/style/style.py:64-78 | The settings become the old ones overridden by `FontSettings`. The large size is never written. |
| `Styles.Style.SetLinewidths` | arya/style/style.py:81-89 | The settings become the old ones overridden by `WidthSettings`. |
| `Styles.Style.SetTickLengths` | arya/style/style.py:92-97 | The settings become the old ones overridden by `TickSettings`. |

## Left out

- Drawing is not modelled. This covers matplotlib figures and axes, `savefig`/`show`, colour bars, `plot_err`, and the plotting entry points `binnedplot` and `medianplot` that only draw. Their only effect is on the screen or a file.
- `Layout.LayoutManager.UpdatePositions`:
  - it returns each subplot's offset instead of calling `subplot.position(x, y)`, which `Subplot` does not define (so the source raises AttributeError on the first occupied cell);
  - the conversion to figure coordinates is left out.
- `Layout.LayoutManager.AddSubplot` takes the subplot as given. Creating a default `Subplot(layout=self, …)` when none is passed is left out, because that constructor re-enters `add_subplot` through matplotlib axes creation.
- `Subplots.Subplot.constructor` does not register the subplot with a layout or create its axes; both are matplotlib side effects. The axis limits and labels, which the source reads from its axes, are plain fields.
- `set_axes_position_inches` (old subplot) is left out. It reads an attribute that is never set and then transforms matplotlib coordinates.
- `Subplots.Subplot.Set` admits narrower inputs than Python's `setattr`:
  - only the attribute names the model knows are found; a name such as `__doc__` or another inherited attribute passes `hasattr` in Python but is reported unknown here;
  - tracked attributes take values of their own kind (`WellTyped`); Python stores any object;
  - padding always has four sides, so the IndexError that `total_width`/`total_height` would raise after a shorter padding cannot arise.
- Grid indices are natural numbers. Python's negative indices, which count from the end, are not modelled.
- Floating-point arithmetic is modelled by exact reals. The numpy, scipy and astropy routines are parameters, so rounding, NaN and infinities are not modelled.
- `PlotDatas.NewPlotData`: `dropna()` is left out, because its result is discarded and the frame is unchanged.
- Medians.Groups:
  - pandas orders groupby keys by sorting them; the model takes the key order as a parameter (`keys`) and proves the partition for any order that lists each key once;
  - the group with no group columns is the whole frame;
  - `Medians.GroupsOf` states its groups' contents (through `NoGroupEmpty`) only for keys drawn from the data, which is how `Groups` calls it.
- `Medians.SortedX`: `sort_values` uses an unstable quicksort. The model sorts stably by insertion, so rows with equal x may be ordered differently.
- `binsize` is a natural number. A negative `binsize`, which Python accepts, is not modelled; a zero `binsize` is the modelled ZeroDivisionError.
- Fewer than two bin edges, scipy's own validation of edges, and a Python list passed as `bins` are not modelled. The edges are taken as a sequence of reals.
- `bin_hues` is left out. It is declared without `self`, so any call raises TypeError, which is modelled as the `HueBinning` error.
- `medianplot.py` imports `plot_err` from `binnedplot.py`, which does not define it, so importing the module fails. The model describes `MedianData` as if the import succeeded.
- The `print` calls in `medianplot.py` are left out. They are output only.
- `has_errors` and the concrete output column layout of `bin` are left out. A row carries an optional band in place of the `y_l`/`y_h` columns.
- Legend:
  - `labels`, `hide_handles`, `color_labels` and `create_legend`'s own matplotlib arguments are left out, because they only forward to matplotlib;
  - `eval_position`, the badness score, is a parameter;
  - `Legends.ShownColorsSpec` states only the string-colour case outright; array colours follow `ShownColor`.
- Style:
  - `init` (reading the style file, replacing `AutoLocator.__init__`, registering colour maps, seaborn settings) and `set_seaborn` are left out. They are file I/O and library calls.
  - Only numeric configuration entries are modelled, so string settings such as `patch.edgecolor` do not appear.
  - `set_size` replaces the module's `FIG_SIZE`, but other modules copied the old value when they imported it. That aliasing is not modelled.

## Findings

| source | as written | input that shows it | evidently intended | confidence | as-written member | corrected member |
|---|---|---|---|---|---|---|
| arya/figure/legend.py:39-43 | The `ms` setter checks that a list has one size per handle, then passes the whole list to every handle's `set_markersize`. | Two handles and `ms = [1.0, 2.0]`: the first handle is given `[1.0, 2.0]`, not `1.0`. | Handle i gets the i-th size. | not executed | `Legends.MsListIsNotSpread` | `Legends.Legend.SetMs` |
