/**
 * The arithmetic of the grid layout (arya/figure/layout.py): the figure's
 * width is the widest row, where a row's width is the sum of the padded
 * widths of its occupied cells; its height is the sum over rows of each
 * row's tallest padded height. Each subplot is placed at the running sum of
 * the widths to its left and of the row heights above it.
 */
module LayoutMath {
  import opened Wrappers

  /** The padded size of one occupied cell: (total_width, total_height). */
  datatype Box = Box(w: real, h: real)

  /** One placed subplot: its cell and its (x, y) offset. */
  datatype Placement = Placement(row: nat, col: nat, x: real, y: real)

  /** The `x` the row walk has reached after the first `c` cells of `row`. */
  function RowWidth(row: seq<Option<Box>>, c: nat): real
    requires c <= |row|
  {
    if c == 0 then 0.0
    else RowWidth(row, c - 1) + (if row[c - 1].Some? then row[c - 1].value.w else 0.0)
  }

  /** The `max_height` of a row after its first `c` cells (0 when none is occupied). */
  function RowHeight(row: seq<Option<Box>>, c: nat): real
    requires c <= |row|
  {
    if c == 0 then 0.0
    else if row[c - 1].Some? then MaxReal(RowHeight(row, c - 1), row[c - 1].value.h)
    else RowHeight(row, c - 1)
  }

  /** The `width` property accumulated over the first `r` rows. */
  function Width(rows: seq<seq<Option<Box>>>, r: nat): real
    requires r <= |rows|
  {
    if r == 0 then 0.0 else MaxReal(Width(rows, r - 1), RowWidth(rows[r - 1], |rows[r - 1]|))
  }

  /** The `height` property (and the walk's `y`) accumulated over the first `r` rows. */
  function Height(rows: seq<seq<Option<Box>>>, r: nat): real
    requires r <= |rows|
  {
    if r == 0 then 0.0 else Height(rows, r - 1) + RowHeight(rows[r - 1], |rows[r - 1]|)
  }

  /** Every occupied cell has a non-negative padded width and height. */
  predicate NonNegative(rows: seq<seq<Option<Box>>>)
  {
    forall r, c :: 0 <= r < |rows| && 0 <= c < |rows[r]| && rows[r][c].Some? ==>
      rows[r][c].value.w >= 0.0 && rows[r][c].value.h >= 0.0
  }

  /**
   * The width is the maximum of the rows' summed widths, and 0 when there is
   * no row or every row sums below 0.
   */
  lemma {:induction false} WidthIsMaxRowSum(rows: seq<seq<Option<Box>>>, n: nat)
    requires n <= |rows|
    ensures Width(rows, n) >= 0.0
    ensures forall k :: 0 <= k < n ==> RowWidth(rows[k], |rows[k]|) <= Width(rows, n)
    ensures Width(rows, n) == 0.0 || exists k :: 0 <= k < n && Width(rows, n) == RowWidth(rows[k], |rows[k]|)
  {
    if n > 0 {
      WidthIsMaxRowSum(rows, n - 1);
    }
  }

  /**
   * A row's height is the maximum padded height of its occupied cells, and 0
   * when it has none.
   */
  lemma {:induction false} RowHeightIsMax(row: seq<Option<Box>>, c: nat)
    requires c <= |row|
    ensures RowHeight(row, c) >= 0.0
    ensures forall k :: 0 <= k < c && row[k].Some? ==> row[k].value.h <= RowHeight(row, c)
    ensures RowHeight(row, c) == 0.0 || exists k :: 0 <= k < c && row[k].Some? && RowHeight(row, c) == row[k].value.h
  {
    if c > 0 {
      RowHeightIsMax(row, c - 1);
    }
  }

  /** `y` never decreases from one row to a later one. */
  lemma {:induction false} HeightMonotone(rows: seq<seq<Option<Box>>>, r1: nat, r2: nat)
    requires r1 <= r2 <= |rows|
    ensures Height(rows, r1) <= Height(rows, r2)
  {
    if r1 < r2 {
      HeightMonotone(rows, r1, r2 - 1);
      RowHeightIsMax(rows[r2 - 1], |rows[r2 - 1]|);
    }
  }

  /** With non-negative widths, `x` never decreases along a row. */
  lemma {:induction false} RowWidthMonotone(rows: seq<seq<Option<Box>>>, r: nat, c1: nat, c2: nat)
    requires NonNegative(rows)
    requires r < |rows| && c1 <= c2 <= |rows[r]|
    ensures RowWidth(rows[r], c1) <= RowWidth(rows[r], c2)
  {
    if c1 < c2 {
      RowWidthMonotone(rows, r, c1, c2 - 1);
    }
  }

  /**
   * With non-negative padded sizes, a subplot placed at the walk's (x, y)
   * lies inside the figure: x + total_width <= width and
   * y + total_height <= height.
   */
  lemma Fits(rows: seq<seq<Option<Box>>>, r: nat, c: nat)
    requires NonNegative(rows)
    requires r < |rows| && c < |rows[r]| && rows[r][c].Some?
    ensures RowWidth(rows[r], c) + rows[r][c].value.w <= Width(rows, |rows|)
    ensures Height(rows, r) + rows[r][c].value.h <= Height(rows, |rows|)
  {
    assert RowWidth(rows[r], c + 1) == RowWidth(rows[r], c) + rows[r][c].value.w;
    RowWidthMonotone(rows, r, c + 1, |rows[r]|);
    WidthIsMaxRowSum(rows, |rows|);
    RowHeightIsMax(rows[r], |rows[r]|);
    assert Height(rows, r + 1) == Height(rows, r) + RowHeight(rows[r], |rows[r]|);
    HeightMonotone(rows, r + 1, |rows|);
  }

  /** The placements `update_positions` makes in the first `c` cells of row `r`. */
  function RowPlacements(rows: seq<seq<Option<Box>>>, r: nat, c: nat): seq<Placement>
    requires r < |rows| && c <= |rows[r]|
  {
    if c == 0 then []
    else
      RowPlacements(rows, r, c - 1)
      + (if rows[r][c - 1].Some? then [Placement(r, c - 1, RowWidth(rows[r], c - 1), Height(rows, r))] else [])
  }

  /** The placements `update_positions` makes in the first `n` rows. */
  function Placements(rows: seq<seq<Option<Box>>>, n: nat): seq<Placement>
    requires n <= |rows|
  {
    if n == 0 then [] else Placements(rows, n - 1) + RowPlacements(rows, n - 1, |rows[n - 1]|)
  }

  /** What a placement must be: an occupied cell at the walk's offsets for it. */
  predicate PlacedAt(rows: seq<seq<Option<Box>>>, p: Placement)
  {
    p.row < |rows| && p.col < |rows[p.row]| && rows[p.row][p.col].Some?
    && p.x == RowWidth(rows[p.row], p.col) && p.y == Height(rows, p.row)
  }

  lemma {:induction false} RowPlacementsSpec(rows: seq<seq<Option<Box>>>, r: nat, c: nat)
    requires r < |rows| && c <= |rows[r]|
    ensures forall p | p in RowPlacements(rows, r, c) :: PlacedAt(rows, p) && p.row == r && p.col < c
    ensures forall k | 0 <= k < c && rows[r][k].Some? ::
      Placement(r, k, RowWidth(rows[r], k), Height(rows, r)) in RowPlacements(rows, r, c)
  {
    if c > 0 {
      RowPlacementsSpec(rows, r, c - 1);
    }
  }

  /**
   * `update_positions` places exactly the occupied cells: each placement is
   * an occupied cell at its walk offsets, and each occupied cell gets one.
   */
  lemma {:induction false} PlacementsSpec(rows: seq<seq<Option<Box>>>, n: nat)
    requires n <= |rows|
    ensures forall p | p in Placements(rows, n) :: PlacedAt(rows, p) && p.row < n
    ensures forall r, c | 0 <= r < n && 0 <= c < |rows[r]| && rows[r][c].Some? ::
      Placement(r, c, RowWidth(rows[r], c), Height(rows, r)) in Placements(rows, n)
  {
    if n > 0 {
      PlacementsSpec(rows, n - 1);
      RowPlacementsSpec(rows, n - 1, |rows[n - 1]|);
    }
  }

  /**
   * With non-negative padded sizes, every placement the walk makes fits
   * inside the figure size it sets.
   */
  lemma AllPlacementsFit(rows: seq<seq<Option<Box>>>)
    requires NonNegative(rows)
    ensures forall p | p in Placements(rows, |rows|) ::
      PlacedAt(rows, p)
      && p.x + rows[p.row][p.col].value.w <= Width(rows, |rows|)
      && p.y + rows[p.row][p.col].value.h <= Height(rows, |rows|)
  {
    PlacementsSpec(rows, |rows|);
    forall p | p in Placements(rows, |rows|)
      ensures p.x + rows[p.row][p.col].value.w <= Width(rows, |rows|)
      ensures p.y + rows[p.row][p.col].value.h <= Height(rows, |rows|)
    {
      Fits(rows, p.row, p.col);
    }
  }
}
