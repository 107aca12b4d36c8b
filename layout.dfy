/**
 * The layout manager of arya/figure/layout.py: a non-strict grid of
 * subplots, the search for the next free cell, the figure's width and
 * height, and the walk that gives each subplot its (x, y) offset.
 */
module Layout {
  import opened Wrappers
  import opened Grids
  import opened LayoutMath
  import opened Subplots

  /** The subplots a grid of cells holds. */
  function Occupants(cells: seq<seq<Option<Subplot>>>): set<Subplot>
  {
    set r, c | 0 <= r < |cells| && 0 <= c < |cells[r]| && cells[r][c].Some? :: cells[r][c].value
  }

  /** Every subplot in the grid keeps its four-sided padding. */
  ghost predicate AllValid(cells: seq<seq<Option<Subplot>>>)
    reads Occupants(cells)
  {
    forall s | s in Occupants(cells) :: s.Valid()
  }

  /** The padded size of one cell's subplot, if any. */
  function BoxOf(cell: Option<Subplot>): Option<Box>
    reads if cell.Some? then {cell.value} else {}
    requires cell.Some? ==> cell.value.Valid()
  {
    if cell.Some? then Some(Box(cell.value.TotalWidth(), cell.value.TotalHeight())) else None
  }

  /** The first `c` cells of row `r` with each subplot replaced by its padded size. */
  function RowBoxes(cells: seq<seq<Option<Subplot>>>, r: nat, c: nat): (b: seq<Option<Box>>)
    reads Occupants(cells)
    requires AllValid(cells) && r < |cells| && c <= |cells[r]|
    ensures |b| == c
  {
    if c == 0 then []
    else
      assert cells[r][c - 1].Some? ==> cells[r][c - 1].value in Occupants(cells);
      RowBoxes(cells, r, c - 1) + [BoxOf(cells[r][c - 1])]
  }

  /** The first `n` rows of the grid with each subplot replaced by its padded size. */
  function BoxRows(cells: seq<seq<Option<Subplot>>>, n: nat): (b: seq<seq<Option<Box>>>)
    reads Occupants(cells)
    requires AllValid(cells) && n <= |cells|
    ensures |b| == n && forall r :: 0 <= r < n ==> b[r] == RowBoxes(cells, r, |cells[r]|)
  {
    if n == 0 then [] else BoxRows(cells, n - 1) + [RowBoxes(cells, n - 1, |cells[n - 1]|)]
  }

  /** The grid with each subplot replaced by its padded size. */
  function Boxes(cells: seq<seq<Option<Subplot>>>): (b: seq<seq<Option<Box>>>)
    reads Occupants(cells)
    requires AllValid(cells)
    ensures |b| == |cells| && forall r :: 0 <= r < |b| ==> |b[r]| == |cells[r]|
  {
    BoxRows(cells, |cells|)
  }

  /** The box of one cell, looked up in `Boxes`. */
  lemma {:induction false} RowBoxesAt(cells: seq<seq<Option<Subplot>>>, r: nat, c: nat, k: nat)
    requires AllValid(cells) && r < |cells| && k < c <= |cells[r]|
    ensures RowBoxes(cells, r, c)[k] == BoxOf(cells[r][k])
  {
    if k < c - 1 {
      RowBoxesAt(cells, r, c - 1, k);
    }
  }

  /** The box of one cell, looked up in `Boxes`. */
  lemma BoxesAt(cells: seq<seq<Option<Subplot>>>, r: nat, c: nat)
    requires AllValid(cells) && r < |cells| && c < |cells[r]|
    ensures cells[r][c].Some? ==> cells[r][c].value in Occupants(cells) && cells[r][c].value.Valid()
    ensures Boxes(cells)[r][c] == BoxOf(cells[r][c])
  {
    RowBoxesAt(cells, r, |cells[r]|, c);
  }

  /** A subplot whose size and padding are all non-negative. */
  ghost predicate NonNegativeSubplot(s: Subplot)
    reads s
  {
    s.width >= 0.0 && s.height >= 0.0 && forall i :: 0 <= i < |s.padding| ==> s.padding[i] >= 0.0
  }

  /**
   * Subplots with non-negative sizes and paddings give non-negative padded
   * boxes, so every offset `update_positions` computes fits inside the
   * figure size it sets.
   */
  lemma PlacementsFitFigure(cells: seq<seq<Option<Subplot>>>)
    requires AllValid(cells)
    requires forall s | s in Occupants(cells) :: NonNegativeSubplot(s)
    ensures NonNegative(Boxes(cells))
    ensures forall p | p in Placements(Boxes(cells), |cells|) ::
      PlacedAt(Boxes(cells), p)
      && p.x + Boxes(cells)[p.row][p.col].value.w <= LayoutMath.Width(Boxes(cells), |cells|)
      && p.y + Boxes(cells)[p.row][p.col].value.h <= LayoutMath.Height(Boxes(cells), |cells|)
  {
    var boxes: seq<seq<Option<Box>>> := Boxes(cells);
    forall r, c | 0 <= r < |boxes| && 0 <= c < |boxes[r]| && boxes[r][c].Some?
      ensures boxes[r][c].value.w >= 0.0 && boxes[r][c].value.h >= 0.0
    {
      BoxesAt(cells, r, c);
    }
    AllPlacementsFit(boxes);
  }

  /** The first empty column of row `r` at or after `c`, or the row's length. */
  function FreeColFrom(cells: seq<seq<Option<Subplot>>>, r: nat, c: nat): (k: nat)
    requires r < |cells| && c <= |cells[r]|
    decreases |cells[r]| - c
    ensures c <= k <= |cells[r]|
    ensures k < |cells[r]| ==> cells[r][k].None?
    ensures forall j :: c <= j < k ==> cells[r][j].Some?
  {
    if c == |cells[r]| || cells[r][c].None? then c else FreeColFrom(cells, r, c + 1)
  }

  /** The first empty row of column `c` at or after `r`, or `nrows`. */
  function FreeRowFrom(cells: seq<seq<Option<Subplot>>>, ncols: nat, c: nat, r: nat): (k: nat)
    requires Rect(cells, |cells|, ncols) && c < ncols && r <= |cells|
    decreases |cells| - r
    ensures r <= k <= |cells|
    ensures k < |cells| ==> cells[k][c].None?
    ensures forall j :: r <= j < k ==> cells[j][c].Some?
  {
    if r == |cells| || cells[r][c].None? then r else FreeRowFrom(cells, ncols, c, r + 1)
  }

  /** The first empty cell in row-major order from row `r`, if any. */
  function FreeCellFrom(cells: seq<seq<Option<Subplot>>>, ncols: nat, r: nat): (p: Option<(nat, nat)>)
    requires Rect(cells, |cells|, ncols) && r <= |cells|
    decreases |cells| - r
    ensures p.Some? ==> r <= p.value.0 < |cells| && p.value.1 < ncols && cells[p.value.0][p.value.1].None?
    ensures p.Some? ==> forall i, j ::
      (r <= i < |cells| && 0 <= j < ncols && (i < p.value.0 || (i == p.value.0 && j < p.value.1))) ==> cells[i][j].Some?
    ensures p.None? ==> forall i, j :: r <= i < |cells| && 0 <= j < ncols ==> cells[i][j].Some?
  {
    if r == |cells| then None
    else
      var k := FreeColFrom(cells, r, 0);
      if k < ncols then Some((r, k)) else FreeCellFrom(cells, ncols, r + 1)
  }

  /**
   * `get_next_pos(row, col)` on a grid of `nrows` x `ncols`: both given are
   * returned as they are; one given searches the other axis for an empty
   * cell, or returns that axis's extent; none given searches row-major, and
   * on a full grid opens a new row when there are more columns than rows
   * and a new column otherwise. A given row or column outside the grid
   * raises IndexError as soon as the search reads a cell.
   */
  function NextPos(cells: seq<seq<Option<Subplot>>>, ncols: nat, row: Option<nat>, col: Option<nat>)
    : Result<(nat, nat), GridError>
    requires Rect(cells, |cells|, ncols)
  {
    var nrows := |cells|;
    if row.Some? then
      if col.Some? then Ok((row.value, col.value))
      else if ncols == 0 then Ok((row.value, 0))
      else if row.value >= nrows then Err(IndexError(row.value, 0))
      else Ok((row.value, FreeColFrom(cells, row.value, 0)))
    else if col.Some? then
      if nrows == 0 then Ok((0, col.value))
      else if col.value >= ncols then Err(IndexError(0, col.value))
      else Ok((FreeRowFrom(cells, ncols, col.value, 0), col.value))
    else
      match FreeCellFrom(cells, ncols, 0)
      case Some(p) => Ok(p)
      case None => if ncols > nrows then Ok((nrows, 0)) else Ok((0, ncols))
  }

  /** With both given, `get_next_pos` returns them without looking at the cell. */
  lemma NextPosBothGiven(cells: seq<seq<Option<Subplot>>>, ncols: nat, row: nat, col: nat)
    requires Rect(cells, |cells|, ncols)
    ensures NextPos(cells, ncols, Some(row), Some(col)) == Ok((row, col))
  {
  }

  /**
   * With only a row inside the grid, the result is that row's first empty
   * column, or `ncols` when the row is full.
   */
  lemma NextPosRowOnly(cells: seq<seq<Option<Subplot>>>, ncols: nat, row: nat)
    requires Rect(cells, |cells|, ncols) && row < |cells|
    ensures NextPos(cells, ncols, Some(row), None).Ok?
    ensures var (r, c) := NextPos(cells, ncols, Some(row), None).value;
      r == row && c <= ncols && (c < ncols ==> cells[row][c].None?)
      && forall j :: 0 <= j < c ==> cells[row][j].Some?
  {
  }

  /**
   * With only a column inside the grid, the result is that column's first
   * empty row, or `nrows` when the column is full.
   */
  lemma NextPosColOnly(cells: seq<seq<Option<Subplot>>>, ncols: nat, col: nat)
    requires Rect(cells, |cells|, ncols) && col < ncols
    ensures NextPos(cells, ncols, None, Some(col)).Ok?
    ensures var (r, c) := NextPos(cells, ncols, None, Some(col)).value;
      c == col && r <= |cells| && (r < |cells| ==> cells[r][col].None?)
      && forall i :: 0 <= i < r ==> cells[i][col].Some?
  {
  }

  /** The search reports IndexError exactly for a lone row or column outside a non-empty axis. */
  lemma NextPosIndexError(cells: seq<seq<Option<Subplot>>>, ncols: nat, row: Option<nat>, col: Option<nat>)
    requires Rect(cells, |cells|, ncols)
    ensures NextPos(cells, ncols, row, col).Err? <==>
      (row.Some? && col.None? && ncols > 0 && row.value >= |cells|)
      || (row.None? && col.Some? && |cells| > 0 && col.value >= ncols)
  {
  }

  /**
   * With neither given, the result is the first empty cell in row-major
   * order; on a full grid it is (nrows, 0) when ncols > nrows and
   * (0, ncols) otherwise, a cell just outside the grid.
   */
  lemma NextPosNoneGiven(cells: seq<seq<Option<Subplot>>>, ncols: nat)
    requires Rect(cells, |cells|, ncols)
    ensures NextPos(cells, ncols, None, None).Ok?
    ensures var (r, c) := NextPos(cells, ncols, None, None).value;
      if exists i, j :: 0 <= i < |cells| && 0 <= j < ncols && cells[i][j].None? then
        r < |cells| && c < ncols && cells[r][c].None?
        && forall i, j :: 0 <= i < |cells| && 0 <= j < ncols && (i < r || (i == r && j < c)) ==> cells[i][j].Some?
      else
        (r, c) == (if ncols > |cells| then (|cells|, 0) else (0, ncols))
        && (r >= |cells| || c >= ncols)
  {
    var p := FreeCellFrom(cells, ncols, 0);
    if p.Some? {
      var (r, c) := p.value;
      assert forall i, j :: 0 <= i < |cells| && 0 <= j < ncols && (i < r || (i == r && j < c)) ==> cells[i][j].Some?;
    }
  }

  class LayoutManager {
    var grid: Grid<Subplot>

    ghost predicate Valid()
      reads this, grid, Occupants(grid.cells)
    {
      grid.Valid() && !grid.strict && AllValid(grid.cells)
    }

    /** A layout over a new, non-strict, empty `nrows` x `ncols` grid. */
    constructor (nrows: nat, ncols: nat)
      ensures Valid() && fresh(grid)
      ensures grid.nrows == nrows && grid.ncols == ncols
      ensures forall r, c :: 0 <= r < nrows && 0 <= c < ncols ==> grid.cells[r][c] == None
    {
      grid := new Grid(nrows, ncols, false);
    }

    /** `get_next_pos`: the nested search with early returns. */
    method GetNextPos(row: Option<nat>, col: Option<nat>) returns (r: Result<(nat, nat), GridError>)
      requires Valid()
      ensures r == NextPos(grid.cells, grid.ncols, row, col)
    {
      var cells: seq<seq<Option<Subplot>>> := grid.cells;
      var nrows: nat, ncols: nat := grid.nrows, grid.ncols;
      if row.Some? {
        if col.Some? {
          return Ok((row.value, col.value));
        }
        var i := 0;
        while i < ncols
          invariant 0 <= i <= ncols
          invariant row.value < nrows ==> forall j :: 0 <= j < i ==> cells[row.value][j].Some?
          invariant i > 0 ==> row.value < nrows
        {
          var cell := grid.Get(row.value, i);
          if cell.Err? {
            return Err(cell.error);
          }
          if cell.value.None? {
            return Ok((row.value, i));
          }
          i := i + 1;
        }
        return Ok((row.value, ncols));
      }
      if col.Some? {
        var i := 0;
        while i < nrows
          invariant 0 <= i <= nrows
          invariant col.value < ncols ==> forall j :: 0 <= j < i ==> cells[j][col.value].Some?
          invariant i > 0 ==> col.value < ncols
        {
          var cell := grid.Get(i, col.value);
          if cell.Err? {
            return Err(cell.error);
          }
          if cell.value.None? {
            return Ok((i, col.value));
          }
          i := i + 1;
        }
        return Ok((nrows, col.value));
      }
      var rr := 0;
      while rr < nrows
        invariant 0 <= rr <= nrows
        invariant FreeCellFrom(cells, ncols, 0) == FreeCellFrom(cells, ncols, rr)
      {
        var cc := 0;
        while cc < ncols
          invariant 0 <= cc <= ncols
          invariant FreeColFrom(cells, rr, 0) == FreeColFrom(cells, rr, cc)
        {
          if cells[rr][cc].None? {
            return Ok((rr, cc));
          }
          cc := cc + 1;
        }
        rr := rr + 1;
      }
      if ncols > nrows {
        return Ok((nrows, 0));
      }
      return Ok((0, ncols));
    }

    /**
     * `add_subplot(subplot, row, col)`: resolve a missing row or column with
     * `get_next_pos`, store the subplot there and return it. The layout's
     * grid is not strict, so the store itself never refuses.
     */
    method AddSubplot(s: Subplot, row: Option<nat>, col: Option<nat>) returns (r: Result<Subplot, GridError>)
      requires Valid() && s.Valid()
      modifies grid
      ensures Valid()
      ensures var pos := if row.Some? && col.Some? then Ok((row.value, col.value))
                         else old(NextPos(grid.cells, grid.ncols, row, col));
        match pos
        case Err(e) => r == Err(e) && unchanged(grid)
        case Ok(p) =>
          r == Ok(s)
          && grid.nrows == Max(old(grid.nrows), p.0 + 1) && grid.ncols == Max(old(grid.ncols), p.1 + 1)
          && grid.cells[p.0][p.1] == Some(s)
          && (forall i, j :: 0 <= i < old(grid.nrows) && 0 <= j < old(grid.ncols) && (i, j) != p ==>
                grid.cells[i][j] == old(grid.cells[i][j]))
          && (forall i, j ::
                (0 <= i < grid.nrows && 0 <= j < grid.ncols && (i >= old(grid.nrows) || j >= old(grid.ncols)) && (i, j) != p)
                ==> grid.cells[i][j] == None)
    {
      var pos: (nat, nat);
      if row.None? || col.None? {
        var next := GetNextPos(row, col);
        if next.Err? {
          return Err(next.error);
        }
        pos := next.value;
      } else {
        pos := (row.value, col.value);
      }
      var err := grid.Set(pos.0, pos.1, Some(s));
      assert err.None?;
      forall o | o in Occupants(grid.cells) ensures o.Valid() {
        var i, j :| 0 <= i < |grid.cells| && 0 <= j < |grid.cells[i]| && grid.cells[i][j] == Some(o);
        if (i, j) != pos && i < old(grid.nrows) && j < old(grid.ncols) {
          assert old(grid.cells[i][j]) == Some(o);
          assert o in old(Occupants(grid.cells));
        }
      }
      return Ok(s);
    }

    /** The inner loop of `width`: the padded widths of one row's subplots, summed. */
    method RowTotalWidth(row: nat) returns (x: real)
      requires Valid() && row < grid.nrows
      ensures |Boxes(grid.cells)[row]| == grid.ncols
      ensures x == RowWidth(Boxes(grid.cells)[row], grid.ncols)
    {
      x := 0.0;
      var col := 0;
      while col < grid.ncols
        invariant 0 <= col <= grid.ncols
        invariant unchanged(this, grid) && unchanged(Occupants(grid.cells))
        invariant x == RowWidth(Boxes(grid.cells)[row], col)
      {
        var subplot := grid.cells[row][col];
        BoxesAt(grid.cells, row, col);
        if subplot.Some? {
          x := x + subplot.value.TotalWidth();
        }
        col := col + 1;
      }
    }

    /** The `width` property: the widest row, summing the padded widths of its subplots. */
    method Width() returns (width: real)
      requires Valid()
      ensures width == LayoutMath.Width(Boxes(grid.cells), grid.nrows)
    {
      assert |Boxes(grid.cells)| == grid.nrows;
      width := 0.0;
      var row := 0;
      while row < grid.nrows
        invariant 0 <= row <= grid.nrows
        invariant unchanged(this, grid) && unchanged(Occupants(grid.cells))
        invariant width == LayoutMath.Width(Boxes(grid.cells), row)
      {
        var x := RowTotalWidth(row);
        width := MaxReal(width, x);
        row := row + 1;
      }
    }

    /** The inner loop of `height`: the tallest padded height among one row's subplots. */
    method RowMaxHeight(row: nat) returns (y: real)
      requires Valid() && row < grid.nrows
      ensures |Boxes(grid.cells)[row]| == grid.ncols
      ensures y == RowHeight(Boxes(grid.cells)[row], grid.ncols)
    {
      y := 0.0;
      var col := 0;
      while col < grid.ncols
        invariant 0 <= col <= grid.ncols
        invariant unchanged(this, grid) && unchanged(Occupants(grid.cells))
        invariant y == RowHeight(Boxes(grid.cells)[row], col)
      {
        var subplot := grid.cells[row][col];
        BoxesAt(grid.cells, row, col);
        if subplot.Some? {
          y := MaxReal(y, subplot.value.TotalHeight());
        }
        col := col + 1;
      }
    }

    /** The `height` property: the sum over rows of each row's tallest padded height. */
    method Height() returns (height: real)
      requires Valid()
      ensures height == LayoutMath.Height(Boxes(grid.cells), grid.nrows)
    {
      assert |Boxes(grid.cells)| == grid.nrows;
      height := 0.0;
      var row := 0;
      while row < grid.nrows
        invariant 0 <= row <= grid.nrows
        invariant unchanged(this, grid) && unchanged(Occupants(grid.cells))
        invariant height == LayoutMath.Height(Boxes(grid.cells), row)
      {
        var y := RowMaxHeight(row);
        height := height + y;
        row := row + 1;
      }
    }

    /**
     * One row of the `update_positions` walk at height `y`: each subplot of
     * the row is placed at the running `x`, and the row's tallest padded
     * height is returned for the next row's `y`.
     */
    method PlaceRow(row: nat, y: real) returns (rowPlaced: seq<Placement>, maxHeight: real)
      requires Valid() && row < grid.nrows
      requires y == LayoutMath.Height(Boxes(grid.cells), row)
      ensures |Boxes(grid.cells)[row]| == grid.ncols
      ensures rowPlaced == RowPlacements(Boxes(grid.cells), row, grid.ncols)
      ensures maxHeight == RowHeight(Boxes(grid.cells)[row], grid.ncols)
    {
      rowPlaced := [];
      maxHeight := 0.0;
      var x := 0.0;
      var col := 0;
      while col < grid.ncols
        invariant 0 <= col <= grid.ncols
        invariant unchanged(this, grid) && unchanged(Occupants(grid.cells))
        invariant x == RowWidth(Boxes(grid.cells)[row], col)
        invariant maxHeight == RowHeight(Boxes(grid.cells)[row], col)
        invariant rowPlaced == RowPlacements(Boxes(grid.cells), row, col)
      {
        var subplot := grid.cells[row][col];
        BoxesAt(grid.cells, row, col);
        if subplot.Some? {
          rowPlaced := rowPlaced + [Placement(row, col, x, y)];
          maxHeight := MaxReal(maxHeight, subplot.value.TotalHeight());
          x := x + subplot.value.TotalWidth();
        }
        col := col + 1;
      }
    }

    /** The walk of `update_positions`: every subplot's (x, y), in row-major order. */
    method Positions() returns (placed: seq<Placement>)
      requires Valid()
      ensures placed == Placements(Boxes(grid.cells), grid.nrows)
    {
      placed := [];
      var y := 0.0;
      var row := 0;
      while row < grid.nrows
        invariant 0 <= row <= grid.nrows
        invariant unchanged(this, grid) && unchanged(Occupants(grid.cells))
        invariant y == LayoutMath.Height(Boxes(grid.cells), row)
        invariant placed == Placements(Boxes(grid.cells), row)
      {
        var rowPlaced, maxHeight := PlaceRow(row, y);
        placed := placed + rowPlaced;
        y := y + maxHeight;
        row := row + 1;
      }
    }

    /** The size `update_positions` gives the figure: (width, height). */
    method FigureSize() returns (size: (real, real))
      requires Valid()
      ensures size == (LayoutMath.Width(Boxes(grid.cells), grid.nrows), LayoutMath.Height(Boxes(grid.cells), grid.nrows))
    {
      var w := Width();
      assert unchanged(this, grid) && unchanged(Occupants(grid.cells));
      var h := Height();
      size := (w, h);
    }

    /**
     * `update_positions`: the figure size it sets, (width, height), and the
     * offset the walk computes for each subplot; `x` restarts at 0 on every
     * row and `y` grows by each row's tallest subplot.
     */
    method UpdatePositions() returns (size: (real, real), placed: seq<Placement>)
      requires Valid()
      ensures size == (LayoutMath.Width(Boxes(grid.cells), grid.nrows), LayoutMath.Height(Boxes(grid.cells), grid.nrows))
      ensures placed == Placements(Boxes(grid.cells), grid.nrows)
    {
      size := FigureSize();
      assert unchanged(this, grid) && unchanged(Occupants(grid.cells));
      placed := Positions();
    }
  }
}
