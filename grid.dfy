/**
 * The rectangular store of optional cells that the layout code keeps its
 * subplots in (arya_old/figure/grid.py). Cells are written in place; a write
 * outside the current bounds grows the store, and strict mode refuses to
 * overwrite an occupied cell.
 */
module Grids {
  import opened Wrappers

  /** One item produced by iterating a grid: (row, col, element). */
  datatype Entry<T> = Entry(row: nat, col: nat, elem: Option<T>)

  /** The errors a grid access raises. */
  datatype GridError =
    | IndexError(row: nat, col: nat)   // reading outside the stored lists
    | Occupied(row: nat, col: nat)     // strict-mode overwrite (a ValueError)

  /** Every one of the `nrows` stored rows has exactly `ncols` cells. */
  predicate Rect<T>(cells: seq<seq<Option<T>>>, nrows: nat, ncols: nat)
  {
    |cells| == nrows && forall r :: 0 <= r < |cells| ==> |cells[r]| == ncols
  }

  /** Row-major order: earlier row first, then earlier column. */
  predicate Before<T>(a: Entry<T>, b: Entry<T>)
  {
    a.row < b.row || (a.row == b.row && a.col < b.col)
  }

  predicate RowMajorSorted<T>(s: seq<Entry<T>>)
  {
    forall i, j :: 0 <= i < j < |s| ==> Before(s[i], s[j])
  }

  /** Whether iteration reports a cell holding `elem`. */
  predicate Reported<T>(elem: Option<T>, skipNone: bool)
  {
    !(skipNone && elem.None?)
  }

  /** What iteration yields for the first `c` cells of row `r`. */
  function RowEntries<T>(cells: seq<seq<Option<T>>>, r: nat, c: nat, skipNone: bool): seq<Entry<T>>
    requires r < |cells| && c <= |cells[r]|
  {
    if c == 0 then []
    else
      RowEntries(cells, r, c - 1, skipNone)
      + (if Reported(cells[r][c - 1], skipNone) then [Entry(r, c - 1, cells[r][c - 1])] else [])
  }

  /** What iteration yields for the first `rows` rows. */
  function Entries<T>(cells: seq<seq<Option<T>>>, rows: nat, skipNone: bool): seq<Entry<T>>
    requires rows <= |cells|
  {
    if rows == 0 then []
    else Entries(cells, rows - 1, skipNone) + RowEntries(cells, rows - 1, |cells[rows - 1]|, skipNone)
  }

  /** Iterating a row yields exactly its reported cells, in column order. */
  lemma {:induction false} RowEntriesSpec<T>(cells: seq<seq<Option<T>>>, r: nat, c: nat, skipNone: bool)
    requires r < |cells| && c <= |cells[r]|
    ensures RowMajorSorted(RowEntries(cells, r, c, skipNone))
    ensures forall e | e in RowEntries(cells, r, c, skipNone) ::
      e.row == r && e.col < c && e.elem == cells[r][e.col] && Reported(e.elem, skipNone)
    ensures forall k | 0 <= k < c && Reported(cells[r][k], skipNone) ::
      Entry(r, k, cells[r][k]) in RowEntries(cells, r, c, skipNone)
  {
    if c > 0 {
      RowEntriesSpec(cells, r, c - 1, skipNone);
      var prefix := RowEntries(cells, r, c - 1, skipNone);
      var all := RowEntries(cells, r, c, skipNone);
      assert all == prefix + (if Reported(cells[r][c - 1], skipNone) then [Entry(r, c - 1, cells[r][c - 1])] else []);
      forall i, j | 0 <= i < j < |all| ensures Before(all[i], all[j]) {
        if j < |prefix| {
          assert all[i] == prefix[i] && all[j] == prefix[j];
        } else {
          assert all[j] == Entry(r, c - 1, cells[r][c - 1]);
          assert all[i] == prefix[i] && prefix[i] in prefix;
        }
      }
    }
  }

  /** Iteration yields only reported cells of the first `rows` rows, each with its own element. */
  lemma {:induction false} EntriesSound<T>(cells: seq<seq<Option<T>>>, rows: nat, skipNone: bool)
    requires rows <= |cells|
    ensures forall e | e in Entries(cells, rows, skipNone) ::
      e.row < rows && e.col < |cells[e.row]| && e.elem == cells[e.row][e.col] && Reported(e.elem, skipNone)
  {
    if rows > 0 {
      EntriesSound(cells, rows - 1, skipNone);
      RowEntriesSpec(cells, rows - 1, |cells[rows - 1]|, skipNone);
    }
  }

  /** Iteration yields every reported cell of the first `rows` rows. */
  lemma {:induction false} EntriesComplete<T>(cells: seq<seq<Option<T>>>, rows: nat, skipNone: bool)
    requires rows <= |cells|
    ensures forall r, c | 0 <= r < rows && 0 <= c < |cells[r]| && Reported(cells[r][c], skipNone) ::
      Entry(r, c, cells[r][c]) in Entries(cells, rows, skipNone)
  {
    if rows > 0 {
      EntriesComplete(cells, rows - 1, skipNone);
      RowEntriesSpec(cells, rows - 1, |cells[rows - 1]|, skipNone);
    }
  }

  /** Iteration yields its items in row-major order. */
  lemma {:induction false} EntriesSorted<T>(cells: seq<seq<Option<T>>>, rows: nat, skipNone: bool)
    requires rows <= |cells|
    ensures RowMajorSorted(Entries(cells, rows, skipNone))
  {
    if rows > 0 {
      EntriesSorted(cells, rows - 1, skipNone);
      EntriesSound(cells, rows - 1, skipNone);
      RowEntriesSpec(cells, rows - 1, |cells[rows - 1]|, skipNone);
      var prefix := Entries(cells, rows - 1, skipNone);
      var last := RowEntries(cells, rows - 1, |cells[rows - 1]|, skipNone);
      var all := prefix + last;
      assert all == Entries(cells, rows, skipNone);
      forall i, j | 0 <= i < j < |all| ensures Before(all[i], all[j]) {
        if j < |prefix| {
          assert all[i] == prefix[i] && all[j] == prefix[j];
        } else if i >= |prefix| {
          assert all[i] == last[i - |prefix|] && all[j] == last[j - |prefix|];
        } else {
          assert all[i] == prefix[i] && prefix[i] in prefix;
          assert all[j] == last[j - |prefix|] && last[j - |prefix|] in last;
        }
      }
    }
  }

  /** Without skipping, iteration yields one item per cell. */
  lemma {:induction false} EntriesCount<T>(cells: seq<seq<Option<T>>>, nrows: nat, ncols: nat, rows: nat)
    requires Rect(cells, nrows, ncols) && rows <= nrows
    ensures |Entries(cells, rows, false)| == rows * ncols
  {
    if rows > 0 {
      EntriesCount(cells, nrows, ncols, rows - 1);
      RowCount(cells, rows - 1, ncols);
      assert rows * ncols == (rows - 1) * ncols + ncols;
    }
  }

  lemma {:induction false} RowCount<T>(cells: seq<seq<Option<T>>>, r: nat, c: nat)
    requires r < |cells| && c <= |cells[r]|
    ensures |RowEntries(cells, r, c, false)| == c
  {
    if c > 0 {
      RowCount(cells, r, c - 1);
    }
  }

  /** A grid whose every cell is None yields nothing under the default skipNone. */
  lemma {:induction false} EmptyGridYieldsNothing<T>(cells: seq<seq<Option<T>>>, nrows: nat, ncols: nat, rows: nat)
    requires Rect(cells, nrows, ncols) && rows <= nrows
    requires forall r, c :: 0 <= r < nrows && 0 <= c < ncols ==> cells[r][c] == None
    ensures Entries(cells, rows, true) == []
  {
    if rows > 0 {
      EmptyGridYieldsNothing(cells, nrows, ncols, rows - 1);
      EmptyRowYieldsNothing(cells, rows - 1, ncols);
    }
  }

  lemma {:induction false} EmptyRowYieldsNothing<T>(cells: seq<seq<Option<T>>>, r: nat, c: nat)
    requires r < |cells| && c <= |cells[r]|
    requires forall k :: 0 <= k < c ==> cells[r][k] == None
    ensures RowEntries(cells, r, c, true) == []
  {
    if c > 0 {
      EmptyRowYieldsNothing(cells, r, c - 1);
    }
  }

  class Grid<T> {
    var nrows: nat
    var ncols: nat
    var strict: bool
    var cells: seq<seq<Option<T>>>

    ghost predicate Valid()
      reads this
    {
      Rect(cells, nrows, ncols)
    }

    /** A grid of `nrows` rows of `ncols` cells, every one None. */
    constructor (nrows: nat, ncols: nat, strict: bool)
      ensures Valid()
      ensures this.nrows == nrows && this.ncols == ncols && this.strict == strict
      ensures forall r, c :: 0 <= r < nrows && 0 <= c < ncols ==> cells[r][c] == None
    {
      this.nrows := nrows;
      this.ncols := ncols;
      this.strict := strict;
      cells := seq(nrows, _ => seq(ncols, _ => None));
    }

    /** `grid[row, col]`: the stored cell, or IndexError outside the stored lists. */
    function Get(row: nat, col: nat): (r: Result<Option<T>, GridError>)
      reads this
      requires Valid()
      ensures r.Ok? <==> row < nrows && col < ncols
      ensures r.Ok? ==> r.value == cells[row][col]
      ensures r.Err? ==> r.error == IndexError(row, col)
    {
      if row < |cells| && col < |cells[row]| then Ok(cells[row][col]) else Err(IndexError(row, col))
    }

    /** The first step of `add_item`: append rows of None until `row` exists. */
    method AppendRows(row: nat)
      requires Valid() && row >= nrows
      modifies this
      ensures Valid() && strict == old(strict) && ncols == old(ncols) && nrows == row + 1
      ensures cells[..old(nrows)] == old(cells)
      ensures forall r, c :: old(nrows) <= r < nrows && 0 <= c < ncols ==> cells[r][c] == None
    {
      var missing := row - nrows + 1;
      var k := 0;
      while k < missing
        invariant 0 <= k <= missing
        invariant nrows == old(nrows) && ncols == old(ncols) && strict == old(strict)
        invariant |cells| == nrows + k
        invariant forall r :: 0 <= r < |cells| ==> |cells[r]| == ncols
        invariant cells[..nrows] == old(cells)
        invariant forall r, c :: nrows <= r < |cells| && 0 <= c < ncols ==> cells[r][c] == None
      {
        cells := cells + [seq(ncols, _ => None)];
        k := k + 1;
      }
      nrows := row + 1;
    }

    /** The second step of `add_item`: extend every row with None until `col` exists. */
    method ExtendRows(col: nat)
      requires Valid() && col >= ncols
      modifies this
      ensures Valid() && strict == old(strict) && nrows == old(nrows) && ncols == col + 1
      ensures forall r, c :: 0 <= r < nrows && 0 <= c < old(ncols) ==> cells[r][c] == old(cells)[r][c]
      ensures forall r, c :: 0 <= r < nrows && old(ncols) <= c < ncols ==> cells[r][c] == None
    {
      var extra := col - ncols + 1;
      var r := 0;
      while r < nrows
        invariant 0 <= r <= nrows == |cells|
        invariant ncols == old(ncols) && strict == old(strict) && nrows == old(nrows)
        invariant forall q :: r <= q < nrows ==> cells[q] == old(cells)[q]
        invariant forall q :: 0 <= q < r ==> |cells[q]| == col + 1
        invariant forall q, c :: 0 <= q < r && 0 <= c < ncols ==> cells[q][c] == old(cells)[q][c]
        invariant forall q, c :: 0 <= q < r && ncols <= c <= col ==> cells[q][c] == None
      {
        cells := cells[r := cells[r] + seq(extra, _ => None)];
        r := r + 1;
      }
      ncols := col + 1;
    }

    /**
     * `add_item`: append None rows up to `row`, extend every row with None
     * up to `col`, then store `value` at (row, col). Never refuses.
     */
    method AddItem(row: nat, col: nat, value: Option<T>)
      requires Valid()
      modifies this
      ensures Valid() && strict == old(strict)
      ensures nrows == Max(old(nrows), row + 1) && ncols == Max(old(ncols), col + 1)
      ensures cells[row][col] == value
      ensures forall r, c :: 0 <= r < old(nrows) && 0 <= c < old(ncols) && (r, c) != (row, col) ==>
        cells[r][c] == old(cells)[r][c]
      ensures forall r, c :: 0 <= r < nrows && 0 <= c < ncols && (r >= old(nrows) || c >= old(ncols)) && (r, c) != (row, col) ==>
        cells[r][c] == None
    {
      if row >= nrows {
        AppendRows(row);
        assert forall r :: 0 <= r < old(nrows) ==> cells[r] == old(cells)[r];
      }
      ghost var tall := cells;
      ghost var tallRows := nrows;
      if col >= ncols {
        ExtendRows(col);
      }
      assert forall r, c :: 0 <= r < nrows && 0 <= c < old(ncols) ==> cells[r][c] == tall[r][c];
      cells := cells[row := cells[row][col := value]];
    }

    /**
     * `grid[row, col] = value`. Outside the bounds it grows the grid (and so
     * never refuses, even in strict mode); inside, strict mode refuses to
     * overwrite a non-None cell and then leaves the grid as it was.
     */
    method Set(row: nat, col: nat, value: Option<T>) returns (err: Option<GridError>)
      requires Valid()
      modifies this
      ensures Valid() && strict == old(strict)
      ensures err.Some? <==> old(row < nrows && col < ncols && strict && cells[row][col].Some?)
      ensures err.Some? ==>
        err.value == Occupied(row, col) && nrows == old(nrows) && ncols == old(ncols) && cells == old(cells)
      ensures err.None? ==> nrows == Max(old(nrows), row + 1) && ncols == Max(old(ncols), col + 1)
      ensures err.None? ==> cells[row][col] == value
      ensures err.None? ==> forall r, c :: 0 <= r < old(nrows) && 0 <= c < old(ncols) && (r, c) != (row, col) ==>
        cells[r][c] == old(cells)[r][c]
      ensures err.None? ==> forall r, c :: 0 <= r < nrows && 0 <= c < ncols && (r >= old(nrows) || c >= old(ncols)) && (r, c) != (row, col) ==>
        cells[r][c] == None
    {
      if row >= nrows || col >= ncols {
        AddItem(row, col, value);
        err := None;
      } else {
        if strict && cells[row][col].Some? {
          return Some(Occupied(row, col));
        }
        cells := cells[row := cells[row][col := value]];
        err := None;
      }
    }

    /**
     * `__iter__`: the cells as (row, col, element) in row-major order; with
     * `skipNone` (the default in the source) only the non-None ones;
     * `EntriesSound`, `EntriesComplete` and `EntriesSorted` state what that
     * sequence holds.
     */
    method Items(skipNone: bool) returns (items: seq<Entry<T>>)
      requires Valid()
      ensures items == Entries(cells, nrows, skipNone)
    {
      items := [];
      var row := 0;
      while row < nrows
        invariant 0 <= row <= nrows
        invariant items == Entries(cells, row, skipNone)
      {
        var col := 0;
        while col < ncols
          invariant 0 <= col <= ncols
          invariant items == Entries(cells, row, skipNone) + RowEntries(cells, row, col, skipNone)
        {
          var element := cells[row][col];
          if !(skipNone && element.None?) {
            items := items + [Entry(row, col, element)];
          }
          col := col + 1;
        }
        row := row + 1;
      }
    }
  }
}
