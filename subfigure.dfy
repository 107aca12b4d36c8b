/**
 * The legacy subplot of arya_old/figure/subfigure.py: a size, a padding
 * ordered (left, right, top, bottom), the padded totals, partial padding
 * updates, and the axes rectangle `create_axes` computes.
 */
module Subfigures {
  import opened Wrappers
  import Subplots

  /** The four sides of the padding, in inches. */
  datatype Padding = Padding(left: real, right: real, top: real, bottom: real)

  /** The padding a new subplot gets when none is given. */
  const DefaultPadding: Padding := Padding(0.1, 0.1, 0.1, 0.1)

  /** An axes rectangle `[left, bottom, width, height]` in figure inches. */
  datatype Rect = Rect(left: real, bottom: real, width: real, height: real)

  /**
   * `create_axes` calls `plot` on the subplot's plot instance, which the
   * constructor always sets to None: the call raises AttributeError.
   */
  datatype AxesError = NoPlotInstance

  /** `set_padding`: each side given replaces the old one, each None keeps it. */
  function MergePadding(p: Padding, left: Option<real>, right: Option<real>, top: Option<real>, bottom: Option<real>): Padding
  {
    Padding(
      if left.Some? then left.value else p.left,
      if right.Some? then right.value else p.right,
      if top.Some? then top.value else p.top,
      if bottom.Some? then bottom.value else p.bottom)
  }

  /** `set_padding` replaces exactly the sides whose argument is given and keeps the others. */
  lemma MergeReplacesGivenSides(p: Padding, left: Option<real>, right: Option<real>, top: Option<real>, bottom: Option<real>)
    ensures var q := MergePadding(p, left, right, top, bottom);
      (left.Some? ==> q.left == left.value) && (left.None? ==> q.left == p.left)
      && (right.Some? ==> q.right == right.value) && (right.None? ==> q.right == p.right)
      && (top.Some? ==> q.top == top.value) && (top.None? ==> q.top == p.top)
      && (bottom.Some? ==> q.bottom == bottom.value) && (bottom.None? ==> q.bottom == p.bottom)
  {
  }

  /** `set_padding()` with no argument leaves the padding as it was. */
  lemma MergeNothingIsIdentity(p: Padding)
    ensures MergePadding(p, None, None, None, None) == p
  {
  }

  /** Calling `set_padding` twice with the same arguments gives what one call gives. */
  lemma MergeIdempotent(p: Padding, left: Option<real>, right: Option<real>, top: Option<real>, bottom: Option<real>)
    ensures var q := MergePadding(p, left, right, top, bottom);
      MergePadding(q, left, right, top, bottom) == q
  {
  }

  /**
   * Two calls compose into one: the later call's given sides win, and a
   * side neither call gives keeps its original value.
   */
  lemma MergeCompose(p: Padding, l1: Option<real>, r1: Option<real>, t1: Option<real>, b1: Option<real>,
                     l2: Option<real>, r2: Option<real>, t2: Option<real>, b2: Option<real>)
    ensures MergePadding(MergePadding(p, l1, r1, t1, b1), l2, r2, t2, b2)
      == MergePadding(p, if l2.Some? then l2 else l1, if r2.Some? then r2 else r1,
                         if t2.Some? then t2 else t1, if b2.Some? then b2 else b1)
  {
  }

  /**
   * The rectangle `create_axes` asks for: its lower-left corner is moved in
   * from (left, bottom) by the left and the bottom padding, and its size is
   * the subplot's unpadded size.
   */
  function AxesRect(width: real, height: real, p: Padding, left: real, bottom: real): (r: Rect)
    ensures r.width == width && r.height == height
    ensures r.left - left == p.left && r.bottom - bottom == p.bottom
  {
    Rect(left + p.left, bottom + p.bottom, width, height)
  }

  /**
   * The axes rectangle of a subplot and its padding exactly fill the padded
   * box that starts at (left, bottom) and spans its total width by its
   * total height.
   */
  lemma AxesFillPaddedBox(s: SubPlot, left: real, bottom: real)
    ensures var r := AxesRect(s.width, s.height, s.padding, left, bottom);
      r.left + r.width + s.padding.right == left + s.TotalWidth()
      && r.bottom + r.height + s.padding.top == bottom + s.TotalHeight()
  {
  }

  class SubPlot {
    var width: real
    var height: real
    var padding: Padding
    /** The axes `create_axes` last stored, None before the first call. */
    var ax: Option<Rect>

    /**
     * A subplot of the given size and padding; the plot argument is
     * ignored and no axes exist yet.
     */
    constructor (size: (real, real), padding: Padding)
      ensures width == size.0 && height == size.1 && this.padding == padding && ax == None
    {
      width, height := size.0, size.1;
      this.padding := padding;
      ax := None;
    }

    /** The constructor with its defaults: FIG_SIZE and 0.1 on every side. */
    constructor Default()
      ensures (width, height) == Subplots.FigSize && padding == DefaultPadding && ax == None
    {
      width, height := Subplots.FigSize.0, Subplots.FigSize.1;
      padding := DefaultPadding;
      ax := None;
    }

    /** `total_width`: the width padded on the left and on the right. */
    function TotalWidth(): (r: real)
      reads this
      ensures r - width == padding.left + padding.right
    {
      width + padding.left + padding.right
    }

    /** `total_height`: the height padded at the top and at the bottom. */
    function TotalHeight(): (r: real)
      reads this
      ensures r - height == padding.top + padding.bottom
    {
      height + padding.top + padding.bottom
    }

    /**
     * `create_axes(fig, left, bottom)`: store the axes at the padded
     * rectangle, then fail on the missing plot instance.
     */
    method CreateAxes(left: real, bottom: real) returns (r: Result<Rect, AxesError>)
      modifies this
      ensures ax == Some(AxesRect(width, height, padding, left, bottom))
      ensures width == old(width) && height == old(height) && padding == old(padding)
      ensures r == Err(NoPlotInstance)
    {
      ax := Some(AxesRect(width, height, padding, left, bottom));
      r := Err(NoPlotInstance);
    }

    /** `set_padding(left, right, top, bottom)`: replace the sides given. */
    method SetPadding(left: Option<real>, right: Option<real>, top: Option<real>, bottom: Option<real>)
      modifies this
      ensures padding == MergePadding(old(padding), left, right, top, bottom)
      ensures width == old(width) && height == old(height) && ax == old(ax)
    {
      var l := if left.Some? then left.value else padding.left;
      var rt := if right.Some? then right.value else padding.right;
      var t := if top.Some? then top.value else padding.top;
      var b := if bottom.Some? then bottom.value else padding.bottom;
      padding := Padding(l, rt, t, b);
    }
  }
}
