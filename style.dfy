/**
 * The style settings of arya/style/style.py: the colour, marker and fill
 * tables, the marker cycle built from them, the figure size, and the
 * setters that write font sizes, line widths and tick lengths into
 * matplotlib's configuration map.
 *
 * The module's globals (`rcParams`, `FIG_SIZE`, `MARKER_CYCLE`) are the
 * fields of one `Style` object.
 */
module Styles {
  import opened Wrappers

  /** The colour of each of the ten plot styles. */
  const Colors: seq<string> := ["#0173b2", "#de8f05", "#029e73", "#d55e00", "#cc78bc",
                                "#ca9161", "#fbafe4", "#949494", "#ece133", "#56b4e9"]

  /** The marker of each style. */
  const Markers: seq<string> := ["o", "+", "^", "*", "o", "s", "d", "x", "1", "v"]

  /** Whether each style's marker is filled. */
  const Fill: seq<bool> := [true, true, true, true, false, false, false, true, true, true]

  /** The default figure size in inches: (10/3, 10/4). */
  const DefaultFigSize: (real, real) := (10.0 / 3.0, 10.0 / 4.0)

  /** The keyword arguments of one marker style. */
  type Kwargs = map<string, string>

  /** The three tables describe the same ten styles. */
  lemma TablesAligned()
    ensures |Colors| == |Markers| == |Fill| == 10
  {
  }

  /**
   * Entry i of the marker cycle: the style's colour and marker, and, for an
   * unfilled marker, no face colour and an edge of the style's colour.
   */
  function MarkerEntry(i: nat): (kw: Kwargs)
    requires i < 10
    ensures "color" in kw && kw["color"] == Colors[i]
    ensures "marker" in kw && kw["marker"] == Markers[i]
    ensures ("facecolor" in kw <==> !Fill[i]) && ("edgecolor" in kw <==> !Fill[i])
    ensures !Fill[i] ==> kw["facecolor"] == "none" && kw["edgecolor"] == Colors[i]
    ensures kw.Keys <= {"color", "marker", "facecolor", "edgecolor"}
  {
    var base := map["color" := Colors[i]];
    var filled := if Fill[i] then base else base["facecolor" := "none"]["edgecolor" := Colors[i]];
    filled["marker" := Markers[i]]
  }

  /** The font-size keys `set_fontsize` writes the medium size to. */
  const MediumFontKeys: set<string> := {"font.size", "figure.titlesize", "axes.labelsize", "legend.fontsize"}

  /** The font-size keys `set_fontsize` writes the small size to. */
  const SmallFontKeys: set<string> := {"axes.titlesize", "xtick.labelsize", "ytick.labelsize"}

  /** The keys `set_linewidths` writes the line width to. */
  const WidthKeys: set<string> := {"lines.linewidth", "axes.linewidth", "xtick.major.width", "ytick.major.width"}

  /** The keys `set_linewidths` writes half the line width to. */
  const MinorWidthKeys: set<string> := {"xtick.minor.width", "ytick.minor.width"}

  /** The keys `set_linewidths` writes the marker size to. */
  const MarkerSizeKeys: set<string> := {"lines.markersize", "errorbar.capsize"}

  /** The keys `set_tick_lengths` writes the major and the minor length to. */
  const MajorTickKeys: set<string> := {"xtick.major.size", "ytick.major.size"}
  const MinorTickKeys: set<string> := {"xtick.minor.size", "ytick.minor.size"}

  /** No key gets both a medium and a small font size. */
  lemma FontKeysDisjoint()
    ensures MediumFontKeys !! SmallFontKeys
  {
  }

  /** The width, half-width and marker-size keys are distinct. */
  lemma WidthKeysDisjoint()
    ensures WidthKeys !! MinorWidthKeys && WidthKeys !! MarkerSizeKeys && MinorWidthKeys !! MarkerSizeKeys
  {
  }

  /** No tick is both major and minor. */
  lemma TickKeysDisjoint()
    ensures MajorTickKeys !! MinorTickKeys
  {
  }

  /** The small font size: the one given, or four fifths of the medium size. */
  function SmallSize(medium: real, small: Option<real>): (s: real)
    ensures small.None? ==> 5.0 * s == 4.0 * medium
    ensures small.Some? ==> s == small.value
  {
    if small.None? then 0.8 * medium else small.value
  }

  /**
   * What `set_fontsize` writes: the medium size to the body, figure-title,
   * axis-label and legend fonts, the small size to the axis-title and
   * tick-label fonts.
   */
  function FontSettings(medium: real, small: Option<real>): (m: map<string, real>)
    ensures m.Keys == MediumFontKeys + SmallFontKeys
    ensures forall k :: k in MediumFontKeys ==> m[k] == medium
    ensures forall k :: k in SmallFontKeys ==> m[k] == SmallSize(medium, small)
  {
    FontKeysDisjoint();
    (map k | k in MediumFontKeys :: medium) + (map k | k in SmallFontKeys :: SmallSize(medium, small))
  }

  /**
   * What `set_linewidths` writes: the line, axis and major-tick widths are
   * `lw`, the minor-tick widths half of it, and the marker size and
   * error-bar cap size `ms`.
   */
  function WidthSettings(lw: real, ms: real): (m: map<string, real>)
    ensures m.Keys == WidthKeys + MinorWidthKeys + MarkerSizeKeys
    ensures forall k :: k in WidthKeys ==> m[k] == lw
    ensures forall k :: k in MinorWidthKeys ==> 2.0 * m[k] == lw
    ensures forall k :: k in MarkerSizeKeys ==> m[k] == ms
  {
    WidthKeysDisjoint();
    (map k | k in WidthKeys :: lw) + (map k | k in MarkerSizeKeys :: ms) + (map k | k in MinorWidthKeys :: lw / 2.0)
  }

  /** What `set_tick_lengths` writes: major ticks `major` long and minor ticks `minor` long, on both axes. */
  function TickSettings(major: real, minor: real): (m: map<string, real>)
    ensures m.Keys == MajorTickKeys + MinorTickKeys
    ensures forall k :: k in MajorTickKeys ==> m[k] == major
    ensures forall k :: k in MinorTickKeys ==> m[k] == minor
  {
    TickKeysDisjoint();
    (map k | k in MajorTickKeys :: major) + (map k | k in MinorTickKeys :: minor)
  }

  /** The module's global state: the numeric rc settings, the figure size and the marker cycle. */
  class Style {
    /** The numeric entries of matplotlib's `rcParams`. */
    var rc: map<string, real>
    /** `FIG_SIZE`. */
    var figSize: (real, real)
    /** Whether `MARKER_CYCLE` has been defined, by a first `reset_markers`. */
    var hasCycle: bool
    /** The entries `MARKER_CYCLE` cycles through. */
    var markerCycle: seq<Kwargs>
    /** The position of the next entry in the cycle. */
    var cursor: nat
    /** The number of markers drawn since the last reset. */
    ghost var drawn: nat

    /** A defined cycle has the ten entries of the tables, and the cursor has advanced once per draw. */
    ghost predicate Valid()
      reads this
    {
      hasCycle ==>
        |markerCycle| == 10 && cursor == drawn % 10 &&
        forall i :: 0 <= i < 10 ==> markerCycle[i] == MarkerEntry(i)
    }

    /** The state on import: the style file's settings and the default figure size, no marker cycle yet. */
    constructor (rc0: map<string, real>)
      ensures Valid()
      ensures rc == rc0 && figSize == DefaultFigSize && !hasCycle
    {
      rc := rc0;
      figSize := DefaultFigSize;
      hasCycle := false;
      markerCycle := [];
      cursor := 0;
      drawn := 0;
    }

    /** `get_size`: the current figure size. */
    method GetSize() returns (s: (real, real))
      ensures s == figSize
    {
      s := figSize;
    }

    /** `set_size`: replaces the figure size, so that `get_size` returns it; nothing else changes. */
    method SetSize(s: (real, real))
      requires Valid()
      modifies this
      ensures Valid()
      ensures figSize == s
      ensures rc == old(rc) && hasCycle == old(hasCycle) && markerCycle == old(markerCycle) && cursor == old(cursor)
      ensures drawn == old(drawn)
    {
      figSize := s;
    }

    /**
     * `reset_markers`: builds the ten marker styles from the tables, one
     * at a time, and restarts the cycle at the first.
     */
    method ResetMarkers()
      modifies this
      ensures Valid()
      ensures hasCycle && cursor == 0 && drawn == 0
      ensures forall i :: 0 <= i < 10 ==> markerCycle[i] == MarkerEntry(i)
      ensures |markerCycle| == 10
      ensures rc == old(rc) && figSize == old(figSize)
    {
      var entries: seq<Kwargs> := [];
      var i := 0;
      while i < 10
        invariant 0 <= i <= 10 && |entries| == i
        invariant forall k :: 0 <= k < i ==> entries[k] == MarkerEntry(k)
      {
        var kw: Kwargs := map[];
        kw := kw["color" := Colors[i]];
        if !Fill[i] {
          kw := kw["facecolor" := "none"];
          kw := kw["edgecolor" := Colors[i]];
        }
        kw := kw["marker" := Markers[i]];
        entries := entries + [kw];
        i := i + 1;
      }
      markerCycle := entries;
      hasCycle := true;
      cursor := 0;
      drawn := 0;
    }

    /**
     * `next_marker`: the next style of the cycle, wrapping after the tenth;
     * the k-th draw after a reset (from 0) returns entry k mod 10. Before
     * any reset the cycle is undefined, a NameError.
     */
    method NextMarker() returns (r: Result<Kwargs, string>)
      requires Valid()
      modifies this
      ensures Valid()
      ensures !old(hasCycle) ==> r == Err("MARKER_CYCLE") && cursor == old(cursor) && drawn == old(drawn)
      ensures old(hasCycle) ==> r == Ok(MarkerEntry(old(drawn) % 10)) && drawn == old(drawn) + 1
      ensures rc == old(rc) && figSize == old(figSize) && hasCycle == old(hasCycle) && markerCycle == old(markerCycle)
    {
      if !hasCycle {
        return Err("MARKER_CYCLE");
      }
      r := Ok(markerCycle[cursor]);
      cursor := (cursor + 1) % |markerCycle|;
      drawn := drawn + 1;
    }

    /**
     * `set_fontsize`: writes the medium and the small font sizes (see
     * `FontSettings`); the large size is never written.
     */
    method SetFontsize(medium: real, small: Option<real>, large: Option<real>)
      modifies this
      ensures rc == old(rc) + FontSettings(medium, small)
      ensures figSize == old(figSize) && hasCycle == old(hasCycle) && markerCycle == old(markerCycle)
      ensures cursor == old(cursor) && drawn == old(drawn)
    {
      rc := rc + FontSettings(medium, small);
    }

    /** `set_linewidths`: writes the widths and marker sizes of `WidthSettings`. */
    method SetLinewidths(lw: real, ms: real)
      modifies this
      ensures rc == old(rc) + WidthSettings(lw, ms)
      ensures figSize == old(figSize) && hasCycle == old(hasCycle) && markerCycle == old(markerCycle)
      ensures cursor == old(cursor) && drawn == old(drawn)
    {
      rc := rc + WidthSettings(lw, ms);
    }

    /** `set_tick_lengths`: writes the tick lengths of `TickSettings`. */
    method SetTickLengths(major: real, minor: real)
      modifies this
      ensures rc == old(rc) + TickSettings(major, minor)
      ensures figSize == old(figSize) && hasCycle == old(hasCycle) && markerCycle == old(markerCycle)
      ensures cursor == old(cursor) && drawn == old(drawn)
    {
      rc := rc + TickSettings(major, minor);
    }
  }
}
