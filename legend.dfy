/**
 * The legend helper of arya/figure/legend.py: choosing a corner by badness,
 * the location-name table and the anchoring branch of `locate`, and the
 * marker-size and colour properties over the legend's handles.
 *
 * The legend's handles are values in a sequence the `Legend` object owns;
 * the badness matplotlib computes for a candidate location
 * (`eval_position`) is a parameter.
 */
module Legends {
  import opened Wrappers

  /** The threshold `find_best_position` uses when none is given. */
  const DefaultMaxBad: int := 5

  /** The four corner codes `find_best_position` tries, in order. */
  const Corners: seq<int> := [1, 2, 3, 4]

  /** The smallest element of a non-empty sequence: Python's `min`. */
  function MinOf(s: seq<nat>): (m: nat)
    requires |s| > 0
    ensures exists i :: 0 <= i < |s| && s[i] == m
    ensures forall i :: 0 <= i < |s| ==> m <= s[i]
  {
    if |s| == 1 then s[0]
    else
      var m := MinOf(s[..|s| - 1]);
      assert forall i :: 0 <= i < |s| - 1 ==> s[..|s| - 1][i] == s[i];
      if s[|s| - 1] < m then s[|s| - 1] else m
  }

  /** The first position holding `x`: Python's `list.index`. */
  function IndexOf(s: seq<nat>, x: nat): (k: nat)
    requires exists i :: 0 <= i < |s| && s[i] == x
    ensures k < |s| && s[k] == x
    ensures forall j :: 0 <= j < k ==> s[j] != x
  {
    if s[0] == x then 0
    else
      var i :| 0 <= i < |s| && s[i] == x;
      assert s[1..][i - 1] == x;
      1 + IndexOf(s[1..], x)
  }

  /**
   * The choice `find_best_position` makes from the badnesses of codes
   * 1, 2, 3, 4: -1 ("outside") when even the least bad exceeds `maxBad`,
   * otherwise the first code of least badness.
   */
  function BestPosition(badnesses: seq<nat>, maxBad: int): int
    requires |badnesses| == 4
  {
    var m := MinOf(badnesses);
    if m > maxBad then -1 else Corners[IndexOf(badnesses, m)]
  }

  /**
   * `find_best_position` returns -1 or a corner; -1 exactly when every
   * corner is worse than `maxBad`; otherwise a corner no worse than any
   * other and strictly better than every corner tried before it.
   */
  lemma BestPositionSpec(badnesses: seq<nat>, maxBad: int)
    requires |badnesses| == 4
    ensures BestPosition(badnesses, maxBad) in {-1, 1, 2, 3, 4}
    ensures BestPosition(badnesses, maxBad) == -1 <==> forall i :: 0 <= i < 4 ==> badnesses[i] > maxBad
    ensures var code := BestPosition(badnesses, maxBad);
      code != -1 ==>
        badnesses[code - 1] <= maxBad
        && (forall i :: 0 <= i < 4 ==> badnesses[code - 1] <= badnesses[i])
        && (forall i :: 0 <= i < code - 1 ==> badnesses[i] > badnesses[code - 1])
  {
    var m := MinOf(badnesses);
    if m <= maxBad {
      var k := IndexOf(badnesses, m);
      assert Corners[k] == k + 1;
    }
  }

  /**
   * `find_best_position(legend, max_bad)`: fill the badness of each corner
   * in turn, then pick as `BestPosition` does, so that `BestPositionSpec`
   * describes its answer.
   */
  method FindBestPosition(badness: int -> nat, maxBad: int) returns (code: int)
    ensures code == BestPosition([badness(1), badness(2), badness(3), badness(4)], maxBad)
  {
    var badnesses: seq<nat> := [0, 0, 0, 0];
    var locs := Corners;
    var idx := 0;
    while idx < 4
      invariant 0 <= idx <= 4 && |badnesses| == 4
      invariant forall i :: 0 <= i < idx ==> badnesses[i] == badness(locs[i])
    {
      badnesses := badnesses[idx := badness(locs[idx])];
      idx := idx + 1;
    }
    assert badnesses == [badness(1), badness(2), badness(3), badness(4)];
    var m := MinOf(badnesses);
    if m > maxBad {
      code := -1;
    } else {
      code := locs[IndexOf(badnesses, m)];
    }
    assert code == BestPosition(badnesses, maxBad);
  }

  /** A `loc` argument: a location name, or a code passed on to matplotlib. */
  datatype Loc = Name(name: string) | Code(code: int)

  /** A legend's placement: where matplotlib is told to put it, and its anchor if any. */
  datatype Placement = Placement(loc: Loc, anchor: Option<(int, int)>)

  /** The KeyError raised for a name outside the table. */
  datatype LocateError = UnknownLocation(name: string)

  /** The location-name table of `locate`. */
  function LocationCode(name: string): (r: Result<int, LocateError>)
  {
    match name
    case "upper left" => Ok(1)
    case "upper right" => Ok(2)
    case "lower left" => Ok(3)
    case "lower right" => Ok(4)
    case "outside right" => Ok(-1)
    case "outside bottom" => Ok(-2)
    case _ => Err(UnknownLocation(name))
  }

  /** The names the table knows. */
  const LocationNames: set<string> :=
    {"upper left", "upper right", "lower left", "lower right", "outside right", "outside bottom"}

  /**
   * The table is one-to-one onto {1, 2, 3, 4, -1, -2}, and raises KeyError
   * exactly for a name it does not hold.
   */
  lemma LocationCodeSpec(name: string)
    ensures LocationCode(name).Err? <==> name !in LocationNames
    ensures LocationCode(name).Err? ==> LocationCode(name).error == UnknownLocation(name)
    ensures LocationCode(name).Ok? ==> LocationCode(name).value in {1, 2, 3, 4, -1, -2}
    ensures forall other ::
      (LocationCode(other).Ok? && LocationCode(name).Ok? && other != name)
      ==> LocationCode(other).value != LocationCode(name).value
  {
  }

  /**
   * The placement `locate` gives a code: -1 puts the legend's upper left
   * corner at (1, 1), right of the axes; -2 puts it at (0, 0), below them;
   * any other code goes to matplotlib unchanged.
   */
  function PlaceCode(code: int): (p: Placement)
    ensures code == -1 ==> p == Placement(Name("upper left"), Some((1, 1)))
    ensures code == -2 ==> p == Placement(Name("upper left"), Some((0, 0)))
    ensures code != -1 && code != -2 ==> p == Placement(Code(code), None)
  {
    if code == -1 then Placement(Name("upper left"), Some((1, 1)))
    else if code == -2 then Placement(Name("upper left"), Some((0, 0)))
    else Placement(Code(code), None)
  }

  /** `locate(loc)` for a given `loc`: a name goes through the table first. */
  function LocateOutcome(loc: Loc): Result<Placement, LocateError>
  {
    match loc
    case Name(s) =>
      (match LocationCode(s)
       case Ok(c) => Ok(PlaceCode(c))
       case Err(e) => Err(e))
    case Code(c) => Ok(PlaceCode(c))
  }

  /**
   * A name in the table places the legend as its code does; the two
   * "outside" names are the only ones that anchor it.
   */
  lemma LocateNameSpec(name: string)
    requires name in LocationNames
    ensures LocateOutcome(Name(name)).Ok?
    ensures LocateOutcome(Name(name)).value == PlaceCode(LocationCode(name).value)
    ensures LocateOutcome(Name(name)).value.anchor.Some? <==> name in {"outside right", "outside bottom"}
  {
  }

  /** A colour component: a number or anything else (a name, say). */
  datatype Item = Num(x: real) | Word(s: string)

  /** A handle's colour, by its Python type. */
  datatype Color =
    | Str(s: string)
    | ListOf(items: seq<Item>)
    | ArrayOf(items: seq<Item>)
    | TupleOf(items: seq<Item>)

  /** What the `colors` getter reports for one handle: the colour itself, or its first item. */
  datatype Shown = Whole(c: Color) | First(item: Item)

  /** The getter's failures: `c[0]` of an empty list or array, and a non-numeric array. */
  datatype ColorError = EmptyColor | UnsupportedArray

  /** A legend handle: its marker size and its colour. */
  datatype Handle = Handle(markersize: real, color: Color)

  /** What the getter does with one handle's colour: report something, skip it, or fail. */
  function ShownColor(c: Color): Result<Option<Shown>, ColorError>
  {
    match c
    case Str(_) => Ok(Some(Whole(c)))
    case TupleOf(_) => Ok(None)
    case ListOf(items) =>
      if |items| == 0 then Err(EmptyColor)
      else if items[0].Num? then Ok(Some(Whole(c)))
      else Ok(Some(First(items[0])))
    case ArrayOf(items) =>
      if |items| == 0 then Err(EmptyColor)
      else if items[0].Num? then Ok(Some(Whole(c)))
      else Err(UnsupportedArray)
  }

  /** The `colors` getter over a list of handles: the first failure, or what each reports in order. */
  function ShownColors(hs: seq<Handle>): Result<seq<Shown>, ColorError>
  {
    if hs == [] then Ok([])
    else
      match ShownColor(hs[0].color)
      case Err(e) => Err(e)
      case Ok(o) =>
        match ShownColors(hs[1..])
        case Err(e) => Err(e)
        case Ok(rest) => Ok((if o.Some? then [o.value] else []) + rest)
  }

  /** How many handles the getter reports: every one whose colour is not a tuple. */
  function Reported(hs: seq<Handle>): nat
  {
    if hs == [] then 0 else (if hs[0].color.TupleOf? then 0 else 1) + Reported(hs[1..])
  }

  /**
   * The getter fails exactly when some handle's colour fails; otherwise it
   * reports one entry per non-tuple handle, and a string colour is reported
   * as itself.
   */
  lemma {:induction false} ShownColorsSpec(hs: seq<Handle>)
    ensures ShownColors(hs).Err? <==> exists i :: 0 <= i < |hs| && ShownColor(hs[i].color).Err?
    ensures ShownColors(hs).Ok? ==> |ShownColors(hs).value| == Reported(hs)
    ensures ShownColors(hs).Ok? && (forall i :: 0 <= i < |hs| ==> hs[i].color.Str?)
      ==> ShownColors(hs).value == seq(|hs|, i requires 0 <= i < |hs| => Whole(hs[i].color))
  {
    if hs != [] {
      ShownColorsSpec(hs[1..]);
      assert forall i :: 1 <= i < |hs| ==> hs[1..][i - 1] == hs[i];
      if ShownColor(hs[0].color).Ok? && ShownColors(hs[1..]).Err? {
        var i :| 0 <= i < |hs[1..]| && ShownColor(hs[1..][i].color).Err?;
        assert ShownColor(hs[i + 1].color).Err?;
      }
    }
  }

  /** An `ms` value: a number, a tuple or list of numbers, or anything else. */
  datatype Size = Scalar(x: real) | Sizes(xs: seq<real>) | OtherSize

  /** The ValueError of the `ms` setter: a list whose length is not the handle count. */
  datatype SizeError = LengthMismatch(given: nat, handles: nat)

  /**
   * The `ms` setter as written: the arguments it passes to each handle's
   * `set_markersize`, in order. In the list branch every handle is passed
   * the whole list.
   */
  function MsCallsAsWritten(handles: nat, size: Size): (r: Result<seq<Size>, SizeError>)
  {
    match size
    case Scalar(x) => Ok(seq(handles, _ => Scalar(x)))
    case Sizes(xs) =>
      if |xs| != handles then Err(LengthMismatch(|xs|, handles))
      else Ok(seq(handles, _ => size))
    case OtherSize => Ok([])
  }

  /**
   * With two handles and `ms = [1.0, 2.0]`, the first handle is passed the
   * list [1.0, 2.0] rather than 1.0: the length check admits the list, but
   * its entries never reach the handles one by one.
   */
  lemma MsListIsNotSpread()
    ensures MsCallsAsWritten(2, Sizes([1.0, 2.0])) == Ok([Sizes([1.0, 2.0]), Sizes([1.0, 2.0])])
    ensures MsCallsAsWritten(2, Sizes([1.0, 2.0])).value[0] != Scalar(1.0)
  {
    var calls := MsCallsAsWritten(2, Sizes([1.0, 2.0])).value;
    assert |calls| == 2 && calls[0] == Sizes([1.0, 2.0]) && calls[1] == Sizes([1.0, 2.0]);
    assert calls == [Sizes([1.0, 2.0]), Sizes([1.0, 2.0])];
  }

  /**
   * The `ms` setter as intended: a number sizes every handle, a list of the
   * right length gives handle `i` the `i`-th size, a list of another length
   * raises ValueError, and anything else changes nothing.
   */
  function SetSizes(hs: seq<Handle>, size: Size): Result<seq<Handle>, SizeError>
  {
    match size
    case Scalar(x) => Ok(seq(|hs|, i requires 0 <= i < |hs| => hs[i].(markersize := x)))
    case Sizes(xs) =>
      if |xs| != |hs| then Err(LengthMismatch(|xs|, |hs|))
      else Ok(seq(|hs|, i requires 0 <= i < |hs| => hs[i].(markersize := xs[i])))
    case OtherSize => Ok(hs)
  }

  /** The `ms` getter: each handle's marker size. */
  function MarkerSizes(hs: seq<Handle>): (r: seq<real>)
    ensures |r| == |hs| && forall i :: 0 <= i < |hs| ==> r[i] == hs[i].markersize
  {
    if hs == [] then [] else [hs[0].markersize] + MarkerSizes(hs[1..])
  }

  /**
   * The setter fails exactly on a list of the wrong length; otherwise the
   * getter reads back what was set (the scalar for every handle, or the
   * list itself), and the handles' colours are untouched.
   */
  lemma SetSizesRoundTrip(hs: seq<Handle>, size: Size)
    ensures SetSizes(hs, size).Err? <==> size.Sizes? && |size.xs| != |hs|
    ensures SetSizes(hs, size).Ok? ==>
      var hs' := SetSizes(hs, size).value;
      |hs'| == |hs|
      && (forall i :: 0 <= i < |hs| ==> hs'[i].color == hs[i].color)
      && (size.Scalar? ==> MarkerSizes(hs') == seq(|hs|, _ => size.x))
      && (size.Sizes? ==> MarkerSizes(hs') == size.xs)
      && (size.OtherSize? ==> hs' == hs)
  {
    if SetSizes(hs, size).Ok? {
      var hs' := SetSizes(hs, size).value;
      if size.Scalar? {
        assert MarkerSizes(hs') == seq(|hs|, _ => size.x);
      } else if size.Sizes? {
        assert MarkerSizes(hs') == size.xs;
      }
    }
  }

  /** The colours the setter leaves: the first `|cs|` handles recoloured, at most all of them. */
  function Recolored(hs: seq<Handle>, cs: seq<Color>): (r: seq<Handle>)
    ensures |r| == |hs|
    ensures forall i :: 0 <= i < |hs| ==> r[i].markersize == hs[i].markersize
    ensures forall i :: 0 <= i < |hs| ==> r[i].color == (if i < |cs| then cs[i] else hs[i].color)
  {
    seq(|hs|, i requires 0 <= i < |hs| => if i < |cs| then hs[i].(color := cs[i]) else hs[i])
  }

  /** The IndexError of the `colors` setter: fewer colours than handles. */
  datatype IndexError = TooFewColors(given: nat, handles: nat)

  /**
   * A legend over a list of handles, with the placement `locate` last
   * gave it.
   */
  class Legend {
    var handles: seq<Handle>
    var placement: Placement

    /**
     * `Legend(loc)`: a given `loc` is handed to matplotlib as it is;
     * without one the legend is located by badness.
     */
    constructor (handles: seq<Handle>, loc: Option<Loc>, badness: int -> nat)
      ensures this.handles == handles
      ensures loc.Some? ==> placement == Placement(loc.value, None)
      ensures loc.None? ==> placement == PlaceCode(BestPosition([badness(1), badness(2), badness(3), badness(4)], DefaultMaxBad))
    {
      this.handles := handles;
      if loc.Some? {
        placement := Placement(loc.value, None);
      } else {
        var code := FindBestPosition(badness, DefaultMaxBad);
        placement := PlaceCode(code);
      }
    }

    /**
     * `locate(loc)`: resolve a missing `loc` by badness and a name by the
     * table, then recreate the legend over the same handles with the
     * resulting placement. An unknown name raises KeyError before the legend
     * is touched.
     */
    method Locate(loc: Option<Loc>, badness: int -> nat) returns (err: Option<LocateError>)
      modifies this
      ensures handles == old(handles)
      ensures loc.Some? ==> match LocateOutcome(loc.value)
        case Ok(p) => err == None && placement == p
        case Err(e) => err == Some(e) && placement == old(placement)
      ensures loc.None? ==> (err == None
        && placement == PlaceCode(BestPosition([badness(1), badness(2), badness(3), badness(4)], DefaultMaxBad)))
    {
      var l: Loc;
      if loc.None? {
        var code := FindBestPosition(badness, DefaultMaxBad);
        l := Code(code);
      } else {
        l := loc.value;
      }
      var code: int;
      if l.Name? {
        var looked := LocationCode(l.name);
        if looked.Err? {
          return Some(looked.error);
        }
        code := looked.value;
      } else {
        code := l.code;
      }
      if code == -1 {
        placement := Placement(Name("upper left"), Some((1, 1)));
      } else if code == -2 {
        placement := Placement(Name("upper left"), Some((0, 0)));
      } else {
        placement := Placement(Code(code), None);
      }
      err := None;
    }

    /** The `ms` getter. */
    method Ms() returns (sizes: seq<real>)
      ensures sizes == MarkerSizes(handles)
    {
      sizes := [];
      var i := 0;
      while i < |handles|
        invariant 0 <= i <= |handles|
        invariant sizes == MarkerSizes(handles[..i])
      {
        MarkerSizesAppend(handles[..i], handles[i]);
        assert handles[..i + 1] == handles[..i] + [handles[i]];
        sizes := sizes + [handles[i].markersize];
        i := i + 1;
      }
      assert handles[..i] == handles;
    }

    /**
     * The `ms` setter with each list entry going to its own handle: the
     * handles become `SetSizes` of the old ones, or stay as they were on
     * ValueError.
     */
    method SetMs(size: Size) returns (err: Option<SizeError>)
      modifies this
      ensures placement == old(placement)
      ensures match SetSizes(old(handles), size)
        case Ok(hs) => err == None && handles == hs
        case Err(e) => err == Some(e) && handles == old(handles)
    {
      if size.Sizes? && |size.xs| != |handles| {
        return Some(LengthMismatch(|size.xs|, |handles|));
      }
      if size.OtherSize? {
        return None;
      }
      var i := 0;
      while i < |handles|
        invariant 0 <= i <= |handles| == |old(handles)|
        invariant placement == old(placement)
        invariant forall k :: i <= k < |handles| ==> handles[k] == old(handles)[k]
        invariant forall k :: 0 <= k < i ==> handles[k] == old(handles)[k].(markersize := if size.Scalar? then size.x else size.xs[k])
      {
        var x := if size.Scalar? then size.x else size.xs[i];
        handles := handles[i := handles[i].(markersize := x)];
        i := i + 1;
      }
      err := None;
    }

    /** The `colors` getter: walk the handles, reporting each colour or failing. */
    method Colors() returns (r: Result<seq<Shown>, ColorError>)
      ensures r == ShownColors(handles)
    {
      var cs: seq<Shown> := [];
      var i := 0;
      assert handles[0..] == handles;
      PrefixedAppend([], [], ShownColors(handles));
      while i < |handles|
        invariant 0 <= i <= |handles|
        invariant ShownColors(handles) == Prefixed(cs, ShownColors(handles[i..]))
      {
        ShownColorsStep(handles, i);
        var c := ShownColor(handles[i].color);
        if c.Err? {
          return Err(c.error);
        }
        var shown := if c.value.Some? then [c.value.value] else [];
        PrefixedAppend(cs, shown, ShownColors(handles[i + 1..]));
        cs := cs + shown;
        i := i + 1;
      }
      assert handles[i..] == [];
      assert ShownColors(handles[i..]) == Ok([]);
      assert cs + [] == cs;
      return Ok(cs);
    }

    /**
     * The `colors` setter: handle `i` takes `cs[i]` for each handle in turn;
     * with fewer colours than handles it raises IndexError, keeping the
     * colours already set.
     */
    method SetColors(cs: seq<Color>) returns (err: Option<IndexError>)
      modifies this
      ensures placement == old(placement)
      ensures handles == Recolored(old(handles), cs)
      ensures err.Some? <==> |cs| < |handles|
      ensures err.Some? ==> err.value == TooFewColors(|cs|, |handles|)
    {
      var i := 0;
      while i < |handles|
        invariant 0 <= i <= |handles| == |old(handles)|
        invariant i <= |cs|
        invariant placement == old(placement)
        invariant handles == Recolored(old(handles), cs[..i])
      {
        if i >= |cs| {
          assert cs[..i] == cs;
          return Some(TooFewColors(|cs|, |handles|));
        }
        handles := handles[i := handles[i].(color := cs[i])];
        i := i + 1;
        assert forall k :: 0 <= k < |handles| ==> handles[k] == Recolored(old(handles), cs[..i])[k];
      }
      assert Recolored(old(handles), cs[..i]) == Recolored(old(handles), cs);
      err := None;
    }
  }

  /** Prepend what the getter already collected to the rest of its outcome. */
  function Prefixed(done: seq<Shown>, rest: Result<seq<Shown>, ColorError>): Result<seq<Shown>, ColorError>
  {
    match rest
    case Ok(more) => Ok(done + more)
    case Err(e) => Err(e)
  }

  /** Collecting `a` and then `b` in front of an outcome is collecting `a + b`. */
  lemma PrefixedAppend(a: seq<Shown>, b: seq<Shown>, r: Result<seq<Shown>, ColorError>)
    ensures Prefixed(a, Prefixed(b, r)) == Prefixed(a + b, r)
    ensures Prefixed([], r) == r
  {
    if r.Ok? {
      assert a + (b + r.value) == (a + b) + r.value;
      assert [] + r.value == r.value;
    }
  }

  /** The getter's outcome from handle `i` on, one handle unfolded. */
  lemma ShownColorsStep(hs: seq<Handle>, i: nat)
    requires i < |hs|
    ensures ShownColors(hs[i..]) ==
      match ShownColor(hs[i].color)
      case Err(e) => Err(e)
      case Ok(o) => Prefixed(if o.Some? then [o.value] else [], ShownColors(hs[i + 1..]))
  {
    assert hs[i..][1..] == hs[i + 1..];
  }

  /** The getter over one more handle adds that handle's size at the end. */
  lemma MarkerSizesAppend(hs: seq<Handle>, h: Handle)
    ensures MarkerSizes(hs + [h]) == MarkerSizes(hs) + [h.markersize]
  {
  }
}
