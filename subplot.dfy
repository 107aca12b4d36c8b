/**
 * One subplot of the layout (arya/figure/subplot.py): a size, a four-sided
 * padding ordered (left, bottom, right, top), and the axes' limits and
 * labels, which the source keeps on its matplotlib axes and the model keeps
 * as fields. `set` applies keyword settings one at a time.
 */
module Subplots {
  import opened Wrappers

  /** FIG_SIZE in arya/style/style.py: the default subplot size, in inches. */
  const FigSize: (real, real) := (10.0 / 3.0, 10.0 / 4.0)

  /** The padding every new subplot starts with, on each side. */
  const DefaultPad: real := 0.1

  /** Positions in `padding`. */
  const Left: nat := 0
  const Bottom: nat := 1
  const Right: nat := 2
  const Top: nat := 3

  /** A keyword argument's value, by the kind of attribute it is meant for. */
  datatype Value =
    | Number(x: real)               // width, height
    | Limits(lo: real, hi: real)    // xlim, ylim
    | Text(s: string)               // xlabel, ylabel
    | Sides(sides: seq<real>)       // padding
    | Opaque                        // a value for an attribute outside the model

  /** One `key=value` keyword argument of `set`. */
  datatype Setting = Setting(key: string, value: Value)

  /** The AttributeError `set` raises, naming the key. */
  datatype SetError =
    | UnknownAttribute(key: string)   // hasattr is false
    | ReadOnlyAttribute(key: string)  // a property without a setter

  /** The subplot's state that `set` can change. */
  datatype Attrs = Attrs(
    width: real, height: real, padding: seq<real>,
    xlim: (real, real), ylim: (real, real), xlabel: string, ylabel: string)

  /** Attributes `set` assigns and the model tracks. */
  const Settable: set<string> := {"width", "height", "padding", "xlim", "ylim", "xlabel", "ylabel"}

  /** The read-only properties: hasattr holds, but setattr raises. */
  const ReadOnly: set<string> := {"total_width", "total_height"}

  /** Attributes that exist and can be assigned but hold nothing the model tracks. */
  const Untracked: set<string> := {"layout", "mpl_ax", "set"}

  /** A tracked attribute receives a value of its own kind; padding has four sides. */
  predicate WellTyped(s: Setting)
  {
    match s.key
    case "width" => s.value.Number?
    case "height" => s.value.Number?
    case "padding" => s.value.Sides? && |s.value.sides| == 4
    case "xlim" => s.value.Limits?
    case "ylim" => s.value.Limits?
    case "xlabel" => s.value.Text?
    case "ylabel" => s.value.Text?
    case _ => true
  }

  /** `setattr` for one tracked key. */
  function Assign(a: Attrs, s: Setting): Attrs
    requires WellTyped(s)
  {
    match s.key
    case "width" => a.(width := s.value.x)
    case "height" => a.(height := s.value.x)
    case "padding" => a.(padding := s.value.sides)
    case "xlim" => a.(xlim := (s.value.lo, s.value.hi))
    case "ylim" => a.(ylim := (s.value.lo, s.value.hi))
    case "xlabel" => a.(xlabel := s.value.s)
    case "ylabel" => a.(ylabel := s.value.s)
    case _ => a
  }

  /**
   * What `set(**kwargs)` leaves behind: the attributes after applying the
   * keys in order, and the error raised at the first key that cannot be
   * assigned (the keys before it stay applied).
   */
  function SetOutcome(a: Attrs, kwargs: seq<Setting>): (Attrs, Option<SetError>)
    requires forall i :: 0 <= i < |kwargs| ==> WellTyped(kwargs[i])
    decreases |kwargs|
  {
    if kwargs == [] then (a, None)
    else
      var key := kwargs[0].key;
      if key in Settable then SetOutcome(Assign(a, kwargs[0]), kwargs[1..])
      else if key in Untracked then SetOutcome(a, kwargs[1..])
      else if key in ReadOnly then (a, Some(ReadOnlyAttribute(key)))
      else (a, Some(UnknownAttribute(key)))
  }

  /** Whether `set` can assign `key` at all. */
  predicate Assignable(key: string)
  {
    key in Settable || key in Untracked
  }

  /** The value of one tracked attribute. */
  function Field(a: Attrs, key: string): Value
  {
    match key
    case "width" => Number(a.width)
    case "height" => Number(a.height)
    case "padding" => Sides(a.padding)
    case "xlim" => Limits(a.xlim.0, a.xlim.1)
    case "ylim" => Limits(a.ylim.0, a.ylim.1)
    case "xlabel" => Text(a.xlabel)
    case "ylabel" => Text(a.ylabel)
    case _ => Opaque
  }

  /** `set` raises nothing exactly when it can assign every key it is given. */
  lemma {:induction false} SetRaisesIffBadKey(a: Attrs, kwargs: seq<Setting>)
    requires forall i :: 0 <= i < |kwargs| ==> WellTyped(kwargs[i])
    decreases |kwargs|
    ensures SetOutcome(a, kwargs).1.None? <==> forall i :: 0 <= i < |kwargs| ==> Assignable(kwargs[i].key)
  {
    if kwargs != [] {
      var key := kwargs[0].key;
      var rest := kwargs[1..];
      if key in Settable || key in Untracked {
        var a' := if key in Settable then Assign(a, kwargs[0]) else a;
        SetRaisesIffBadKey(a', rest);
        assert forall i :: 1 <= i < |kwargs| ==> kwargs[i] == rest[i - 1];
      }
    }
  }

  /**
   * When `set` raises, it raises at the first key it cannot assign, naming
   * it, and the state it leaves is that of applying the keys before it.
   */
  lemma {:induction false} SetStopsAtFirstBadKey(a: Attrs, kwargs: seq<Setting>)
    requires forall i :: 0 <= i < |kwargs| ==> WellTyped(kwargs[i])
    decreases |kwargs|
    ensures SetOutcome(a, kwargs).1.Some? ==>
      exists i :: 0 <= i < |kwargs| && !Assignable(kwargs[i].key)
        && SetOutcome(a, kwargs).1.value.key == kwargs[i].key
        && (forall j :: 0 <= j < i ==> Assignable(kwargs[j].key))
        && SetOutcome(a, kwargs).0 == SetOutcome(a, kwargs[..i]).0
  {
    if kwargs != [] {
      var key := kwargs[0].key;
      var rest := kwargs[1..];
      if key in Settable || key in Untracked {
        var a' := if key in Settable then Assign(a, kwargs[0]) else a;
        assert SetOutcome(a, kwargs) == SetOutcome(a', rest);
        SetStopsAtFirstBadKey(a', rest);
        if SetOutcome(a', rest).1.Some? {
          var i :| 0 <= i < |rest| && !Assignable(rest[i].key)
            && SetOutcome(a', rest).1.value.key == rest[i].key
            && (forall j :: 0 <= j < i ==> Assignable(rest[j].key))
            && SetOutcome(a', rest).0 == SetOutcome(a', rest[..i]).0;
          var prefix := kwargs[..i + 1];
          assert prefix[0] == kwargs[0] && prefix[1..] == rest[..i];
          assert SetOutcome(a, prefix) == SetOutcome(a', rest[..i]);
          assert kwargs[i + 1] == rest[i];
          assert forall j :: 1 <= j < i + 1 ==> kwargs[j] == rest[j - 1];
        }
      } else {
        assert kwargs[..0] == [];
      }
    }
  }

  /** `set` changes only the attributes it names. */
  lemma {:induction false} SetChangesOnlyNamed(a: Attrs, kwargs: seq<Setting>, key: string)
    requires forall i :: 0 <= i < |kwargs| ==> WellTyped(kwargs[i])
    requires forall i :: 0 <= i < |kwargs| ==> kwargs[i].key != key
    decreases |kwargs|
    ensures Field(SetOutcome(a, kwargs).0, key) == Field(a, key)
  {
    if kwargs != [] && kwargs[0].key in Settable {
      SetChangesOnlyNamed(Assign(a, kwargs[0]), kwargs[1..], key);
    } else if kwargs != [] && kwargs[0].key in Untracked {
      SetChangesOnlyNamed(a, kwargs[1..], key);
    }
  }

  /** A tracked key set once, with every key valid, ends up holding its value. */
  lemma {:induction false} SetStoresValue(a: Attrs, kwargs: seq<Setting>, i: nat)
    requires forall j :: 0 <= j < |kwargs| ==> WellTyped(kwargs[j]) && Assignable(kwargs[j].key)
    requires i < |kwargs| && kwargs[i].key in Settable
    requires forall j :: 0 <= j < |kwargs| && j != i ==> kwargs[j].key != kwargs[i].key
    decreases |kwargs|
    ensures Field(SetOutcome(a, kwargs).0, kwargs[i].key) == kwargs[i].value
  {
    var rest := kwargs[1..];
    var a' := if kwargs[0].key in Settable then Assign(a, kwargs[0]) else a;
    if i == 0 {
      SetChangesOnlyNamed(a', rest, kwargs[0].key);
    } else {
      SetStoresValue(a', rest, i - 1);
    }
  }

  class Subplot {
    var width: real
    var height: real
    var padding: seq<real>
    var xlim: (real, real)
    var ylim: (real, real)
    var xlabel: string
    var ylabel: string

    ghost predicate Valid()
      reads this
    {
      |padding| == 4
    }

    function Snapshot(): Attrs
      reads this
    {
      Attrs(width, height, padding, xlim, ylim, xlabel, ylabel)
    }

    /**
     * A subplot of the given size with 0.1 of padding on every side (the
     * axes start with matplotlib's default limits and empty labels).
     */
    constructor (size: (real, real))
      ensures Valid()
      ensures width == size.0 && height == size.1
      ensures padding == [DefaultPad, DefaultPad, DefaultPad, DefaultPad]
    {
      width := size.0;
      height := size.1;
      padding := [DefaultPad, DefaultPad, DefaultPad, DefaultPad];
      xlim, ylim := (0.0, 1.0), (0.0, 1.0);
      xlabel, ylabel := "", "";
    }

    /** `total_width`: the width padded on the left and on the right. */
    function TotalWidth(): (r: real)
      reads this
      requires Valid()
      ensures r == width + padding[Left] + padding[Right]
    {
      width + padding[0] + padding[2]
    }

    /** `total_height`: the height padded at the bottom and at the top. */
    function TotalHeight(): (r: real)
      reads this
      requires Valid()
      ensures r == height + padding[Bottom] + padding[Top]
    {
      height + padding[1] + padding[3]
    }

    /**
     * `set(**kwargs)`: assign the keys in order; at the first key that
     * cannot be assigned raise AttributeError naming it, keeping what was
     * assigned before.
     */
    method Set(kwargs: seq<Setting>) returns (err: Option<SetError>)
      requires Valid()
      requires forall i :: 0 <= i < |kwargs| ==> WellTyped(kwargs[i])
      modifies this
      ensures Valid()
      ensures (Snapshot(), err) == SetOutcome(old(Snapshot()), kwargs)
    {
      var i := 0;
      while i < |kwargs|
        invariant 0 <= i <= |kwargs|
        invariant Valid()
        invariant SetOutcome(old(Snapshot()), kwargs) == SetOutcome(Snapshot(), kwargs[i..])
      {
        var key, value := kwargs[i].key, kwargs[i].value;
        if key in Settable {
          if key == "width" {
            width := value.x;
          } else if key == "height" {
            height := value.x;
          } else if key == "padding" {
            padding := value.sides;
          } else if key == "xlim" {
            xlim := (value.lo, value.hi);
          } else if key == "ylim" {
            ylim := (value.lo, value.hi);
          } else if key == "xlabel" {
            xlabel := value.s;
          } else {
            ylabel := value.s;
          }
        } else if key in ReadOnly {
          return Some(ReadOnlyAttribute(key));
        } else if key !in Untracked {
          return Some(UnknownAttribute(key));
        }
        i := i + 1;
      }
      err := None;
    }
  }
}
