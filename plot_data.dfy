/**
 * The data holder of arya/plotting/_plot_data.py: the constructor projects
 * the caller's columns onto the roles x, y, hue, size and style, remembering
 * which column each role came from.
 *
 * A data frame is a map from column name to column; every column of one
 * frame has the same length.
 */
module PlotDatas {
  import opened Wrappers

  /** A data frame: column name to column. */
  type Frame = map<string, seq<real>>

  /** The KeyError raised for a column the frame lacks. */
  datatype KeyError = KeyError(key: string)

  /** The projected frame (`_data`) and each role's source column name (`_vars`). */
  datatype PlotData = PlotData(data: Frame, vars: map<string, string>)

  /** The roles, in the order the constructor visits them. */
  const Roles: seq<string> := ["x", "y", "hue", "size", "style"]

  /** The constructor's arguments x, y, hue, size and style, in the order of `Roles`. */
  function RoleArgs(x: Option<string>, y: Option<string>, hue: Option<string>, size: Option<string>, style: Option<string>)
    : (args: seq<Option<string>>)
    ensures |args| == |Roles|
  {
    [x, y, hue, size, style]
  }

  /** Argument `k` names a column the frame lacks. */
  predicate Missing(frame: Frame, args: seq<Option<string>>, k: nat)
    requires k < |args|
  {
    args[k].Some? && args[k].value !in frame
  }

  /** No role is listed twice. */
  lemma RolesDistinct()
    ensures forall i, j :: 0 <= i < j < |Roles| ==> Roles[i] != Roles[j]
  {
    assert Roles[0][0] == 'x' && Roles[1][0] == 'y' && Roles[2][0] == 'h' && Roles[3][0] == 's' && Roles[4][0] == 's';
    assert |Roles[3]| != |Roles[4]|;
  }

  /**
   * Role `k` is as the constructor leaves it: recorded exactly when its
   * argument is given, and then holding the column that argument names.
   */
  predicate RoleProjected(frame: Frame, args: seq<Option<string>>, data: Frame, vars: map<string, string>, k: nat)
    requires k < |Roles| && |args| == |Roles|
  {
    (Roles[k] in vars <==> args[k].Some?)
    && (args[k].Some? ==>
      vars[Roles[k]] == args[k].value && args[k].value in frame && Roles[k] in data && data[Roles[k]] == frame[args[k].value])
  }

  /**
   * `PlotData(data, x, y, hue, size, style)`: visit the roles in order,
   * skip those whose argument is None, and copy each other role's column
   * into `_data`, recording its name in `_vars`. The first named column the
   * frame lacks raises KeyError. The result of `dropna` is discarded, so
   * every column keeps all its rows.
   */
  method NewPlotData(frame: Frame, x: Option<string>, y: Option<string>, hue: Option<string>,
                     size: Option<string>, style: Option<string>) returns (r: Result<PlotData, KeyError>)
    ensures var args := RoleArgs(x, y, hue, size, style);
      r.Err? <==> exists k :: 0 <= k < |args| && Missing(frame, args, k)
    ensures var args := RoleArgs(x, y, hue, size, style);
      r.Err? ==> exists k :: (0 <= k < |args| && Missing(frame, args, k)
        && r.error == KeyError(args[k].value) && forall j :: 0 <= j < k ==> !Missing(frame, args, j))
    ensures var args := RoleArgs(x, y, hue, size, style);
      r.Ok? ==>
        r.value.data.Keys == r.value.vars.Keys && r.value.vars.Keys <= (set k | 0 <= k < |Roles| :: Roles[k])
        && forall k :: 0 <= k < |Roles| ==> RoleProjected(frame, args, r.value.data, r.value.vars, k)
  {
    RolesDistinct();
    var args := RoleArgs(x, y, hue, size, style);
    var data: Frame := map[];
    var vars: map<string, string> := map[];
    var i := 0;
    while i < |Roles|
      invariant 0 <= i <= |Roles|
      invariant forall j :: 0 <= j < i ==> !Missing(frame, args, j)
      invariant data.Keys == vars.Keys && vars.Keys <= (set k | 0 <= k < i :: Roles[k])
      invariant forall k :: 0 <= k < i ==> RoleProjected(frame, args, data, vars, k)
    {
      var arg, role := args[i], Roles[i];
      if arg.Some? {
        if arg.value !in frame {
          assert Missing(frame, args, i);
          return Err(KeyError(arg.value));
        }
        ghost var data0, vars0 := data, vars;
        data := data[role := frame[arg.value]];
        vars := vars[role := arg.value];
        forall k | 0 <= k < i
          ensures RoleProjected(frame, args, data, vars, k)
        {
          assert RoleProjected(frame, args, data0, vars0, k) && Roles[k] != role;
        }
      } else {
        assert role !in vars;
      }
      i := i + 1;
    }
    return Ok(PlotData(data, vars));
  }

  /** `pd[key]`: the projected column under `key`, or KeyError. */
  function Get(pd: PlotData, key: string): (r: Result<seq<real>, KeyError>)
    ensures r.Ok? <==> key in pd.data
    ensures r.Ok? ==> r.value == pd.data[key]
    ensures r.Err? ==> r.error == KeyError(key)
  {
    if key in pd.data then Ok(pd.data[key]) else Err(KeyError(key))
  }

  /** The roles among hue, style and size that a projection holds: `group_cols`. */
  function GroupCols(pd: PlotData): (cols: set<string>)
    ensures forall c :: c in cols <==> c in {"hue", "style", "size"} && c in pd.vars
  {
    {"hue", "style", "size"} * pd.vars.Keys
  }
}
