/**
  The picker's data and the selection map: columns of options, the
  resolution of initial values to option indices, the maps the mount effect
  builds, and the commit that replaces one column's entry of the selection.
 */
module PickerSelection {

  import opened PickerGeometry

  datatype Option<T> = None | Some(value: T)

  /** An option value is a number or a string; equality is JavaScript's strict equality. */
  datatype Value = Num(n: real) | Str(s: string)

  /** An option: the text shown for it (its `label` in the source) and its value. */
  datatype PickerOption = PickerOption(text: string, value: Value)

  /** A column: its name (its `label` in the source, the key of every per-column map) and its options. */
  datatype PickerColumnData = PickerColumnData(name: string, options: seq<PickerOption>)

  /** Column labels are unique (they are the keys of every per-column map). */
  predicate DistinctLabels(data: seq<PickerColumnData>)
  {
    forall i, j :: 0 <= i < j < |data| ==> data[i].name != data[j].name
  }

  /** No two options of a column carry the same value. */
  predicate DistinctValues(options: seq<PickerOption>)
  {
    forall i, j :: 0 <= i < j < |options| ==> options[i].value != options[j].value
  }

  /** Array.prototype.findIndex with a strict-equality test on the option value: the first match, or -1. */
  function FindIndex(options: seq<PickerOption>, target: Value): (k: int)
    ensures -1 <= k < |options|
    ensures k == -1 <==> forall i :: 0 <= i < |options| ==> options[i].value != target
    ensures k >= 0 ==> options[k].value == target
    ensures k >= 0 ==> forall i :: 0 <= i < k ==> options[i].value != target
  {
    if options == [] then -1
    else if options[0].value == target then 0
    else
      var r := FindIndex(options[1..], target);
      if r == -1 then -1 else r + 1
  }

  /**
    The index of the option whose value is initialValues[name]; -1 when the
    column has no initial value (undefined matches no option) or no option matches.
   */
  function MatchIndex(options: seq<PickerOption>, name: string, initialValues: map<string, Value>): (k: int)
    ensures -1 <= k < |options|
    ensures k == -1 <==> name !in initialValues
                         || forall i :: 0 <= i < |options| ==> options[i].value != initialValues[name]
    ensures k >= 0 ==> name in initialValues && options[k].value == initialValues[name]
                       && forall i :: 0 <= i < k ==> options[i].value != initialValues[name]
  {
    if name in initialValues then FindIndex(options, initialValues[name]) else -1
  }

  /** The option index a column starts at: the matching option, else the first. */
  function InitialIndex(options: seq<PickerOption>, name: string, initialValues: Option<map<string, Value>>): (k: nat)
    ensures |options| >= 1 ==> k < |options|
    ensures k > 0 ==> k < |options| && initialValues.Some? && name in initialValues.value
                      && options[k].value == initialValues.value[name]
    ensures initialValues.Some? && name in initialValues.value
            && (exists i :: 0 <= i < |options| && options[i].value == initialValues.value[name])
            ==> k < |options| && options[k].value == initialValues.value[name]
                && forall i :: 0 <= i < k ==> options[i].value != initialValues.value[name]
  {
    if initialValues.None? then 0
    else
      var j := MatchIndex(options, name, initialValues.value);
      if j == -1 then 0 else j
  }

  /** First loop of the mount effect: the first option's value of every non-empty column. */
  function DefaultValues(data: seq<PickerColumnData>): (r: map<string, Value>)
    ensures r.Keys == NonEmptyLabels(data)
  {
    if data == [] then map[]
    else
      var m := DefaultValues(data[..|data| - 1]);
      var column := data[|data| - 1];
      if |column.options| > 0 then m[column.name := column.options[0].value] else m
  }

  /** First loop of the mount effect: offset 0 for every non-empty column. */
  function DefaultPositions(data: seq<PickerColumnData>): (r: map<string, real>)
    ensures r.Keys == NonEmptyLabels(data)
  {
    if data == [] then map[]
    else
      var m := DefaultPositions(data[..|data| - 1]);
      var column := data[|data| - 1];
      if |column.options| > 0 then m[column.name := 0.0] else m
  }

  /**
    Second loop of the mount effect: starting from `positions`, every column
    whose initial value matches option k is moved to offset -k * itemHeight.
   */
  function ResolvePositions(data: seq<PickerColumnData>, initialValues: map<string, Value>,
                            itemHeight: real, positions: map<string, real>): (r: map<string, real>)
    ensures positions.Keys <= r.Keys <= positions.Keys + NonEmptyLabels(data)
  {
    if data == [] then positions
    else
      var m := ResolvePositions(data[..|data| - 1], initialValues, itemHeight, positions);
      var column := data[|data| - 1];
      var optionIndex := MatchIndex(column.options, column.name, initialValues);
      if optionIndex != -1 then m[column.name := IndexOffset(optionIndex, itemHeight)] else m
  }

  /**
    The offsets the mount effect installs.  A column has an entry exactly
    when some column of that name has options; an empty column gets none.
   */
  function InitialPositions(data: seq<PickerColumnData>, initialValues: Option<map<string, Value>>,
                            itemHeight: real): (r: map<string, real>)
    ensures r.Keys == NonEmptyLabels(data)
  {
    if initialValues.Some? then ResolvePositions(data, initialValues.value, itemHeight, DefaultPositions(data))
    else DefaultPositions(data)
  }

  /** The selection the mount effect installs: the initial values when given, else the defaults. */
  function InitialSelection(data: seq<PickerColumnData>, initialValues: Option<map<string, Value>>)
    : (r: map<string, Value>)
    ensures initialValues.Some? ==> r == initialValues.value
    ensures initialValues.None? ==> r.Keys == NonEmptyLabels(data)
  {
    if initialValues.Some? then initialValues.value else DefaultValues(data)
  }

  /** The labels of the columns that have at least one option, collected column by column. */
  function NonEmptyLabels(data: seq<PickerColumnData>): set<string>
  {
    if data == [] then {}
    else
      var column := data[|data| - 1];
      NonEmptyLabels(data[..|data| - 1]) + (if |column.options| > 0 then {column.name} else {})
  }

  /**
    The commit of a drag end or a wheel settle: when `index` names an option,
    the selection with this column's entry replaced by that option's value,
    which is also what onChange receives; otherwise no commit at all.
   */
  function Commit(values: map<string, Value>, column: string, options: seq<PickerOption>, index: nat)
    : (r: Option<map<string, Value>>)
    ensures r.Some? <==> index < |options|
    ensures r.Some? ==> r.value.Keys == values.Keys + {column}
    ensures r.Some? ==> r.value[column] == options[index].value
    ensures r.Some? ==> forall c :: c in values && c != column ==> r.value[c] == values[c]
  {
    if index < |options| then Some(values[column := options[index].value]) else None
  }

  /** A label is collected exactly when some column carries it and has options. */
  lemma {:induction false} NonEmptyLabelsMember(data: seq<PickerColumnData>, l: string)
    ensures l in NonEmptyLabels(data) <==> exists i :: 0 <= i < |data| && data[i].name == l && |data[i].options| > 0
  {
    if data != [] {
      var init := data[..|data| - 1];
      NonEmptyLabelsMember(init, l);
      if exists i :: 0 <= i < |init| && init[i].name == l && |init[i].options| > 0 {
        var i :| 0 <= i < |init| && init[i].name == l && |init[i].options| > 0;
        assert data[i] == init[i];
      }
      if exists i :: 0 <= i < |data| && data[i].name == l && |data[i].options| > 0 {
        var i :| 0 <= i < |data| && data[i].name == l && |data[i].options| > 0;
        if i < |data| - 1 {
          assert init[i] == data[i];
        }
      }
    }
  }

  /** The second loop's step: column i moves to its matching option's offset, if it has one. */
  lemma ResolveStep(data: seq<PickerColumnData>, i: nat, initialValues: map<string, Value>,
                    itemHeight: real, positions: map<string, real>)
    requires i < |data|
    ensures var m := ResolvePositions(data[..i], initialValues, itemHeight, positions);
            var j := MatchIndex(data[i].options, data[i].name, initialValues);
            ResolvePositions(data[..i + 1], initialValues, itemHeight, positions)
            == if j != -1 then m[data[i].name := IndexOffset(j, itemHeight)] else m
  {
    var done := data[..i + 1];
    assert done[..i] == data[..i] && done[|done| - 1] == data[i];
  }

  /** With unique names, the default selection of a non-empty column is its first option's value. */
  lemma {:induction false} DefaultsAt(data: seq<PickerColumnData>, i: nat)
    requires DistinctLabels(data) && i < |data| && |data[i].options| > 0
    ensures data[i].name in DefaultValues(data) && DefaultValues(data)[data[i].name] == data[i].options[0].value
    ensures data[i].name in DefaultPositions(data) && DefaultPositions(data)[data[i].name] == 0.0
  {
    if i < |data| - 1 {
      var init := data[..|data| - 1];
      assert init[i] == data[i];
      DefaultsAt(init, i);
    }
  }

  /**
    With unique names, resolving initial values sets a column to the offset
    of its matching option and leaves it as it was when nothing matches.
   */
  lemma {:induction false} ResolveAt(data: seq<PickerColumnData>, initialValues: map<string, Value>,
                                     itemHeight: real, positions: map<string, real>, i: nat)
    requires DistinctLabels(data) && i < |data|
    ensures var c := data[i];
            var j := MatchIndex(c.options, c.name, initialValues);
            var r := ResolvePositions(data, initialValues, itemHeight, positions);
            (j != -1 ==> c.name in r && r[c.name] == IndexOffset(j, itemHeight)) &&
            (j == -1 ==> (c.name in r <==> c.name in positions)) &&
            (j == -1 && c.name in positions ==> r[c.name] == positions[c.name])
  {
    var init := data[..|data| - 1];
    if i < |data| - 1 {
      assert init[i] == data[i];
      ResolveAt(init, initialValues, itemHeight, positions, i);
    } else {
      assert forall k :: 0 <= k < |init| ==> init[k] == data[k];
      ResolveOnlyNamed(init, initialValues, itemHeight, positions, data[i].name);
    }
  }

  /** A name that no column carries keeps its entry through the second loop. */
  lemma {:induction false} ResolveOnlyNamed(data: seq<PickerColumnData>, initialValues: map<string, Value>,
                                            itemHeight: real, positions: map<string, real>, name: string)
    requires forall i :: 0 <= i < |data| ==> data[i].name != name
    ensures var r := ResolvePositions(data, initialValues, itemHeight, positions);
            (name in r <==> name in positions) && (name in positions ==> r[name] == positions[name])
  {
    if data != [] {
      var init := data[..|data| - 1];
      assert forall i :: 0 <= i < |init| ==> init[i] == data[i];
      ResolveOnlyNamed(init, initialValues, itemHeight, positions, name);
    }
  }

  /**
    Init offset: with unique names, a non-empty column starts at the offset
    of its initial index, the first option whose value strictly equals its
    initial value, or option 0 when there is none.
   */
  lemma InitialPositionAt(data: seq<PickerColumnData>, initialValues: Option<map<string, Value>>,
                          itemHeight: real, i: nat)
    requires DistinctLabels(data) && i < |data| && |data[i].options| > 0
    ensures var c := data[i];
            var r := InitialPositions(data, initialValues, itemHeight);
            c.name in r && r[c.name] == IndexOffset(InitialIndex(c.options, c.name, initialValues), itemHeight)
  {
    var c := data[i];
    DefaultsAt(data, i);
    if initialValues.Some? {
      ResolveAt(data, initialValues.value, itemHeight, DefaultPositions(data), i);
      var j := MatchIndex(c.options, c.name, initialValues.value);
      assert InitialIndex(c.options, c.name, initialValues) == if j == -1 then 0 else j;
    } else {
      assert InitialIndex(c.options, c.name, initialValues) == 0;
    }
  }

  /**
    Round trip: when the values of a column are distinct and its initial
    value is option k's value, the column starts at option k's offset, and
    snapping that offset gives k back.
   */
  lemma InitialRoundTrip(data: seq<PickerColumnData>, initialValues: map<string, Value>,
                         itemHeight: real, i: nat, k: nat)
    requires DistinctLabels(data) && i < |data| && itemHeight > 0.0
    requires DistinctValues(data[i].options) && k < |data[i].options|
    requires data[i].name in initialValues && initialValues[data[i].name] == data[i].options[k].value
    ensures var r := InitialPositions(data, Some(initialValues), itemHeight);
            data[i].name in r && r[data[i].name] == IndexOffset(k, itemHeight)
            && SnapIndex(r[data[i].name], itemHeight) == k
  {
    var c := data[i];
    var j := FindIndex(c.options, c.options[k].value);
    assert j == k;
    InitialPositionAt(data, Some(initialValues), itemHeight, i);
    SnapIndexOffset(k, itemHeight);
  }
}
