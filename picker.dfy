/**
  The per-column scroll and selection state of the mobile picker component
  and its event handlers.  React's state (`pickerValues`, `positions`) and
  refs (`touchStartY`, `currentPositions`, `momentumTimers`) become fields
  of one object; each handler is a method that updates them in place.
  `positions` and `currentPositions` hold the same offsets once the
  component has re-rendered between two events, so they are one map here.
 */
module MobilePicker {

  import opened PickerGeometry
  import opened PickerSelection

  /**
    A wheel settle that has been scheduled and not yet run or cancelled:
    what the 100 ms timeout's closure captured when the wheel event was
    handled (the offset it computed, the selection map of that render, the
    column's options and the item height).
   */
  datatype Settle = Settle(newPosition: real, values: map<string, Value>,
                           options: seq<PickerOption>, itemHeight: real)

  ghost predicate SettleValid(s: Settle)
  {
    s.itemHeight > 0.0 && (|s.options| >= 1 ==> InBounds(s.newPosition, |s.options|, s.itemHeight))
  }

  /** The mount effect's first loop: option 0 of every non-empty column, at offset 0. */
  method Defaults(data: seq<PickerColumnData>) returns (defaultValues: map<string, Value>, defaultPositions: map<string, real>)
    ensures defaultValues == DefaultValues(data)
    ensures defaultPositions == DefaultPositions(data)
  {
    defaultValues := map[];
    defaultPositions := map[];
    var i := 0;
    while i < |data|
      invariant 0 <= i <= |data|
      invariant defaultValues == DefaultValues(data[..i])
      invariant defaultPositions == DefaultPositions(data[..i])
    {
      var column := data[i];
      if |column.options| > 0 {
        defaultValues := defaultValues[column.name := column.options[0].value];
        defaultPositions := defaultPositions[column.name := 0.0];
      }
      ghost var done := data[..i + 1];
      assert done[..i] == data[..i] && done[i] == column;
      i := i + 1;
    }
    assert data[..|data|] == data;
  }

  /** The mount effect's second loop: each column whose initial value is one of its options moves to that option. */
  method Resolve(data: seq<PickerColumnData>, initialValues: map<string, Value>, itemHeight: real,
                 base: map<string, real>) returns (resolved: map<string, real>)
    ensures resolved == ResolvePositions(data, initialValues, itemHeight, base)
  {
    resolved := base;
    var i := 0;
    while i < |data|
      invariant 0 <= i <= |data|
      invariant resolved == ResolvePositions(data[..i], initialValues, itemHeight, base)
    {
      var column := data[i];
      var optionIndex := MatchIndex(column.options, column.name, initialValues);
      ResolveStep(data, i, initialValues, itemHeight, base);
      if optionIndex != -1 {
        resolved := resolved[column.name := IndexOffset(optionIndex, itemHeight)];
      }
      i := i + 1;
    }
    assert data[..|data|] == data;
  }

  class Picker {
    var itemHeight: real
    /** The selection map passed to onChange, keyed by column name. */
    var pickerValues: map<string, Value>
    /** Each column's offset in pixels; a column without an entry is at 0. */
    var positions: map<string, real>
    /** The finger's y coordinate at the last touch event of each column's drag. */
    var touchStartY: map<string, real>
    /** The pending settle of each column; a cancelled or fired settle has no entry. */
    var momentumTimers: map<string, Settle>

    /**
      The item height is positive, and every pending settle holds a positive
      item height and, for a column with options, an offset within its bounds.
     */
    ghost predicate Valid()
      reads this
    {
      itemHeight > 0.0 &&
      forall c :: c in momentumTimers ==> SettleValid(momentumTimers[c])
    }

    /** The offset of a column as the handlers read it (`positions[columnName] || 0`). */
    function Offset(column: string): (r: real)
      reads this
      ensures column in positions ==> r == positions[column]
      ensures column !in positions ==> r == 0.0
    {
      if column in positions then positions[column] else 0.0
    }

    /** The component before its mount effect has run: every map is empty. */
    constructor(itemHeight: real)
      requires itemHeight > 0.0
      ensures Valid() && this.itemHeight == itemHeight
      ensures pickerValues == map[] && positions == map[]
      ensures touchStartY == map[] && momentumTimers == map[]
    {
      this.itemHeight := itemHeight;
      pickerValues := map[];
      positions := map[];
      touchStartY := map[];
      momentumTimers := map[];
    }

    /**
      The mount effect, run again whenever data, initialValues or itemHeight
      change.  It installs the initial selection and offsets and calls no
      one: it has no result, so it cannot notify onChange.  Drag anchors and
      pending settles are left as they are.
     */
    method Init(data: seq<PickerColumnData>, initialValues: Option<map<string, Value>>, itemHeight: real)
      requires Valid() && itemHeight > 0.0
      modifies this`itemHeight, this`pickerValues, this`positions
      ensures Valid() && this.itemHeight == itemHeight
      ensures pickerValues == InitialSelection(data, initialValues)
      ensures positions == InitialPositions(data, initialValues, itemHeight)
    {
      var defaultValues, defaultPositions := Defaults(data);
      if initialValues.Some? {
        defaultPositions := Resolve(data, initialValues.value, itemHeight, defaultPositions);
      }
      pickerValues := if initialValues.Some? then initialValues.value else defaultValues;
      positions := defaultPositions;
      this.itemHeight := itemHeight;
    }

    /** A finger touches a column: its pending settle is cancelled and the drag is anchored at y. */
    method TouchStart(column: string, y: real)
      requires Valid()
      modifies this`touchStartY, this`momentumTimers
      ensures Valid()
      ensures touchStartY == old(touchStartY)[column := y]
      ensures momentumTimers == old(momentumTimers) - {column}
    {
      momentumTimers := momentumTimers - {column};
      touchStartY := touchStartY[column := y];
    }

    /**
      The finger moves to y: the offset follows the finger travel since the
      last touch event, clamped to the column's bounds, and the drag is
      re-anchored at y.  Nothing is committed.
     */
    method TouchMove(column: string, options: seq<PickerOption>, y: real)
      requires Valid() && column in touchStartY
      modifies this`positions, this`touchStartY
      ensures Valid()
      ensures positions == old(positions)[column := MoveOffset(old(Offset(column)), old(touchStartY[column]), y, |options|, itemHeight)]
      ensures touchStartY == old(touchStartY)[column := y]
      ensures |options| >= 1 ==> InBounds(positions[column], |options|, itemHeight)
    {
      var deltaY := y - touchStartY[column];
      var newPosition := Clamp(Offset(column) + deltaY, |options|, itemHeight);
      positions := positions[column := newPosition];
      touchStartY := touchStartY[column := y];
    }

    /**
      The finger lifts: the offset snaps to the nearest option and, when that
      option exists, the selection takes its value and the new selection is
      returned as the onChange payload.
     */
    method TouchEnd(column: string, options: seq<PickerOption>) returns (notified: Option<map<string, Value>>)
      requires Valid()
      modifies this`positions, this`pickerValues
      ensures Valid()
      ensures positions == old(positions)[column := SnapOffset(old(Offset(column)), itemHeight)]
      ensures notified == Commit(old(pickerValues), column, options, SnapIndex(old(Offset(column)), itemHeight))
      ensures pickerValues == if notified.Some? then notified.value else old(pickerValues)
      ensures |options| >= 1 && InBounds(old(Offset(column)), |options|, itemHeight) ==> notified.Some?
      ensures |options| == 0 ==> notified == None
    {
      var position := Offset(column);
      if |options| >= 1 && InBounds(position, |options|, itemHeight) {
        SnapIndexInRange(position, |options|, itemHeight);
      }
      var itemIndex := SnapIndex(position, itemHeight);
      var snapPosition := IndexOffset(itemIndex, itemHeight);
      positions := positions[column := snapPosition];
      notified := Commit(pickerValues, column, options, itemIndex);
      if notified.Some? {
        pickerValues := notified.value;
      }
    }

    /**
      A wheel tick: the column's pending settle is cancelled, the offset moves
      a third of an item (down the list for a positive deltaY), clamped, and
      a new settle is scheduled with the new offset and the current selection.
     */
    method Wheel(column: string, options: seq<PickerOption>, deltaY: real)
      requires Valid()
      modifies this`positions, this`momentumTimers
      ensures Valid()
      ensures positions == old(positions)[column := WheelOffset(old(Offset(column)), deltaY, |options|, itemHeight)]
      ensures momentumTimers == old(momentumTimers)[column := Settle(positions[column], pickerValues, options, itemHeight)]
      ensures |options| >= 1 ==> InBounds(positions[column], |options|, itemHeight)
    {
      momentumTimers := momentumTimers - {column};
      var currentPosition := Offset(column);
      var delta := WheelStep(deltaY, itemHeight);
      var newPosition := Clamp(currentPosition + delta, |options|, itemHeight);
      positions := positions[column := newPosition];
      momentumTimers := momentumTimers[column := Settle(newPosition, pickerValues, options, itemHeight)];
    }

    /**
      The pending settle of a column runs: it snaps the offset it captured
      and commits into the selection map it captured, not the live one.
     */
    method FireSettle(column: string) returns (notified: Option<map<string, Value>>)
      requires Valid() && column in momentumTimers
      modifies this`positions, this`pickerValues, this`momentumTimers
      ensures Valid()
      ensures var s := old(momentumTimers[column]);
              positions == old(positions)[column := SnapOffset(s.newPosition, s.itemHeight)] &&
              notified == Commit(s.values, column, s.options, SnapIndex(s.newPosition, s.itemHeight))
      ensures pickerValues == if notified.Some? then notified.value else old(pickerValues)
      ensures momentumTimers == old(momentumTimers) - {column}
      ensures var s := old(momentumTimers[column]);
              |s.options| >= 1 ==> notified.Some? && InBounds(positions[column], |s.options|, s.itemHeight)
      ensures |old(momentumTimers[column]).options| == 0 ==> notified == None
    {
      var s := momentumTimers[column];
      if |s.options| >= 1 {
        SnapIndexInRange(s.newPosition, |s.options|, s.itemHeight);
      }
      momentumTimers := momentumTimers - {column};
      var itemIndex := SnapIndex(s.newPosition, s.itemHeight);
      var snapPosition := IndexOffset(itemIndex, s.itemHeight);
      positions := positions[column := snapPosition];
      notified := Commit(s.values, column, s.options, itemIndex);
      if notified.Some? {
        pickerValues := notified.value;
      }
    }
  }
}
