# Mobile picker: per-column scroll and selection model

This project models the interaction core of `CustomMobilePicker`, a
touch- and wheel-driven picker made of scrollable columns of options
(years, months, hours, ...).  Each column has a pixel offset.  A finger
drag moves it, and a wheel tick moves it by a third of an item.  Both are
clamped so that the first or the last option stays in the highlighted row.
When the finger lifts, or 100 ms after the last wheel tick, the offset
snaps to the nearest option.  That option's value is then written into the
selection map, and the whole map is handed to `onChange`.

The project has four modules:

- `PickerGeometry` (geometry.dfy) holds the pixel arithmetic as functions
  over exact reals: the clamp, the wheel step, `Math.round(|p| / itemHeight)`
  as the snap index, and the `visibleItems` / `middlePosition` layout.  It
  also holds lemmas on snapping, drag travel and wheel ticks.
- `PickerSelection` (selection.dfy) holds the option values, `findIndex`,
  the two loops of the mount effect as functions, and the commit.  A commit
  replaces one entry of the selection map.
- `MobilePicker` (picker.dfy) has the class `Picker`.  Its fields are the
  component's state and refs: `pickerValues`, `positions`, `touchStartY` and
  `momentumTimers`.  Its methods are the mount effect (`Init`) and the
  handlers (`TouchStart`, `TouchMove`, `TouchEnd`, `Wheel`).  `FireSettle`
  is the body of the wheel timeout.  A pending settle is a `Settle` record:
  it holds the offset, the selection map, the options and the item height
  that the timeout's closure captured.  `FireSettle` uses those values, not
  the live state.
- `PickerScenarios` (scenarios.dfy) states what concrete event sequences
  leave behind, on Year and Month columns and on one empty column, with the
  default 36-pixel item height.

Three behaviours of the code are easy to miss, and the model keeps them:

- An empty column is not held at offset 0.  Its clamp has a lower bound of
  +itemHeight, above the upper bound 0.  So a wheel tick down the list moves
  it to +itemHeight, and the settle then snaps it to -itemHeight.  It still
  never commits (`PickerScenarios.EmptyColumnNeverCommits`).
- A wheel settle does not commit into the latest selection.  It commits
  into the selection map captured when the wheel turned.  A commit made on
  another column while the settle is pending is therefore overwritten when
  the settle runs (`PickerScenarios.SettleUsesCapturedSelection`).
- Ending a drag does not cancel a pending wheel settle of the same column.
  Only `TouchStart` and `Wheel` cancel one.

## Model

| member | source | states |
|---|---|---|
| `PickerGeometry.Clamp` | src/CustomMobilePicker.tsx:181-191 | For a column with n ≥ 1 options the result lies in [−(n−1)·itemHeight, 0]. An in-bounds offset is unchanged. A positive one becomes 0, one below the minimum becomes the minimum. For an empty column a non-positive offset becomes +itemHeight. |
| `PickerGeometry.SnapIndex` | src/CustomMobilePicker.tsx:207-209 | Math.round(\|p\|/itemHeight) with halves rounding up: the index k satisfies k − ½ ≤ \|p\|/itemHeight < k + ½. |
| `PickerGeometry.SnapIndexInRange` | src/CustomMobilePicker.tsx:208-221 | For n ≥ 1 and an in-bounds offset, the snap index is an option index (< n), so the commit guard passes, and the snapped offset is in bounds. |
| `PickerGeometry.SnapIndexOffset` | src/CustomMobilePicker.tsx:208-209 | Snapping option k's offset −k·itemHeight gives k back. |
| `PickerGeometry.SnapOffset` | src/CustomMobilePicker.tsx:208-209 | The snapped offset is never positive. For an offset that is not positive, it is at most half an item away. |
| `PickerGeometry.SnapOffsetIdempotent` | src/CustomMobilePicker.tsx:274-275 | Snapping an already snapped offset leaves it unchanged. |
| `PickerGeometry.SnapIndexNearest` | src/CustomMobilePicker.tsx:208 | Measured in items, no index is closer to \|p\| than the snap index. |
| `PickerGeometry.MoveOffset` | src/CustomMobilePicker.tsx:179-191 | One drag sample. For n ≥ 1 the new offset is in bounds. It equals p + (y − anchor) whenever that is in bounds. From an in-bounds offset it never moves further than the finger did. |
| `PickerGeometry.DragFollowsFinger` | src/CustomMobilePicker.tsx:178-200 | While every sample keeps the content in bounds, a drag moves the offset by exactly the finger travel from the drag's anchor to the last sample, although each move re-anchors. |
| `PickerGeometry.DragStaysInBounds` | src/CustomMobilePicker.tsx:181-191 | Any sequence of drag samples leaves a non-empty column's offset in bounds. |
| `PickerGeometry.WheelStep` | src/CustomMobilePicker.tsx:250 | A tick moves by exactly itemHeight/3. The move is towards more negative offsets exactly when deltaY > 0, so deltaY = 0 moves up. |
| `PickerGeometry.WheelOffset` | src/CustomMobilePicker.tsx:246-261 | One wheel tick. For n ≥ 1 the new offset is in bounds. It equals p + step whenever that is in bounds. From an in-bounds offset it never moves more than itemHeight/3. |
| `PickerGeometry.WheelTicksToNextItem` | src/CustomMobilePicker.tsx:250-275 | From option k, with option k + 1 present, ticks down the list snap to k after one tick and to k + 1 after two. After three ticks the offset is exactly option k + 1's offset. |
| `PickerGeometry.WheelTickReversible` | src/CustomMobilePicker.tsx:250-261 | Away from the bounds, a tick up undoes a tick down. |
| `PickerGeometry.VisibleItems` | src/CustomMobilePicker.tsx:132 | Math.floor(height/itemHeight): v·itemHeight ≤ height < (v+1)·itemHeight. |
| `PickerGeometry.MiddleRow` | src/CustomMobilePicker.tsx:134 | The highlight row is half the visible rows rounded down: 2j ≤ visibleItems ≤ 2j + 1. |
| `PickerGeometry.MiddlePosition` | src/CustomMobilePicker.tsx:134 | The highlight's top m satisfies 2m ≤ height < 2m + 2·itemHeight. It is a whole number of rows: m = floor(height / (2·itemHeight))·itemHeight. |
| `PickerSelection.FindIndex` | src/CustomMobilePicker.tsx:151-153 | findIndex with strict equality returns −1 exactly when no option's value matches. Otherwise it returns the first matching index. |
| `PickerSelection.MatchIndex` | src/CustomMobilePicker.tsx:151-153 | The column's initial value looked up by findIndex. The result is −1 exactly when the name has no initial value or no option matches. Otherwise it is the first index whose value strictly equals the initial value. |
| `PickerSelection.InitialIndex` | src/CustomMobilePicker.tsx:148-156 | A column starts at option 0 unless its initial value matches some option k > 0. That k is an option index. When the initial value matches any option, k is the first matching index. |
| `PickerSelection.Commit` | src/CustomMobilePicker.tsx:220-231 | A commit happens exactly when the index is below the option count, so an empty column never commits. The onChange payload is the whole selection map with only this column's entry replaced by options[index].value. |
| `PickerSelection.NonEmptyLabelsMember` | src/CustomMobilePicker.tsx:141-146 | A name is among the collected labels exactly when some column carries it and has options. |
| `PickerSelection.DefaultValues` | src/CustomMobilePicker.tsx:141-146 | The first loop's selection has an entry for exactly the names of columns that have options. |
| `PickerSelection.DefaultPositions` | src/CustomMobilePicker.tsx:141-146 | The first loop's offsets have an entry for exactly the names of columns that have options. |
| `PickerSelection.ResolvePositions` | src/CustomMobilePicker.tsx:149-158 | The second loop keeps every existing entry. It adds entries only for columns that have options. |
| `PickerSelection.ResolveStep` | src/CustomMobilePicker.tsx:150-157 | One pass of the second loop moves column i to its matching option's offset, if it has one, and changes nothing else. |
| `PickerSelection.InitialPositions` | src/CustomMobilePicker.tsx:141-161 | After the mount effect, a column has an offset entry exactly when it has options. |
| `PickerSelection.InitialSelection` | src/CustomMobilePicker.tsx:160 | The selection is initialValues when given. Otherwise it has an entry for exactly the columns that have options. |
| `PickerSelection.DefaultsAt` | src/CustomMobilePicker.tsx:141-146 | With unique names, a non-empty column's default value is its first option's value and its default offset is 0. |
| `PickerSelection.ResolveAt` | src/CustomMobilePicker.tsx:149-158 | With unique names, a column whose initial value matches option k is set to −k·itemHeight. Otherwise its entry is left as it was. |
| `PickerSelection.ResolveOnlyNamed` | src/CustomMobilePicker.tsx:150-157 | The second loop never touches the entry of a name no column carries. |
| `PickerSelection.InitialPositionAt` | src/CustomMobilePicker.tsx:141-161 | With unique names, a non-empty column starts at −k·itemHeight. Here k is the first index whose value strictly equals its initial value, or 0 when there is no match or no initial values. |
| `PickerSelection.InitialRoundTrip` | src/CustomMobilePicker.tsx:151-155 | When a column's values are distinct and its initial value is options[k].value, it starts at −k·itemHeight, and snapping that offset gives k. |
| `MobilePicker.Picker.Offset` | src/CustomMobilePicker.tsx:181 | A column's offset as the handlers read it: its entry when it has one, and 0 otherwise. |
| `MobilePicker.Picker.constructor` | src/CustomMobilePicker.tsx:125-129 | Before the mount effect runs, the selection, offsets, drag anchors and pending settles are all empty. |
| `MobilePicker.Defaults` | src/CustomMobilePicker.tsx:141-146 | The first loop of the mount effect gives the default selection and the default offsets, as the functions `DefaultValues` and `DefaultPositions` define them. |
| `MobilePicker.Resolve` | src/CustomMobilePicker.tsx:149-158 | The second loop gives the offsets that `ResolvePositions` defines: each column whose initial value matches an option moves to that option. |
| `MobilePicker.Picker.Init` | src/CustomMobilePicker.tsx:136-163 | The selection becomes initialValues when given, otherwise the defaults. The offsets become the resolved initial offsets. The method has no result, so it notifies no one. Drag anchors and pending settles are untouched. |
| `MobilePicker.Picker.TouchStart` | src/CustomMobilePicker.tsx:165-173 | Cancels only this column's pending settle and anchors only this column's drag at y. |
| `MobilePicker.Picker.TouchMove` | src/CustomMobilePicker.tsx:175-201 | The offset becomes clamp(offset + (y − anchor)) and then anchor := y. Only this column's entries change. The offset is in bounds for n ≥ 1, and nothing is committed. |
| `MobilePicker.Picker.TouchEnd` | src/CustomMobilePicker.tsx:203-233 | Snaps only this column's offset. Returns the commit payload and installs it as the selection. An in-bounds offset of a non-empty column always commits, and an empty column never does. |
| `MobilePicker.Picker.Wheel` | src/CustomMobilePicker.tsx:235-270 | The offset becomes clamp(offset ± itemHeight/3), in bounds for n ≥ 1. The column's settle is replaced by one holding the new offset and the current selection, so at most one is pending per column. |
| `MobilePicker.Picker.FireSettle` | src/CustomMobilePicker.tsx:272-299 | Snaps the captured offset and commits into the captured selection map. A non-empty column always commits, and an empty one never does. The settle is no longer pending afterwards. |
| `PickerScenarios.Years` | src/examples/DatePickerExample.tsx:20-24 | Ten options valued 2020 to 2029, all distinct. |
| `PickerScenarios.Months` | src/examples/DatePickerExample.tsx:27-31 | Twelve options valued 1 to 12, all distinct. |
| `PickerScenarios.InitialResolution` | src/CustomMobilePicker.tsx:149-161 | Initial values {Year: 2022} over 2020 to 2029 put Year at offset −72 (index 2). |
| `PickerScenarios.DragBroadcastsWholeSelection` | src/CustomMobilePicker.tsx:220-231 | From {Year: 2021, Month: 3}, dragging Month two items notifies {Year: 2021, Month: 5}, including the unrelated Year entry. |
| `PickerScenarios.TickYearDown` | src/CustomMobilePicker.tsx:240-270 | Each tick down the Year column moves it 12 pixels. Afterwards exactly one settle is pending, holding the final offset and the unchanged selection. |
| `PickerScenarios.WheelTicksCoalesce` | src/CustomMobilePicker.tsx:240-299 | Five wheel ticks leave exactly one pending settle. Its commit selects Year 2024. |
| `PickerScenarios.TouchCancelsSettle` | src/CustomMobilePicker.tsx:167-170 | A touch cancels the pending wheel settle, and the committed value comes from the drag. |
| `PickerScenarios.CommitWhileSettlePending` | src/CustomMobilePicker.tsx:235-293 | After two wheel ticks on Year from {2021, 3}, the pending settle holds offset −60 and the selection {2021, 3}. A Month drag meanwhile commits {2021, 5}. |
| `PickerScenarios.SettleUsesCapturedSelection` | src/CustomMobilePicker.tsx:286-293 | A Month commit made while a Year settle is pending is reverted by that settle's payload. |
| `PickerScenarios.EmptyColumnNeverCommits` | src/CustomMobilePicker.tsx:254-261 | An empty column never commits. A wheel tick moves it to +36, and the settle moves it to −36. |

## Left out

- Presentation is not modelled: the styled components, the JSX, the CSS transform and transition, and the `isSelected` highlighting (src/CustomMobilePicker.tsx:32-113, 302-351).
- React's scheduling is not modelled. Each handler reads the offsets and the selection of the latest render, so a re-render is assumed between two events. With that assumption `positions` and `currentPositions` hold the same offsets and are one map.
- Timing is not modelled. The 100 ms delay is an explicit `FireSettle` step that runs only while a settle is pending. After firing, the source keeps the spent timer handle in its ref dictionary. The model drops it instead, because clearing a spent timer does nothing.
- DOM events are not modelled. The handlers take the touch's clientY or the wheel's deltaY as a number, and `preventDefault` is not modelled.
- Floating point is not modelled. Offsets are exact reals, so IEEE-754 rounding, NaN and −0 do not arise.
- A touch move without a preceding touch start is not modelled. The source reads an undefined anchor there and produces NaN, so `TouchMove` requires an anchor.
- MobilePicker.Picker.TouchEnd: a touch end on a column with no offset entry reads that entry as 0, where the source reads undefined and computes with NaN, which fails the commit guard. Once the mount effect has run, the only such column is an empty one; both then commit nothing, and later reads treat NaN as 0 (`|| 0`). Before the mount effect has run, and for a column that a `data` change adds until the effect runs again, the model commits option 0 of a non-empty column where the source commits nothing.
- `onChange` is optional in the source. The model returns the payload a commit would pass to it whether or not a listener is present.
- Values are numbers or strings compared by strict equality. An `initialValues` entry of any other type is not modelled, and a missing entry matches no option.
- The `height`, `className` and `showLabels` props only affect rendering, apart from the layout arithmetic above.
- The example pages and the demo are consumers of `onChange` and are not modelled. Their `infinite` prop is not implemented by this component.
- The component test file checks rendered labels and attributes only and is not modelled.
