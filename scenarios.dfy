/**
  Concrete event sequences on a picker with the component's default item
  height of 36 pixels, each proving what one interaction leaves behind.
 */
module PickerScenarios {

  import opened PickerGeometry
  import opened PickerSelection
  import opened MobilePicker

  /** Ten years, 2020 to 2029, as the date picker example builds them. */
  function Years(): (options: seq<PickerOption>)
    ensures |options| == 10 && DistinctValues(options)
    ensures forall i :: 0 <= i < 10 ==> options[i].value == Num(2020.0 + i as real)
  {
    var texts := ["2020", "2021", "2022", "2023", "2024", "2025", "2026", "2027", "2028", "2029"];
    seq(10, i requires 0 <= i < 10 => PickerOption(texts[i], Num(2020.0 + i as real)))
  }

  /** The twelve months, valued 1 to 12. */
  function Months(): (options: seq<PickerOption>)
    ensures |options| == 12 && DistinctValues(options)
    ensures forall i :: 0 <= i < 12 ==> options[i].value == Num(1.0 + i as real)
  {
    var texts := ["1", "2", "3", "4", "5", "6", "7", "8", "9", "10", "11", "12"];
    seq(12, i requires 0 <= i < 12 => PickerOption(texts[i], Num(1.0 + i as real)))
  }

  function YearMonth(): seq<PickerColumnData>
  {
    [PickerColumnData("Year", Years()), PickerColumnData("Month", Months())]
  }

  /** A picker mounted on the Year and Month columns with Year = year and Month = month selected. */
  method Mount(year: nat, month: nat) returns (p: Picker)
    requires year < 10 && month < 12
    ensures fresh(p) && p.Valid() && p.itemHeight == 36.0
    ensures p.pickerValues == map["Year" := Years()[year].value, "Month" := Months()[month].value]
    ensures p.Offset("Year") == IndexOffset(year, 36.0) && p.Offset("Month") == IndexOffset(month, 36.0)
    ensures p.touchStartY == map[] && p.momentumTimers == map[]
  {
    p := new Picker(36.0);
    var initial := map["Year" := Years()[year].value, "Month" := Months()[month].value];
    p.Init(YearMonth(), Some(initial), 36.0);
    InitialRoundTrip(YearMonth(), initial, 36.0, 0, year);
    InitialRoundTrip(YearMonth(), initial, 36.0, 1, month);
  }

  /**
    Initial resolution: initial values {Year: 2022} put the Year column at
    option 2, 72 pixels up, and the mount notifies no one.
   */
  method InitialResolution() returns (offset: real, index: nat)
    ensures offset == -72.0 && index == 2
  {
    var p := new Picker(36.0);
    var data := [PickerColumnData("Year", Years())];
    p.Init(data, Some(map["Year" := Num(2022.0)]), 36.0);
    InitialRoundTrip(data, map["Year" := Num(2022.0)], 36.0, 0, 2);
    offset := p.Offset("Year");
    index := SnapIndex(offset, 36.0);
  }

  /**
    Broadcast completeness: with Year = 2021 and Month = 3, dragging Month
    two items down the list notifies the whole selection, Year included.
   */
  method DragBroadcastsWholeSelection() returns (payload: Option<map<string, Value>>)
    ensures payload == Some(map["Year" := Num(2021.0), "Month" := Num(5.0)])
  {
    var p := Mount(1, 2);
    p.TouchStart("Month", 300.0);
    p.TouchMove("Month", Months(), 250.0);
    p.TouchMove("Month", Months(), 228.0);
    assert p.Offset("Month") == IndexOffset(4, 36.0);
    SnapIndexOffset(4, 36.0);
    assert p.pickerValues == map["Year" := Num(2021.0), "Month" := Num(3.0)];
    assert Months()[4].value == Num(5.0);
    payload := p.TouchEnd("Month", Months());
    assert map["Year" := Num(2021.0), "Month" := Num(3.0)]["Month" := Num(5.0)]
        == map["Year" := Num(2021.0), "Month" := Num(5.0)];
  }

  /** Turns the wheel down the Year column `ticks` times, starting from 2022 with no settle pending. */
  method TickYearDown(p: Picker, ticks: nat)
    requires p.Valid() && p.itemHeight == 36.0 && ticks <= 21
    requires p.Offset("Year") == -72.0 && p.momentumTimers == map[]
    modifies p
    ensures p.Valid() && p.itemHeight == 36.0
    ensures p.Offset("Year") == -72.0 - 12.0 * ticks as real
    ensures p.pickerValues == old(p.pickerValues)
    ensures ticks > 0 ==> p.momentumTimers == map["Year" := Settle(p.Offset("Year"), p.pickerValues, Years(), 36.0)]
  {
    var done := 0;
    while done < ticks
      invariant 0 <= done <= ticks && p.Valid() && p.itemHeight == 36.0
      invariant p.Offset("Year") == -72.0 - 12.0 * done as real
      invariant p.pickerValues == old(p.pickerValues)
      invariant done == 0 ==> p.momentumTimers == map[]
      invariant done > 0 ==> p.momentumTimers == map["Year" := Settle(p.Offset("Year"), p.pickerValues, Years(), 36.0)]
    {
      p.Wheel("Year", Years(), 120.0);
      done := done + 1;
    }
  }

  /**
    Coalescing: five wheel ticks leave a single pending settle, whose one
    commit selects the option nearest to where the ticks ended.
   */
  method WheelTicksCoalesce() returns (pending: nat, payload: Option<map<string, Value>>)
    ensures pending == 1
    ensures payload == Some(map["Year" := Num(2024.0), "Month" := Num(1.0)])
  {
    var p := Mount(2, 0);
    var before := map["Year" := Num(2022.0), "Month" := Num(1.0)];
    assert Years()[2].value == Num(2022.0) && Months()[0].value == Num(1.0);
    assert p.pickerValues == before;
    TickYearDown(p, 5);
    assert p.momentumTimers == map["Year" := Settle(-132.0, before, Years(), 36.0)];
    assert p.momentumTimers.Keys == {"Year"};
    pending := |p.momentumTimers.Keys|;
    assert SnapIndex(-132.0, 36.0) == 4;
    assert Years()[4].value == Num(2024.0);
    payload := p.FireSettle("Year");
    assert before["Year" := Num(2024.0)] == map["Year" := Num(2024.0), "Month" := Num(1.0)];
  }

  /**
    Cancellation: a touch on a column whose wheel settle is pending cancels
    it, so the selection comes from the drag alone.
   */
  method TouchCancelsSettle() returns (settlePending: bool, payload: Option<map<string, Value>>)
    ensures !settlePending
    ensures payload == Some(map["Year" := Num(2020.0), "Month" := Num(1.0)])
  {
    var p := Mount(2, 0);
    p.Wheel("Year", Years(), 120.0);
    p.TouchStart("Year", 0.0);
    settlePending := "Year" in p.momentumTimers;
    p.TouchMove("Year", Years(), 200.0);
    assert p.Offset("Year") == IndexOffset(0, 36.0);
    SnapIndexOffset(0, 36.0);
    assert Years()[0].value == Num(2020.0);
    payload := p.TouchEnd("Year", Years());
    assert map["Year" := Num(2022.0), "Month" := Num(1.0)]["Year" := Num(2020.0)]
        == map["Year" := Num(2020.0), "Month" := Num(1.0)];
  }

  /**
    From {Year: 2021, Month: 3}: two wheel ticks down the Year column, then
    a drag that commits Month = 5 while the Year settle is still pending.
   */
  method CommitWhileSettlePending() returns (p: Picker, monthCommit: Option<map<string, Value>>)
    ensures fresh(p) && p.Valid() && p.itemHeight == 36.0
    ensures "Year" in p.momentumTimers
    ensures p.momentumTimers["Year"] == Settle(-60.0, map["Year" := Num(2021.0), "Month" := Num(3.0)], Years(), 36.0)
    ensures monthCommit == Some(map["Year" := Num(2021.0), "Month" := Num(5.0)])
    ensures p.pickerValues == map["Year" := Num(2021.0), "Month" := Num(5.0)]
  {
    p := Mount(1, 2);
    var before := map["Year" := Num(2021.0), "Month" := Num(3.0)];
    p.Wheel("Year", Years(), 120.0);
    assert p.Offset("Year") == -48.0;
    p.Wheel("Year", Years(), 120.0);
    var pending := p.momentumTimers["Year"];
    assert pending == Settle(-60.0, before, Years(), 36.0);
    p.TouchStart("Month", 300.0);
    p.TouchMove("Month", Months(), 228.0);
    assert p.Offset("Month") == IndexOffset(4, 36.0);
    SnapIndexOffset(4, 36.0);
    assert Months()[4].value == Num(5.0);
    monthCommit := p.TouchEnd("Month", Months());
    assert before["Month" := Num(5.0)] == map["Year" := Num(2021.0), "Month" := Num(5.0)];
  }

  /**
    Captured selection: a wheel settle commits into the selection of the
    moment the wheel turned, so a Month commit made while the Year settle
    was pending is reverted when the settle runs.
   */
  method SettleUsesCapturedSelection() returns (monthCommit: Option<map<string, Value>>,
                                                settleCommit: Option<map<string, Value>>)
    ensures monthCommit == Some(map["Year" := Num(2021.0), "Month" := Num(5.0)])
    ensures settleCommit == Some(map["Year" := Num(2022.0), "Month" := Num(3.0)])
  {
    var p;
    p, monthCommit := CommitWhileSettlePending();
    assert SnapIndex(-60.0, 36.0) == 2;
    assert Years()[2].value == Num(2022.0);
    settleCommit := p.FireSettle("Year");
    assert map["Year" := Num(2021.0), "Month" := Num(3.0)]["Year" := Num(2022.0)]
        == map["Year" := Num(2022.0), "Month" := Num(3.0)];
  }

  /**
    Empty column: no event commits; a wheel tick down the list pushes the
    offset to +36 (the clamp's lower bound exceeds its upper bound), and the
    settle then snaps it to -36.
   */
  method EmptyColumnNeverCommits() returns (wheeled: real, settled: real,
                                            settleCommit: Option<map<string, Value>>,
                                            dragCommit: Option<map<string, Value>>)
    ensures wheeled == 36.0 && settled == -36.0
    ensures settleCommit == None && dragCommit == None
  {
    var p := new Picker(36.0);
    p.Init([PickerColumnData("Empty", [])], None, 36.0);
    p.Wheel("Empty", [], 1.0);
    wheeled := p.Offset("Empty");
    assert SnapIndex(36.0, 36.0) == 1;
    settleCommit := p.FireSettle("Empty");
    settled := p.Offset("Empty");
    p.TouchStart("Empty", 0.0);
    p.TouchMove("Empty", [], 10.0);
    dragCommit := p.TouchEnd("Empty", []);
  }
}
