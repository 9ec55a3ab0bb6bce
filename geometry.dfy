/**
  Pixel arithmetic of one picker column: the bounds an offset is clamped to,
  the step a wheel tick makes, the snap of an offset to the nearest option,
  and the layout of the visible window.  Offsets are exact reals; an offset
  of -k * itemHeight puts option k in the highlighted row.
 */
module PickerGeometry {

  function Abs(x: real): (r: real)
    ensures r >= 0.0 && (r == x || r == -x)
  {
    if x < 0.0 then -x else x
  }

  /** The lowest offset of a column with n options: its last option is highlighted. */
  function MinOffset(n: nat, itemHeight: real): real
  {
    -((n - 1) as real * itemHeight)
  }

  /** True when p lies between the last option's offset and the first option's offset. */
  predicate InBounds(p: real, n: nat, itemHeight: real)
  {
    MinOffset(n, itemHeight) <= p <= 0.0
  }

  /**
    The boundary check shared by the drag and wheel handlers: an offset above
    0 becomes 0, otherwise one below the minimum becomes the minimum.  For an
    empty column the minimum is +itemHeight, above the maximum 0, so any
    offset that is not positive is pushed down to +itemHeight.
   */
  function Clamp(p: real, n: nat, itemHeight: real): (r: real)
    requires itemHeight > 0.0
    ensures n >= 1 ==> InBounds(r, n, itemHeight)
    ensures n >= 1 && InBounds(p, n, itemHeight) ==> r == p
    ensures p > 0.0 ==> r == 0.0
    ensures n >= 1 && p < MinOffset(n, itemHeight) ==> r == MinOffset(n, itemHeight)
    ensures n == 0 && p <= 0.0 ==> r == itemHeight
  {
    if p > 0.0 then 0.0
    else if p < MinOffset(n, itemHeight) then MinOffset(n, itemHeight)
    else p
  }

  /**
    The option index nearest to offset p: Math.round(|p| / itemHeight), where
    a half rounds up.  Measured in items, |p| lies in the half-open window of
    width one centred on the index.
   */
  function SnapIndex(p: real, itemHeight: real): (k: nat)
    requires itemHeight > 0.0
    ensures k as real - 0.5 <= Abs(p) / itemHeight < k as real + 0.5
  {
    (Abs(p) / itemHeight + 0.5).Floor
  }

  /** The offset that puts option `index` in the highlighted row. */
  function IndexOffset(index: nat, itemHeight: real): real
  {
    -(index as real) * itemHeight
  }

  /**
    The offset a drag end or a wheel settle snaps p to: never below the top
    of the list, and for an offset that is not positive, at most half an item
    away from it.
   */
  function SnapOffset(p: real, itemHeight: real): (r: real)
    requires itemHeight > 0.0
    ensures r <= 0.0
    ensures p <= 0.0 ==> 2.0 * Abs(r - p) <= itemHeight
  {
    var k := SnapIndex(p, itemHeight);
    HalfItemAway(p, k, itemHeight);
    IndexOffset(k, itemHeight)
  }

  lemma HalfItemAway(p: real, k: nat, h: real)
    requires h > 0.0 && k as real - 0.5 <= Abs(p) / h < k as real + 0.5
    ensures -(k as real) * h <= 0.0
    ensures p <= 0.0 ==> 2.0 * Abs(IndexOffset(k, h) - p) <= h
  {
    ScaleWindow(Abs(p), k, h);
    MulLe(0.0, k as real, h);
    assert IndexOffset(k, h) == -(k as real * h);
  }

  /** Measured in pixels, a length within half an item of k items. */
  lemma ScaleWindow(a: real, k: nat, h: real)
    requires h > 0.0 && k as real - 0.5 <= a / h < k as real + 0.5
    ensures k as real * h - 0.5 * h <= a < k as real * h + 0.5 * h
  {
    var lo := k as real - 0.5;
    var hi := k as real + 0.5;
    assert lo * h == k as real * h - 0.5 * h;
    assert hi * h == k as real * h + 0.5 * h;
    DivMul(a, h);
    ScaleBetween(lo, a / h, hi, a, h);
  }

  /** A quotient between lo and hi scales back to a length between lo and hi items. */
  lemma ScaleBetween(lo: real, q: real, hi: real, a: real, h: real)
    requires h > 0.0 && q * h == a && lo <= q < hi
    ensures lo * h <= a < hi * h
  {
    MulLe(lo, q, h);
    MulLt(q, hi, h);
  }

  lemma MulLe(a: real, b: real, h: real)
    requires h > 0.0 && a <= b
    ensures a * h <= b * h
  {
  }

  lemma MulLt(a: real, b: real, h: real)
    requires h > 0.0 && a < b
    ensures a * h < b * h
  {
  }

  lemma DivLe(a: real, b: real, h: real)
    requires h > 0.0 && a <= b
    ensures a / h <= b / h
  {
  }

  lemma DivMul(a: real, h: real)
    requires h > 0.0
    ensures (a / h) * h == a
  {
  }

  lemma MulDiv(u: real, h: real)
    requires h > 0.0
    ensures (u * h) / h == u
  {
  }

  /** Snapping an in-bounds offset of a non-empty column gives an index of one of its options. */
  lemma SnapIndexInRange(p: real, n: nat, itemHeight: real)
    requires itemHeight > 0.0 && n >= 1 && InBounds(p, n, itemHeight)
    ensures SnapIndex(p, itemHeight) < n
    ensures InBounds(SnapOffset(p, itemHeight), n, itemHeight)
  {
    var k := SnapIndex(p, itemHeight);
    var last := (n - 1) as real;
    assert Abs(p) <= last * itemHeight;
    DivLe(Abs(p), last * itemHeight, itemHeight);
    MulDiv(last, itemHeight);
    assert Abs(p) / itemHeight <= last;
    assert k <= n - 1;
    MulLe(k as real, last, itemHeight);
    assert IndexOffset(k, itemHeight) == -(k as real * itemHeight);
  }

  /** The offset of option k snaps back to option k. */
  lemma SnapIndexOffset(k: nat, itemHeight: real)
    requires itemHeight > 0.0
    ensures SnapIndex(IndexOffset(k, itemHeight), itemHeight) == k
  {
    var a := Abs(IndexOffset(k, itemHeight));
    assert a == k as real * itemHeight;
    MulDiv(k as real, itemHeight);
    assert a / itemHeight == k as real;
  }

  /** Snapping is idempotent: an already snapped offset stays where it is. */
  lemma SnapOffsetIdempotent(p: real, itemHeight: real)
    requires itemHeight > 0.0
    ensures SnapOffset(SnapOffset(p, itemHeight), itemHeight) == SnapOffset(p, itemHeight)
  {
    SnapIndexOffset(SnapIndex(p, itemHeight), itemHeight);
  }

  /** Measured in items, no option index is strictly closer to |p| than the snap index. */
  lemma SnapIndexNearest(p: real, j: nat, itemHeight: real)
    requires itemHeight > 0.0
    ensures Abs(Abs(p) / itemHeight - SnapIndex(p, itemHeight) as real)
            <= Abs(Abs(p) / itemHeight - j as real)
  {
    NearestInteger(Abs(p) / itemHeight, SnapIndex(p, itemHeight), j);
  }

  lemma NearestInteger(x: real, k: int, j: int)
    requires k as real - 0.5 <= x < k as real + 0.5
    ensures Abs(x - k as real) <= Abs(x - j as real)
  {
    if j < k {
      assert j as real <= k as real - 1.0;
    } else if j > k {
      assert j as real >= k as real + 1.0;
    }
  }

  /**
    A drag sample at y, with the anchor at `anchor`, moves offset p by the
    finger travel, clamped: the offset follows the finger exactly while it
    stays in bounds, and a bound never moves it further than the finger went.
   */
  function MoveOffset(p: real, anchor: real, y: real, n: nat, itemHeight: real): (r: real)
    requires itemHeight > 0.0
    ensures n >= 1 ==> InBounds(r, n, itemHeight)
    ensures n >= 1 && InBounds(p + (y - anchor), n, itemHeight) ==> r == p + (y - anchor)
    ensures n >= 1 && InBounds(p, n, itemHeight) ==> Abs(r - p) <= Abs(y - anchor)
  {
    Clamp(p + (y - anchor), n, itemHeight)
  }

  /**
    The offset after the drag samples ys, each re-anchoring the drag at the
    sample just handled.
   */
  function DragOffset(p: real, anchor: real, ys: seq<real>, n: nat, itemHeight: real): real
    requires itemHeight > 0.0
    decreases ys
  {
    if ys == [] then p
    else DragOffset(MoveOffset(p, anchor, ys[0], n, itemHeight), ys[0], ys[1..], n, itemHeight)
  }

  /**
    While no sample would take the content past a bound, a drag moves the
    offset by exactly the finger travel from the drag's start to its last sample.
   */
  lemma {:induction false} DragFollowsFinger(p: real, anchor: real, ys: seq<real>, n: nat, itemHeight: real)
    requires itemHeight > 0.0 && n >= 1 && |ys| >= 1
    requires forall i :: 0 <= i < |ys| ==> InBounds(p + (ys[i] - anchor), n, itemHeight)
    ensures DragOffset(p, anchor, ys, n, itemHeight) == p + (ys[|ys| - 1] - anchor)
    decreases ys
  {
    var p1 := MoveOffset(p, anchor, ys[0], n, itemHeight);
    assert p1 == p + (ys[0] - anchor);
    if |ys| > 1 {
      forall i | 0 <= i < |ys[1..]|
        ensures InBounds(p1 + (ys[1..][i] - ys[0]), n, itemHeight)
      {
        assert p1 + (ys[1..][i] - ys[0]) == p + (ys[i + 1] - anchor);
      }
      DragFollowsFinger(p1, ys[0], ys[1..], n, itemHeight);
    }
  }

  /** Every drag, however long, leaves a non-empty column's offset in bounds. */
  lemma {:induction false} DragStaysInBounds(p: real, anchor: real, ys: seq<real>, n: nat, itemHeight: real)
    requires itemHeight > 0.0 && n >= 1 && InBounds(p, n, itemHeight)
    ensures InBounds(DragOffset(p, anchor, ys, n, itemHeight), n, itemHeight)
    decreases ys
  {
    if ys != [] {
      DragStaysInBounds(MoveOffset(p, anchor, ys[0], n, itemHeight), ys[0], ys[1..], n, itemHeight);
    }
  }

  /**
    One wheel tick moves the offset by a third of an item: down the list
    (towards more negative offsets) when deltaY is positive, up otherwise,
    including deltaY == 0.
   */
  function WheelStep(deltaY: real, itemHeight: real): (d: real)
    requires itemHeight > 0.0
    ensures 3.0 * Abs(d) == itemHeight
    ensures d < 0.0 <==> deltaY > 0.0
  {
    if deltaY > 0.0 then -itemHeight / 3.0 else itemHeight / 3.0
  }

  /**
    The offset a wheel tick leaves behind, clamped like a drag: a whole third
    of an item while it stays in bounds, never more than that.
   */
  function WheelOffset(p: real, deltaY: real, n: nat, itemHeight: real): (r: real)
    requires itemHeight > 0.0
    ensures n >= 1 ==> InBounds(r, n, itemHeight)
    ensures n >= 1 && InBounds(p + WheelStep(deltaY, itemHeight), n, itemHeight)
            ==> r == p + WheelStep(deltaY, itemHeight)
    ensures n >= 1 && InBounds(p, n, itemHeight) ==> 3.0 * Abs(r - p) <= itemHeight
  {
    Clamp(p + WheelStep(deltaY, itemHeight), n, itemHeight)
  }

  /**
    Starting from option k's offset, ticks down the list leave option k
    highlighted after the first tick, move the highlight to option k + 1 on
    the second, and the third lands exactly on option k + 1's offset.
   */
  lemma WheelTicksToNextItem(k: nat, n: nat, deltaY: real, itemHeight: real)
    requires itemHeight > 0.0 && k + 1 < n && deltaY > 0.0
    ensures var p1 := WheelOffset(IndexOffset(k, itemHeight), deltaY, n, itemHeight);
            var p2 := WheelOffset(p1, deltaY, n, itemHeight);
            var p3 := WheelOffset(p2, deltaY, n, itemHeight);
            SnapIndex(p1, itemHeight) == k && SnapIndex(p2, itemHeight) == k + 1 &&
            p3 == IndexOffset(k + 1, itemHeight)
  {
    var h := itemHeight;
    MulLe(k as real + 1.0, (n - 1) as real, h);
    var p1 := WheelOffset(IndexOffset(k, h), deltaY, n, h);
    PartialItem(k, 1.0 / 3.0, n, h);
    assert p1 == -((k as real + 1.0 / 3.0) * h);
    var p2 := WheelOffset(p1, deltaY, n, h);
    PartialItem(k, 2.0 / 3.0, n, h);
    assert p2 == -((k as real + 2.0 / 3.0) * h);
    PartialItem(k, 1.0, n, h);
  }

  /**
    The offset f of an item below option k is in bounds when option k + 1
    exists, and measures k + f items.
   */
  lemma PartialItem(k: nat, f: real, n: nat, h: real)
    requires h > 0.0 && k + 1 < n && 0.0 <= f <= 1.0
    ensures InBounds(-((k as real + f) * h), n, h)
    ensures -((k as real + f) * h) == IndexOffset(k, h) - f * h
    ensures Abs(-((k as real + f) * h)) / h == k as real + f
  {
    MulLe(k as real + f, (n - 1) as real, h);
    MulDiv(k as real + f, h);
  }

  /**
    A tick up undoes a tick down (and vice versa) as long as neither one
    reaches a bound of a non-empty column.
   */
  lemma WheelTickReversible(p: real, up: real, down: real, n: nat, itemHeight: real)
    requires itemHeight > 0.0 && n >= 1 && up <= 0.0 && down > 0.0
    requires InBounds(p + WheelStep(down, itemHeight), n, itemHeight)
    requires InBounds(p, n, itemHeight)
    ensures WheelOffset(WheelOffset(p, down, n, itemHeight), up, n, itemHeight) == p
  {
  }

  /** Number of whole rows the viewport shows: Math.floor(height / itemHeight). */
  function VisibleItems(height: real, itemHeight: real): (v: int)
    requires itemHeight > 0.0
    ensures v as real * itemHeight <= height < (v + 1) as real * itemHeight
  {
    FloorRows(height, itemHeight);
    (height / itemHeight).Floor
  }

  lemma FloorRows(height: real, h: real)
    requires h > 0.0
    ensures var v := (height / h).Floor;
            v as real * h <= height < (v + 1) as real * h
  {
    var x := height / h;
    var v := x.Floor;
    assert v as real <= x < v as real + 1.0;
    MulLe(v as real, x, h);
    MulLt(x, v as real + 1.0, h);
    DivMul(height, h);
    assert x * h == height;
    assert (v + 1) as real * h == (v as real + 1.0) * h;
    assert height < (v + 1) as real * h;
  }

  /** The row of the highlight: Math.floor(visibleItems / 2), half the visible rows rounded down. */
  function MiddleRow(height: real, itemHeight: real): (j: int)
    requires itemHeight > 0.0
    ensures 2 * j <= VisibleItems(height, itemHeight) <= 2 * j + 1
  {
    VisibleItems(height, itemHeight) / 2
  }

  /**
    Top of the highlighted row, middleRow * itemHeight: the top of the
    lowest whole row whose top is at or above half the viewport.
   */
  function MiddlePosition(height: real, itemHeight: real): (m: real)
    requires itemHeight > 0.0
    ensures 2.0 * m <= height < 2.0 * m + 2.0 * itemHeight
    ensures m == (height / (2.0 * itemHeight)).Floor as real * itemHeight
  {
    var v := VisibleItems(height, itemHeight);
    var j := MiddleRow(height, itemHeight);
    HalfRows(v, j, height, itemHeight);
    PairsOfRows(j, height, itemHeight);
    j as real * itemHeight
  }

  /** j is the number of whole two-row pairs above height when 2j rows fit and 2j + 2 do not. */
  lemma PairsOfRows(j: int, height: real, h: real)
    requires h > 0.0
    requires 2.0 * (j as real * h) <= height < 2.0 * (j as real * h) + 2.0 * h
    ensures (height / (2.0 * h)).Floor == j
  {
    var w := 2.0 * h;
    var x := height / w;
    DivMul(height, w);
    assert j as real * w == 2.0 * (j as real * h);
    assert (j as real + 1.0) * w == 2.0 * (j as real * h) + 2.0 * h;
    assert x * w == height;
    if x < j as real {
      MulLt(x, j as real, w);
      assert false;
    }
    if x >= j as real + 1.0 {
      MulLe(j as real + 1.0, x, w);
      assert false;
    }
    assert j as real <= x < j as real + 1.0;
  }

  lemma HalfRows(v: int, j: int, height: real, h: real)
    requires h > 0.0 && 2 * j <= v <= 2 * j + 1
    requires v as real * h <= height < (v + 1) as real * h
    ensures 2.0 * (j as real * h) <= height < 2.0 * (j as real * h) + 2.0 * h
  {
    var m := j as real * h;
    MulLe(2.0 * j as real, v as real, h);
    assert (2.0 * j as real) * h == 2.0 * m;
    MulLe(v as real + 1.0, 2.0 * j as real + 2.0, h);
    assert (2.0 * j as real + 2.0) * h == 2.0 * m + 2.0 * h;
  }
}
