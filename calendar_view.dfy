/**
 * CalendarView: the month grid (`CalendarGrid`), the point-to-date mapping used by the grid's drag
 * gesture, the month-swipe decision and the screen's gesture state. Its copies of the streak,
 * emotion, tone and marker computations are those of `CalendarViewModel`.
 */
module CalendarView {
  import opened Wrappers
  import opened Dates
  import opened CalendarViewModel

  /** The grid always shows six weeks. */
  const GridCells: int := 42
  const ColumnCount: int := 7
  /** `cal.firstWeekday = 1`: weeks start on Sunday. */
  const FirstWeekday: int := 1
  const CellHeight: real := 46.0
  const HorizontalSpacing: real := 6.0
  const VerticalSpacing: real := 6.0

  // ---------------------------------------------------------------- the grid

  /** `monthDays`: the days of month index `m`, in order. */
  function MonthDays(m: int): (days: seq<int>)
    ensures |days| == MonthLength(m)
    ensures forall i :: 0 <= i < |days| ==> days[i] == MonthStart(m) + i
    ensures forall day :: day in days <==> InMonth(day, m)
  {
    MonthStartNext(m);
    var days := seq(MonthLength(m), i requires 0 <= i < MonthLength(m) => MonthStart(m) + i);
    assert forall day :: InMonth(day, m) ==> days[day - MonthStart(m)] == day;
    days
  }

  /** `weekdayOffset`: how many days of the previous month fill the first row. */
  function LeadingCount(m: int): int
  {
    (Weekday(MonthStart(m)) - FirstWeekday + 7) % 7
  }

  /**
   * `leading`: the days of the previous month that fill the first row before the month's first
   * day, so that the row starts on the first weekday.
   */
  function Leading(m: int): (days: seq<int>)
    ensures |days| == LeadingCount(m)
    ensures forall i :: 0 <= i < |days| ==> days[i] == MonthStart(m) - LeadingCount(m) + i
    ensures forall i :: 0 <= i < |days| ==> InMonth(days[i], m - 1)
    ensures days != [] ==> Weekday(days[0]) == FirstWeekday
  {
    MonthStartNext(m - 1);
    LeadingCountRange(m);
    GridWeekday(MonthStart(m), LeadingCount(m), 0);
    var first := MonthDays(m)[0];
    var lead := LeadingCount(m);
    seq(lead, i requires 0 <= i < lead => first - (lead - i))
  }

  /** `trailing`: the days of the next month that complete the 42 cells. */
  function Trailing(m: int): (days: seq<int>)
    ensures |days| == GridCells - LeadingCount(m) - MonthLength(m)
    ensures forall i :: 0 <= i < |days| ==> days[i] == MonthStart(m) + MonthLength(m) + i
    ensures forall i :: 0 <= i < |days| ==> InMonth(days[i], m + 1)
  {
    MonthStartNext(m);
    MonthStartNext(m + 1);
    LeadingCountRange(m);
    var monthDays := MonthDays(m);
    var last := monthDays[|monthDays| - 1];
    var count := GridCells - LeadingCount(m) - |monthDays|;
    seq(count, i requires 0 <= i < count => last + i + 1)
  }

  /** `gridDates`: leading days, the month's days and trailing days. */
  function GridDates(m: int): seq<int>
  {
    Leading(m) + MonthDays(m) + Trailing(m)
  }

  lemma LeadingCountRange(m: int)
    ensures 0 <= LeadingCount(m) <= 6
    ensures LeadingCount(m) == Weekday(MonthStart(m)) - 1
  {
  }

  /** Day `lead` before the month's first day falls on a Sunday when `lead` is the leading count. */
  lemma GridWeekday(first: int, lead: int, i: int)
    requires lead == Weekday(first) - 1 && 0 <= i
    ensures Weekday(first - lead + i) == i % 7 + 1
  {
    var q := (first + 4) / 7;
    assert first + 4 == 7 * q + lead;
    assert first - lead + i + 4 == 7 * q + i;
  }

  /** The grid is 42 consecutive days, starting `LeadingCount(m)` days before the month's first. */
  lemma GridLayout(m: int)
    ensures |GridDates(m)| == GridCells
    ensures forall i :: 0 <= i < GridCells ==> GridDates(m)[i] == MonthStart(m) - LeadingCount(m) + i
    ensures GridCells - LeadingCount(m) - MonthLength(m) >= 5
  {
    var grid := GridDates(m);
    var lead := LeadingCount(m);
    LeadingCountRange(m);
    forall i | 0 <= i < GridCells ensures grid[i] == MonthStart(m) - lead + i {
      if i < lead {
        assert grid[i] == Leading(m)[i];
      } else if i < lead + MonthLength(m) {
        assert grid[i] == MonthDays(m)[i - lead];
      } else {
        assert grid[i] == Trailing(m)[i - lead - MonthLength(m)];
      }
    }
  }

  /**
   * The grid starts on a Sunday, so each column is one weekday, Sunday first; the month's days take
   * the `MonthLength(m)` cells after the leading ones, all in the first row onwards.
   */
  lemma GridFacts(m: int)
    ensures |GridDates(m)| == GridCells
    ensures forall i :: 0 <= i < GridCells ==> Weekday(GridDates(m)[i]) == i % 7 + 1
    ensures forall i :: 0 <= i < GridCells ==>
      (InMonth(GridDates(m)[i], m) <==> LeadingCount(m) <= i < LeadingCount(m) + MonthLength(m))
  {
    GridLayout(m);
    LeadingCountRange(m);
    MonthStartNext(m);
    forall i | 0 <= i < GridCells ensures Weekday(GridDates(m)[i]) == i % 7 + 1 {
      GridWeekday(MonthStart(m), LeadingCount(m), i);
    }
  }

  /** Every day of the month has a cell: the one `LeadingCount(m)` past its offset in the month. */
  lemma GridCoversMonth(m: int, day: int)
    requires InMonth(day, m)
    ensures 0 <= day - MonthStart(m) + LeadingCount(m) < GridCells
    ensures GridDates(m)[day - MonthStart(m) + LeadingCount(m)] == day
  {
    GridLayout(m);
    LeadingCountRange(m);
    MonthStartNext(m);
  }

  // ---------------------------------------------------------------- from a point to a date

  /** `cellWidth + horizontalSpacing`: the distance between the left edges of two columns. */
  function StepX(width: real): (step: real)
    requires width > 0.0
    ensures step > 0.0
  {
    (width - (ColumnCount - 1) as real * HorizontalSpacing) / ColumnCount as real + HorizontalSpacing
  }

  /** `cellHeight + verticalSpacing`: the distance between the top edges of two rows. */
  const StepY: real := CellHeight + VerticalSpacing

  /** `Int((location.x / stepX).rounded(.down))`. */
  function Column(x: real, width: real): int
    requires width > 0.0
  {
    (x / StepX(width)).Floor
  }

  /** `Int((location.y / stepY).rounded(.down))`. */
  function Row(y: real): int
  {
    (y / StepY).Floor
  }

  /**
   * `dateAt(location:in:)`: the grid date under the point (x, y) of a grid `width` by `height`
   * large, or nothing for an empty grid or a point outside the cells.
   */
  function DateAt(x: real, y: real, width: real, height: real, grid: seq<int>): Option<int>
  {
    if width <= 0.0 || height <= 0.0 then None
    else
      var col := Column(x, width);
      var row := Row(y);
      if col < 0 || col >= ColumnCount || row < 0 then None
      else
        var index := row * ColumnCount + col;
        if index < |grid| then Some(grid[index]) else None
  }

  /** The floor of `x / step` is `k` when `x` lies in the `k`-th interval of length `step`. */
  lemma FloorOfQuotient(x: real, step: real, k: int)
    requires step > 0.0 && k as real * step <= x < (k + 1) as real * step
    ensures (x / step).Floor == k
  {
    var q := x / step;
    assert q * step == x;
    QuotientOrder(q, k as real, step);
    QuotientOrder((k + 1) as real, q, step);
    assert k as real <= q < (k + 1) as real;
  }

  /** Multiplying by a positive step keeps the order. */
  lemma QuotientOrder(a: real, b: real, step: real)
    requires step > 0.0
    ensures a < b <==> a * step < b * step
  {
    if a < b {
      assert (b - a) * step > 0.0;
    } else {
      assert (a - b) * step >= 0.0;
    }
  }

  /**
   * Every point inside the cell of index `i` (column `i % 7`, row `i / 7`) gives that cell's date:
   * the point-to-date mapping inverts the layout.
   */
  lemma DateAtCell(x: real, y: real, width: real, height: real, grid: seq<int>, i: int)
    requires width > 0.0 && height > 0.0 && 0 <= i < |grid|
    requires (i % 7) as real * StepX(width) <= x < (i % 7 + 1) as real * StepX(width)
    requires (i / 7) as real * StepY <= y < (i / 7 + 1) as real * StepY
    ensures DateAt(x, y, width, height, grid) == Some(grid[i])
  {
    FloorOfQuotient(x, StepX(width), i % 7);
    FloorOfQuotient(y, StepY, i / 7);
  }

  /**
   * Nothing is found for an empty grid size, left of the first column, right of the last or above
   * the first row; what is found is a date of the grid.
   */
  lemma DateAtOutside(x: real, y: real, width: real, height: real, grid: seq<int>)
    ensures width <= 0.0 || height <= 0.0 ==> DateAt(x, y, width, height, grid) == None
    ensures width > 0.0 && x < 0.0 ==> DateAt(x, y, width, height, grid) == None
    ensures width > 0.0 && y < 0.0 ==> DateAt(x, y, width, height, grid) == None
    ensures width > 0.0 && x >= 7.0 * StepX(width) ==> DateAt(x, y, width, height, grid) == None
    ensures DateAt(x, y, width, height, grid).Some? ==> DateAt(x, y, width, height, grid).value in grid
  {
    if width > 0.0 && height > 0.0 {
      if x < 0.0 {
        ColumnLeft(x, width);
      }
      if x >= 7.0 * StepX(width) {
        ColumnRight(x, width);
      }
      if y < 0.0 {
        RowAbove(y);
      }
    }
  }

  /** A point left of the grid falls in a negative column. */
  lemma ColumnLeft(x: real, width: real)
    requires width > 0.0 && x < 0.0
    ensures Column(x, width) < 0
  {
    var q := x / StepX(width);
    assert q * StepX(width) == x;
    QuotientOrder(q, 0.0, StepX(width));
  }

  /** A point right of the seventh column falls in a column past the last. */
  lemma ColumnRight(x: real, width: real)
    requires width > 0.0 && x >= 7.0 * StepX(width)
    ensures Column(x, width) >= ColumnCount
  {
    var s := StepX(width);
    var q := x / s;
    assert q * s == x;
    QuotientOrder(q, 7.0, s);
    assert !(q * s < 7.0 * s);
  }

  /** A point above the grid falls in a negative row. */
  lemma RowAbove(y: real)
    requires y < 0.0
    ensures Row(y) < 0
  {
    var p := y / StepY;
    assert p * StepY == y;
    QuotientOrder(p, 0.0, StepY);
  }

  /** On the month grid, the column under the point is the weekday of the date found, Sunday first. */
  lemma DateAtWeekday(x: real, y: real, width: real, height: real, m: int)
    requires DateAt(x, y, width, height, GridDates(m)).Some?
    ensures Weekday(DateAt(x, y, width, height, GridDates(m)).value) == Column(x, width) + 1
  {
    GridFacts(m);
    var col := Column(x, width);
    var index := Row(y) * ColumnCount + col;
    assert index % 7 == col;
  }

  // ---------------------------------------------------------------- the month swipe

  /** The horizontal movement must exceed this multiple of the vertical one. */
  const SwipeRatio: real := 1.8
  /**
   * `DragGesture(minimumDistance: 60)`: the gesture is recognised, and `onEnded` runs, only once
   * the finger has travelled this far.
   */
  const MinimumSwipeDistance: real := 60.0

  function Abs(r: real): real
  {
    if r < 0.0 then -r else r
  }

  /**
   * The `onEnded` decision of `monthSwipeGesture`: a mostly horizontal drag of `width` by `height`
   * moves one month, forward for a drag to the left.
   */
  function SwipeMonthOffset(width: real, height: real): Option<int>
  {
    if Abs(width) > Abs(height) * SwipeRatio then Some(if width < 0.0 then 1 else -1) else None
  }

  /**
   * Once the gesture has been recognised, the `onEnded` decision moves exactly when the horizontal
   * movement exceeds 1.8 times the vertical one, one month forward for a leftward drag and one back
   * for a rightward one; mirroring the drag reverses it.
   */
  lemma SwipeFacts(width: real, height: real)
    ensures SwipeMonthOffset(width, height).Some? <==> Abs(width) > 1.8 * Abs(height)
    ensures SwipeMonthOffset(width, height) == Some(1) <==> width < 0.0 && -width > 1.8 * Abs(height)
    ensures SwipeMonthOffset(width, height) == Some(-1) <==> width > 0.0 && width > 1.8 * Abs(height)
    ensures SwipeMonthOffset(width, height).Some? ==>
      SwipeMonthOffset(-width, height) == Some(-SwipeMonthOffset(width, height).value)
    ensures SwipeMonthOffset(0.0, height) == None
  {
  }

  // ---------------------------------------------------------------- the screen's state

  /** The `@State` of `CalendarView` and `CalendarGrid` that the gestures and buttons change. */
  class CalendarScreen {
    var selectedDate: Instant
    /** The month shown, as a month index. */
    var displayedMonth: int
    /** `gridSize`. */
    var gridWidth: real
    var gridHeight: real
    /** `lastDragDate`, as its day. */
    var lastDragDay: Option<int>

    constructor(now: Instant, currentMonth: int)
      requires InMonth(now.day, currentMonth)
      ensures selectedDate == now && displayedMonth == currentMonth
      ensures gridWidth == 0.0 && gridHeight == 0.0 && lastDragDay == None
    {
      selectedDate := now;
      displayedMonth := currentMonth;
      gridWidth := 0.0;
      gridHeight := 0.0;
      lastDragDay := None;
    }

    /**
     * The end of a drag under `monthSwipeGesture`. `recognized` says whether the drag travelled
     * `MinimumSwipeDistance` and so became the gesture; only then does its `onEnded` run and move
     * the month by the swipe's offset. A shorter drag changes nothing.
     */
    method OnMonthSwipeEnded(recognized: bool, width: real, height: real)
      modifies this
      ensures displayedMonth ==
        if recognized && SwipeMonthOffset(width, height).Some? then AddMonths(old(displayedMonth), SwipeMonthOffset(width, height).value)
        else old(displayedMonth)
      ensures selectedDate == old(selectedDate) && lastDragDay == old(lastDragDay)
      ensures gridWidth == old(gridWidth) && gridHeight == old(gridHeight)
    {
      var offset := SwipeMonthOffset(width, height);
      if recognized && offset.Some? {
        displayedMonth := AddMonths(displayedMonth, offset.value);
      }
    }

    /** The header's chevron buttons: one month back or forward. */
    method OnChevronTapped(forward: bool)
      modifies this
      ensures displayedMonth == AddMonths(old(displayedMonth), if forward then 1 else -1)
      ensures selectedDate == old(selectedDate) && lastDragDay == old(lastDragDay)
      ensures gridWidth == old(gridWidth) && gridHeight == old(gridHeight)
    {
      displayedMonth := AddMonths(displayedMonth, if forward then 1 else -1);
    }

    /** The header's "오늘" button. */
    method OnTodayTapped(now: Instant, currentMonth: int)
      requires InMonth(now.day, currentMonth)
      modifies this
      ensures selectedDate == now && displayedMonth == currentMonth
      ensures lastDragDay == old(lastDragDay) && gridWidth == old(gridWidth) && gridHeight == old(gridHeight)
    {
      selectedDate := now;
      displayedMonth := currentMonth;
    }

    /** The `GeometryReader` reporting the grid's size. */
    method OnGridResized(width: real, height: real)
      modifies this
      ensures gridWidth == width && gridHeight == height
      ensures selectedDate == old(selectedDate) && displayedMonth == old(displayedMonth) && lastDragDay == old(lastDragDay)
    {
      gridWidth := width;
      gridHeight := height;
    }

    /** A cell's `onTapGesture`: selects the cell's date, at the start of its day. */
    method OnCellTapped(day: int)
      modifies this
      ensures selectedDate == Instant(day, 0)
      ensures displayedMonth == old(displayedMonth) && lastDragDay == old(lastDragDay)
      ensures gridWidth == old(gridWidth) && gridHeight == old(gridHeight)
    {
      selectedDate := Instant(day, 0);
    }

    /**
     * The grid drag's `onChanged`: selects the date under the point unless it is the one the drag
     * selected last, so moving within one cell selects it once.
     */
    method OnGridDragChanged(x: real, y: real)
      modifies this
      ensures var found := DateAt(x, y, gridWidth, gridHeight, GridDates(displayedMonth));
        if found.None? || old(lastDragDay) == found then
          selectedDate == old(selectedDate) && lastDragDay == old(lastDragDay)
        else
          selectedDate == Instant(found.value, 0) && lastDragDay == found
      ensures displayedMonth == old(displayedMonth) && gridWidth == old(gridWidth) && gridHeight == old(gridHeight)
    {
      var found := DateAt(x, y, gridWidth, gridHeight, GridDates(displayedMonth));
      if found.None? || lastDragDay == found {
        return;
      }
      lastDragDay := found;
      selectedDate := Instant(found.value, 0);
    }

    /** The grid drag's `onEnded`. */
    method OnGridDragEnded()
      modifies this
      ensures lastDragDay == None
      ensures selectedDate == old(selectedDate) && displayedMonth == old(displayedMonth)
      ensures gridWidth == old(gridWidth) && gridHeight == old(gridHeight)
    {
      lastDragDay := None;
    }
  }
}
