/** The month-grid calendar widget of static/js/calendar.js: a 7-column grid of
    day cells for the displayed month, each carrying the assignments due that
    day, with month-by-month navigation.  The DOM is abstracted into the
    sequence of cells the grid element receives; the clock is a parameter. */
module Calendar {
  import opened Basics
  import opened Dates

  /** One entry of `options.assignments`; `due` is `None` when the due date
      does not parse (an invalid `Date`, which matches no day). */
  datatype CalendarItem = CalendarItem(
    title: string, due: Option<DateTime>, completed: bool, isOverdue: bool, course: string)

  datatype Status = Completed | Overdue | Pending

  /** The object `getAssignmentsForDate` yields: the item and its derived status. */
  datatype DayAssignment = DayAssignment(item: CalendarItem, status: Status)

  /** A child of the grid element: an empty alignment placeholder, or a day
      element with its date, its `other-month` and `today` classes and the
      assignments due on it. */
  datatype Cell =
    | Placeholder
    | Day(date: Date, otherMonth: bool, today: bool, assignments: seq<DayAssignment>)

  const MonthNames: seq<string> := [
    "January", "February", "March", "April", "May", "June",
    "July", "August", "September", "October", "November", "December"]

  /** Text of the `#currentMonth` title. */
  function MonthTitle(y: int, m: int): string
    requires 0 <= m < 12
  {
    MonthNames[m] + " " + IntToString(y)
  }

  // ---------------------------------------------------------------------
  // Items of one day
  // ---------------------------------------------------------------------

  /** Completed first, then overdue, otherwise pending. */
  function StatusOf(item: CalendarItem): (s: Status)
    ensures s == Completed <==> item.completed
    ensures s == Overdue <==> !item.completed && item.isOverdue
    ensures s == Pending <==> !item.completed && !item.isOverdue
  {
    if item.completed then Completed else if item.isOverdue then Overdue else Pending
  }

  function StatusName(s: Status): string {
    match s
    case Completed => "completed"
    case Overdue => "overdue"
    case Pending => "pending"
  }

  /** `isSameDay`: same day of month, month and full year. */
  predicate IsSameDay(a: Date, b: Date) {
    a.day == b.day && a.month == b.month && a.year == b.year
  }

  predicate DueOn(item: CalendarItem, date: Date) {
    item.due.Some? && IsSameDay(item.due.value.date, date)
  }

  /** `getAssignmentsForDate`: the items due on `date`, in input order, each
      with its status. */
  function AssignmentsForDate(items: seq<CalendarItem>, date: Date): (r: seq<DayAssignment>)
    ensures |r| <= |items|
    ensures forall k :: 0 <= k < |r| ==>
              r[k].item in items && DueOn(r[k].item, date) && r[k].status == StatusOf(r[k].item)
    decreases |items|
  {
    if items == [] then []
    else
      (if DueOn(items[0], date) then [DayAssignment(items[0], StatusOf(items[0]))] else [])
        + AssignmentsForDate(items[1..], date)
  }

  /** Filtering keeps the input order: the items of a concatenation are the
      items of the first part followed by those of the second. */
  lemma {:induction false} AssignmentsForDateAppend(a: seq<CalendarItem>, b: seq<CalendarItem>, date: Date)
    ensures AssignmentsForDate(a + b, date) == AssignmentsForDate(a, date) + AssignmentsForDate(b, date)
    decreases |a|
  {
    if a != [] {
      assert (a + b)[0] == a[0];
      assert (a + b)[1..] == a[1..] + b;
      AssignmentsForDateAppend(a[1..], b, date);
    } else {
      assert a + b == b;
    }
  }

  /** An item appears in the day's list exactly when it is due that day. */
  lemma {:induction false} AssignmentsForDateMembership(items: seq<CalendarItem>, date: Date, x: CalendarItem)
    ensures DayAssignment(x, StatusOf(x)) in AssignmentsForDate(items, date)
            <==> x in items && DueOn(x, date)
    decreases |items|
  {
    if items != [] {
      AssignmentsForDateMembership(items[1..], date, x);
      assert items == [items[0]] + items[1..];
    }
  }

  // ---------------------------------------------------------------------
  // What a day element shows: up to three dots and a "+N more" hint
  // ---------------------------------------------------------------------

  /** One `calendar-event` dot: its class and its tooltip. */
  datatype Dot = Dot(cssClass: string, tooltip: string)

  /** The indicators `createDayElement` adds to a day with assignments. */
  datatype Indicators = Indicators(hasAssignment: bool, dots: seq<Dot>, more: Option<string>)

  function DotOf(a: DayAssignment): Dot {
    Dot("calendar-event event-" + StatusName(a.status), a.item.title + " – " + a.item.course)
  }

  /** Number of assignments the "+N more" hint stands for: max(0, n - 3). */
  function HiddenCount(n: nat): nat {
    if n > 3 then n - 3 else 0
  }

  function DayIndicators(assignments: seq<DayAssignment>): (r: Indicators)
    ensures r.hasAssignment <==> |assignments| > 0
    ensures |r.dots| == if |assignments| < 3 then |assignments| else 3
    ensures forall k :: 0 <= k < |r.dots| ==> r.dots[k] == DotOf(assignments[k])
    ensures r.more.Some? <==> |assignments| > 3
  {
    var n := |assignments|;
    var shown := if n < 3 then assignments else assignments[..3];
    Indicators(n > 0, seq(|shown|, k requires 0 <= k < |shown| => DotOf(shown[k])),
               if n > 3 then Some("+" + NatToString(n - 3) + " more") else None)
  }

  /** Nothing is lost: the dots and the number in the hint add up to the
      day's assignments, and the hint's number reads back as that count. */
  lemma DayIndicatorsAccount(assignments: seq<DayAssignment>)
    ensures var r := DayIndicators(assignments);
            |r.dots| + HiddenCount(|assignments|) == |assignments|
            && (r.more.Some? ==>
                  var hint := r.more.value;
                  |hint| > 6 && hint[..1] == "+"
                  && hint[|hint| - 5..] == " more"
                  && AllDigits(hint[1..|hint| - 5])
                  && ParseNat(hint[1..|hint| - 5]) == HiddenCount(|assignments|))
  {
    var n := |assignments|;
    if n > 3 {
      var digits := NatToString(n - 3);
      var hint := "+" + digits + " more";
      assert hint[1..|hint| - 5] == digits;
      ParseNatToString(n - 3);
    }
  }

  // ---------------------------------------------------------------------
  // The month grid
  // ---------------------------------------------------------------------

  /** `firstDay.getDay()`: the weekday column of the 1st of the month. */
  function FirstDayIndex(y: int, m: int): (f: int)
    requires 0 <= m < 12
    ensures 0 <= f < 7
  {
    Weekday(Date(y, m, 1))
  }

  /** The element `createDayElement` appends for `date`. */
  function DayElement(date: Date, otherMonth: bool, isToday: bool, items: seq<CalendarItem>): Cell {
    Day(date, otherMonth, isToday, AssignmentsForDate(items, date))
  }

  /** The last `firstDayIndex` days of the previous month, oldest first. */
  function LeadingCells(y: int, m: int, items: seq<CalendarItem>): (r: seq<Cell>)
    requires 0 <= m < 12
    ensures |r| == FirstDayIndex(y, m)
  {
    var f := FirstDayIndex(y, m);
    var p := PreviousMonth(y, m);
    var prevMonthDays := DaysInMonth(p.0, p.1);
    seq(f, k requires 0 <= k < f =>
      DayElement(Date(p.0, p.1, prevMonthDays - (f - 1 - k)), true, false, items))
  }

  function Placeholders(n: nat): (r: seq<Cell>)
    ensures |r| == n
  {
    seq(n, k => Placeholder)
  }

  /** The displayed month's own days; only the one equal to `today` is marked. */
  function BodyCells(y: int, m: int, today: Date, items: seq<CalendarItem>): (r: seq<Cell>)
    requires 0 <= m < 12
    ensures |r| == DaysInMonth(y, m)
  {
    var n := DaysInMonth(y, m);
    seq(n, k requires 0 <= k < n =>
      DayElement(Date(y, m, k + 1), false, IsSameDay(Date(y, m, k + 1), today), items))
  }

  /** The first days of the next month, up to 42 cells in all. */
  function TrailingCells(y: int, m: int, items: seq<CalendarItem>): (r: seq<Cell>)
    requires 0 <= m < 12
    ensures |r| == 42 - FirstDayIndex(y, m) - DaysInMonth(y, m)
  {
    var n := 42 - FirstDayIndex(y, m) - DaysInMonth(y, m);
    var q := FollowingMonth(y, m);
    seq(n, k requires 0 <= k < n => DayElement(Date(q.0, q.1, k + 1), true, false, items))
  }

  /** The children `renderCalendar` gives the grid element for month `(y, m)`. */
  function MonthGrid(y: int, m: int, showOtherMonths: bool, today: Date, items: seq<CalendarItem>): (g: seq<Cell>)
    requires 0 <= m < 12
  {
    if showOtherMonths then LeadingCells(y, m, items) + BodyCells(y, m, today, items) + TrailingCells(y, m, items)
    else Placeholders(FirstDayIndex(y, m)) + BodyCells(y, m, today, items)
  }

  /** `renderCalendar`'s three loops: leading cells (or placeholders), the
      month's days, then trailing cells. */
  method BuildGrid(y: int, m: int, showOtherMonths: bool, today: Date, items: seq<CalendarItem>)
    returns (grid: seq<Cell>)
    requires 0 <= m < 12
    ensures grid == MonthGrid(y, m, showOtherMonths, today, items)
  {
    var daysInMonth := DaysInMonth(y, m);
    var firstDayIndex := Weekday(Date(y, m, 1));
    grid := [];
    if showOtherMonths {
      var p := PreviousMonth(y, m);
      var prevMonthDays := DaysInMonth(p.0, p.1);
      var i := firstDayIndex - 1;
      while i >= 0
        invariant -1 <= i < firstDayIndex
        invariant grid == LeadingCells(y, m, items)[..firstDayIndex - 1 - i]
      {
        var dayNum := prevMonthDays - i;
        grid := grid + [DayElement(Date(p.0, p.1, dayNum), true, false, items)];
        i := i - 1;
      }
    } else {
      var i := 0;
      while i < firstDayIndex
        invariant 0 <= i <= firstDayIndex
        invariant grid == Placeholders(i)
      {
        grid := grid + [Placeholder];
        i := i + 1;
      }
    }
    ghost var lead := grid;
    var day := 1;
    while day <= daysInMonth
      invariant 1 <= day <= daysInMonth + 1
      invariant grid == lead + BodyCells(y, m, today, items)[..day - 1]
    {
      var date := Date(y, m, day);
      grid := grid + [DayElement(date, false, IsSameDay(date, today), items)];
      day := day + 1;
    }
    if showOtherMonths {
      ghost var body := grid;
      var q := FollowingMonth(y, m);
      var nextMonthDays := 42 - (firstDayIndex + daysInMonth);
      day := 1;
      while day <= nextMonthDays
        invariant 1 <= day <= nextMonthDays + 1
        invariant grid == body + TrailingCells(y, m, items)[..day - 1]
      {
        grid := grid + [DayElement(Date(q.0, q.1, day), true, false, items)];
        day := day + 1;
      }
    }
  }

  // ---------------------------------------------------------------------
  // Properties of the grid
  // ---------------------------------------------------------------------

  /** The grid cell by cell: which segment position `k` falls in and what it
      holds there. */
  lemma GridCellAt(y: int, m: int, showOtherMonths: bool, today: Date, items: seq<CalendarItem>, k: int)
    requires 0 <= m < 12
    ensures var f := FirstDayIndex(y, m);
            var n := DaysInMonth(y, m);
            |MonthGrid(y, m, showOtherMonths, today, items)| == (if showOtherMonths then 42 else f + n)
    ensures var g := MonthGrid(y, m, showOtherMonths, today, items);
            var f := FirstDayIndex(y, m);
            var n := DaysInMonth(y, m);
            var p := PreviousMonth(y, m);
            var q := FollowingMonth(y, m);
            0 <= k < |g| ==>
              g[k] == (if k < f then
                         (if showOtherMonths
                          then DayElement(Date(p.0, p.1, DaysInMonth(p.0, p.1) - (f - 1 - k)), true, false, items)
                          else Placeholder)
                       else if k < f + n then
                         DayElement(Date(y, m, k - f + 1), false, IsSameDay(Date(y, m, k - f + 1), today), items)
                       else DayElement(Date(q.0, q.1, k - f - n + 1), true, false, items))
  {
    var g := MonthGrid(y, m, showOtherMonths, today, items);
    var f := FirstDayIndex(y, m);
    var n := DaysInMonth(y, m);
    var body := BodyCells(y, m, today, items);
    var lead := if showOtherMonths then LeadingCells(y, m, items) else Placeholders(f);
    if 0 <= k < |g| {
      if showOtherMonths {
        var trail := TrailingCells(y, m, items);
        assert g == lead + body + trail;
        if k < f {
          assert g[k] == lead[k];
        } else if k < f + n {
          assert g[k] == body[k - f];
        } else {
          assert g[k] == trail[k - f - n];
        }
      } else {
        assert g == lead + body;
        if k < f {
          assert g[k] == lead[k];
        } else {
          assert g[k] == body[k - f];
        }
      }
    }
  }

  /** With adjacent months shown the grid has 42 day cells and at least five
      trailing ones; otherwise `firstDayIndex` placeholders, the month's days
      and nothing after them.  Either way the displayed month's cells are
      exactly positions `f .. f + n - 1`, holding days 1..n in order, and the
      leading cells are the previous month's last days in ascending order. */
  lemma GridShape(y: int, m: int, showOtherMonths: bool, today: Date, items: seq<CalendarItem>)
    requires 0 <= m < 12
    ensures var g := MonthGrid(y, m, showOtherMonths, today, items);
            var f := FirstDayIndex(y, m);
            var n := DaysInMonth(y, m);
            var p := PreviousMonth(y, m);
            && 42 - f - n >= 5
            && (showOtherMonths ==> |g| == 42 && forall k :: 0 <= k < 42 ==> g[k].Day?)
            && (!showOtherMonths ==> |g| == f + n && forall k :: 0 <= k < f ==> g[k] == Placeholder)
            && (forall k :: 0 <= k < |g| ==> (g[k].Day? && !g[k].otherMonth <==> f <= k < f + n))
            && (forall k :: f <= k < f + n ==> g[k].date == Date(y, m, k - f + 1))
            && (showOtherMonths ==> forall k :: 0 <= k < f ==>
                  g[k].date == Date(p.0, p.1, DaysInMonth(p.0, p.1) - (f - 1 - k)))
  {
    GridCellAt(y, m, showOtherMonths, today, items, 0);
    forall k | 0 <= k < |MonthGrid(y, m, showOtherMonths, today, items)| {
      GridCellAt(y, m, showOtherMonths, today, items, k);
    }
  }

  /** With adjacent months shown the 42 cells are 42 consecutive valid days:
      cell `k` lies `k` days after cell 0, and it sits in weekday column
      `k % 7`, so every row starts on a Sunday. */
  lemma GridIsContiguous(y: int, m: int, today: Date, items: seq<CalendarItem>)
    requires 0 <= m < 12
    ensures var g := MonthGrid(y, m, true, today, items);
            var start := DayNumber(Date(y, m, 1)) - FirstDayIndex(y, m);
            |g| == 42
            && forall k :: 0 <= k < 42 ==>
                 g[k].Day? && ValidDate(g[k].date)
                 && DayNumber(g[k].date) == start + k
                 && Weekday(g[k].date) == k % 7
  {
    var g := MonthGrid(y, m, true, today, items);
    var f := FirstDayIndex(y, m);
    var n := DaysInMonth(y, m);
    var first := Date(y, m, 1);
    var start := DayNumber(first) - f;
    var p := PreviousMonth(y, m);
    var q := FollowingMonth(y, m);
    FirstFollowsLast(y, m);
    FirstFollowsLast(q.0, q.1);
    MonthRoundTrip(y, m);
    assert DayNumber(Date(q.0, q.1, 1)) == DayNumber(first) + n;
    GridCellAt(y, m, true, today, items, 0);
    forall k | 0 <= k < 42
      ensures g[k].Day? && ValidDate(g[k].date)
      ensures DayNumber(g[k].date) == start + k
      ensures Weekday(g[k].date) == k % 7
    {
      GridCellAt(y, m, true, today, items, k);
      WeekdayShift(first, g[k].date, k - f);
    }
  }

  /** At most one cell is marked today, never an adjacent-month cell, and one
      is marked exactly when today falls in the displayed month. */
  lemma TodayMarking(y: int, m: int, showOtherMonths: bool, today: Date, items: seq<CalendarItem>)
    requires 0 <= m < 12
    ensures var g := MonthGrid(y, m, showOtherMonths, today, items);
            && (forall k :: 0 <= k < |g| && g[k].Day? && g[k].today ==>
                  !g[k].otherMonth && g[k].date == today)
            && (forall j, k :: (0 <= j < |g| && 0 <= k < |g| && g[j].Day? && g[j].today
                                && g[k].Day? && g[k].today) ==> j == k)
            && ((exists k :: 0 <= k < |g| && g[k].Day? && g[k].today)
                  <==> today.year == y && today.month == m && 1 <= today.day <= DaysInMonth(y, m))
  {
    var g := MonthGrid(y, m, showOtherMonths, today, items);
    var f := FirstDayIndex(y, m);
    GridCellAt(y, m, showOtherMonths, today, items, 0);
    var n := DaysInMonth(y, m);
    forall k | 0 <= k < |g| && g[k].Day? && g[k].today
      ensures !g[k].otherMonth && g[k].date == today
      ensures f <= k < f + n && today == Date(y, m, k - f + 1)
    {
      GridCellAt(y, m, showOtherMonths, today, items, k);
    }
    if today.year == y && today.month == m && 1 <= today.day <= DaysInMonth(y, m) {
      var k := f + today.day - 1;
      GridCellAt(y, m, showOtherMonths, today, items, k);
    }
  }

  /** Every cell lists exactly the items due on its date; and an item due in
      the displayed month is listed by exactly one cell of that month. */
  lemma GridBuckets(y: int, m: int, showOtherMonths: bool, today: Date, items: seq<CalendarItem>, x: CalendarItem)
    requires 0 <= m < 12
    requires x in items && x.due.Some? && ValidDate(x.due.value.date)
    requires x.due.value.date.year == y && x.due.value.date.month == m
    ensures var g := MonthGrid(y, m, showOtherMonths, today, items);
            && (forall k :: 0 <= k < |g| && g[k].Day? ==>
                  g[k].assignments == AssignmentsForDate(items, g[k].date))
            && (exists k :: 0 <= k < |g| && g[k].Day? && !g[k].otherMonth
                  && DayAssignment(x, StatusOf(x)) in g[k].assignments)
            && (forall j, k :: (0 <= j < |g| && 0 <= k < |g|
                  && g[j].Day? && !g[j].otherMonth && DayAssignment(x, StatusOf(x)) in g[j].assignments
                  && g[k].Day? && !g[k].otherMonth && DayAssignment(x, StatusOf(x)) in g[k].assignments)
                  ==> j == k)
  {
    var g := MonthGrid(y, m, showOtherMonths, today, items);
    var f := FirstDayIndex(y, m);
    var d := x.due.value.date;
    GridCellAt(y, m, showOtherMonths, today, items, 0);
    forall k | 0 <= k < |g| && g[k].Day?
      ensures g[k].assignments == AssignmentsForDate(items, g[k].date)
    {
      GridCellAt(y, m, showOtherMonths, today, items, k);
    }
    var k := f + d.day - 1;
    GridCellAt(y, m, showOtherMonths, today, items, k);
    AssignmentsForDateMembership(items, g[k].date, x);
    forall j | 0 <= j < |g| && g[j].Day? && !g[j].otherMonth
                && DayAssignment(x, StatusOf(x)) in g[j].assignments
      ensures j == k
    {
      GridCellAt(y, m, showOtherMonths, today, items, j);
      AssignmentsForDateMembership(items, g[j].date, x);
    }
  }

  /** February has 29 day cells in 2024 and 28 in 2023. */
  lemma LeapFebruaryExample(today: Date)
    ensures |BodyCells(2024, 1, today, [])| == 29
    ensures |BodyCells(2023, 1, today, [])| == 28
  {
  }

  // ---------------------------------------------------------------------
  // The widget
  // ---------------------------------------------------------------------

  class SimpleCalendar {
    var currentYear: int
    var currentMonth: int
    var assignments: seq<CalendarItem>
    const showOtherMonths: bool
    /** Text of the `#currentMonth` title element. */
    var title: string
    /** Children of the `#calendarGrid` element. */
    var grid: seq<Cell>

    ghost predicate Valid()
      reads this
    {
      0 <= currentMonth < 12
    }

    /** The page shows the displayed month as of `today`. */
    ghost predicate Rendered(today: Date)
      reads this
      requires Valid()
    {
      title == MonthTitle(currentYear, currentMonth)
      && grid == MonthGrid(currentYear, currentMonth, showOtherMonths, today, assignments)
    }

    /** Opens on the month of `now`; adjacent months are shown unless the
        option is `false`; a missing assignment list is empty. */
    constructor (now: Date, items: Option<seq<CalendarItem>>, showOtherMonthsOption: Option<bool>)
      requires 0 <= now.month < 12
      ensures Valid() && Rendered(now)
      ensures currentYear == now.year && currentMonth == now.month
      ensures assignments == (if items.Some? then items.value else [])
      ensures showOtherMonths == (showOtherMonthsOption != Some(false))
    {
      currentYear := now.year;
      currentMonth := now.month;
      assignments := if items.Some? then items.value else [];
      showOtherMonths := showOtherMonthsOption != Some(false);
      new;
      RenderCalendar(now);
    }

    method RenderCalendar(today: Date)
      requires Valid()
      modifies this`title, this`grid
      ensures Valid() && Rendered(today)
    {
      title := MonthNames[currentMonth] + " " + IntToString(currentYear);
      grid := BuildGrid(currentYear, currentMonth, showOtherMonths, today, assignments);
    }

    /** The "previous" button: one month back, December of the year before
        after January. */
    method PrevMonth(today: Date)
      requires Valid()
      modifies this`currentMonth, this`currentYear, this`title, this`grid
      ensures Valid() && Rendered(today)
      ensures (currentYear, currentMonth) == PreviousMonth(old(currentYear), old(currentMonth))
    {
      currentMonth := currentMonth - 1;
      if currentMonth < 0 {
        currentMonth := 11;
        currentYear := currentYear - 1;
      }
      RenderCalendar(today);
    }

    /** The "next" button: one month on, January of the next year after
        December. */
    method NextMonth(today: Date)
      requires Valid()
      modifies this`currentMonth, this`currentYear, this`title, this`grid
      ensures Valid() && Rendered(today)
      ensures (currentYear, currentMonth) == FollowingMonth(old(currentYear), old(currentMonth))
    {
      currentMonth := currentMonth + 1;
      if currentMonth > 11 {
        currentMonth := 0;
        currentYear := currentYear + 1;
      }
      RenderCalendar(today);
    }

    /** The "today" button. */
    method GoToToday(now: Date)
      requires Valid() && 0 <= now.month < 12
      modifies this`currentMonth, this`currentYear, this`title, this`grid
      ensures Valid() && Rendered(now)
      ensures currentYear == now.year && currentMonth == now.month
    {
      currentYear := now.year;
      currentMonth := now.month;
      RenderCalendar(now);
    }

    /** `gotoDate`: show the month of `date`. */
    method GotoDate(date: Date, today: Date)
      requires Valid() && 0 <= date.month < 12
      modifies this`currentMonth, this`currentYear, this`title, this`grid
      ensures Valid() && Rendered(today)
      ensures currentYear == date.year && currentMonth == date.month
    {
      currentYear := date.year;
      currentMonth := date.month;
      RenderCalendar(today);
    }

    /** `setAssignments`: replace the items and re-render. */
    method SetAssignments(items: seq<CalendarItem>, today: Date)
      requires Valid()
      modifies this`assignments, this`title, this`grid
      ensures Valid() && Rendered(today) && assignments == items
    {
      assignments := items;
      RenderCalendar(today);
    }
  }
}
