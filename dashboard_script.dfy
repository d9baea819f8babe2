/** The dashboard page script (static/js/dashboard.js): the chart palette,
    the extraction of per-course completion data from the page (a global
    array first, the course table as a fallback), the once-only
    initialisation of the `DashboardCharts` object, and the urgent-deadline
    banner with its countdown.  The page is given as values: what the global
    variable holds, the table's rows, whether the canvas exists.  Times are
    milliseconds since the epoch, `now` is a parameter, and what
    `parseFloat` or `new Date` make of a text is given alongside it
    (`None` standing for NaN). */
module DashboardScript {
  import opened Basics

  // ---------------------------------------------------------------------
  // The palette
  // ---------------------------------------------------------------------

  const Palette: seq<string> := [
    "#4361ee", "#3a0ca3", "#4cc9f0", "#f72585", "#7209b7",
    "#4caf50", "#ff9800", "#795548", "#9c27b0", "#00bcd4"]

  /** `generateColors(count)`: one palette colour per bar, cycling. */
  function GenerateColors(count: nat): (colours: seq<string>)
    ensures |colours| == count
    ensures forall i :: 0 <= i < count ==> colours[i] in Palette
  {
    seq(count, i requires 0 <= i < count => Palette[i % |Palette|])
  }

  /** The first ten bars take the palette in order and every later bar
      repeats the colour of the bar ten places before it. */
  lemma ColoursCycle(count: nat)
    ensures var colours := GenerateColors(count);
            && (forall i :: 0 <= i < count && i < |Palette| ==> colours[i] == Palette[i])
            && (forall i :: |Palette| <= i < count ==> colours[i] == colours[i - |Palette|])
  {
    var colours := GenerateColors(count);
    assert |Palette| == 10;
    CycleOfTen(Palette, colours);
  }

  /** A sequence that takes a ten-entry palette by index modulo ten. */
  lemma CycleOfTen(palette: seq<string>, colours: seq<string>)
    requires |palette| == 10
    requires forall i :: 0 <= i < |colours| ==> colours[i] == palette[i % 10]
    ensures forall i :: 0 <= i < |colours| && i < 10 ==> colours[i] == palette[i]
    ensures forall i :: 10 <= i < |colours| ==> colours[i] == colours[i - 10]
  {
    forall i | 10 <= i < |colours|
      ensures colours[i] == colours[i - 10]
    {
      ModTenStep(i);
    }
  }

  lemma ModTenStep(i: int)
    requires i >= 10
    ensures i % 10 == (i - 10) % 10
  {
  }

  /** Up to ten bars never share a colour. */
  lemma FirstTenDistinct(count: nat)
    ensures var colours := GenerateColors(count);
            forall i, j :: 0 <= i < j < count && j < |Palette| ==> colours[i] != colours[j]
  {
  }

  /** Adding bars keeps the colours of the bars already there. */
  lemma ColoursPrefix(count: nat, more: nat)
    ensures GenerateColors(count + more)[..count] == GenerateColors(count)
  {
  }

  // ---------------------------------------------------------------------
  // Chart data
  // ---------------------------------------------------------------------

  /** Labels and values for the bar chart; a value is `None` where
      `parseFloat` gave NaN. */
  datatype ChartData = ChartData(labels: seq<string>, data: seq<Option<real>>)

  const NoData: ChartData := ChartData([], [])

  /** The `completion_rate` property: absent, or present together with what
      `parseFloat` makes of it. */
  datatype RateField = Undefined | Defined(parsed: Option<real>)

  /** An element of `window.courseChartData`.  A `null` element makes the
      property access throw; an element whose `course_name` is falsy has
      `courseName == ""`. */
  datatype CourseItem = NullItem | Entry(courseName: string, rate: RateField)

  /** What `window.courseChartData` holds. */
  datatype GlobalData = NotAnArray | Items(items: seq<CourseItem>)

  /** An element that becomes a bar: it has a name and a rate. */
  predicate Plotted(c: CourseItem) {
    c.Entry? && c.courseName != "" && c.rate.Defined?
  }

  /** The bars of the elements, in order, skipping those without name or
      rate. */
  function GlobalSeries(items: seq<CourseItem>): (c: ChartData)
    ensures |c.labels| == |c.data| <= |items|
    decreases |items|
  {
    if items == [] then NoData
    else
      var rest := GlobalSeries(items[..|items| - 1]);
      var c := items[|items| - 1];
      if Plotted(c) then ChartData(rest.labels + [c.courseName], rest.data + [c.rate.parsed])
      else rest
  }

  /** `getChartDataFromGlobal`: a non-array, or an array holding a `null`
      (the `try` catches the error), yields no data. */
  function ChartDataFromGlobal(global: GlobalData): (c: ChartData)
    ensures global.NotAnArray? ==> c == NoData
    ensures global.Items? && NullItem in global.items ==> c == NoData
    ensures global.Items? && NullItem !in global.items ==> c == GlobalSeries(global.items)
  {
    if global.Items? && NullItem !in global.items then GlobalSeries(global.items) else NoData
  }

  /** The series of a concatenation is the concatenation of the series. */
  lemma {:induction false} GlobalSeriesAppend(a: seq<CourseItem>, b: seq<CourseItem>)
    ensures GlobalSeries(a + b).labels == GlobalSeries(a).labels + GlobalSeries(b).labels
    ensures GlobalSeries(a + b).data == GlobalSeries(a).data + GlobalSeries(b).data
    decreases |b|
  {
    if b == [] {
      assert a + b == a;
    } else {
      var b' := b[..|b| - 1];
      assert (a + b)[..|a + b| - 1] == a + b';
      assert (a + b)[|a + b| - 1] == b[|b| - 1];
      GlobalSeriesAppend(a, b');
    }
  }

  /** Some plotted element has this name and this rate. */
  predicate FromPlotted(items: seq<CourseItem>, name: string, value: Option<real>) {
    exists k :: 0 <= k < |items| && Plotted(items[k]) && name == items[k].courseName && value == items[k].rate.parsed
  }

  /** Every bar of the global data comes from a plotted element: its label
      is that element's non-empty name and its value that element's rate. */
  lemma {:induction false} GlobalSeriesSources(items: seq<CourseItem>)
    ensures forall j :: 0 <= j < |GlobalSeries(items).labels| ==>
              GlobalSeries(items).labels[j] != ""
              && FromPlotted(items, GlobalSeries(items).labels[j], GlobalSeries(items).data[j])
    decreases |items|
  {
    if items != [] {
      var init := items[..|items| - 1];
      GlobalSeriesSources(init);
      var c := GlobalSeries(items);
      var ci := GlobalSeries(init);
      forall j | 0 <= j < |c.labels|
        ensures c.labels[j] != "" && FromPlotted(items, c.labels[j], c.data[j])
      {
        if j < |ci.labels| {
          assert c.labels[j] == ci.labels[j] && c.data[j] == ci.data[j];
          assert FromPlotted(init, ci.labels[j], ci.data[j]);
          var k :| 0 <= k < |init| && Plotted(init[k])
                   && ci.labels[j] == init[k].courseName && ci.data[j] == init[k].rate.parsed;
          assert items[k] == init[k];
        } else {
          assert Plotted(items[|items| - 1]);
        }
      }
    }
  }

  /** The two extremes: when every element is plotted there is a bar for
      each, and when none is there is no data at all. */
  lemma {:induction false} GlobalSeriesComplete(items: seq<CourseItem>)
    ensures (forall k :: 0 <= k < |items| ==> Plotted(items[k])) ==> |GlobalSeries(items).labels| == |items|
    ensures (forall k :: 0 <= k < |items| ==> !Plotted(items[k])) ==> GlobalSeries(items) == NoData
    decreases |items|
  {
    if items != [] {
      GlobalSeriesComplete(items[..|items| - 1]);
    }
  }

  /** How many elements are plotted, counted from the front. */
  function PlottedCount(items: seq<CourseItem>): nat
    decreases |items|
  {
    if items == [] then 0 else (if Plotted(items[0]) then 1 else 0) + PlottedCount(items[1..])
  }

  /** There are exactly as many bars as plotted elements. */
  lemma {:induction false} GlobalSeriesCount(items: seq<CourseItem>)
    ensures |GlobalSeries(items).labels| == |GlobalSeries(items).data| == PlottedCount(items)
    decreases |items|
  {
    if items != [] {
      GlobalSeriesCount(items[1..]);
      GlobalSeriesAppend([items[0]], items[1..]);
      assert [items[0]] + items[1..] == items;
      assert [items[0]][..0] == [];
    }
  }

  /** The `forEach` loop of `getChartDataFromGlobal`, pushing onto two
      arrays. */
  method GetChartDataFromGlobal(global: GlobalData) returns (c: ChartData)
    ensures c == ChartDataFromGlobal(global)
    ensures |c.labels| == |c.data|
  {
    if global.Items? {
      var items := global.items;
      var labels: seq<string> := [];
      var data: seq<Option<real>> := [];
      var i := 0;
      while i < |items|
        invariant 0 <= i <= |items|
        invariant NullItem !in items[..i]
        invariant ChartData(labels, data) == GlobalSeries(items[..i])
      {
        var course := items[i];
        if course.NullItem? {
          return NoData;
        }
        if course.courseName != "" && course.rate.Defined? {
          labels := labels + [course.courseName];
          data := data + [course.rate.parsed];
        }
        assert items[..i + 1][..i] == items[..i];
        i := i + 1;
      }
      assert items[..i] == items;
      return ChartData(labels, data);
    }
    return NoData;
  }

  /** A cell of the course table: its text and what `parseFloat` makes of
      it. */
  datatype Cell = Cell(text: string, number: Option<real>)

  /** A `tbody tr` with its `td` cells. */
  datatype Row = Row(cells: seq<Cell>)

  /** A row that becomes a bar: two cells at least, a name that is not
      blank and a rate that is a number. */
  predicate Charted(r: Row) {
    |r.cells| >= 2 && Trim(r.cells[0].text) != "" && r.cells[1].number.Some?
  }

  /** The bars of the table rows, in order: the trimmed first cell and the
      number in the second. */
  function TableSeries(rows: seq<Row>): (c: ChartData)
    ensures |c.labels| == |c.data| <= |rows|
    decreases |rows|
  {
    if rows == [] then NoData
    else
      var rest := TableSeries(rows[..|rows| - 1]);
      var r := rows[|rows| - 1];
      if Charted(r) then ChartData(rest.labels + [Trim(r.cells[0].text)], rest.data + [r.cells[1].number])
      else rest
  }

  /** Some charted row has this trimmed name and this number. */
  predicate FromCharted(rows: seq<Row>, name: string, value: Option<real>) {
    exists k :: 0 <= k < |rows| && Charted(rows[k]) && name == Trim(rows[k].cells[0].text) && value == rows[k].cells[1].number
  }

  /** Every bar of the table comes from a charted row; no bar is NaN and no
      label is empty. */
  lemma {:induction false} TableSeriesSources(rows: seq<Row>)
    ensures forall j :: 0 <= j < |TableSeries(rows).labels| ==>
              TableSeries(rows).labels[j] != "" && TableSeries(rows).data[j].Some?
              && FromCharted(rows, TableSeries(rows).labels[j], TableSeries(rows).data[j])
    decreases |rows|
  {
    if rows != [] {
      var init := rows[..|rows| - 1];
      TableSeriesSources(init);
      var c := TableSeries(rows);
      var ci := TableSeries(init);
      forall j | 0 <= j < |c.labels|
        ensures c.labels[j] != "" && c.data[j].Some? && FromCharted(rows, c.labels[j], c.data[j])
      {
        if j < |ci.labels| {
          assert c.labels[j] == ci.labels[j] && c.data[j] == ci.data[j];
          assert FromCharted(init, ci.labels[j], ci.data[j]);
          var k :| 0 <= k < |init| && Charted(init[k])
                   && ci.labels[j] == Trim(init[k].cells[0].text) && ci.data[j] == init[k].cells[1].number;
          assert rows[k] == init[k];
        } else {
          assert Charted(rows[|rows| - 1]);
        }
      }
    }
  }

  /** A row with fewer than two cells, a blank name or a NaN rate adds no
      bar. */
  lemma SkippedRow(rows: seq<Row>, r: Row)
    requires |r.cells| < 2 || IsBlank(r.cells[0].text) || r.cells[1].number.None?
    ensures TableSeries(rows + [r]) == TableSeries(rows)
  {
    if |r.cells| >= 2 {
      TrimEmptyIffBlank(r.cells[0].text);
    }
    assert (rows + [r])[..|rows|] == rows;
  }

  /** A charted row adds one bar at the end: its trimmed name and its
      number. */
  lemma ChartedRow(rows: seq<Row>, r: Row)
    requires Charted(r)
    ensures TableSeries(rows + [r]) ==
              ChartData(TableSeries(rows).labels + [Trim(r.cells[0].text)],
                        TableSeries(rows).data + [r.cells[1].number])
  {
    assert (rows + [r])[..|rows|] == rows;
  }

  /** `getChartDataFromTable`: no table, no data. */
  method GetChartDataFromTable(table: Option<seq<Row>>) returns (c: ChartData)
    ensures table.None? ==> c == NoData
    ensures table.Some? ==> c == TableSeries(table.value)
  {
    if table.None? {
      return NoData;
    }
    var rows := table.value;
    var labels: seq<string> := [];
    var data: seq<Option<real>> := [];
    var i := 0;
    while i < |rows|
      invariant 0 <= i <= |rows|
      invariant ChartData(labels, data) == TableSeries(rows[..i])
    {
      var cells := rows[i].cells;
      if |cells| >= 2 {
        var name := Trim(cells[0].text);
        var rate := cells[1].number;
        if name != "" && rate.Some? {
          labels := labels + [name];
          data := data + [rate];
        }
      }
      assert rows[..i + 1][..i] == rows[..i];
      i := i + 1;
    }
    assert rows[..i] == rows;
    return ChartData(labels, data);
  }

  predicate IsEmpty(c: ChartData) {
    |c.labels| == 0 || |c.data| == 0
  }

  /** What the page offers the dashboard script. */
  datatype Page = Page(canvasPresent: bool, global: GlobalData, table: Option<seq<Row>>)

  /** The data actually charted: the global data, or the table when the
      global data is empty. */
  function ChosenData(page: Page): (c: ChartData)
    ensures !IsEmpty(ChartDataFromGlobal(page.global)) ==> c == ChartDataFromGlobal(page.global)
    ensures IsEmpty(ChartDataFromGlobal(page.global)) ==>
              c == (if page.table.Some? then TableSeries(page.table.value) else NoData)
  {
    var fromGlobal := ChartDataFromGlobal(page.global);
    if !IsEmpty(fromGlobal) then fromGlobal
    else if page.table.Some? then TableSeries(page.table.value)
    else NoData
  }

  /** The completion chart: bars, values and one colour per bar. */
  datatype Chart = Chart(labels: seq<string>, data: seq<Option<real>>, colours: seq<string>)

  /** The chart `initCompletionChart` creates, if any: none without a canvas
      or without data. */
  function CompletionChart(page: Page): (r: Option<Chart>)
    ensures r.Some? <==> page.canvasPresent && !IsEmpty(ChosenData(page))
    ensures r.Some? ==> r.value.labels == ChosenData(page).labels
                        && r.value.data == ChosenData(page).data
                        && |r.value.colours| == |r.value.labels| > 0
                        && r.value.colours == GenerateColors(|r.value.labels|)
  {
    var c := ChosenData(page);
    if page.canvasPresent && !IsEmpty(c) then Some(Chart(c.labels, c.data, GenerateColors(|c.labels|)))
    else None
  }

  /** The table is read only when the global data gives nothing: a page
      with usable global data charts exactly that data, whatever its table. */
  lemma GlobalDataWins(page: Page, table: Option<seq<Row>>)
    requires !IsEmpty(ChartDataFromGlobal(page.global))
    ensures CompletionChart(page) == CompletionChart(page.(table := table))
    ensures page.canvasPresent ==> CompletionChart(page).value.labels == ChartDataFromGlobal(page.global).labels
  {
  }

  /** The `DashboardCharts` object: its Chart.js instances by name, and the
      once-only flag. */
  class DashboardCharts {
    var charts: map<string, Chart>
    var initialized: bool

    constructor ()
      ensures charts == map[] && !initialized
    {
      charts := map[];
      initialized := false;
    }

    /** `initCompletionChart` */
    method InitCompletionChart(page: Page)
      modifies this`charts
      ensures CompletionChart(page).None? ==> charts == old(charts)
      ensures CompletionChart(page).Some? ==>
                charts == old(charts)["completionChart" := CompletionChart(page).value]
    {
      if !page.canvasPresent {
        return;
      }
      var chartData := GetChartDataFromGlobal(page.global);
      if |chartData.labels| == 0 || |chartData.data| == 0 {
        chartData := GetChartDataFromTable(page.table);
      }
      if |chartData.labels| == 0 || |chartData.data| == 0 {
        return;
      }
      charts := charts["completionChart" := Chart(chartData.labels, chartData.data, GenerateColors(|chartData.labels|))];
    }

    /** `init`: does nothing once initialised; otherwise creates the chart
        and sets the flag. */
    method Init(page: Page)
      modifies this
      ensures initialized
      ensures old(initialized) ==> charts == old(charts)
      ensures !old(initialized) && CompletionChart(page).None? ==> charts == old(charts)
      ensures !old(initialized) && CompletionChart(page).Some? ==>
                charts == old(charts)["completionChart" := CompletionChart(page).value]
    {
      if initialized {
        return;
      }
      InitCompletionChart(page);
      initialized := true;
    }

    /** `destroy`: drops every chart and clears the flag, so that `init`
        works again. */
    method Destroy()
      modifies this
      ensures charts == map[] && !initialized
    {
      charts := map[];
      initialized := false;
    }
  }

  // ---------------------------------------------------------------------
  // The urgent-deadline banner
  // ---------------------------------------------------------------------

  /** An element of the reminder list: its title and its due time, `None`
      when `new Date(due_date)` is an invalid date. */
  datatype ReminderItem = ReminderItem(title: string, due: Option<int>)

  const HourMs: int := 60 * 60 * 1000

  /** Due within the coming hour and not yet due. */
  predicate Urgent(item: ReminderItem, now: int) {
    item.due.Some? && 0 < item.due.value - now <= HourMs
  }

  datatype UrgentAssignment = UrgentAssignment(item: ReminderItem, diffMs: int)

  /** `u` is what the search of `checkDeadlineReminders` must find: the
      first urgent item with its time left, or nothing when no item is
      urgent. */
  predicate IsFirstUrgent(items: seq<ReminderItem>, now: int, u: Option<UrgentAssignment>) {
    && (u.None? <==> forall k :: 0 <= k < |items| ==> !Urgent(items[k], now))
    && (u.Some? ==>
          exists k :: && 0 <= k < |items| && items[k] == u.value.item && Urgent(items[k], now)
                      && u.value.diffMs == items[k].due.value - now
                      && forall j :: 0 <= j < k ==> !Urgent(items[j], now))
  }

  /** There is only one first urgent item. */
  lemma FirstUrgentUnique(items: seq<ReminderItem>, now: int, u: Option<UrgentAssignment>, v: Option<UrgentAssignment>)
    requires IsFirstUrgent(items, now, u) && IsFirstUrgent(items, now, v)
    ensures u == v
  {
    if u.Some? {
      var k :| 0 <= k < |items| && items[k] == u.value.item && Urgent(items[k], now)
               && u.value.diffMs == items[k].due.value - now
               && forall j :: 0 <= j < k ==> !Urgent(items[j], now);
      var l :| 0 <= l < |items| && items[l] == v.value.item && Urgent(items[l], now)
               && v.value.diffMs == items[l].due.value - now
               && forall j :: 0 <= j < l ==> !Urgent(items[j], now);
      assert k == l;
    }
  }

  /** The `for … of` loop with `break`. */
  method FindUrgent(items: seq<ReminderItem>, now: int) returns (urgent: Option<UrgentAssignment>)
    ensures IsFirstUrgent(items, now, urgent)
  {
    urgent := None;
    var i := 0;
    while i < |items|
      invariant 0 <= i <= |items|
      invariant forall j :: 0 <= j < i ==> !Urgent(items[j], now)
    {
      var item := items[i];
      if item.due.Some? {
        var diffMs := item.due.value - now;
        if diffMs > 0 && diffMs <= 60 * 60 * 1000 {
          urgent := Some(UrgentAssignment(item, diffMs));
          assert Urgent(items[i], now);
          return;
        }
      }
      i := i + 1;
    }
  }

  /** Whole minutes left; the time left is positive, where JavaScript's
      `Math.floor` of the quotient is integer division. */
  function Minutes(diffMs: int): int
    requires diffMs > 0
  {
    diffMs / (1000 * 60)
  }

  /** Whole seconds left beyond the minutes. */
  function Seconds(diffMs: int): int
    requires diffMs > 0
  {
    (diffMs % (1000 * 60)) / 1000
  }

  /** Within the hour the countdown shows at most 60 minutes and 0 to 59
      seconds, 60 minutes only with 0 seconds, and it undershoots the time
      left by less than a second. */
  lemma CountdownBounds(diffMs: int)
    requires 0 < diffMs <= HourMs
    ensures 0 <= Minutes(diffMs) <= 60 && 0 <= Seconds(diffMs) <= 59
    ensures Minutes(diffMs) == 60 ==> Seconds(diffMs) == 0
    ensures Minutes(diffMs) * 60000 + Seconds(diffMs) * 1000 <= diffMs
            < Minutes(diffMs) * 60000 + Seconds(diffMs) * 1000 + 1000
  {
  }

  /** `minute${n === 1 ? '' : 's'}` */
  function Plural(n: nat, unit: string): (word: string)
    ensures word == unit <==> n == 1
  {
    unit + (if n == 1 then "" else "s")
  }

  /** `${n} minute${n === 1 ? '' : 's'}` */
  function Quantity(n: nat, unit: string): string {
    NatToString(n) + " " + Plural(n, unit)
  }

  /** The countdown text. */
  function CountdownText(diffMs: int): string
    requires 0 < diffMs <= HourMs
  {
    CountdownBounds(diffMs);
    Quantity(Minutes(diffMs), "minute") + " " + Quantity(Seconds(diffMs), "second")
  }

  /** A quantity splits at its space into the numeral and the word. */
  lemma QuantityParts(n: nat, unit: string)
    requires ' ' !in unit
    ensures ' ' !in NatToString(n) && ' ' !in Plural(n, unit)
    ensures Split(Quantity(n, unit), ' ') == [NatToString(n), Plural(n, unit)]
  {
    var digits, word := NatToString(n), Plural(n, unit);
    assert ' ' !in digits;
    assert ' ' !in word;
    SplitFirst(word, ' ', []);
    SplitFirst(digits, ' ', word);
    assert Quantity(n, unit) == digits + [' '] + word;
  }

  /** Two quantities joined by a space split back into their four
      words. */
  lemma QuantitiesParts(m: nat, first: string, n: nat, second: string)
    requires ' ' !in first && ' ' !in second
    ensures Split(Quantity(m, first) + " " + Quantity(n, second), ' ')
            == [NatToString(m), Plural(m, first), NatToString(n), Plural(n, second)]
  {
    QuantityParts(m, first);
    QuantityParts(n, second);
    WordsParts(NatToString(m), Plural(m, first), Quantity(n, second));
  }

  /** Two space-free words, a space, and a rest split into the two words
      and the parts of the rest. */
  lemma WordsParts(a: string, b: string, rest: string)
    requires ' ' !in a && ' ' !in b
    ensures Split(a + " " + b + " " + rest, ' ') == [a, b] + Split(rest, ' ')
  {
    var x := b + [' '] + rest;
    SplitFirst(b, ' ', rest);
    assert a + " " + b + " " + rest == a + [' '] + x;
    SplitFirst(a, ' ', x);
    assert [a] + ([b] + Split(rest, ' ')) == [a, b] + Split(rest, ' ');
  }

  /** The countdown text reads back: split at spaces it is the minutes, the
      word "minute", singular exactly when there is one minute, then the
      seconds and the word "second" likewise. */
  lemma CountdownReadsBack(diffMs: int)
    requires 0 < diffMs <= HourMs
    ensures var parts := Split(CountdownText(diffMs), ' ');
            && |parts| == 4
            && AllDigits(parts[0]) && ParseNat(parts[0]) == Minutes(diffMs)
            && AllDigits(parts[2]) && ParseNat(parts[2]) == Seconds(diffMs)
            && parts[1] == Plural(Minutes(diffMs), "minute")
            && parts[3] == Plural(Seconds(diffMs), "second")
  {
    CountdownBounds(diffMs);
    QuantitiesParts(Minutes(diffMs), "minute", Seconds(diffMs), "second");
    ParseNatToString(Minutes(diffMs));
    ParseNatToString(Seconds(diffMs));
  }

  /** The banner and the two elements inside it. */
  class Banner {
    var classes: set<string>
    var display: string
    var titleText: string
    var countdownText: string

    constructor (classes: set<string>)
      ensures this.classes == classes && display == "" && titleText == "" && countdownText == ""
    {
      this.classes := classes;
      display := "";
      titleText := "";
      countdownText := "";
    }
  }

  /** `checkDeadlineReminders`: shows the first urgent item with its
      countdown; `recheck` is whether a new check is scheduled a minute
      later, which happens only when the list was searched and nothing was
      urgent.  Without the banner or the list nothing happens at all. */
  method CheckDeadlineReminders(banner: Banner?, items: Option<seq<ReminderItem>>, now: int)
    returns (urgent: Option<UrgentAssignment>, recheck: bool)
    modifies banner
    ensures banner == null || items.None? ==> urgent.None? && !recheck
    ensures banner != null && items.None? ==> unchanged(banner)
    ensures banner != null && items.Some? ==> IsFirstUrgent(items.value, now, urgent)
    ensures banner != null && items.Some? ==> (recheck <==> urgent.None?)
    ensures banner != null && urgent.None? ==> unchanged(banner)
    ensures banner != null && urgent.Some? ==>
              && 0 < urgent.value.diffMs <= HourMs
              && banner.titleText == urgent.value.item.title
              && banner.countdownText == CountdownText(urgent.value.diffMs)
              && banner.classes == old(banner.classes) - {"d-none"}
              && banner.display == "block"
  {
    if banner == null || items.None? {
      return None, false;
    }
    urgent := FindUrgent(items.value, now);
    if urgent.Some? {
      ghost var k :| 0 <= k < |items.value| && items.value[k] == urgent.value.item && Urgent(items.value[k], now)
               && urgent.value.diffMs == items.value[k].due.value - now;
      var item := urgent.value.item;
      var diffMs := urgent.value.diffMs;
      var minutes := diffMs / (1000 * 60);
      var seconds := (diffMs % (1000 * 60)) / 1000;
      banner.titleText := item.title;
      banner.countdownText := Quantity(minutes, "minute") + " " + Quantity(seconds, "second");
      banner.classes := banner.classes - {"d-none"};
      banner.display := "block";
      recheck := false;
    } else {
      recheck := true;
    }
  }
}
