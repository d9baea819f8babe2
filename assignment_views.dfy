/** The assignment views (assignments/views.py): the list page's search and
    course filter, the completion toggle, and the iCalendar export.  The
    assignment table is a sequence, request parameters are strings, and the
    clock reading for `DTSTAMP` is a parameter. */
module AssignmentViews {
  import opened Basics
  import opened Dates
  import opened AssignmentModels
  import CoreViews

  // ---------------------------------------------------------------------
  // The list page: search and course filter
  // ---------------------------------------------------------------------

  /** The superscript digits, which `str.isdigit` accepts but `int` does
      not parse. */
  predicate IsSuperscriptDigit(c: char) {
    c == '\U{B9}' || c == '\U{B2}' || c == '\U{B3}'
  }

  /** `str.isdigit` on one character, for the characters modelled. */
  predicate PyIsDigit(c: char) {
    IsAsciiDigit(c) || IsSuperscriptDigit(c)
  }

  /** `str.isdigit`: not empty, and every character a digit. */
  predicate PyIsDigitString(s: string) {
    s != [] && forall i :: 0 <= i < |s| ==> PyIsDigit(s[i])
  }

  /** What the `course` parameter selects. */
  datatype CourseFilter = AnyCourse | NoCourse | CourseId(id: nat)

  /** The outcome of reading the `course` parameter: a filter, or the
      `ValueError` that `int` raises, which ends the request with a server
      error. */
  datatype FilterOutcome = Selects(filter: CourseFilter) | ServerError

  /** The course filter as written: "uncategorized" selects assignments
      without a course, a string that `isdigit` accepts is passed to `int`,
      and anything else filters nothing. */
  function ParseCourseFilter(raw: string): (r: FilterOutcome)
    ensures r == ServerError <==> Trim(raw) != "uncategorized" && PyIsDigitString(Trim(raw)) && !AllDigits(Trim(raw))
    ensures r == Selects(NoCourse) <==> Trim(raw) == "uncategorized"
    ensures r.Selects? && r.filter.CourseId? ==> PyIsDigitString(Trim(raw)) && AllDigits(Trim(raw))
    ensures Trim(raw) != "" && AllDigits(Trim(raw)) ==> r == Selects(CourseId(ParseNat(Trim(raw))))
    ensures Trim(raw) != "uncategorized" && !PyIsDigitString(Trim(raw)) ==> r == Selects(AnyCourse)
  {
    var f := Trim(raw);
    if f == "uncategorized" then Selects(NoCourse)
    else if PyIsDigitString(f) then
      (if AllDigits(f) then Selects(CourseId(ParseNat(f))) else ServerError)
    else Selects(AnyCourse)
  }

  /** "²" passes `isdigit` and then makes `int` raise. */
  lemma SuperscriptCrashes()
    ensures ParseCourseFilter("\U{B2}") == ServerError
  {
    var s := "\U{B2}";
    assert TrimStart(s) == s;
    assert TrimEnd(s) == s;
  }

  /** The corrected course filter: only strings of decimal digits select a
      course id. */
  function FixedCourseFilter(raw: string): (f: CourseFilter)
    ensures f.CourseId? <==> Trim(raw) != "" && AllDigits(Trim(raw))
    ensures f.CourseId? ==> f.id == ParseNat(Trim(raw))
    ensures f.CourseId? ==> NatToString(f.id) == Trim(raw) || (|Trim(raw)| > 1 && Trim(raw)[0] == '0')
    ensures f == NoCourse <==> Trim(raw) == "uncategorized"
    ensures f == AnyCourse <==> Trim(raw) != "uncategorized" && !(Trim(raw) != "" && AllDigits(Trim(raw)))
  {
    var s := Trim(raw);
    if s == "uncategorized" then
      assert !IsAsciiDigit(s[0]);
      NoCourse
    else if s != "" && AllDigits(s) then
      NatToStringParseOrZero(s);
      CourseId(ParseNat(s))
    else AnyCourse
  }

  lemma NatToStringParseOrZero(s: string)
    requires s != "" && AllDigits(s)
    ensures NatToString(ParseNat(s)) == s || (|s| > 1 && s[0] == '0')
  {
    if !(|s| > 1 && s[0] == '0') {
      NatToStringParse(s);
    }
  }

  /** The corrected filter never fails, and agrees with the code as
      written wherever that does not fail. */
  lemma FixedFilterAgrees(raw: string)
    ensures ParseCourseFilter(raw) != ServerError ==> ParseCourseFilter(raw) == Selects(FixedCourseFilter(raw))
  {
  }

  /** `title__icontains` or `course__name__icontains`, compared in lower
      case. */
  predicate Matches(a: Assignment, query: string) {
    Contains(ToLower(a.title), ToLower(query))
    || (a.course.Some? && Contains(ToLower(a.course.value.name), ToLower(query)))
  }

  /** The search is blind to case: the query matches as it does in lower
      case, and it matches whenever the title or the course name holds it
      as typed. */
  lemma MatchesIgnoresCase(a: Assignment, query: string)
    ensures Matches(a, query) <==> Matches(a, ToLower(query))
    ensures Contains(a.title, query) ==> Matches(a, query)
    ensures a.course.Some? && Contains(a.course.value.name, query) ==> Matches(a, query)
  {
    ToLowerAppend(query, "");
    if Contains(a.title, query) {
      ContainsLower(a.title, query);
    }
    if a.course.Some? && Contains(a.course.value.name, query) {
      ContainsLower(a.course.value.name, query);
    }
  }

  predicate Passes(a: Assignment, filter: CourseFilter) {
    match filter
    case AnyCourse => true
    case NoCourse => a.course.None?
    case CourseId(id) => a.course.Some? && a.course.value.id == id
  }

  /** An empty search keeps everything; otherwise the title or course name
      must contain it. */
  predicate Kept(a: Assignment, query: string, filter: CourseFilter) {
    (query == "" || Matches(a, query)) && Passes(a, filter)
  }

  function Select(s: seq<Assignment>, query: string, filter: CourseFilter): (r: seq<Assignment>)
    ensures |r| <= |s|
    decreases |s|
  {
    if s == [] then []
    else if Kept(s[0], query, filter) then [s[0]] + Select(s[1..], query, filter)
    else Select(s[1..], query, filter)
  }

  /** The selection keeps exactly the assignments that pass. */
  lemma {:induction false} SelectExact(s: seq<Assignment>, query: string, filter: CourseFilter, a: Assignment)
    ensures a in Select(s, query, filter) <==> a in s && Kept(a, query, filter)
    decreases |s|
  {
    if s != [] {
      SelectExact(s[1..], query, filter, a);
    }
  }

  /** The selection keeps the input's order: selecting from two lists
      joined is joining their two selections. */
  lemma {:induction false} SelectAppend(s: seq<Assignment>, t: seq<Assignment>, query: string, filter: CourseFilter)
    ensures Select(s + t, query, filter) == Select(s, query, filter) + Select(t, query, filter)
    decreases |s|
  {
    if s == [] {
      assert s + t == t;
    } else {
      assert (s + t)[0] == s[0];
      assert (s + t)[1..] == s[1..] + t;
      SelectAppend(s[1..], t, query, filter);
    }
  }

  /** `assignment_list`: the user's assignments after search and course
      filter, or a server error. */
  function AssignmentList(all: seq<Assignment>, user: nat, rawQuery: string, rawCourse: string)
    : (r: Basics.Option<seq<Assignment>>)
    ensures r.None? <==> ParseCourseFilter(rawCourse) == ServerError
  {
    match ParseCourseFilter(rawCourse)
    case ServerError => None
    case Selects(filter) => Some(Select(CoreViews.Mine(all, user), Trim(rawQuery), filter))
  }

  /** An assignment is listed exactly when it belongs to the user, matches
      the search and passes the course filter. */
  lemma AssignmentListExact(all: seq<Assignment>, user: nat, rawQuery: string, rawCourse: string, a: Assignment)
    requires ParseCourseFilter(rawCourse).Selects?
    ensures a in AssignmentList(all, user, rawQuery, rawCourse).value <==>
              a in all && a.owner == user && Kept(a, Trim(rawQuery), ParseCourseFilter(rawCourse).filter)
  {
    var mine := CoreViews.Mine(all, user);
    SelectExact(mine, Trim(rawQuery), ParseCourseFilter(rawCourse).filter, a);
    if a in all && a.owner == user {
      CoreViews.OwnedByComplete(all, user, a);
      assert a in multiset(mine);
    }
    if a in mine {
      assert a in multiset(CoreViews.OwnedBy(all, user));
    }
  }

  // ---------------------------------------------------------------------
  // The completion toggle
  // ---------------------------------------------------------------------

  /** The table after toggling the user's assignment `pk`: every row with
      that id and owner has its flag flipped, nothing else changes. */
  function Toggled(rows: seq<Assignment>, pk: nat, user: nat): (r: seq<Assignment>)
    ensures |r| == |rows|
    ensures forall k :: 0 <= k < |rows| ==>
              if rows[k].id == pk && rows[k].owner == user
              then r[k] == rows[k].(completed := !rows[k].completed)
              else r[k] == rows[k]
  {
    seq(|rows|, k requires 0 <= k < |rows| =>
      if rows[k].id == pk && rows[k].owner == user then rows[k].(completed := !rows[k].completed) else rows[k])
  }

  /** Toggling twice gives the table back. */
  lemma ToggleTwice(rows: seq<Assignment>, pk: nat, user: nat)
    ensures Toggled(Toggled(rows, pk, user), pk, user) == rows
  {
    var r := Toggled(Toggled(rows, pk, user), pk, user);
    assert forall k :: 0 <= k < |rows| ==> r[k] == rows[k];
  }

  /** The assignment table; ids are unique. */
  class AssignmentTable {
    var rows: seq<Assignment>

    ghost predicate Valid()
      reads this
    {
      forall i, j :: 0 <= i < j < |rows| ==> rows[i].id != rows[j].id
    }

    constructor (rows: seq<Assignment>)
      requires forall i, j :: 0 <= i < j < |rows| ==> rows[i].id != rows[j].id
      ensures Valid() && this.rows == rows
    {
      this.rows := rows;
    }

    /** `assignment_toggle`: a missing row or another user's row answers
        404 and changes nothing; otherwise `completed` is negated and
        saved. */
    method Toggle(pk: nat, user: nat) returns (found: bool)
      requires Valid()
      modifies this
      ensures Valid()
      ensures found <==> exists k :: 0 <= k < |old(rows)| && old(rows)[k].id == pk && old(rows)[k].owner == user
      ensures rows == Toggled(old(rows), pk, user)
    {
      var i := 0;
      while i < |rows|
        invariant 0 <= i <= |rows|
        invariant forall k :: 0 <= k < i ==> !(rows[k].id == pk && rows[k].owner == user)
      {
        if rows[i].id == pk && rows[i].owner == user {
          var assignment := rows[i];
          assignment := assignment.(completed := !assignment.completed);
          ghost var before := rows;
          rows := rows[i := assignment];
          assert forall k :: 0 <= k < |before| && k != i ==> !(before[k].id == pk && before[k].owner == user);
          assert rows == Toggled(before, pk, user);
          return true;
        }
        i := i + 1;
      }
      assert rows == Toggled(rows, pk, user);
      return false;
    }
  }

  // ---------------------------------------------------------------------
  // iCalendar export
  // ---------------------------------------------------------------------

  const Crlf: string := "\r\n"

  const CalendarHeader: seq<string> := [
    "BEGIN:VCALENDAR",
    "VERSION:2.0",
    "PRODID:-//Homework Tracker//YourApp//EN",
    "CALSCALE:GREGORIAN",
    "METHOD:PUBLISH"]

  const CalendarFooter: string := "END:VCALENDAR"

  const EventBegin: string := "BEGIN:VEVENT"

  const EventEnd: string := "END:VEVENT"

  /** Six numeric fields laid out as `YYYYMMDDTHHMMSSZ`. */
  function StampOf(year: string, month: string, day: string, hour: string, minute: string, second: string): string {
    year + month + day + "T" + hour + minute + second + "Z"
  }

  lemma StampOfFields(year: string, month: string, day: string, hour: string, minute: string, second: string)
    requires |year| == 4 && |month| == 2 && |day| == 2 && |hour| == 2 && |minute| == 2 && |second| == 2
    ensures var s := StampOf(year, month, day, hour, minute, second);
            && |s| == 16 && s[8] == 'T' && s[15] == 'Z'
            && s[..4] == year && s[4..6] == month && s[6..8] == day
            && s[9..11] == hour && s[11..13] == minute && s[13..15] == second
  {
    var s := StampOf(year, month, day, hour, minute, second);
    assert s == year + month + day + ("T" + hour + minute + second + "Z");
    assert s[..8] == year + month + day;
    assert s[9..15] == hour + minute + second;
  }

  /** `strftime("%Y%m%dT%H%M%SZ")`: the UTC form of DATE-TIME in section
      3.3.5 of RFC 5545. */
  function Stamp(t: Instant): (s: string)
    ensures |s| == 16
  {
    PadNatLength(t.date.year, 4);
    PadNatLength(t.date.month + 1, 2);
    PadNatLength(t.date.day, 2);
    PadNatLength(t.hour, 2);
    PadNatLength(t.minute, 2);
    PadNatLength(t.second, 2);
    var y, mo, d := PadNat(t.date.year, 4), PadNat(t.date.month + 1, 2), PadNat(t.date.day, 2);
    var h, mi, se := PadNat(t.hour, 2), PadNat(t.minute, 2), PadNat(t.second, 2);
    StampOfFields(y, mo, d, h, mi, se);
    StampOf(y, mo, d, h, mi, se)
  }

  /** A numeric field, or `None` when it holds anything but digits. */
  function Field(s: string): Basics.Option<nat> {
    if AllDigits(s) then Some(ParseNat(s)) else None
  }

  /** Reading a DATE-TIME in UTC form back; `None` when malformed. */
  function ParseStamp(s: string): Basics.Option<DateTime> {
    if |s| != 16 || s[8] != 'T' || s[15] != 'Z' then None
    else
      var year, month, day := Field(s[..4]), Field(s[4..6]), Field(s[6..8]);
      var hour, minute, second := Field(s[9..11]), Field(s[11..13]), Field(s[13..15]);
      if year.None? || month.None? || day.None? || hour.None? || minute.None? || second.None? then None
      else Some(DateTime(Date(year.value, month.value - 1, day.value), hour.value, minute.value, second.value))
  }

  /** Six digit fields laid out as a stamp read back as their values. */
  lemma ParseStampOf(year: string, month: string, day: string, hour: string, minute: string, second: string)
    requires |year| == 4 && |month| == 2 && |day| == 2 && |hour| == 2 && |minute| == 2 && |second| == 2
    requires AllDigits(year) && AllDigits(month) && AllDigits(day)
    requires AllDigits(hour) && AllDigits(minute) && AllDigits(second)
    ensures var r := ParseStamp(StampOf(year, month, day, hour, minute, second));
            && r.Some?
            && r.value == DateTime(Date(ParseNat(year), ParseNat(month) - 1, ParseNat(day)),
                                   ParseNat(hour), ParseNat(minute), ParseNat(second))
  {
    StampOfFields(year, month, day, hour, minute, second);
  }

  /** The stamp reads back as the instant it was made from. */
  lemma StampRoundTrip(t: Instant)
    ensures ParseStamp(Stamp(t)).Some? && ParseStamp(Stamp(t)).value == t
  {
    PadNatLength(t.date.year, 4);
    PadNatLength(t.date.month + 1, 2);
    PadNatLength(t.date.day, 2);
    PadNatLength(t.hour, 2);
    PadNatLength(t.minute, 2);
    PadNatLength(t.second, 2);
    var y, mo, d := PadNat(t.date.year, 4), PadNat(t.date.month + 1, 2), PadNat(t.date.day, 2);
    var h, mi, se := PadNat(t.hour, 2), PadNat(t.minute, 2), PadNat(t.second, 2);
    assert Stamp(t) == StampOf(y, mo, d, h, mi, se);
    ParseStampOf(y, mo, d, h, mi, se);
    PadNatValue(t.date.year, 4);
    PadNatValue(t.date.month + 1, 2);
    PadNatValue(t.date.day, 2);
    PadNatValue(t.hour, 2);
    PadNatValue(t.minute, 2);
    PadNatValue(t.second, 2);
  }

  /** The text written for a TEXT property value: as is, or escaped. */
  function Text(s: string, escape: bool): string {
    if escape then EscapeText(s) else s
  }

  /** The description written out; an empty one is replaced. */
  function DescriptionOf(a: Assignment): string {
    if a.description != "" then a.description else "No description"
  }

  /** The eight lines of one VEVENT (section 3.6.1 of RFC 5545); with
      `escape` false they are the code as written, with `escape` true the
      text values are escaped. */
  function EventLines(a: Assignment, stamp: Instant, escape: bool): (lines: seq<string>)
    ensures |lines| == 8
  {
    [EventBegin,
     "UID:assignment-" + NatToString(a.id) + "@homeworktracker",
     "SUMMARY:" + Text(a.title, escape),
     "DESCRIPTION:" + Text(DescriptionOf(a), escape),
     "DTSTART:" + Stamp(a.due),
     "DTEND:" + Stamp(a.due),
     "DTSTAMP:" + Stamp(stamp),
     EventEnd]
  }

  /** Blocks of eight lines, one after another. */
  function Flatten(blocks: seq<seq<string>>): (lines: seq<string>)
    requires forall i :: 0 <= i < |blocks| ==> |blocks[i]| == 8
    ensures |lines| == 8 * |blocks|
    decreases |blocks|
  {
    if blocks == [] then [] else Flatten(blocks[..|blocks| - 1]) + blocks[|blocks| - 1]
  }

  lemma FlattenSnoc(blocks: seq<seq<string>>, i: nat)
    requires forall i :: 0 <= i < |blocks| ==> |blocks[i]| == 8
    requires i < |blocks|
    ensures Flatten(blocks[..i + 1]) == Flatten(blocks[..i]) + blocks[i]
  {
    assert blocks[..i + 1][..i] == blocks[..i];
  }

  /** Line `8 * k + j` of the flattened blocks is line `j` of block `k`. */
  lemma {:induction false} FlattenLine(blocks: seq<seq<string>>, k: nat, j: nat)
    requires forall i :: 0 <= i < |blocks| ==> |blocks[i]| == 8
    requires k < |blocks| && j < 8
    ensures Flatten(blocks)[8 * k + j] == blocks[k][j]
    decreases |blocks|
  {
    var init := blocks[..|blocks| - 1];
    if k < |blocks| - 1 {
      FlattenLine(init, k, j);
    }
  }

  /** Every line of the flattened blocks is a line of some block. */
  lemma FlattenSource(blocks: seq<seq<string>>, n: nat)
    requires forall i :: 0 <= i < |blocks| ==> |blocks[i]| == 8
    requires n < 8 * |blocks|
    ensures 0 <= n / 8 < |blocks| && Flatten(blocks)[n] == blocks[n / 8][n % 8]
  {
    FlattenLine(blocks, n / 8, n % 8);
  }

  /** A header, blocks of eight lines and a footer line: the header comes
      first, the footer last, and block `k` right after the `k` blocks
      before it. */
  lemma DocumentLine(header: seq<string>, blocks: seq<seq<string>>, footer: string, k: nat, j: nat)
    requires forall i :: 0 <= i < |blocks| ==> |blocks[i]| == 8
    requires k < |blocks| && j < 8
    ensures var lines := header + Flatten(blocks) + [footer];
            && lines[..|header|] == header
            && lines[|lines| - 1] == footer
            && lines[|header| + 8 * k + j] == blocks[k][j]
  {
    FlattenLine(blocks, k, j);
    var lines := header + Flatten(blocks) + [footer];
    assert lines[|header| + 8 * k + j] == Flatten(blocks)[8 * k + j];
  }

  /** Every line of a document is a header line, a line of a block, or the
      footer. */
  lemma DocumentSource(header: seq<string>, blocks: seq<seq<string>>, footer: string, n: nat)
    requires forall i :: 0 <= i < |blocks| ==> |blocks[i]| == 8
    requires n < |header| + 8 * |blocks| + 1
    ensures var lines := header + Flatten(blocks) + [footer];
            && (n < |header| ==> lines[n] == header[n])
            && (|header| <= n < |lines| - 1 ==>
                  0 <= (n - |header|) / 8 < |blocks| && lines[n] == blocks[(n - |header|) / 8][(n - |header|) % 8])
            && (n == |lines| - 1 ==> lines[n] == footer)
  {
    if |header| <= n < |header| + 8 * |blocks| {
      FlattenSource(blocks, n - |header|);
    }
  }

  function EventBlocks(s: seq<Assignment>, stamp: Instant, escape: bool): (blocks: seq<seq<string>>)
    ensures |blocks| == |s|
    ensures forall i :: 0 <= i < |s| ==> blocks[i] == EventLines(s[i], stamp, escape)
  {
    seq(|s|, i requires 0 <= i < |s| => EventLines(s[i], stamp, escape))
  }

  /** All lines of the calendar. */
  function CalendarLines(open: seq<Assignment>, stamp: Instant, escape: bool): (lines: seq<string>)
    ensures |lines| == 6 + 8 * |open|
  {
    CalendarHeader + Flatten(EventBlocks(open, stamp, escape)) + [CalendarFooter]
  }

  /** The calendar opens with the five header lines and closes with
      END:VCALENDAR; line `5 + 8 * k + j` is line `j` of the VEVENT of the
      `k`th open assignment. */
  lemma CalendarLine(open: seq<Assignment>, stamp: Instant, escape: bool, k: nat, j: nat)
    requires k < |open| && j < 8
    ensures var lines := CalendarLines(open, stamp, escape);
            && lines[..5] == CalendarHeader
            && lines[|lines| - 1] == CalendarFooter
            && lines[5 + 8 * k + j] == EventLines(open[k], stamp, escape)[j]
  {
    DocumentLine(CalendarHeader, EventBlocks(open, stamp, escape), CalendarFooter, k, j);
  }

  /** DTSTART and DTEND of each VEVENT both carry the due date, and DTSTAMP
      the time of the export. */
  lemma EventTimes(open: seq<Assignment>, stamp: Instant, escape: bool, k: nat)
    requires k < |open|
    ensures var lines := CalendarLines(open, stamp, escape);
            && lines[9 + 8 * k] == "DTSTART:" + Stamp(open[k].due)
            && lines[10 + 8 * k] == "DTEND:" + Stamp(open[k].due)
            && lines[11 + 8 * k] == "DTSTAMP:" + Stamp(stamp)
  {
    EventShape(open[k], stamp, escape);
    EventLineAt(open, stamp, escape, k, 4);
    EventLineAt(open, stamp, escape, k, 5);
    EventLineAt(open, stamp, escape, k, 6);
  }

  /** The fixed lines of one VEVENT: it opens with BEGIN:VEVENT, closes
      with END:VEVENT, and carries the due date and the export time. */
  lemma EventShape(a: Assignment, stamp: Instant, escape: bool)
    ensures var ev := EventLines(a, stamp, escape);
            && ev[0] == EventBegin && ev[7] == EventEnd
            && ev[4] == "DTSTART:" + Stamp(a.due) && ev[5] == "DTEND:" + Stamp(a.due)
            && ev[6] == "DTSTAMP:" + Stamp(stamp)
  {
  }

  lemma EventLineAt(open: seq<Assignment>, stamp: Instant, escape: bool, k: nat, j: nat)
    requires k < |open| && j < 8
    ensures CalendarLines(open, stamp, escape)[5 + 8 * k + j] == EventLines(open[k], stamp, escape)[j]
  {
    CalendarLine(open, stamp, escape, k, j);
  }

  /** The open assignments, in order. */
  function OpenOf(s: seq<Assignment>): (r: seq<Assignment>)
    ensures forall k :: 0 <= k < |r| ==> !r[k].completed && r[k] in s
    decreases |s|
  {
    if s == [] then []
    else if !s[0].completed then [s[0]] + OpenOf(s[1..])
    else OpenOf(s[1..])
  }

  lemma {:induction false} OpenOfComplete(s: seq<Assignment>, a: Assignment)
    requires a in s && !a.completed
    ensures a in OpenOf(s)
    decreases |s|
  {
    if s[0] != a {
      OpenOfComplete(s[1..], a);
    }
  }

  /** Every open assignment of the user gets a VEVENT, and every VEVENT is
      that of an open assignment of the user. */
  lemma ExportedExactly(all: seq<Assignment>, user: nat, a: Assignment)
    ensures a in OpenOf(CoreViews.Mine(all, user)) <==> a in all && a.owner == user && !a.completed
  {
    var mine := CoreViews.Mine(all, user);
    if a in all && a.owner == user && !a.completed {
      CoreViews.OwnedByComplete(all, user, a);
      assert a in multiset(mine);
      OpenOfComplete(mine, a);
    }
    if a in OpenOf(mine) {
      assert a in multiset(CoreViews.OwnedBy(all, user));
    }
  }

  /** The lines of the first `i` events, then those of event `i`. */
  lemma ExportStep(open: seq<Assignment>, stamp: Instant, i: nat)
    requires i < |open|
    ensures var blocks := EventBlocks(open, stamp, false);
            CalendarHeader + Flatten(blocks[..i]) + EventLines(open[i], stamp, false)
              == CalendarHeader + Flatten(blocks[..i + 1])
  {
    var blocks := EventBlocks(open, stamp, false);
    FlattenSnoc(blocks, i);
    assert EventLines(open[i], stamp, false) == blocks[i];
  }

  /** `export_calendar` as written: the header, one VEVENT per open
      assignment of the user in due-date order (each has a due date), the
      footer, joined with CRLF. */
  method ExportCalendar(all: seq<Assignment>, user: nat, stampNow: Instant) returns (body: string)
    ensures body == Join(CalendarLines(OpenOf(CoreViews.Mine(all, user)), stampNow, false), Crlf)
  {
    var open := OpenOf(CoreViews.Mine(all, user));
    var lines := CalendarHeader;
    var i := 0;
    while i < |open|
      invariant 0 <= i <= |open|
      invariant lines == CalendarHeader + Flatten(EventBlocks(open, stampNow, false)[..i])
    {
      ExportStep(open, stampNow, i);
      lines := lines + EventLines(open[i], stampNow, false);
      i := i + 1;
    }
    assert EventBlocks(open, stampNow, false)[..i] == EventBlocks(open, stampNow, false);
    lines := lines + [CalendarFooter];
    body := Join(lines, Crlf);
  }

  // ---------------------------------------------------------------------
  // Content lines (section 3.1 of RFC 5545)
  // ---------------------------------------------------------------------

  /** A content line holds no line break of its own. */
  predicate ContentLine(l: string) {
    '\r' !in l && '\n' !in l
  }

  /** A description with a line break, as a textarea produces, puts a bare
      line break inside the DESCRIPTION line: the text is not escaped. */
  lemma UnescapedBreak(a: Assignment, stamp: Instant)
    requires '\n' in a.description
    ensures !ContentLine(EventLines(a, stamp, false)[3])
  {
    var l := EventLines(a, stamp, false)[3];
    var k :| 0 <= k < |a.description| && a.description[k] == '\n';
    assert l[|"DESCRIPTION:"| + k] == '\n';
  }

  /** A concrete case: the calendar of a single open assignment described
      as "first" and "second" on two lines has a line that is not a content
      line. */
  lemma LineBreakExample(stamp: Instant, due: Instant)
    ensures var a := Assignment(1, "Essay", "first\nsecond", due, false, 7, None);
            !ContentLine(CalendarLines([a], stamp, false)[8])
  {
    var a := Assignment(1, "Essay", "first\nsecond", due, false, 7, None);
    assert a.description[5] == '\n';
    UnescapedBreak(a, stamp);
    CalendarLine([a], stamp, false, 0, 3);
  }

  /** The escape of one character in a TEXT value (section 3.3.11 of RFC
      5545): backslash, semicolon and comma are escaped with a backslash, a
      line feed becomes `\n`, and the carriage return of a CRLF pair is
      dropped. */
  function EscapeChar(c: char): (r: string)
    ensures ContentLine(r)
  {
    if c == '\\' then "\\\\"
    else if c == ';' then "\\;"
    else if c == ',' then "\\,"
    else if c == '\n' then "\\n"
    else if c == '\r' then ""
    else [c]
  }

  function EscapeText(s: string): (r: string)
    ensures ContentLine(r)
    decreases |s|
  {
    if s == [] then "" else EscapeChar(s[0]) + EscapeText(s[1..])
  }

  /** Reading a TEXT value back: `\n` and `\N` are a line feed, any other
      escaped character stands for itself. */
  function UnescapeText(s: string): string
    decreases |s|
  {
    if s == [] then ""
    else if s[0] == '\\' && |s| >= 2 then
      (if s[1] == 'n' || s[1] == 'N' then "\n" else [s[1]]) + UnescapeText(s[2..])
    else [s[0]] + UnescapeText(s[1..])
  }

  /** The text without its carriage returns. */
  function DropCr(s: string): (r: string)
    ensures '\r' !in r
    decreases |s|
  {
    if s == [] then "" else (if s[0] == '\r' then "" else [s[0]]) + DropCr(s[1..])
  }

  lemma UnescapeChar(c: char, rest: string)
    ensures UnescapeText(EscapeChar(c) + rest) == DropCr([c]) + UnescapeText(rest)
  {
    var e := EscapeChar(c);
    if |e| == 2 {
      assert (e + rest)[2..] == rest;
    } else if |e| == 1 {
      assert (e + rest)[1..] == rest;
    } else {
      assert e + rest == rest;
    }
  }

  /** Unescaping undoes escaping, up to the dropped carriage returns. */
  lemma {:induction false} EscapeRoundTrip(s: string)
    ensures UnescapeText(EscapeText(s)) == DropCr(s)
    decreases |s|
  {
    if s != [] {
      var rest := EscapeText(s[1..]);
      assert EscapeText(s) == EscapeChar(s[0]) + rest;
      UnescapeChar(s[0], rest);
      EscapeRoundTrip(s[1..]);
      DropCrCons(s);
    }
  }

  lemma DropCrCons(s: string)
    requires s != []
    ensures DropCr(s) == DropCr([s[0]]) + DropCr(s[1..])
  {
    var one := [s[0]];
    assert one[1..] == [];
    assert DropCr(one) == (if s[0] == '\r' then "" else one) + DropCr([]);
  }

  /** Text joined from content lines is a content line. */
  lemma ContentAppend(x: string, y: string)
    requires ContentLine(x) && ContentLine(y)
    ensures ContentLine(x + y)
  {
    assert forall c :: c in x + y ==> c in x || c in y;
  }

  lemma DigitsContent(s: string)
    requires AllDigits(s)
    ensures ContentLine(s)
  {
    assert forall c :: c in s ==> IsAsciiDigit(c);
  }

  lemma StampContent(t: Instant)
    ensures ContentLine(Stamp(t))
  {
    var y, mo, d := PadNat(t.date.year, 4), PadNat(t.date.month + 1, 2), PadNat(t.date.day, 2);
    var h, mi, se := PadNat(t.hour, 2), PadNat(t.minute, 2), PadNat(t.second, 2);
    DigitsContent(y); DigitsContent(mo); DigitsContent(d);
    DigitsContent(h); DigitsContent(mi); DigitsContent(se);
    ContentAppend(y, mo);
    ContentAppend(y + mo, d);
    ContentAppend(y + mo + d, "T");
    ContentAppend(y + mo + d + "T", h);
    ContentAppend(y + mo + d + "T" + h, mi);
    ContentAppend(y + mo + d + "T" + h + mi, se);
    ContentAppend(y + mo + d + "T" + h + mi + se, "Z");
  }

  /** With escaping, every line of a VEVENT is a content line. */
  lemma EventContentLines(a: Assignment, stamp: Instant, j: nat)
    requires j < 8
    ensures ContentLine(EventLines(a, stamp, true)[j])
  {
    var id := NatToString(a.id);
    DigitsContent(id);
    ContentAppend("UID:assignment-", id);
    ContentAppend("UID:assignment-" + id, "@homeworktracker");
    ContentAppend("SUMMARY:", EscapeText(a.title));
    ContentAppend("DESCRIPTION:", EscapeText(DescriptionOf(a)));
    StampContent(a.due);
    StampContent(stamp);
    ContentAppend("DTSTART:", Stamp(a.due));
    ContentAppend("DTEND:", Stamp(a.due));
    ContentAppend("DTSTAMP:", Stamp(stamp));
  }

  lemma HeaderContent()
    ensures forall i :: 0 <= i < |CalendarHeader| ==> ContentLine(CalendarHeader[i])
    ensures ContentLine(CalendarFooter)
  {
  }

  lemma CalendarLineContent(open: seq<Assignment>, stamp: Instant, k: nat)
    requires k < |CalendarLines(open, stamp, true)|
    ensures ContentLine(CalendarLines(open, stamp, true)[k])
  {
    var blocks := EventBlocks(open, stamp, true);
    DocumentSource(CalendarHeader, blocks, CalendarFooter, k);
    if k < 5 {
      HeaderContent();
    } else if k < 5 + 8 * |open| {
      var n := k - 5;
      EventContentLines(open[n / 8], stamp, n % 8);
    } else {
      HeaderContent();
    }
  }

  /** With escaping, every line of the calendar is a content line. */
  lemma FixedCalendarContentLines(open: seq<Assignment>, stamp: Instant)
    ensures forall k :: 0 <= k < |CalendarLines(open, stamp, true)| ==> ContentLine(CalendarLines(open, stamp, true)[k])
  {
    forall k | 0 <= k < |CalendarLines(open, stamp, true)|
      ensures ContentLine(CalendarLines(open, stamp, true)[k])
    {
      CalendarLineContent(open, stamp, k);
    }
  }

  /** Each line but the last, followed by the carriage return of its CRLF. */
  function WithCr(lines: seq<string>): (r: seq<string>)
    requires |lines| >= 1
    ensures |r| == |lines|
  {
    seq(|lines|, k requires 0 <= k < |lines| => if k < |lines| - 1 then lines[k] + "\r" else lines[k])
  }

  lemma {:induction false} JoinCrlf(lines: seq<string>)
    requires |lines| >= 1
    ensures Join(lines, Crlf) == Join(WithCr(lines), "\n")
    decreases |lines|
  {
    if |lines| > 1 {
      JoinCrlf(lines[1..]);
      assert WithCr(lines)[1..] == WithCr(lines[1..]);
      assert lines[0] + Crlf + Join(lines[1..], Crlf) == (lines[0] + "\r") + "\n" + Join(lines[1..], Crlf);
    }
  }

  function StripCr(l: string): string {
    if l != [] && l[|l| - 1] == '\r' then l[..|l| - 1] else l
  }

  /** A reader of the calendar body: split at line feeds, each line's
      carriage return removed. */
  function ReadLines(body: string): (lines: seq<string>) {
    var parts := Split(body, '\n');
    seq(|parts|, k requires 0 <= k < |parts| => StripCr(parts[k]))
  }

  /** A line with its carriage return added has no line feed, and loses
      exactly that carriage return again. */
  lemma WithCrLine(lines: seq<string>, k: nat)
    requires |lines| >= 1 && k < |lines| && ContentLine(lines[k])
    ensures '\n' !in WithCr(lines)[k]
    ensures StripCr(WithCr(lines)[k]) == lines[k]
  {
    var w := WithCr(lines)[k];
    if k < |lines| - 1 {
      assert w == lines[k] + "\r";
      assert w[..|w| - 1] == lines[k];
    } else {
      assert lines[k] == [] || lines[k][|lines[k]| - 1] != '\r';
    }
  }

  /** Content lines joined with CRLF read back as the same lines: with
      escaping, the calendar's line structure survives any text. */
  lemma ReadLinesJoin(lines: seq<string>)
    requires |lines| >= 1
    requires forall k :: 0 <= k < |lines| ==> ContentLine(lines[k])
    ensures ReadLines(Join(lines, Crlf)) == lines
  {
    var w := WithCr(lines);
    JoinCrlf(lines);
    forall k | 0 <= k < |w|
      ensures '\n' !in w[k]
    {
      WithCrLine(lines, k);
    }
    SplitJoin(w, '\n');
    var r := ReadLines(Join(lines, Crlf));
    forall k | 0 <= k < |lines|
      ensures r[k] == lines[k]
    {
      WithCrLine(lines, k);
    }
  }

  /** The corrected export: text values escaped, so the body reads back as
      exactly its lines. */
  function FixedExport(all: seq<Assignment>, user: nat, stampNow: Instant): (body: string)
    ensures ReadLines(body) == CalendarLines(OpenOf(CoreViews.Mine(all, user)), stampNow, true)
  {
    var lines := CalendarLines(OpenOf(CoreViews.Mine(all, user)), stampNow, true);
    FixedCalendarContentLines(OpenOf(CoreViews.Mine(all, user)), stampNow);
    ReadLinesJoin(lines);
    Join(lines, Crlf)
  }
}
