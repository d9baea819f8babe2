/** The dashboard view (core/views.py): the user's totals, per-course
    completion rates, the upcoming week, the reminder list and the calendar
    entries, computed over the assignment table given as a sequence.  The
    current instant is a parameter and one time zone is assumed throughout;
    percentages are exact, not rounded to one decimal. */
module CoreViews {
  import opened Dates
  import opened AssignmentModels
  import Calendar
  import Basics

  // ---------------------------------------------------------------------
  // Selections of the assignment table
  // ---------------------------------------------------------------------

  /** `Assignment.objects.filter(owner=user)`, in the model's default
      ordering. */
  function Mine(all: seq<Assignment>, user: nat): (r: seq<Assignment>)
    ensures multiset(r) == multiset(OwnedBy(all, user))
    ensures forall i, j :: 0 <= i < j < |r| ==> DueKey(r[i]) <= DueKey(r[j])
  {
    OrderBy(OwnedBy(all, user), DueKey)
  }

  /** The assignments of `user`, in table order. */
  function OwnedBy(all: seq<Assignment>, user: nat): (r: seq<Assignment>)
    ensures forall k :: 0 <= k < |r| ==> r[k].owner == user && r[k] in all
    decreases |all|
  {
    if all == [] then []
    else if all[0].owner == user then [all[0]] + OwnedBy(all[1..], user)
    else OwnedBy(all[1..], user)
  }

  /** Every assignment of `user` is selected. */
  lemma {:induction false} OwnedByComplete(all: seq<Assignment>, user: nat, a: Assignment)
    requires a in all && a.owner == user
    ensures a in OwnedBy(all, user)
    decreases |all|
  {
    if all[0] != a {
      OwnedByComplete(all[1..], user, a);
    }
  }

  // ---------------------------------------------------------------------
  // Totals
  // ---------------------------------------------------------------------

  /** `filter(completed=True).count()`. */
  function CountCompleted(s: seq<Assignment>): (n: nat)
    ensures n <= |s|
    ensures n == 0 <==> forall k :: 0 <= k < |s| ==> !s[k].completed
    ensures n == |s| <==> forall k :: 0 <= k < |s| ==> s[k].completed
    decreases |s|
  {
    if s == [] then 0
    else
      assert forall k :: 1 <= k < |s| ==> s[k] == s[1..][k - 1];
      (if s[0].completed then 1 else 0) + CountCompleted(s[1..])
  }

  /** `filter(completed=False, due_date__lt=now).count()`. */
  function CountOverdue(s: seq<Assignment>, now: Instant): (n: nat)
    ensures n <= |s|
    ensures n == 0 <==> forall k :: 0 <= k < |s| ==> !IsOverdue(s[k], now)
    ensures n == |s| <==> forall k :: 0 <= k < |s| ==> IsOverdue(s[k], now)
    decreases |s|
  {
    if s == [] then 0
    else
      assert forall k :: 1 <= k < |s| ==> s[k] == s[1..][k - 1];
      (if IsOverdue(s[0], now) then 1 else 0) + CountOverdue(s[1..], now)
  }

  /** Completed and overdue assignments are disjoint, so together they never
      outnumber the total; overdue counts only open assignments due before
      now. */
  lemma {:induction false} CountsBounded(s: seq<Assignment>, now: Instant)
    ensures CountCompleted(s) + CountOverdue(s, now) <= |s|
    ensures CountOverdue(s, now) == 0 <==> forall k :: 0 <= k < |s| ==> s[k].completed || !Before(s[k].due, now)
    decreases |s|
  {
    if s != [] {
      CountsBounded(s[1..], now);
      assert forall k :: 1 <= k < |s| ==> s[k] == s[1..][k - 1];
    }
  }

  /** The overall completion rate, in percent; 0 when there is nothing. */
  function CompletionRate(completed: nat, total: nat): (r: real)
    ensures total == 0 ==> r == 0.0
    ensures completed <= total ==> 0.0 <= r <= 100.0
    ensures total > 0 && completed == total ==> r == 100.0
  {
    if total > 0 then completed as real / total as real * 100.0 else 0.0
  }

  // ---------------------------------------------------------------------
  // Per-course completion
  // ---------------------------------------------------------------------

  /** Strict lexicographic order of strings, as `order_by` sorts names. */
  predicate StringLess(a: string, b: string)
    decreases |a|
  {
    b != [] && (a == [] || a[0] < b[0] || (a[0] == b[0] && StringLess(a[1..], b[1..])))
  }

  lemma {:induction false} StringLessIrreflexive(a: string)
    ensures !StringLess(a, a)
    decreases |a|
  {
    if a != [] {
      StringLessIrreflexive(a[1..]);
    }
  }

  lemma {:induction false} StringLessTrans(a: string, b: string, c: string)
    requires StringLess(a, b) && StringLess(b, c)
    ensures StringLess(a, c)
    decreases |a|
  {
    if a != [] && a[0] == b[0] && b[0] == c[0] {
      StringLessTrans(a[1..], b[1..], c[1..]);
    }
  }

  /** Two different strings are ordered one way or the other. */
  lemma {:induction false} StringLessTotal(a: string, b: string)
    requires a != b
    ensures StringLess(a, b) || StringLess(b, a)
    decreases |a|
  {
    if a != [] && b != [] && a[0] == b[0] {
      assert a == [a[0]] + a[1..] && b == [b[0]] + b[1..];
      StringLessTotal(a[1..], b[1..]);
    }
  }

  /** Names in strictly increasing order, hence without repetition. */
  predicate StrictlySorted(names: seq<string>) {
    forall i, j :: 0 <= i < j < |names| ==> StringLess(names[i], names[j])
  }

  /** A name below the first of a strictly sorted list is below all of
      them. */
  lemma BelowAll(n: string, names: seq<string>)
    requires StrictlySorted(names) && names != [] && StringLess(n, names[0])
    ensures forall j :: 0 <= j < |names| ==> StringLess(n, names[j])
  {
    forall j | 0 < j < |names|
      ensures StringLess(n, names[j])
    {
      StringLessTrans(n, names[0], names[j]);
    }
  }

  /** `n` added in its place to a strictly sorted list of names, unless it
      is there already. */
  function InsertName(names: seq<string>, n: string): (r: seq<string>)
    requires StrictlySorted(names)
    ensures StrictlySorted(r)
    ensures forall x :: x in r <==> x in names || x == n
    decreases |names|
  {
    if names == [] then [n]
    else if n == names[0] then names
    else if StringLess(n, names[0]) then
      BelowAll(n, names);
      [n] + names
    else
      StringLessTotal(n, names[0]);
      var rest := InsertName(names[1..], n);
      assert forall x :: x in names[1..] ==> StringLess(names[0], x);
      var r := [names[0]] + rest;
      assert forall j :: 0 < j < |r| ==> r[j] == rest[j - 1] && StringLess(names[0], rest[j - 1]);
      assert names == [names[0]] + names[1..];
      r
  }

  /** A row of the grouped query: a course name with its counts. */
  datatype CourseStat = CourseStat(name: string, total: nat, completed: nat)

  /** Assignments filed under a course of this name. */
  function CountNamed(s: seq<Assignment>, name: string, onlyCompleted: bool): (n: nat)
    ensures n <= |s|
    ensures n > 0 <==> exists k :: 0 <= k < |s| && FiledUnder(s[k], name, onlyCompleted)
    decreases |s|
  {
    if s == [] then 0
    else
      var rest := CountNamed(s[1..], name, onlyCompleted);
      assert rest > 0 ==> exists k :: 0 <= k < |s| && FiledUnder(s[k], name, onlyCompleted) by {
        if rest > 0 {
          var k :| 0 <= k < |s[1..]| && FiledUnder(s[1..][k], name, onlyCompleted);
          assert s[k + 1] == s[1..][k];
        }
      }
      assert forall k :: 1 <= k < |s| ==> s[k] == s[1..][k - 1];
      (if FiledUnder(s[0], name, onlyCompleted) then 1 else 0) + rest
  }

  /** Filed under a course of this name, and completed when only completed
      work counts. */
  predicate FiledUnder(a: Assignment, name: string, onlyCompleted: bool) {
    a.course.Some? && a.course.value.name == name && (!onlyCompleted || a.completed)
  }

  lemma {:induction false} CountNamedOrder(s: seq<Assignment>, name: string)
    ensures CountNamed(s, name, true) <= CountNamed(s, name, false)
    decreases |s|
  {
    if s != [] {
      CountNamedOrder(s[1..], name);
    }
  }

  /** Some assignment is filed under a course of this name. */
  predicate HasCourseNamed(s: seq<Assignment>, name: string) {
    exists k :: 0 <= k < |s| && s[k].course.Some? && s[k].course.value.name == name
  }

  /** What the grouped query returns: one row per distinct course name among
      the categorized assignments, ordered by name, each with the number of
      assignments filed under that name and how many of them are done. */
  predicate IsCourseStats(s: seq<Assignment>, stats: seq<CourseStat>) {
    && (forall i, j :: 0 <= i < j < |stats| ==> StringLess(stats[i].name, stats[j].name))
    && (forall i :: 0 <= i < |stats| ==>
          && HasCourseNamed(s, stats[i].name)
          && stats[i].total == CountNamed(s, stats[i].name, false)
          && stats[i].completed == CountNamed(s, stats[i].name, true))
    && (forall k :: 0 <= k < |s| && s[k].course.Some? ==>
          exists i :: 0 <= i < |stats| && stats[i].name == s[k].course.value.name)
  }

  /** Some assignment is filed under `x` exactly when the first one is or
      one of the others is. */
  lemma HasCourseNamedCons(s: seq<Assignment>)
    requires s != []
    ensures forall x :: HasCourseNamed(s, x) <==>
              (s[0].course.Some? && s[0].course.value.name == x) || HasCourseNamed(s[1..], x)
  {
    forall x | HasCourseNamed(s, x)
      ensures (s[0].course.Some? && s[0].course.value.name == x) || HasCourseNamed(s[1..], x)
    {
      var k :| 0 <= k < |s| && s[k].course.Some? && s[k].course.value.name == x;
      if k > 0 {
        assert s[1..][k - 1] == s[k];
      }
    }
    forall x | HasCourseNamed(s[1..], x)
      ensures HasCourseNamed(s, x)
    {
      var k :| 0 <= k < |s[1..]| && s[1..][k].course.Some? && s[1..][k].course.value.name == x;
      assert s[k + 1] == s[1..][k];
    }
  }

  /** The distinct course names of the categorized assignments, in name
      order. */
  function CourseNames(s: seq<Assignment>): (names: seq<string>)
    ensures StrictlySorted(names)
    ensures forall x :: x in names <==> HasCourseNamed(s, x)
    decreases |s|
  {
    if s == [] then []
    else
      var rest := CourseNames(s[1..]);
      HasCourseNamedCons(s);
      if s[0].course.Some? then InsertName(rest, s[0].course.value.name) else rest
  }

  /** The grouped per-course query of the dashboard: one row per course
      name, in name order, with its total and completed counts. */
  function CourseStatsOf(s: seq<Assignment>): (stats: seq<CourseStat>)
    ensures IsCourseStats(s, stats)
  {
    var names := CourseNames(s);
    var stats := seq(|names|, i requires 0 <= i < |names| =>
                   CourseStat(names[i], CountNamed(s, names[i], false), CountNamed(s, names[i], true)));
    assert forall k :: 0 <= k < |s| && s[k].course.Some? ==>
             exists i :: 0 <= i < |stats| && stats[i].name == s[k].course.value.name by {
      forall k | 0 <= k < |s| && s[k].course.Some?
        ensures exists i :: 0 <= i < |stats| && stats[i].name == s[k].course.value.name
      {
        assert HasCourseNamed(s, s[k].course.value.name);
        var i :| 0 <= i < |names| && names[i] == s[k].course.value.name;
        assert stats[i].name == names[i];
      }
    }
    stats
  }

  lemma FirstIn(a: seq<string>)
    ensures a != [] ==> a[0] in a
  {
  }

  /** Two strictly sorted lists holding the same names are the same list. */
  lemma {:induction false} StrictlySortedUnique(a: seq<string>, b: seq<string>)
    requires StrictlySorted(a) && StrictlySorted(b)
    requires forall x :: x in a <==> x in b
    ensures a == b
    decreases |a|
  {
    if a != [] && b != [] {
      assert a[0] in b && b[0] in a;
      var k :| 0 <= k < |b| && b[k] == a[0];
      var m :| 0 <= m < |a| && a[m] == b[0];
      if k > 0 && m > 0 {
        StringLessTrans(a[0], b[0], a[0]);
        StringLessIrreflexive(a[0]);
        assert false;
      }
      assert a[0] == b[0];
      assert a == [a[0]] + a[1..] && b == [b[0]] + b[1..];
      forall x
        ensures x in a[1..] <==> x in b[1..]
      {
        if x in a[1..] {
          var i :| 0 <= i < |a[1..]| && a[1..][i] == x;
          assert StringLess(a[0], a[i + 1]);
          StringLessIrreflexive(x);
          assert x != b[0] && x in b;
        }
        if x in b[1..] {
          var i :| 0 <= i < |b[1..]| && b[1..][i] == x;
          assert StringLess(b[0], b[i + 1]);
          StringLessIrreflexive(x);
          assert x != a[0] && x in a;
        }
      }
      StrictlySortedUnique(a[1..], b[1..]);
    } else if a != [] || b != [] {
      FirstIn(a);
      FirstIn(b);
      assert false;
    }
  }

  /** The names of a list of rows. */
  function StatNames(stats: seq<CourseStat>): (names: seq<string>)
    ensures |names| == |stats| && forall i :: 0 <= i < |stats| ==> names[i] == stats[i].name
  {
    seq(|stats|, i requires 0 <= i < |stats| => stats[i].name)
  }

  /** The names of the rows of the grouped query are, in strict order,
      exactly the course names in use. */
  lemma CourseStatsNames(s: seq<Assignment>, stats: seq<CourseStat>)
    requires IsCourseStats(s, stats)
    ensures StrictlySorted(StatNames(stats))
    ensures forall x :: x in StatNames(stats) <==> HasCourseNamed(s, x)
  {
    var a := StatNames(stats);
    forall x
      ensures x in a <==> HasCourseNamed(s, x)
    {
      if x in a {
        var i :| 0 <= i < |a| && a[i] == x;
        assert HasCourseNamed(s, stats[i].name);
      }
      if HasCourseNamed(s, x) {
        var k :| 0 <= k < |s| && s[k].course.Some? && s[k].course.value.name == x;
        var j :| 0 <= j < |stats| && stats[j].name == s[k].course.value.name;
        assert a[j] == x;
      }
    }
  }

  /** The grouped query has one answer only: the rows are determined by
      the assignments. */
  lemma CourseStatsUnique(s: seq<Assignment>, stats: seq<CourseStat>)
    requires IsCourseStats(s, stats)
    ensures stats == CourseStatsOf(s)
  {
    var expected := CourseStatsOf(s);
    CourseStatsNames(s, stats);
    CourseStatsNames(s, expected);
    StrictlySortedUnique(StatNames(stats), StatNames(expected));
    assert forall i :: 0 <= i < |stats| ==> stats[i].name == StatNames(expected)[i];
  }

  /** An entry of `course_chart_data`. */
  datatype CourseRate = CourseRate(courseName: string, completionRate: real)

  function StatRate(stat: CourseStat): (r: real)
    ensures stat.completed <= stat.total ==> 0.0 <= r <= 100.0
  {
    CompletionRate(stat.completed, stat.total)
  }

  /** The loop building `course_chart_data`. */
  method BuildCourseChartData(stats: seq<CourseStat>) returns (data: seq<CourseRate>)
    ensures |data| == |stats|
    ensures forall i :: 0 <= i < |stats| ==> data[i] == CourseRate(stats[i].name, StatRate(stats[i]))
  {
    data := [];
    var i := 0;
    while i < |stats|
      invariant 0 <= i <= |stats|
      invariant |data| == i
      invariant forall k :: 0 <= k < i ==> data[k] == CourseRate(stats[k].name, StatRate(stats[k]))
    {
      var stat := stats[i];
      var rate := if stat.total > 0 then stat.completed as real / stat.total as real * 100.0 else 0.0;
      data := data + [CourseRate(stat.name, rate)];
      i := i + 1;
    }
  }

  /** The per-course rates name each course once, in name order, never
      include uncategorized work, and lie between 0 and 100; every group
      has at least one assignment, so the zero-total guard never fires. */
  lemma CourseRatesSound(s: seq<Assignment>, stats: seq<CourseStat>, data: seq<CourseRate>)
    requires IsCourseStats(s, stats)
    requires |data| == |stats|
    requires forall i :: 0 <= i < |stats| ==> data[i] == CourseRate(stats[i].name, StatRate(stats[i]))
    ensures forall i, j :: 0 <= i < j < |data| ==> data[i].courseName != data[j].courseName
    ensures forall i :: 0 <= i < |data| ==>
              0.0 <= data[i].completionRate <= 100.0 && stats[i].total > 0
              && HasCourseNamed(s, data[i].courseName)
  {
    forall i, j | 0 <= i < j < |data|
      ensures data[i].courseName != data[j].courseName
    {
      StringLessIrreflexive(stats[i].name);
    }
    forall i | 0 <= i < |data|
      ensures 0.0 <= data[i].completionRate <= 100.0 && stats[i].total > 0
    {
      StatSound(s, stats[i]);
    }
  }

  /** A row of the grouped query has a positive total and a rate between 0
      and 100. */
  lemma StatSound(s: seq<Assignment>, stat: CourseStat)
    requires HasCourseNamed(s, stat.name)
    requires stat.total == CountNamed(s, stat.name, false)
    requires stat.completed == CountNamed(s, stat.name, true)
    ensures stat.total > 0 && 0.0 <= StatRate(stat) <= 100.0
  {
    CountNamedOrder(s, stat.name);
    var k :| 0 <= k < |s| && s[k].course.Some? && s[k].course.value.name == stat.name;
    CountNamedPositive(s, stat.name, k);
  }

  lemma {:induction false} CountNamedPositive(s: seq<Assignment>, name: string, k: nat)
    requires k < |s| && s[k].course.Some? && s[k].course.value.name == name
    ensures CountNamed(s, name, false) > 0
    decreases k
  {
    if k > 0 {
      CountNamedPositive(s[1..], name, k - 1);
    }
  }

  // ---------------------------------------------------------------------
  // The upcoming week
  // ---------------------------------------------------------------------

  /** Open and due between today and six days later, both included. */
  predicate DueThisWeek(a: Assignment, today: Date)
    requires ValidDate(today)
  {
    !a.completed && DayNumber(today) <= DayNumber(a.due.date) <= DayNumber(today) + 6
  }

  function FilterWeek(s: seq<Assignment>, today: Date): (r: seq<Assignment>)
    requires ValidDate(today)
    ensures forall k :: 0 <= k < |r| ==> DueThisWeek(r[k], today) && r[k] in s
    decreases |s|
  {
    if s == [] then []
    else if DueThisWeek(s[0], today) then [s[0]] + FilterWeek(s[1..], today)
    else FilterWeek(s[1..], today)
  }

  lemma {:induction false} FilterWeekComplete(s: seq<Assignment>, today: Date, a: Assignment)
    requires ValidDate(today)
    requires a in s && DueThisWeek(a, today)
    ensures a in FilterWeek(s, today)
    decreases |s|
  {
    if s[0] != a {
      FilterWeekComplete(s[1..], today, a);
    }
  }

  const UpcomingLimit: nat := 10

  /** `upcoming_assignments`: the week's open work, soonest first, at most
      ten. */
  function Upcoming(s: seq<Assignment>, today: Date): (r: seq<Assignment>)
    requires ValidDate(today)
    ensures |r| <= UpcomingLimit
    ensures forall i, j :: 0 <= i < j < |r| ==> DueKey(r[i]) <= DueKey(r[j])
  {
    var sorted := OrderBy(FilterWeek(s, today), DueKey);
    if |sorted| <= UpcomingLimit then sorted else sorted[..UpcomingLimit]
  }

  /** Every upcoming entry is an open assignment due this week. */
  lemma UpcomingSound(s: seq<Assignment>, today: Date)
    requires ValidDate(today)
    ensures var r := Upcoming(s, today);
            forall k :: 0 <= k < |r| ==> DueThisWeek(r[k], today) && r[k] in s
  {
    var f := FilterWeek(s, today);
    var sorted := OrderBy(f, DueKey);
    var r := Upcoming(s, today);
    assert forall k :: 0 <= k < |r| ==> r[k] == sorted[k];
    forall k | 0 <= k < |r|
      ensures DueThisWeek(r[k], today) && r[k] in s
    {
      assert sorted[k] in multiset(f);
    }
  }

  /** Upcoming lists as many as qualify, up to ten, taken from those that
      qualify; any qualifying assignment left out is due no earlier than
      every listed one. */
  lemma UpcomingWhichTen(s: seq<Assignment>, today: Date)
    requires ValidDate(today)
    ensures var f := FilterWeek(s, today);
            var r := Upcoming(s, today);
            && |r| == (if |f| <= UpcomingLimit then |f| else UpcomingLimit)
            && multiset(r) <= multiset(f)
            && forall a, k :: a in multiset(f) - multiset(r) && 0 <= k < |r| ==> DueKey(r[k]) <= DueKey(a)
  {
    var f := FilterWeek(s, today);
    var sorted := OrderBy(f, DueKey);
    var n := if |sorted| <= UpcomingLimit then |sorted| else UpcomingLimit;
    assert Upcoming(s, today) == sorted[..n];
    SortedPrefix(sorted, n);
  }

  /** The first `n` of a list sorted by due date: the rest of the list
      holds what the prefix leaves out, and is due no earlier. */
  lemma SortedPrefix(sorted: seq<Assignment>, n: nat)
    requires SortedBy(sorted, DueKey) && n <= |sorted|
    ensures multiset(sorted) - multiset(sorted[..n]) == multiset(sorted[n..])
    ensures multiset(sorted[..n]) <= multiset(sorted)
    ensures forall a, k :: a in multiset(sorted) - multiset(sorted[..n]) && 0 <= k < n ==>
              DueKey(sorted[..n][k]) <= DueKey(a)
  {
    var r := sorted[..n];
    var rest := sorted[n..];
    assert sorted == r + rest;
    assert multiset(sorted) == multiset(r) + multiset(rest);
    forall a, k | a in multiset(sorted) - multiset(r) && 0 <= k < n
      ensures DueKey(r[k]) <= DueKey(a)
    {
      assert a in multiset(rest);
      var m :| 0 <= m < |rest| && rest[m] == a;
      assert sorted[n + m] == a && sorted[k] == r[k];
    }
  }

  /** When no more than ten assignments qualify, all of them are listed. */
  lemma UpcomingComplete(s: seq<Assignment>, today: Date, a: Assignment)
    requires ValidDate(today)
    requires |FilterWeek(s, today)| <= UpcomingLimit
    requires a in s && DueThisWeek(a, today)
    ensures a in Upcoming(s, today)
  {
    var sorted := OrderBy(FilterWeek(s, today), DueKey);
    FilterWeekComplete(s, today, a);
    assert a in multiset(FilterWeek(s, today));
    assert a in multiset(sorted);
  }

  /** An entry of `upcoming_json`. */
  datatype UpcomingEntry = UpcomingEntry(title: string, due: Instant, course: string)

  /** `upcoming_json`, one entry per upcoming assignment, with "No Course"
      for uncategorized ones. */
  function UpcomingJson(upcoming: seq<Assignment>): (r: seq<UpcomingEntry>)
    ensures |r| == |upcoming|
    ensures forall k :: 0 <= k < |r| ==>
              r[k].title == upcoming[k].title && r[k].due == upcoming[k].due
              && r[k].course == (if upcoming[k].course.Some? then upcoming[k].course.value.name else "No Course")
  {
    seq(|upcoming|, k requires 0 <= k < |upcoming| =>
      UpcomingEntry(upcoming[k].title, upcoming[k].due, CourseName(upcoming[k])))
  }

  // ---------------------------------------------------------------------
  // Reminders
  // ---------------------------------------------------------------------

  /** Open and due strictly after now. */
  predicate Remindable(a: Assignment, now: Instant) {
    !a.completed && Before(now, a.due)
  }

  function FilterRemindable(s: seq<Assignment>, now: Instant): (r: seq<Assignment>)
    ensures forall k :: 0 <= k < |r| ==> Remindable(r[k], now) && r[k] in s
    decreases |s|
  {
    if s == [] then []
    else if Remindable(s[0], now) then [s[0]] + FilterRemindable(s[1..], now)
    else FilterRemindable(s[1..], now)
  }

  lemma {:induction false} FilterRemindableComplete(s: seq<Assignment>, now: Instant, a: Assignment)
    requires a in s && Remindable(a, now)
    ensures a in FilterRemindable(s, now)
    decreases |s|
  {
    if s[0] != a {
      FilterRemindableComplete(s[1..], now, a);
    }
  }

  /** An entry of the reminder list. */
  datatype ReminderEntry = ReminderEntry(title: string, due: Instant)

  /** `upcoming_for_reminder_list`: the user's open assignments due after
      now, in the default order. */
  function Reminders(all: seq<Assignment>, user: nat, now: Instant): (r: seq<ReminderEntry>)
    ensures |r| == |FilterRemindable(OwnedBy(all, user), now)|
    ensures forall i, j :: 0 <= i < j < |r| ==> Seconds(r[i].due) <= Seconds(r[j].due)
  {
    var chosen := OrderBy(FilterRemindable(OwnedBy(all, user), now), DueKey);
    EntriesOf(chosen)
  }

  /** The title and due date of each assignment, in order. */
  function EntriesOf(chosen: seq<Assignment>): (r: seq<ReminderEntry>)
    ensures |r| == |chosen|
    ensures forall k :: 0 <= k < |r| ==> r[k] == ReminderEntry(chosen[k].title, chosen[k].due)
    ensures SortedBy(chosen, DueKey) ==> forall i, j :: 0 <= i < j < |r| ==> Seconds(r[i].due) <= Seconds(r[j].due)
  {
    seq(|chosen|, k requires 0 <= k < |chosen| => ReminderEntry(chosen[k].title, chosen[k].due))
  }

  /** Every reminder is one of the user's open assignments due strictly
      after now. */
  lemma RemindersSound(all: seq<Assignment>, user: nat, now: Instant)
    ensures forall e :: e in Reminders(all, user, now) ==>
              exists a :: a in all && a.owner == user && Remindable(a, now) && e == ReminderEntry(a.title, a.due)
  {
    var f := FilterRemindable(OwnedBy(all, user), now);
    var chosen := OrderBy(f, DueKey);
    var r := Reminders(all, user, now);
    forall e | e in r
      ensures exists a :: a in all && a.owner == user && Remindable(a, now) && e == ReminderEntry(a.title, a.due)
    {
      var k :| 0 <= k < |r| && r[k] == e;
      assert chosen[k] in multiset(f);
      assert chosen[k] in OwnedBy(all, user);
    }
  }

  /** Every open assignment of the user due strictly after now is reminded
      of. */
  lemma RemindersComplete(all: seq<Assignment>, user: nat, now: Instant)
    ensures forall a :: a in all && a.owner == user && Remindable(a, now) ==>
              ReminderEntry(a.title, a.due) in Reminders(all, user, now)
  {
    var f := FilterRemindable(OwnedBy(all, user), now);
    var chosen := OrderBy(f, DueKey);
    var r := Reminders(all, user, now);
    forall a | a in all && a.owner == user && Remindable(a, now)
      ensures ReminderEntry(a.title, a.due) in r
    {
      OwnedByComplete(all, user, a);
      FilterRemindableComplete(OwnedBy(all, user), now, a);
      assert a in multiset(chosen);
      var k :| 0 <= k < |chosen| && chosen[k] == a;
      assert r[k] == ReminderEntry(a.title, a.due);
    }
  }

  // ---------------------------------------------------------------------
  // Calendar entries
  // ---------------------------------------------------------------------

  /** The loop building `calendar_events`: one entry per assignment (every
      assignment has a due date), in order, carrying its flags and course
      name. */
  method BuildCalendarEvents(s: seq<Assignment>, now: Instant) returns (events: seq<Calendar.CalendarItem>)
    ensures |events| == |s|
    ensures forall k :: 0 <= k < |s| ==> events[k] == CalendarItemOf(s[k], now)
  {
    events := [];
    var i := 0;
    while i < |s|
      invariant 0 <= i <= |s|
      invariant |events| == i
      invariant forall k :: 0 <= k < i ==> events[k] == CalendarItemOf(s[k], now)
    {
      var assignment := s[i];
      var course := if assignment.course.Some? then assignment.course.value.name else "No Course";
      events := events + [Calendar.CalendarItem(assignment.title, Basics.Some(assignment.due),
                                                assignment.completed, IsOverdue(assignment, now), course)];
      i := i + 1;
    }
  }

  // ---------------------------------------------------------------------
  // The whole context
  // ---------------------------------------------------------------------

  datatype Context = Context(
    totalAssignments: nat,
    completedAssignments: nat,
    overdueAssignments: nat,
    completionRate: real,
    courseChartData: seq<CourseRate>,
    calendarEvents: seq<Calendar.CalendarItem>,
    upcomingJson: seq<UpcomingEntry>,
    reminders: seq<ReminderEntry>,
    upcomingAssignments: seq<Assignment>)

  /** `dashboard`. */
  method Dashboard(all: seq<Assignment>, user: nat, now: Instant)
    returns (ctx: Context)
    ensures var mine := Mine(all, user);
            var stats := CourseStatsOf(mine);
            && ctx.totalAssignments == |mine|
            && ctx.completedAssignments == CountCompleted(mine) <= ctx.totalAssignments
            && ctx.overdueAssignments == CountOverdue(mine, now)
            && ctx.completedAssignments + ctx.overdueAssignments <= ctx.totalAssignments
            && ctx.completionRate == CompletionRate(CountCompleted(mine), |mine|)
            && 0.0 <= ctx.completionRate <= 100.0
            && |ctx.courseChartData| == |stats|
            && (forall i :: 0 <= i < |stats| ==>
                  ctx.courseChartData[i] == CourseRate(stats[i].name, StatRate(stats[i]))
                  && 0.0 <= ctx.courseChartData[i].completionRate <= 100.0)
            && |ctx.calendarEvents| == |mine|
            && (forall k :: 0 <= k < |mine| ==> ctx.calendarEvents[k] == CalendarItemOf(mine[k], now))
            && ctx.upcomingAssignments == Upcoming(mine, now.date)
            && ctx.upcomingJson == UpcomingJson(Upcoming(mine, now.date))
            && ctx.reminders == Reminders(all, user, now)
  {
    var mine := Mine(all, user);
    var total := |mine|;
    var completed := CountCompleted(mine);
    var overdue := CountOverdue(mine, now);
    CountsBounded(mine, now);
    var stats := CourseStatsOf(mine);
    var courseChartData := BuildCourseChartData(stats);
    CourseRatesSound(mine, stats, courseChartData);
    var upcoming := Upcoming(mine, now.date);
    var events := BuildCalendarEvents(mine, now);
    ctx := Context(total, completed, overdue, CompletionRate(completed, total), courseChartData,
                   events, UpcomingJson(upcoming), Reminders(all, user, now), upcoming);
  }
}
