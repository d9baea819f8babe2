/** The assignment record (assignments/models.py): whether it is overdue,
    its status label, its display string and its default ordering.  The
    current time is a parameter. */
module AssignmentModels {
  import opened Dates
  import opened CourseModels
  import Calendar
  import Basics

  /** A due date as the database stores it: a valid instant within the
      years 1 to 9999 that Python's `datetime` can hold. */
  type Instant = t: DateTime | ValidDateTime(t) && 1 <= t.date.year <= 9999
    witness DateTime(Date(1970, 0, 1), 0, 0, 0)

  /** `t` comes strictly before `u`. */
  predicate Before(t: Instant, u: Instant) {
    Seconds(t) < Seconds(u)
  }

  /** An assignment; `owner` is the owning user's id and `course` is `None`
      for an uncategorized assignment.  The due date column is not
      nullable. */
  datatype Assignment = Assignment(
    id: nat, title: string, description: string, due: Instant,
    completed: bool, owner: nat, course: Option<Course>)

  type Option<T> = Basics.Option<T>

  /** `__str__` */
  function AssignmentDisplay(a: Assignment): (s: string)
    ensures s == a.title
  {
    a.title
  }

  /** `is_overdue`: still open and due before now. */
  predicate IsOverdue(a: Assignment, now: Instant) {
    !a.completed && Before(a.due, now)
  }

  /** A completed assignment is never overdue, and an open one stays
      overdue as time goes on. */
  lemma OverdueFacts(a: Assignment, now: Instant, later: Instant)
    requires !Before(later, now)
    ensures a.completed ==> !IsOverdue(a, now)
    ensures IsOverdue(a, now) ==> IsOverdue(a, later)
  {
  }

  /** `status_display`: completed first, then overdue, else pending. */
  function StatusDisplay(a: Assignment, now: Instant): (s: string)
    ensures s == "Completed" <==> a.completed
    ensures s == "Overdue" <==> IsOverdue(a, now)
    ensures s == "Pending" <==> !a.completed && !Before(a.due, now)
    ensures s in {"Completed", "Overdue", "Pending"}
  {
    if a.completed then "Completed"
    else if IsOverdue(a, now) then "Overdue"
    else "Pending"
  }

  /** The name the dashboard gives the course of an assignment. */
  function CourseName(a: Assignment): string {
    if a.course.Some? then a.course.value.name else "No Course"
  }

  /** The calendar entry the dashboard makes of an assignment: its
      completion and `is_overdue` flags are carried over. */
  function CalendarItemOf(a: Assignment, now: Instant): Calendar.CalendarItem {
    Calendar.CalendarItem(a.title, Basics.Some(a.due), a.completed, IsOverdue(a, now), CourseName(a))
  }

  /** The calendar's status of an entry is the model's status label, in
      lower case. */
  lemma CalendarAgreesWithModel(a: Assignment, now: Instant)
    ensures Calendar.StatusName(Calendar.StatusOf(CalendarItemOf(a, now))) == Basics.ToLower(StatusDisplay(a, now))
  {
    var s := StatusDisplay(a, now);
    assert Basics.ToLower("Completed") == "completed";
    assert Basics.ToLower("Overdue") == "overdue";
    assert Basics.ToLower("Pending") == "pending";
  }

  // ---------------------------------------------------------------------
  // Default ordering: ascending due date
  // ---------------------------------------------------------------------

  /** Seconds at which the assignment falls due. */
  function DueKey(a: Assignment): int {
    Seconds(a.due)
  }

  /** Ascending by `key`. */
  predicate SortedBy(s: seq<Assignment>, key: Assignment -> int) {
    forall i, j :: 0 <= i < j < |s| ==> key(s[i]) <= key(s[j])
  }

  /** Puts `a` in front of the first element whose key is not smaller. */
  function InsertBy(a: Assignment, s: seq<Assignment>, key: Assignment -> int): (r: seq<Assignment>)
    requires SortedBy(s, key)
    ensures SortedBy(r, key)
    ensures multiset(r) == multiset(s) + multiset{a}
    ensures |r| == |s| + 1 && (r[0] == a || (s != [] && r[0] == s[0]))
    decreases |s|
  {
    if s == [] || key(a) <= key(s[0]) then
      [a] + s
    else
      var rest := InsertBy(a, s[1..], key);
      assert key(s[0]) <= key(rest[0]);
      var r := [s[0]] + rest;
      assert forall j :: 0 < j < |r| ==> r[j] == rest[j - 1] && key(rest[0]) <= key(rest[j - 1]);
      assert s == [s[0]] + s[1..];
      assert multiset(r) == multiset{s[0]} + multiset(rest);
      r
  }

  /** Insertion sort by `key`. */
  function OrderBy(s: seq<Assignment>, key: Assignment -> int): (r: seq<Assignment>)
    ensures SortedBy(r, key)
    ensures multiset(r) == multiset(s) && |r| == |s|
    decreases |s|
  {
    if s == [] then []
    else
      var r := InsertBy(s[|s| - 1], OrderBy(s[..|s| - 1], key), key);
      assert s == s[..|s| - 1] + [s[|s| - 1]];
      r
  }

  /** `ordering = ['due_date']`: the same assignments, soonest due first,
      so that no assignment is listed after one due before it. */
  lemma OrderByDueSorted(s: seq<Assignment>)
    ensures var r := OrderBy(s, DueKey);
            && multiset(r) == multiset(s)
            && forall i, j :: 0 <= i < j < |r| ==> !Before(r[j].due, r[i].due)
  {
    var r := OrderBy(s, DueKey);
    assert SortedBy(r, DueKey);
  }
}
