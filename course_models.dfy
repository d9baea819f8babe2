/** The course record (courses/models.py): its field limits and the way it
    is displayed. */
module CourseModels {
  import opened Basics

  /** A course as stored; `owner` is the owning user's id. */
  datatype Course = Course(id: nat, name: string, code: string, owner: nat)

  const NameMaxLength: nat := 100
  const CodeMaxLength: nat := 20

  /** What model validation admits: a name of 1 to 100 characters (a
      `CharField` without `blank=True` may not be empty) and a code of at
      most 20, possibly empty. */
  predicate ValidCourse(c: Course) {
    0 < |c.name| <= NameMaxLength && |c.code| <= CodeMaxLength
  }

  /** `__str__`: "Name (Code)" when there is a code, else the bare name. */
  function CourseDisplay(c: Course): (s: string)
    ensures c.code != "" ==> s == c.name + " (" + c.code + ")"
    ensures c.code == "" ==> s == c.name
  {
    if c.code != "" then c.name + " (" + c.code + ")" else c.name
  }

  /** The display string begins with the name and is followed by nothing
      or by the parenthesised code, so it is at most 123 characters long
      for a valid course. */
  lemma DisplayShape(c: Course)
    ensures StartsWith(CourseDisplay(c), c.name)
    ensures |CourseDisplay(c)| == |c.name| + (if c.code == "" then 0 else |c.code| + 3)
    ensures ValidCourse(c) ==> |CourseDisplay(c)| <= NameMaxLength + CodeMaxLength + 3
    ensures c.code != "" <==> |CourseDisplay(c)| > |c.name|
  {
    var s := CourseDisplay(c);
    assert s[..|c.name|] == c.name;
  }

  /** Position of the first '(' in `s`, or `|s|` when there is none. */
  function ParenIndex(s: string): (n: nat)
    ensures n <= |s|
    decreases |s|
  {
    if s == [] then 0 else if s[0] == '(' then 0 else 1 + ParenIndex(s[1..])
  }

  lemma {:induction false} ParenIndexAt(s: string, n: nat)
    requires n <= |s| && (n < |s| ==> s[n] == '(')
    requires forall k :: 0 <= k < n ==> s[k] != '('
    ensures ParenIndex(s) == n
    decreases n
  {
    if n > 0 {
      ParenIndexAt(s[1..], n - 1);
    }
  }

  /** Without a '(' in the name, the first '(' of the display string opens
      the code, and there is none when there is no code. */
  lemma DisplayParen(c: Course)
    requires '(' !in c.name
    ensures ParenIndex(CourseDisplay(c)) == if c.code == "" then |c.name| else |c.name| + 1
  {
    var s := CourseDisplay(c);
    if c.code == "" {
      ParenIndexAt(s, |s|);
    } else {
      assert s[|c.name|] == ' ' && s[|c.name| + 1] == '(';
      assert forall k :: 0 <= k < |c.name| ==> s[k] == c.name[k];
      ParenIndexAt(s, |c.name| + 1);
    }
  }

  /** Two courses without parentheses in their names display alike only
      when name and code agree: the display string determines both. */
  lemma DisplayDetermines(c: Course, d: Course)
    requires '(' !in c.name && '(' !in d.name
    requires CourseDisplay(c) == CourseDisplay(d)
    ensures c.name == d.name && c.code == d.code
  {
    var s := CourseDisplay(c);
    DisplayShape(c);
    DisplayShape(d);
    DisplayParen(c);
    DisplayParen(d);
    assert c.name == s[..|c.name|];
    assert d.name == s[..|d.name|];
    if c.code != "" && d.code != "" {
      assert |c.name| == |d.name|;
      assert c.code == s[|c.name| + 2..|s| - 1] == d.code;
    }
  }
}
