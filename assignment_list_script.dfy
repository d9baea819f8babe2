/** The assignment list page script (static/js/assignment_list.js): the
    optimistic flip of a "toggle complete" button and its status badge, and
    the cookie reader that fetches the CSRF token.  Class attributes are sets
    of class names; the background request is not modelled. */
module AssignmentListScript {
  import opened Basics

  // ---------------------------------------------------------------------
  // Reading a cookie
  // ---------------------------------------------------------------------

  /** What `getCookie` returns: `null`, `undefined` or a string. */
  datatype CookieValue = Null | Undefined | Value(text: string)

  /** `.find(cookie => cookie.startsWith(name + '='))` over the trimmed
      entries, then `.substring(name.length + 1)`. */
  function FindCookie(entries: seq<string>, name: string): (r: Option<string>)
    ensures r.None? <==> forall k :: 0 <= k < |entries| ==> !StartsWith(entries[k], name + "=")
    ensures r.Some? ==>
              exists k :: (0 <= k < |entries|
                           && StartsWith(entries[k], name + "=")
                           && (forall j :: 0 <= j < k ==> !StartsWith(entries[j], name + "="))
                           && r.value == entries[k][|name| + 1..])
    decreases |entries|
  {
    if entries == [] then None
    else if StartsWith(entries[0], name + "=") then Some(entries[0][|name| + 1..])
    else
      var r := FindCookie(entries[1..], name);
      if r.Some? then
        ghost var k :| 0 <= k < |entries[1..]|
          && StartsWith(entries[1..][k], name + "=")
          && (forall j :: 0 <= j < k ==> !StartsWith(entries[1..][j], name + "="))
          && r.value == entries[1..][k][|name| + 1..];
        assert entries[k + 1] == entries[1..][k];
        r
      else r
  }

  /** The entries of `document.cookie`: split at `;`, each trimmed. */
  function CookieEntries(cookie: string): (entries: seq<string>)
    ensures |entries| == |Split(cookie, ';')|
    ensures forall k :: 0 <= k < |entries| ==> entries[k] == Trim(Split(cookie, ';')[k])
  {
    var parts := Split(cookie, ';');
    seq(|parts|, k requires 0 <= k < |parts| => Trim(parts[k]))
  }

  /** There is one entry more than there are `;` in the cookie string, and
      every entry is free of `;` and of surrounding white space. */
  lemma CookieEntriesShape(cookie: string)
    ensures |CookieEntries(cookie)| == multiset(cookie)[';'] + 1
    ensures forall k :: 0 <= k < |CookieEntries(cookie)| ==>
              ';' !in CookieEntries(cookie)[k] && Trim(CookieEntries(cookie)[k]) == CookieEntries(cookie)[k]
  {
    var parts := Split(cookie, ';');
    var entries := CookieEntries(cookie);
    SplitCount(cookie, ';');
    forall k | 0 <= k < |entries|
      ensures ';' !in entries[k] && Trim(entries[k]) == entries[k]
    {
      TrimWithin(parts[k]);
      TrimIdempotent(parts[k]);
    }
  }

  /** `getCookie(name)` on the page's cookie string. */
  function GetCookie(cookie: string, name: string): (r: CookieValue)
    ensures r == Null <==> cookie == ""
    ensures r.Value? <==> cookie != "" && FindCookie(CookieEntries(cookie), name).Some?
  {
    if cookie == "" then Null
    else
      match FindCookie(CookieEntries(cookie), name)
      case None => Undefined
      case Some(v) => Value(v)
  }

  /** A cookie string made of `;`-separated entries is read entry by entry:
      the value is that of the first entry whose trimmed text starts with
      `name=`, and `undefined` when there is none. */
  lemma {:induction false} GetCookieOfEntries(entries: seq<string>, name: string)
    requires |entries| >= 1 && Join(entries, ";") != ""
    requires forall k :: 0 <= k < |entries| ==> ';' !in entries[k]
    ensures var trimmed := seq(|entries|, k requires 0 <= k < |entries| => Trim(entries[k]));
            GetCookie(Join(entries, ";"), name) ==
              match FindCookie(trimmed, name)
              case None => Undefined
              case Some(v) => Value(v)
  {
    SplitJoin(entries, ';');
    var trimmed := seq(|entries|, k requires 0 <= k < |entries| => Trim(entries[k]));
    assert CookieEntries(Join(entries, ";")) == trimmed;
  }

  /** Two entries joined by `;`, read as a cookie string. */
  lemma GetCookieOfTwo(first: string, second: string, name: string)
    requires ';' !in first && ';' !in second
    ensures GetCookie(first + ";" + second, name) ==
              match FindCookie([Trim(first), Trim(second)], name)
              case None => Undefined
              case Some(v) => Value(v)
  {
    var entries := [first, second];
    assert Join(entries, ";") == first + ";" + second;
    GetCookieOfEntries(entries, name);
    var trimmed := seq(|entries|, k requires 0 <= k < |entries| => Trim(entries[k]));
    assert trimmed == [Trim(first), Trim(second)];
  }

  /** The space a browser writes after `;` is trimmed away. */
  lemma SpaceThenTrimmed(t: string)
    requires t != [] && !IsSpace(t[0]) && !IsSpace(t[|t| - 1])
    ensures Trim(" " + t) == t
  {
    assert (" " + t)[1..] == t;
    assert TrimStart(" " + t) == TrimStart(t);
    TrimUnchanged(t);
  }

  /** A cookie placed after another one, with the space that browsers put
      after each `;`, is found and its value returned whole. */
  lemma {:induction false} CookieAfterAnother(other: string, name: string, v: string)
    requires ';' !in other && ';' !in name && ';' !in v
    requires name != [] && !IsSpace(name[0]) && (v != [] ==> !IsSpace(v[|v| - 1]))
    requires !StartsWith(Trim(other), name + "=")
    ensures GetCookie(other + "; " + name + "=" + v, name) == Value(v)
  {
    var t := name + "=" + v;
    assert ';' !in " " + t;
    assert other + "; " + name + "=" + v == other + ";" + (" " + t);
    GetCookieOfTwo(other, " " + t, name);
    SpaceThenTrimmed(t);
    FoundSecond(Trim(other), name, v);
  }

  /** The second entry `name=v`, after one that does not match, yields `v`. */
  lemma FoundSecond(first: string, name: string, v: string)
    requires !StartsWith(first, name + "=")
    ensures FindCookie([first, name + "=" + v], name) == Some(v)
  {
    var t := name + "=" + v;
    assert StartsWith(t, name + "=") by {
      assert t[..|name| + 1] == name + "=";
    }
    assert [first, t][1..] == [t];
    assert t[|name| + 1..] == v;
  }

  // ---------------------------------------------------------------------
  // The optimistic toggle
  // ---------------------------------------------------------------------

  /** The button's classes after the flip: both state classes removed, then
      `btn-warning` added when the assignment becomes completed and
      `btn-success` when it is reopened. */
  function ToggledClasses(classes: set<string>): (r: set<string>)
    ensures ("btn-warning" in r) != ("btn-success" in r)
    ensures "btn-warning" in r <==> "btn-warning" !in classes
    ensures r - {"btn-warning", "btn-success"} == classes - {"btn-warning", "btn-success"}
  {
    var nowCompleted := "btn-warning" !in classes;
    classes - {"btn-warning", "btn-success"} + {if nowCompleted then "btn-warning" else "btn-success"}
  }

  /** Flipping twice restores the classes whenever exactly one state class
      was present, as it is after any flip. */
  lemma ToggleTwice(classes: set<string>)
    requires ("btn-warning" in classes) != ("btn-success" in classes)
    ensures ToggledClasses(ToggledClasses(classes)) == classes
  {
    var r := ToggledClasses(ToggledClasses(classes));
    assert forall c :: c in r <==> c in classes;
  }

  class ToggleButton {
    var classes: set<string>
    var icon: string
    var text: string

    constructor (classes: set<string>)
      ensures this.classes == classes && icon == "" && text == ""
    {
      this.classes := classes;
      icon := "";
      text := "";
    }
  }

  /** The status badge of the same assignment. */
  class StatusBadge {
    var classes: seq<string>
    var icon: string
    var text: string

    constructor ()
      ensures classes == [] && icon == "" && text == ""
    {
      classes := [];
      icon := "";
      text := "";
    }
  }

  /** `toggleUIState`: the new state is the opposite of "the button shows
      `btn-warning`"; the button's class, icon and label, and the badge when
      there is one, follow the new state. */
  method ToggleUIState(button: ToggleButton, badge: StatusBadge?) returns (nowCompleted: bool)
    modifies button, badge
    ensures nowCompleted <==> "btn-warning" !in old(button.classes)
    ensures button.classes == ToggledClasses(old(button.classes))
    ensures button.icon == (if nowCompleted then "fa-undo" else "fa-check")
    ensures button.text == (if nowCompleted then "Reopen" else "Complete")
    ensures badge != null ==>
              badge.classes == (if nowCompleted then ["badge", "bg-success", "ms-2"]
                                else ["badge", "bg-warning", "text-dark", "ms-2"])
              && badge.icon == (if nowCompleted then "fa-check" else "fa-clock")
              && badge.text == (if nowCompleted then "Completed" else "Pending")
  {
    var isCurrentlyCompleted := "btn-warning" in button.classes;
    nowCompleted := !isCurrentlyCompleted;
    button.classes := button.classes - {"btn-warning", "btn-success"};
    button.classes := button.classes + {if nowCompleted then "btn-warning" else "btn-success"};
    button.icon := if nowCompleted then "fa-undo" else "fa-check";
    button.text := if nowCompleted then "Reopen" else "Complete";
    if badge != null {
      badge.text := if nowCompleted then "Completed" else "Pending";
      badge.classes := if nowCompleted then ["badge", "bg-success", "ms-2"]
                       else ["badge", "bg-warning", "text-dark", "ms-2"];
      badge.icon := if nowCompleted then "fa-check" else "fa-clock";
    }
  }
}
