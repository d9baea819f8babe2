/** The site-wide helpers of static/js/main.js: the password strength counter,
    the toast icon lookup, the file-upload check, the floating-label and
    validity classes of form controls, and the required-field validator.
    Elements are objects holding the state the handlers change; the
    browser's own constraint validation (`checkValidity`) is a parameter. */
module MainScript {
  import opened Basics
  import PasswordChange

  // ---------------------------------------------------------------------
  // Password strength counter
  // ---------------------------------------------------------------------

  /** The five criteria, in order: at least 8 characters, an upper-case
      letter, a lower-case letter, a digit, a character that is neither. */
  function Criteria(password: string): (c: seq<bool>)
    ensures |c| == 5
  {
    [|password| >= 8, HasUpper(password), HasLower(password), HasDigit(password), HasSpecial(password)]
  }

  /** `checkPasswordStrength`: one point per criterion met. */
  method CheckPasswordStrength(password: string) returns (strength: int)
    ensures strength == PasswordChange.CountTrue(Criteria(password))
    ensures 0 <= strength <= 5
    ensures password == "" ==> strength == 0
  {
    strength := 0;
    if |password| >= 8 { strength := strength + 1; }
    if HasUpper(password) { strength := strength + 1; }
    if HasLower(password) { strength := strength + 1; }
    if HasDigit(password) { strength := strength + 1; }
    if HasSpecial(password) { strength := strength + 1; }
    CountFive(Criteria(password));
  }

  /** The count of a five-element list, criterion by criterion. */
  lemma CountFive(c: seq<bool>)
    requires |c| == 5
    ensures PasswordChange.CountTrue(c) ==
              (if c[0] then 1 else 0) + (if c[1] then 1 else 0) + (if c[2] then 1 else 0)
              + (if c[3] then 1 else 0) + (if c[4] then 1 else 0)
  {
    var c1, c2, c3, c4 := c[1..], c[2..], c[3..], c[4..];
    assert c1[1..] == c2 && c2[1..] == c3 && c3[1..] == c4 && c4[1..] == [];
    assert c1[0] == c[1] && c2[0] == c[2] && c3[0] == c[3] && c4[0] == c[4];
    assert PasswordChange.CountTrue(c4) == (if c[4] then 1 else 0) + PasswordChange.CountTrue([]);
    assert PasswordChange.CountTrue(c3) == (if c[3] then 1 else 0) + PasswordChange.CountTrue(c4);
    assert PasswordChange.CountTrue(c2) == (if c[2] then 1 else 0) + PasswordChange.CountTrue(c3);
    assert PasswordChange.CountTrue(c1) == (if c[1] then 1 else 0) + PasswordChange.CountTrue(c2);
  }

  /** The two scorers agree up to the extra 12-character criterion: without a
      weak pattern the page scorer's score is this counter plus one point for
      twelve characters or more. */
  lemma ScorersAgree(password: string)
    requires password != "" && !PasswordChange.HasWeakPattern(password)
    ensures PasswordChange.CalculatePasswordStrength(password).score
            == PasswordChange.CountTrue(Criteria(password)) + (if |password| >= 12 then 1 else 0)
  {
    var six := PasswordChange.Checks(password);
    CountFive(Criteria(password));
    CountFive(six[1..]);
    assert six[1..][0] == six[1];
  }

  // ---------------------------------------------------------------------
  // Toast icons
  // ---------------------------------------------------------------------

  const Icons: map<string, string> := map[
    "info" := "info-circle",
    "success" := "check-circle",
    "warning" := "exclamation-triangle",
    "danger" := "exclamation-circle"]

  /** The names an object literal inherits from `Object.prototype`.  Looking
      one of them up in `icons` finds the inherited member, a function or
      object and therefore truthy, instead of falling back to the default. */
  const InheritedKeys: set<string> := {
    "constructor", "toString", "toLocaleString", "valueOf", "hasOwnProperty",
    "isPrototypeOf", "propertyIsEnumerable", "__proto__", "__defineGetter__",
    "__defineSetter__", "__lookupGetter__", "__lookupSetter__"}

  /** What `icons[type] || 'info-circle'` evaluates to: an icon name, or
      the inherited member named `key`. */
  datatype IconLookup = Icon(name: string) | InheritedMember(key: string)

  /** `getIconForType`: the icon of a known type, the inherited member for a
      name `Object.prototype` defines, `info-circle` otherwise. */
  function GetIconForType(kind: string): (r: IconLookup)
    ensures kind in Icons ==> r == Icon(Icons[kind])
    ensures r.InheritedMember? <==> kind in InheritedKeys
    ensures r.InheritedMember? ==> r.key == kind
    ensures r == Icon("info-circle") <==>
              kind != "success" && kind != "warning" && kind != "danger" && kind !in InheritedKeys
    ensures r.Icon? ==> r.name in {"info-circle", "check-circle", "exclamation-triangle", "exclamation-circle"}
  {
    assert Icons["success"] != "info-circle" && Icons["warning"] != "info-circle"
      && Icons["danger"] != "info-circle" && Icons["info"] == "info-circle";
    if kind in Icons then Icon(Icons[kind])
    else if kind in InheritedKeys then InheritedMember(kind)
    else Icon("info-circle")
  }

  // ---------------------------------------------------------------------
  // File uploads
  // ---------------------------------------------------------------------

  /** The selected file: its name, its size in bytes and its MIME type. */
  datatype FileInfo = FileInfo(name: string, size: int, mimeType: string)

  /** 5 MB. */
  const MaxUploadSize: int := 5 * 1024 * 1024

  const AllowedTypes: set<string> := {"image/jpeg", "image/png", "image/gif", "image/webp"}

  datatype UploadVerdict = Accepted | TooLarge | WrongType

  /** The `change` handler's checks: size first, then type. */
  function CheckUpload(file: FileInfo): (v: UploadVerdict)
    ensures v == Accepted <==> file.size <= MaxUploadSize && file.mimeType in AllowedTypes
    ensures v == TooLarge <==> file.size > MaxUploadSize
    ensures v == WrongType <==> file.size <= MaxUploadSize && file.mimeType !in AllowedTypes
  {
    if file.size > MaxUploadSize then TooLarge
    else if file.mimeType !in AllowedTypes then WrongType
    else Accepted
  }

  function UploadAlert(v: UploadVerdict): Option<string> {
    match v
    case Accepted => None
    case TooLarge => Some("File size must be less than 5MB")
    case WrongType => Some("Only JPG, PNG, GIF, and WebP images are allowed")
  }

  class FileInput {
    /** The input's value; clearing it drops the selection. */
    var value: string

    constructor (value: string)
      ensures this.value == value
    {
      this.value := value;
    }
  }

  /** The `change` handler: a rejected file is reported and the input
      cleared; an accepted one (whose preview is not modelled) is kept. */
  method OnFileChange(input: FileInput, file: Option<FileInfo>) returns (alert: Option<string>)
    modifies input
    ensures file.None? ==> alert.None? && input.value == old(input.value)
    ensures file.Some? ==> alert == UploadAlert(CheckUpload(file.value))
    ensures file.Some? ==>
              input.value == (if CheckUpload(file.value) == Accepted then old(input.value) else "")
  {
    alert := None;
    if file.Some? {
      var f := file.value;
      if f.size > 5 * 1024 * 1024 {
        alert := Some("File size must be less than 5MB");
        input.value := "";
        return;
      }
      if f.mimeType !in AllowedTypes {
        alert := Some("Only JPG, PNG, GIF, and WebP images are allowed");
        input.value := "";
        return;
      }
    }
  }

  // ---------------------------------------------------------------------
  // Floating labels and validity classes of `.form-control` elements
  // ---------------------------------------------------------------------

  /** The classes of a control after the `input` handler, given the browser's
      verdict on its constraints. */
  function ValidityClasses(classes: set<string>, valid: bool, value: string): set<string> {
    var cleared := classes - {"is-invalid", "is-valid"};
    if valid then cleared + {"is-valid"}
    else if value != "" then cleared + {"is-invalid"}
    else cleared
  }

  /** After the handler a control carries at most one of the two classes,
      `is-valid` exactly when it passes, and `is-invalid` only when it fails
      with something typed in; other classes are untouched. */
  lemma ValidityClassesSound(classes: set<string>, valid: bool, value: string)
    ensures var r := ValidityClasses(classes, valid, value);
            && !("is-valid" in r && "is-invalid" in r)
            && ("is-valid" in r <==> valid)
            && ("is-invalid" in r <==> !valid && value != "")
            && r - {"is-invalid", "is-valid"} == classes - {"is-invalid", "is-valid"}
  {
  }

  /** The element around a control, which carries the `focused` class. */
  class Wrapper {
    var classes: set<string>

    constructor (classes: set<string>)
      ensures this.classes == classes
    {
      this.classes := classes;
    }
  }

  class FormControl {
    var value: string
    var classes: set<string>
    const parent: Wrapper

    constructor (value: string, classes: set<string>, parent: Wrapper)
      ensures this.value == value && this.classes == classes && this.parent == parent
    {
      this.value := value;
      this.classes := classes;
      this.parent := parent;
    }

    /** `initForms` on page load: a control that already has a value keeps
        its label raised. */
    method OnLoad()
      modifies parent
      ensures parent.classes == if value != "" then old(parent.classes) + {"focused"} else old(parent.classes)
    {
      if value != "" {
        parent.classes := parent.classes + {"focused"};
      }
    }

    method OnFocus()
      modifies parent
      ensures parent.classes == old(parent.classes) + {"focused"}
    {
      parent.classes := parent.classes + {"focused"};
    }

    /** Leaving a control lowers its label only when it is empty. */
    method OnBlur()
      modifies parent
      ensures value == "" ==> parent.classes == old(parent.classes) - {"focused"}
      ensures value != "" ==> parent.classes == old(parent.classes)
    {
      if value == "" {
        parent.classes := parent.classes - {"focused"};
      }
    }

    /** The `input` handler, `valid` being `checkValidity()`. */
    method OnInput(valid: bool)
      modifies this`classes
      ensures classes == ValidityClasses(old(classes), valid, value)
    {
      classes := classes - {"is-invalid", "is-valid"};
      if valid {
        classes := classes + {"is-valid"};
      } else if value != "" {
        classes := classes + {"is-invalid"};
      }
    }
  }

  /** A form's submit button. */
  class SubmitButton {
    var disabled: bool
    var text: string

    constructor (text: string)
      ensures !disabled && this.text == text
    {
      disabled := false;
      this.text := text;
    }
  }

  /** The `submit` handler every form gets: the button, when there is one,
      is disabled and shows a spinner with "Processing...". */
  method OnAnySubmit(button: SubmitButton?)
    modifies button
    ensures button != null ==> button.disabled && button.text == "Processing..."
  {
    if button != null {
      button.text := "Processing...";
      button.disabled := true;
    }
  }

  // ---------------------------------------------------------------------
  // The required-field validator
  // ---------------------------------------------------------------------

  /** A child of the element that contains a form field: a field (an
      `input`, `select` or `textarea`), an `invalid-feedback` message, or
      any other element. */
  datatype Node =
    | Field(value: string, required: bool, classes: set<string>)
    | Feedback
    | Other

  /** A required field whose trimmed value is empty, that is, whose value
      is all white space. */
  predicate NeedsMessage(n: Node) {
    n.Field? && n.required && IsBlank(n.value)
  }

  /** The classes a required field gets: `is-invalid` when blank, otherwise
      `is-invalid` removed and `is-valid` added.  Other nodes are kept. */
  function Checked(n: Node): (r: Node)
    ensures r.Field? <==> n.Field?
    ensures n.Field? ==> r.value == n.value && r.required == n.required
    ensures NeedsMessage(r) <==> NeedsMessage(n)
    ensures !(n.Field? && n.required) ==> r == n
    ensures NeedsMessage(n) ==> "is-invalid" in r.classes
    ensures n.Field? && n.required && !IsBlank(n.value) ==>
              "is-valid" in r.classes && "is-invalid" !in r.classes
    ensures n.Field? ==> r.classes - {"is-valid", "is-invalid"} == n.classes - {"is-valid", "is-invalid"}
    ensures NeedsMessage(n) ==> r.classes == n.classes + {"is-invalid"}
    ensures n.Field? && n.required && !IsBlank(n.value) ==>
              r.classes == n.classes - {"is-invalid"} + {"is-valid"}
  {
    if !(n.Field? && n.required) then n
    else if IsBlank(n.value) then n.(classes := n.classes + {"is-invalid"})
    else n.(classes := n.classes - {"is-invalid"} + {"is-valid"})
  }

  /** Checking a node a second time changes nothing. */
  lemma CheckedIdempotent(n: Node)
    ensures Checked(Checked(n)) == Checked(n)
  {
  }

  /** Node `i` of a container is checked, and a message is appended to the
      container when the field is blank and the element right after it is
      not a message. */
  function Step(g: seq<Node>, i: nat): (r: seq<Node>)
    requires i < |g|
    ensures |g| <= |r| <= |g| + 1
  {
    g[i := Checked(g[i])]
      + (if NeedsMessage(g[i]) && !(i + 1 < |g| && g[i + 1] == Feedback) then [Feedback] else [])
  }

  /** The first `i` nodes of a container processed in order.  Appended
      messages land after the original nodes, so the nodes still to be
      visited keep their positions. */
  function Pass(g: seq<Node>, i: nat): (r: seq<Node>)
    requires i <= |g|
    ensures |g| <= |r|
    decreases i
  {
    if i == 0 then g else Step(Pass(g, i - 1), i - 1)
  }

  /** After the first `i` steps those nodes are checked, the rest are
      untouched, and anything after them is an appended message. */
  lemma {:induction false} PassPositions(g: seq<Node>, i: nat)
    requires i <= |g|
    ensures var r := Pass(g, i);
            && (forall j :: 0 <= j < i ==> r[j] == Checked(g[j]))
            && (forall j :: i <= j < |g| ==> r[j] == g[j])
            && (forall j :: |g| <= j < |r| ==> r[j] == Feedback)
    decreases i
  {
    if i > 0 {
      PassPositions(g, i - 1);
      var p := Pass(g, i - 1);
      var r := Step(p, i - 1);
      assert r == Pass(g, i);
      assert forall j :: 0 <= j < |r| ==>
        r[j] == (if j < i then Checked(g[j]) else if j < |g| then g[j] else Feedback);
    }
  }

  /** What `validateForm` leaves in one container. */
  function ValidateGroup(g: seq<Node>): seq<Node> {
    Pass(g, |g|)
  }

  /** Every required field of the container has a non-blank value. */
  predicate GroupComplete(g: seq<Node>) {
    forall j :: 0 <= j < |g| ==> !NeedsMessage(g[j])
  }

  /** The `forEach` body applied to the required fields of one container,
      in order, with the running validity flag. */
  method ValidateContainer(g0: seq<Node>) returns (g: seq<Node>, complete: bool)
    ensures g == ValidateGroup(g0)
    ensures complete <==> GroupComplete(g0)
  {
    g := g0;
    complete := true;
    var i := 0;
    while i < |g0|
      invariant 0 <= i <= |g0| <= |g|
      invariant g == Pass(g0, i)
      invariant complete <==> forall j :: 0 <= j < i ==> !NeedsMessage(g0[j])
      decreases |g0| - i
    {
      ghost var next := Step(g, i);
      assert Pass(g0, i + 1) == next;
      PassPositions(g0, i);
      var node := g[i];
      assert node == g0[i];
      if node.Field? && node.required {
        TrimEmptyIffBlank(node.value);
        if Trim(node.value) == "" {
          node := node.(classes := node.classes + {"is-invalid"});
          complete := false;
          if !(i + 1 < |g| && g[i + 1] == Feedback) {
            g := g[i := node] + [Feedback];
          } else {
            g := g[i := node];
          }
        } else {
          g := g[i := node.(classes := node.classes - {"is-invalid"} + {"is-valid"})];
        }
      }
      assert g == next;
      i := i + 1;
    }
  }

  /** A form, as the containers of its required fields. */
  class Form {
    var groups: seq<seq<Node>>

    constructor (groups: seq<seq<Node>>)
      ensures this.groups == groups
    {
      this.groups := groups;
    }
  }

  /** `validateForm`: false for a missing form; otherwise every required
      field is checked in document order, and the result says whether all
      were filled in. */
  method ValidateForm(form: Form?) returns (isValid: bool)
    modifies form
    ensures form == null ==> !isValid
    ensures form != null ==>
              |form.groups| == |old(form.groups)|
              && (forall k :: 0 <= k < |form.groups| ==> form.groups[k] == ValidateGroup(old(form.groups)[k]))
              && (isValid <==> forall k :: 0 <= k < |form.groups| ==> GroupComplete(old(form.groups)[k]))
  {
    if form == null {
      return false;
    }
    isValid := true;
    var orig := form.groups;
    var groups := orig;
    var k := 0;
    while k < |groups|
      invariant 0 <= k <= |groups| == |orig|
      invariant forall q :: 0 <= q < k ==> groups[q] == ValidateGroup(orig[q])
      invariant forall q :: k <= q < |groups| ==> groups[q] == orig[q]
      invariant isValid <==> forall q :: 0 <= q < k ==> GroupComplete(orig[q])
      decreases |groups| - k
    {
      assert groups[k] == orig[k];
      var g, complete := ValidateContainer(groups[k]);
      assert complete <==> GroupComplete(orig[k]);
      isValid := isValid && complete;
      groups := groups[k := g];
      k := k + 1;
    }
    form.groups := groups;
  }

  /** Validation passes exactly when no required field is blank, and then it
      adds no message; and every field's classes reach their final state in
      one run, so a second run changes no field. */
  lemma {:induction false} ValidateGroupFields(g: seq<Node>)
    ensures var r := ValidateGroup(g);
            && (GroupComplete(g) ==> |r| == |g|)
            && (forall j :: 0 <= j < |g| ==> ValidateGroup(r)[j] == r[j])
  {
    var r := ValidateGroup(g);
    if GroupComplete(g) {
      NoMessageAdded(g, |g|);
    }
    PassPositions(g, |g|);
    PassPositions(r, |r|);
    forall j | 0 <= j < |g|
      ensures ValidateGroup(r)[j] == r[j]
    {
      CheckedIdempotent(g[j]);
    }
  }

  lemma {:induction false} NoMessageAdded(g: seq<Node>, i: nat)
    requires i <= |g| && GroupComplete(g)
    ensures |Pass(g, i)| == |g|
    decreases i
  {
    if i > 0 {
      NoMessageAdded(g, i - 1);
      PassPositions(g, i - 1);
      assert !NeedsMessage(Pass(g, i - 1)[i - 1]);
    }
  }

  /** A blank required field followed by another element, such as a help
      text: each run appends one more "This field is required" message, so
      two runs leave two. */
  lemma RepeatedMessages()
    ensures var g := [Field("", true, {}), Other];
            var once := ValidateGroup(g);
            var twice := ValidateGroup(once);
            && once == [Field("", true, {"is-invalid"}), Other, Feedback]
            && twice == [Field("", true, {"is-invalid"}), Other, Feedback, Feedback]
  {
    var f := Field("", true, {"is-invalid"});
    var g := [Field("", true, {}), Other];
    assert Checked(g[0]) == f;
    assert Pass(g, 1) == [f, Other, Feedback];
    assert Pass(g, 2) == [f, Other, Feedback];
    var once := [f, Other, Feedback];
    assert Pass(once, 1) == [f, Other, Feedback, Feedback];
    assert Pass(once, 2) == [f, Other, Feedback, Feedback];
    assert Pass(once, 3) == [f, Other, Feedback, Feedback];
  }

  // ---------------------------------------------------------------------
  // Corrected validator: one message per container
  // ---------------------------------------------------------------------

  /** The check the validator evidently intends: a message is added only
      when the container holds none yet. */
  function FixedStep(g: seq<Node>, i: nat): (r: seq<Node>)
    requires i < |g|
    ensures |g| <= |r| <= |g| + 1
  {
    g[i := Checked(g[i])] + (if NeedsMessage(g[i]) && Feedback !in g then [Feedback] else [])
  }

  function FixedPass(g: seq<Node>, i: nat): (r: seq<Node>)
    requires i <= |g|
    ensures |g| <= |r|
    decreases i
  {
    if i == 0 then g else FixedStep(FixedPass(g, i - 1), i - 1)
  }

  /** Some of the first `i` nodes is a blank required field. */
  predicate BlankBefore(g: seq<Node>, i: nat)
    requires i <= |g|
  {
    exists j :: 0 <= j < i && NeedsMessage(g[j])
  }

  /** After the first `i` steps those nodes are checked, the rest are
      untouched, and anything after them is a message. */
  lemma {:induction false} FixedPassPositions(g: seq<Node>, i: nat)
    requires i <= |g|
    ensures var r := FixedPass(g, i);
            && (forall j :: 0 <= j < i ==> r[j] == Checked(g[j]))
            && (forall j :: i <= j < |g| ==> r[j] == g[j])
            && (forall j :: |g| <= j < |r| ==> r[j] == Feedback)
    decreases i
  {
    if i > 0 {
      FixedPassPositions(g, i - 1);
      var p := FixedPass(g, i - 1);
      var r := FixedStep(p, i - 1);
      assert r == FixedPass(g, i);
      assert forall j :: 0 <= j < |r| ==>
        r[j] == (if j < i then Checked(g[j]) else if j < |g| then g[j] else Feedback);
    }
  }

  /** One message has been appended after `i` steps exactly when the
      container held none and a blank required field was met; and the
      container then holds a message exactly when it held one before or a
      blank required field was met. */
  lemma {:induction false} FixedPassLength(g: seq<Node>, i: nat)
    requires i <= |g|
    ensures var r := FixedPass(g, i);
            && |r| == |g| + (if Feedback !in g && BlankBefore(g, i) then 1 else 0)
            && (Feedback in r <==> Feedback in g || BlankBefore(g, i))
    decreases i
  {
    if i > 0 {
      FixedPassLength(g, i - 1);
      var p := FixedPass(g, i - 1);
      var r := FixedPass(g, i);
      FixedPassPositions(g, i - 1);
      assert p[i - 1] == g[i - 1];
      assert r == FixedStep(p, i - 1);
      BlankBeforeStep(g, i);
      FixedStepMessages(p, i - 1);
      var had, before, here := Feedback in g, BlankBefore(g, i - 1), NeedsMessage(g[i - 1]);
      assert |p| == |g| + (if !had && before then 1 else 0);
      assert |r| == |p| + (if here && Feedback !in p then 1 else 0);
      assert Feedback in p <==> had || before;
    }
  }

  lemma BlankBeforeStep(g: seq<Node>, i: nat)
    requires 0 < i <= |g|
    ensures BlankBefore(g, i) <==> BlankBefore(g, i - 1) || NeedsMessage(g[i - 1])
  {
    if BlankBefore(g, i) && !NeedsMessage(g[i - 1]) {
      var j :| 0 <= j < i && NeedsMessage(g[j]);
      assert j < i - 1;
    }
  }

  /** Checking keeps messages where they are and adds none, so a message
      is present after a step exactly when one was present before or one
      was appended. */
  lemma FixedStepMessages(p: seq<Node>, i: nat)
    requires i < |p|
    ensures Feedback in FixedStep(p, i) <==> Feedback in p || NeedsMessage(p[i])
  {
    var r := FixedStep(p, i);
    if Feedback in p {
      var t :| 0 <= t < |p| && p[t] == Feedback;
      assert r[t] == Feedback;
    }
    if Feedback in r && Feedback !in p {
      var t :| 0 <= t < |r| && r[t] == Feedback;
      assert t == |p|;
    }
    if NeedsMessage(p[i]) && Feedback !in p {
      assert r[|p|] == Feedback;
    }
  }

  /** The corrected validator on one container. */
  function FixedValidateGroup(g: seq<Node>): seq<Node> {
    FixedPass(g, |g|)
  }

  /** The corrected validator adds at most one message to a container, none
      when it already holds one or nothing is blank, and running it again
      changes nothing. */
  lemma {:induction false} FixedValidateIdempotent(g: seq<Node>)
    ensures |FixedValidateGroup(g)| <= |g| + 1
    ensures Feedback in g || GroupComplete(g) ==> |FixedValidateGroup(g)| == |g|
    ensures FixedValidateGroup(FixedValidateGroup(g)) == FixedValidateGroup(g)
  {
    var r := FixedValidateGroup(g);
    FixedPassPositions(g, |g|);
    FixedPassLength(g, |g|);
    var r2 := FixedValidateGroup(r);
    FixedPassPositions(r, |r|);
    FixedPassLength(r, |r|);
    assert |r2| == |r|;
    forall j | 0 <= j < |r|
      ensures r2[j] == r[j]
    {
      if j < |g| {
        CheckedIdempotent(g[j]);
      }
    }
  }

  /** On the container of the repeated-message example the corrected
      validator adds a single message, and a second run adds none. */
  lemma FixedSingleMessage()
    ensures var g := [Field("", true, {}), Other];
            FixedValidateGroup(g) == [Field("", true, {"is-invalid"}), Other, Feedback]
            && FixedValidateGroup(FixedValidateGroup(g)) == FixedValidateGroup(g)
  {
    var f := Field("", true, {"is-invalid"});
    var g := [Field("", true, {}), Other];
    assert Checked(g[0]) == f;
    assert FixedPass(g, 1) == [f, Other, Feedback];
    assert FixedPass(g, 2) == [f, Other, Feedback];
    FixedValidateIdempotent(g);
  }
}
