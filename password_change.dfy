/** Password strength feedback and the confirmation check of the registration
    and password-change pages (static/js/password_set_change.js).  Element
    lookups are abstracted away: the fields, the progress bar and the text
    element are objects whose state the handlers update. */
module PasswordChange {
  import opened Basics

  datatype Level = VeryWeak | Weak | Fair | Good | Excellent

  /** The object `calculatePasswordStrength` returns. */
  datatype Strength = Strength(score: int, level: Level, percentage: int)

  /** The string form of a level, as the handlers look it up. */
  function LevelKey(l: Level): string {
    match l
    case VeryWeak => "very-weak"
    case Weak => "weak"
    case Fair => "fair"
    case Good => "good"
    case Excellent => "excellent"
  }

  // ---------------------------------------------------------------------
  // Scoring
  // ---------------------------------------------------------------------

  /** The six criteria, in order: at least 8 characters, at least 12, a
      lower-case letter, an upper-case letter, a digit, a character that is
      neither letter nor digit. */
  function Checks(password: string): (c: seq<bool>)
    ensures |c| == 6
  {
    [|password| >= 8, |password| >= 12, HasLower(password), HasUpper(password),
     HasDigit(password), HasSpecial(password)]
  }

  /** `checks.filter(Boolean).length` */
  function CountTrue(bs: seq<bool>): (n: nat)
    ensures n <= |bs|
    ensures n == 0 <==> forall k :: 0 <= k < |bs| ==> !bs[k]
    ensures n == |bs| <==> forall k :: 0 <= k < |bs| ==> bs[k]
    decreases |bs|
  {
    if bs == [] then 0 else (if bs[0] then 1 else 0) + CountTrue(bs[1..])
  }

  const WeakPatterns: seq<string> := ["password", "123456", "admin", "letmein"]

  /** Some weak pattern occurs in the lower-cased password. */
  predicate HasWeakPattern(password: string) {
    exists k :: 0 <= k < |WeakPatterns| && Contains(ToLower(password), WeakPatterns[k])
  }

  /** The level and bar percentage of a score. */
  function LevelFor(score: int): (r: (Level, int))
    ensures r.0 == VeryWeak <==> score <= 1
    ensures r.0 == Weak <==> score == 2
    ensures r.0 == Fair <==> score == 3
    ensures r.0 == Good <==> score == 4
    ensures r.0 == Excellent <==> score >= 5
    ensures r.1 == match r.0
                   case VeryWeak => 20 case Weak => 40 case Fair => 60
                   case Good => 80 case Excellent => 100
  {
    if score <= 1 then (VeryWeak, 20)
    else if score <= 2 then (Weak, 40)
    else if score <= 3 then (Fair, 60)
    else if score <= 4 then (Good, 80)
    else (Excellent, 100)
  }

  /** `calculatePasswordStrength` */
  function CalculatePasswordStrength(password: string): (r: Strength)
    ensures password == "" ==> r == Strength(0, VeryWeak, 0)
    ensures password != "" ==>
              0 <= r.score <= 6
              && (r.level, r.percentage) == LevelFor(r.score)
              && 20 <= r.percentage <= 100
    ensures !HasWeakPattern(password) ==> r.score == CountTrue(Checks(password))
    ensures HasWeakPattern(password) ==>
              r.score == if CountTrue(Checks(password)) >= 2 then CountTrue(Checks(password)) - 2 else 0
  {
    if password == "" then Strength(0, VeryWeak, 0)
    else
      var raw := CountTrue(Checks(password));
      var score := if HasWeakPattern(password) then (if raw - 2 > 0 then raw - 2 else 0) else raw;
      var lp := LevelFor(score);
      Strength(score, lp.0, lp.1)
  }

  // ---------------------------------------------------------------------
  // Properties of the scorer
  // ---------------------------------------------------------------------

  /** A higher score never shows a shorter bar. */
  lemma PercentageMonotone(s1: int, s2: int)
    requires s1 <= s2
    ensures LevelFor(s1).1 <= LevelFor(s2).1
  {
  }

  /** The penalty caps the score at 4: a password holding a weak pattern
      never reaches "excellent". */
  lemma PenaltyCapsScore(password: string)
    requires HasWeakPattern(password)
    ensures CalculatePasswordStrength(password).score <= 4
    ensures CalculatePasswordStrength(password).level != Excellent
  {
  }

  /** A weak pattern written in any letter case, anywhere in the password,
      triggers the penalty. */
  lemma {:induction false} WeakPatternAnywhere(before: string, word: string, after: string, k: nat)
    requires k < |WeakPatterns| && ToLower(word) == WeakPatterns[k]
    ensures HasWeakPattern(before + word + after)
  {
    var w := WeakPatterns[k];
    var lower := ToLower(before + word + after);
    ToLowerAppend(before + word, after);
    ToLowerAppend(before, word);
    assert lower == ToLower(before) + (w + ToLower(after));
    ContainsSelf(w);
    ContainsAppend(w, ToLower(after), w);
    ContainsPrepend(ToLower(before), w + ToLower(after), w);
    assert Contains(lower, WeakPatterns[k]);
  }

  /** The penalty ignores letter case: a password and its lower-cased form
      are penalised alike. */
  lemma WeakPatternCaseInsensitive(password: string)
    ensures HasWeakPattern(password) <==> HasWeakPattern(ToLower(password))
  {
    ToLowerAppend(password, "");
    assert password + "" == password;
  }

  /** "Password1!" meets five of the six criteria but holds "password", so
      it scores 3 and shows "fair". */
  lemma PenalisedExample()
    ensures CalculatePasswordStrength("Password1!") == Strength(3, Fair, 60)
  {
    var p := "Password1!";
    assert IsAsciiUpper(p[0]) && IsAsciiLower(p[1]) && IsAsciiDigit(p[8]) && !IsAsciiAlnum(p[9]);
    assert Checks(p) == [true, false, true, true, true, true];
    WeakPatternAnywhere("", "Password", "1!", 0);
    assert "" + "Password" + "1!" == p;
  }

  // ---------------------------------------------------------------------
  // The strength display
  // ---------------------------------------------------------------------

  /** Bar class of each level key. */
  const ClassMap: map<string, string> := map[
    "very-weak" := "password-strength-very-weak",
    "weak" := "password-strength-weak",
    "fair" := "password-strength-fair",
    "good" := "password-strength-good",
    "excellent" := "password-strength-excellent"]

  /** Text of each level key. */
  const LabelMap: map<string, string> := map[
    "very-weak" := "Very weak",
    "weak" := "Weak",
    "fair" := "Fair",
    "good" := "Good",
    "excellent" := "Excellent"]

  /** The classes the handler removes before adding the current one. */
  const StrengthClasses: set<string> := set key | key in ClassMap :: ClassMap[key]

  /** `classMap[level] || 'password-strength-very-weak'` */
  function BarClass(level: Level): string {
    var key := LevelKey(level);
    if key in ClassMap then ClassMap[key] else "password-strength-very-weak"
  }

  /** `labelMap[level] || 'Very weak'` */
  function LevelLabel(level: Level): string {
    var key := LevelKey(level);
    if key in LabelMap then LabelMap[key] else "Very weak"
  }

  /** Every level the scorer returns is a key of both maps, so neither
      fallback is ever used and each level has its own class. */
  lemma FallbacksNeverTaken(level: Level)
    ensures LevelKey(level) in ClassMap && LevelKey(level) in LabelMap
    ensures BarClass(level) == "password-strength-" + LevelKey(level)
    ensures BarClass(level) in StrengthClasses
    ensures forall other: Level :: BarClass(other) == BarClass(level) ==> other == level
  {
    assert ClassMap[LevelKey(level)] == BarClass(level);
  }

  /** The password input; `hasStrengthListener` is the duplicate guard and
      `listeners` counts the strength handlers attached to it. */
  class PasswordField {
    var value: string
    var hasStrengthListener: bool
    var listeners: nat

    /** The guard is set exactly when one handler is attached. */
    ghost predicate Valid()
      reads this
    {
      (hasStrengthListener ==> listeners == 1) && (!hasStrengthListener ==> listeners == 0)
    }

    constructor (value: string)
      ensures Valid() && this.value == value && !hasStrengthListener && listeners == 0
    {
      this.value := value;
      hasStrengthListener := false;
      listeners := 0;
    }
  }

  /** The progress bar: its classes and its inline width. */
  class StrengthBar {
    var classes: set<string>
    var width: string

    constructor (classes: set<string>)
      ensures this.classes == classes && width == ""
    {
      this.classes := classes;
      width := "";
    }
  }

  class TextElement {
    var textContent: string

    constructor ()
      ensures textContent == ""
    {
      textContent := "";
    }
  }

  /** `initPasswordStrength`: attaches the strength handler unless an element
      is missing or the guard is already set. */
  method InitPasswordStrength(input: PasswordField?, bar: StrengthBar?, text: TextElement?)
    requires input != null ==> input.Valid()
    modifies input
    ensures input != null ==> input.Valid() && input.listeners <= 1
    ensures input != null ==> input.value == old(input.value)
    ensures input != null && (bar == null || text == null || old(input.hasStrengthListener)) ==>
              input.hasStrengthListener == old(input.hasStrengthListener)
              && input.listeners == old(input.listeners)
    ensures input != null && bar != null && text != null && !old(input.hasStrengthListener) ==>
              input.hasStrengthListener && input.listeners == old(input.listeners) + 1
  {
    if input == null || bar == null || text == null {
      return;
    }
    if input.hasStrengthListener {
      return;
    }
    input.hasStrengthListener := true;
    input.listeners := input.listeners + 1;
  }

  /** The `input` handler: swap the bar's strength class, set its width and
      the feedback text from the current value. */
  method OnStrengthInput(input: PasswordField, bar: StrengthBar, text: TextElement)
    modifies bar, text
    ensures var s := CalculatePasswordStrength(input.value);
            && bar.classes == old(bar.classes) - StrengthClasses + {BarClass(s.level)}
            && bar.width == IntToString(s.percentage) + "%"
            && text.textContent == "Password strength: " + LevelLabel(s.level)
  {
    var s := CalculatePasswordStrength(input.value);
    bar.classes := bar.classes - StrengthClasses;
    bar.classes := bar.classes + {BarClass(s.level)};
    bar.width := IntToString(s.percentage) + "%";
    text.textContent := "Password strength: " + LevelLabel(s.level);
  }

  /** After the handler the bar carries exactly one strength class, the one
      of the current level. */
  lemma OneStrengthClass(classes: set<string>, level: Level)
    ensures (classes - StrengthClasses + {BarClass(level)}) * StrengthClasses == {BarClass(level)}
  {
    FallbacksNeverTaken(level);
  }

  // ---------------------------------------------------------------------
  // Confirmation field
  // ---------------------------------------------------------------------

  /** The confirmation is wrong when it is filled in and differs. */
  predicate Mismatch(newPassword: string, confirmation: string) {
    confirmation != "" && newPassword != confirmation
  }

  /** The confirmation input: its value, its custom validity message and
      its classes. */
  class ConfirmField {
    var value: string
    var validationMessage: string
    var classes: set<string>

    constructor (value: string)
      ensures this.value == value && validationMessage == "" && classes == {}
    {
      this.value := value;
      validationMessage := "";
      classes := {};
    }
  }

  /** `validatePasswordMatch` */
  method ValidatePasswordMatch(newField: PasswordField, confirm: ConfirmField)
    modifies confirm`validationMessage, confirm`classes
    ensures confirm.validationMessage ==
              (if Mismatch(newField.value, confirm.value) then "Passwords do not match" else "")
    ensures confirm.classes ==
              (if Mismatch(newField.value, confirm.value) then old(confirm.classes) + {"is-invalid"}
               else old(confirm.classes) - {"is-invalid"})
  {
    if confirm.value != "" && newField.value != confirm.value {
      confirm.validationMessage := "Passwords do not match";
      confirm.classes := confirm.classes + {"is-invalid"};
    } else {
      confirm.validationMessage := "";
      confirm.classes := confirm.classes - {"is-invalid"};
    }
  }
}
