/** The live grade preview of the grading form (static/js/record_grade.js):
    the percentage of score over maximum score, the bar width, the letter
    grade with its colour, and the keyboard shortcuts.  Numbers are exact
    reals; what `parseFloat` makes of a field's text is given alongside the
    text (`None` standing for NaN). */
module RecordGrade {
  import opened Basics

  /** `parseFloat(text) || 0`: NaN and zero both become 0. */
  function OrZero(parsed: Option<real>): (x: real)
    ensures parsed.None? ==> x == 0.0
    ensures parsed.Some? ==> x == parsed.value
  {
    if parsed.Some? then parsed.value else 0.0
  }

  /** `Math.round`: the nearest integer, halves rounded up. */
  function Round(x: real): (n: int)
    ensures x - 0.5 < n as real <= x + 0.5
  {
    (x + 0.5).Floor
  }

  /** The previewed percentage; 0 when the maximum is not positive, so there
      is never a division by zero. */
  function Percentage(score: real, maxScore: real): (p: int)
    ensures maxScore <= 0.0 ==> p == 0
  {
    if maxScore > 0.0 then Round(score / maxScore * 100.0) else 0
  }

  /** The percentage is the ratio rounded to the nearest whole percent; it
      lies in 0..100 while the score does not exceed the maximum, and a full
      score gives exactly 100. */
  lemma PercentageBounds(score: real, maxScore: real)
    requires maxScore > 0.0
    ensures var p := Percentage(score, maxScore);
            && score / maxScore * 100.0 - 0.5 < p as real <= score / maxScore * 100.0 + 0.5
            && (0.0 <= score <= maxScore ==> 0 <= p <= 100)
            && (score == maxScore ==> p == 100)
            && (score == 0.0 ==> p == 0)
  {
    var ratio := score / maxScore;
    if 0.0 <= score <= maxScore {
      assert score == ratio * maxScore;
      assert 0.0 <= ratio <= 1.0;
    }
    if score == maxScore {
      assert ratio == 1.0;
    }
  }

  /** A higher score never previews a lower percentage. */
  lemma PercentageMonotone(s1: real, s2: real, maxScore: real)
    requires s1 <= s2
    ensures Percentage(s1, maxScore) <= Percentage(s2, maxScore)
  {
    if maxScore > 0.0 {
      assert s1 / maxScore <= s2 / maxScore by {
        assert s2 / maxScore - s1 / maxScore == (s2 - s1) / maxScore;
      }
    }
  }

  /** `Math.min(percentage, 100)`: the bar never overflows its track. */
  function BarWidth(percentage: int): (w: int)
    ensures w <= 100 && w <= percentage
    ensures w == percentage || w == 100
  {
    if percentage < 100 then percentage else 100
  }

  // ---------------------------------------------------------------------
  // Letter grades
  // ---------------------------------------------------------------------

  datatype Letter = A | B | C | D | F

  datatype Colour = Success | Warning | Danger

  /** The threshold chain of `updateGradeLabel`. */
  function LetterOf(percentage: int): (l: Letter)
    ensures l == A <==> percentage >= 90
    ensures l == B <==> 80 <= percentage < 90
    ensures l == C <==> 70 <= percentage < 80
    ensures l == D <==> 60 <= percentage < 70
    ensures l == F <==> percentage < 60
  {
    if percentage >= 90 then A
    else if percentage >= 80 then B
    else if percentage >= 70 then C
    else if percentage >= 60 then D
    else F
  }

  function LetterText(l: Letter): string {
    match l
    case A => "Excellent! (A)"
    case B => "Good job! (B)"
    case C => "Satisfactory (C)"
    case D => "Needs improvement (D)"
    case F => "Fail (F)"
  }

  function ColourOf(l: Letter): Colour {
    match l
    case A => Success
    case B => Success
    case C => Warning
    case D => Warning
    case F => Danger
  }

  function ColourClass(c: Colour): string {
    match c
    case Success => "bg-gradient-success"
    case Warning => "bg-gradient-warning"
    case Danger => "bg-gradient-danger"
  }

  /** Colour bands: success from 80, warning from 60 to 79, danger below. */
  lemma ColourBands(percentage: int)
    ensures ColourOf(LetterOf(percentage)) == Success <==> percentage >= 80
    ensures ColourOf(LetterOf(percentage)) == Warning <==> 60 <= percentage < 80
    ensures ColourOf(LetterOf(percentage)) == Danger <==> percentage < 60
  {
  }

  /** The bar's class attribute for a colour. */
  function BarClass(c: Colour): string {
    "progress-bar " + ColourClass(c)
  }

  /** The three colours give three different bar classes, none of them the
      bare `progress-bar` of the prompt. */
  lemma BarClassesDiffer(c: Colour, d: Colour)
    ensures BarClass(c) == BarClass(d) <==> c == d
    ensures BarClass(c) != "progress-bar"
  {
    assert |BarClass(c)| > |"progress-bar"|;
    if c != d {
      assert BarClass(c)[25] == ColourClass(c)[12];
      assert BarClass(d)[25] == ColourClass(d)[12];
    }
  }

  /** A better percentage never earns a worse letter. */
  function Rank(l: Letter): nat {
    match l
    case F => 0
    case D => 1
    case C => 2
    case B => 3
    case A => 4
  }

  lemma LetterMonotone(p1: int, p2: int)
    requires p1 <= p2
    ensures Rank(LetterOf(p1)) <= Rank(LetterOf(p2))
  {
  }

  /** What the label and the bar show. */
  datatype Display = Display(text: string, barClass: string)

  const Prompt: string := "Enter scores to see grade"

  /** `updateGradeLabel`, given the raw text of both fields: a zero
      percentage with a field left empty asks for scores and resets the bar;
      otherwise the letter and its colour are shown. */
  function GradeLabel(percentage: int, scoreText: string, maxText: string): (r: Display)
    ensures r.text == Prompt <==> percentage == 0 && (scoreText == "" || maxText == "")
    ensures r.text == Prompt ==> r.barClass == "progress-bar"
    ensures r.text != Prompt ==> r.text == LetterText(LetterOf(percentage))
    ensures r.barClass == BarClass(Success) <==> r.text != Prompt && percentage >= 80
    ensures r.barClass == BarClass(Warning) <==> r.text != Prompt && 60 <= percentage < 80
    ensures r.barClass == BarClass(Danger) <==> r.text != Prompt && percentage < 60
  {
    if percentage == 0 && (scoreText == "" || maxText == "") then
      BarClassesDiffer(Success, Success);
      BarClassesDiffer(Warning, Warning);
      BarClassesDiffer(Danger, Danger);
      Display(Prompt, "progress-bar")
    else
      var l := LetterOf(percentage);
      ColourBands(percentage);
      BarClassesDiffer(ColourOf(l), Success);
      BarClassesDiffer(ColourOf(l), Warning);
      BarClassesDiffer(ColourOf(l), Danger);
      assert LetterText(l) != Prompt;
      Display(LetterText(l), BarClass(ColourOf(l)))
  }

  /** `parseFloat` of an empty field is NaN. */
  predicate Parsed(text: string, value: Option<real>) {
    text == "" ==> value.None?
  }

  /** The prompt appears exactly when a field is empty: an empty field
      forces a zero percentage, and two filled fields always get a letter,
      even a filled zero score ("Fail (F)"). */
  lemma PromptIffEmptyField(scoreText: string, scoreValue: Option<real>, maxText: string, maxValue: Option<real>)
    requires Parsed(scoreText, scoreValue) && Parsed(maxText, maxValue)
    ensures var p := Percentage(OrZero(scoreValue), OrZero(maxValue));
            GradeLabel(p, scoreText, maxText).text == Prompt <==> scoreText == "" || maxText == ""
  {
    var p := Percentage(OrZero(scoreValue), OrZero(maxValue));
    if scoreText == "" && OrZero(maxValue) > 0.0 {
      PercentageBounds(0.0, OrZero(maxValue));
    }
  }

  // ---------------------------------------------------------------------
  // The preview elements
  // ---------------------------------------------------------------------

  /** The preview's elements: the percentage text, the bar's width and
      class, and the grade label. */
  class GradePreview {
    var percentageText: string
    var barWidth: string
    var barClass: string
    var labelText: string

    constructor ()
      ensures percentageText == "" && barWidth == "" && barClass == "progress-bar" && labelText == ""
    {
      percentageText := "";
      barWidth := "";
      barClass := "progress-bar";
      labelText := "";
    }

    /** `updateGradePreview` followed by `updateGradeLabel`. */
    method UpdateGradePreview(scoreText: string, scoreValue: Option<real>, maxText: string, maxValue: Option<real>)
      modifies this
      ensures var p := Percentage(OrZero(scoreValue), OrZero(maxValue));
              && percentageText == IntToString(p) + "%"
              && barWidth == IntToString(BarWidth(p)) + "%"
              && Display(labelText, barClass) == GradeLabel(p, scoreText, maxText)
    {
      var score := OrZero(scoreValue);
      var maxScore := OrZero(maxValue);
      var percentage := if maxScore > 0.0 then Round(score / maxScore * 100.0) else 0;
      percentageText := IntToString(percentage) + "%";
      barWidth := IntToString(if percentage < 100 then percentage else 100) + "%";
      if percentage == 0 && (scoreText == "" || maxText == "") {
        labelText := Prompt;
        barClass := "progress-bar";
        return;
      }
      var letter := LetterOf(percentage);
      labelText := LetterText(letter);
      barClass := "progress-bar " + ColourClass(ColourOf(letter));
    }
  }

  // ---------------------------------------------------------------------
  // Keyboard shortcuts
  // ---------------------------------------------------------------------

  /** What a key press does: submit the form, follow the cancel link. */
  datatype Shortcut = Shortcut(submit: bool, cancel: bool)

  /** `handleKeyboardShortcuts`: Ctrl/Cmd+Enter submits a form that passes
      validation; Escape follows the link back to the assignment. */
  function HandleKeyboardShortcuts(ctrl: bool, meta: bool, key: string,
                                   formPresent: bool, formValid: bool, cancelLinkPresent: bool): (r: Shortcut)
    ensures r.submit ==> formPresent && formValid && key == "Enter"
    ensures r.cancel ==> cancelLinkPresent && key == "Escape"
    ensures !(r.submit && r.cancel)
    ensures (ctrl || meta) && key == "Enter" && formPresent && formValid ==> r.submit
    ensures key == "Escape" && cancelLinkPresent ==> r.cancel
    ensures !ctrl && !meta ==> !r.submit
  {
    Shortcut((ctrl || meta) && key == "Enter" && formPresent && formValid,
             key == "Escape" && cancelLinkPresent)
  }

  /** The form, its submit button and their state. */
  class GradeForm {
    var classes: set<string>
    var hasSubmitButton: bool
    var buttonDisabled: bool
    var buttonText: string

    constructor (hasSubmitButton: bool)
      ensures classes == {} && this.hasSubmitButton == hasSubmitButton
      ensures !buttonDisabled && buttonText == ""
    {
      classes := {};
      this.hasSubmitButton := hasSubmitButton;
      buttonDisabled := false;
      buttonText := "";
    }

    /** `handleFormSubmit`: an invalid form is stopped and marked
        `was-validated`; a valid one disables its button and shows
        "Processing...". */
    method HandleFormSubmit(valid: bool) returns (prevented: bool)
      modifies this`classes, this`buttonDisabled, this`buttonText
      ensures prevented <==> !valid
      ensures !valid ==> classes == old(classes) + {"was-validated"}
                         && buttonDisabled == old(buttonDisabled) && buttonText == old(buttonText)
      ensures valid && hasSubmitButton ==>
                buttonDisabled && buttonText == "Processing..." && classes == old(classes) + {"form-loading"}
      ensures valid && !hasSubmitButton ==>
                classes == old(classes) && buttonDisabled == old(buttonDisabled) && buttonText == old(buttonText)
    {
      if !valid {
        classes := classes + {"was-validated"};
        return true;
      }
      if hasSubmitButton {
        buttonDisabled := true;
        buttonText := "Processing...";
        classes := classes + {"form-loading"};
      }
      return false;
    }
  }
}
