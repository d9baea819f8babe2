/** The profile page script (static/js/profile.js): the avatar image check,
    the username check run on submit, and the loading state of the save
    button.  Messages that `showMessage` would pop up are collected in a
    list; the image preview itself is not modelled. */
module ProfileScript {
  import opened Basics
  import MainScript

  /** The avatar formats the profile page takes; WebP is not among them. */
  const ValidTypes: set<string> := {"image/jpeg", "image/png", "image/gif"}

  /** 5 MB. */
  const MaxSize: int := 5 * 1024 * 1024

  /** `validateImage`: the type is checked first, then the size. */
  function ValidateImage(file: MainScript.FileInfo): (v: MainScript.UploadVerdict)
    ensures v == MainScript.Accepted <==> file.mimeType in ValidTypes && file.size <= MaxSize
    ensures v == MainScript.WrongType <==> file.mimeType !in ValidTypes
    ensures v == MainScript.TooLarge <==> file.mimeType in ValidTypes && file.size > MaxSize
  {
    if file.mimeType !in ValidTypes then MainScript.WrongType
    else if file.size > MaxSize then MainScript.TooLarge
    else MainScript.Accepted
  }

  /** The alert `validateImage` shows, if any. */
  function ImageAlert(v: MainScript.UploadVerdict): (alert: Option<string>)
    ensures alert.None? <==> v == MainScript.Accepted
  {
    match v
    case Accepted => None
    case WrongType => Some("Please select a JPG, PNG, or GIF image.")
    case TooLarge => Some("File size must be less than 5MB.")
  }

  /** The profile page is stricter than the generic upload handler of the
      main script: whatever it accepts the main script accepts too.  The two
      part ways exactly on files of a type the profile page refuses that are
      either WebP images, which the main script takes, or oversize, which
      the main script reports as a size error rather than a type error. */
  lemma ProfileStricterThanMain(file: MainScript.FileInfo)
    ensures ValidateImage(file) == MainScript.Accepted ==> MainScript.CheckUpload(file) == MainScript.Accepted
    ensures ValidateImage(file) != MainScript.CheckUpload(file) <==>
              file.mimeType !in ValidTypes && (file.mimeType == "image/webp" || file.size > MaxSize)
  {
  }

  /** A file of exactly 5 MB is accepted; one byte more is not. */
  lemma SizeBoundary(mimeType: string, name: string)
    requires mimeType in ValidTypes
    ensures ValidateImage(MainScript.FileInfo(name, MaxSize, mimeType)) == MainScript.Accepted
    ensures ValidateImage(MainScript.FileInfo(name, MaxSize + 1, mimeType)) == MainScript.TooLarge
  {
  }

  /** The avatar input's `change` handler: with a file chosen, the image is
      checked and, when it passes, previewed.  The result is the alert
      shown and whether a preview starts. */
  function OnAvatarChange(file: Option<MainScript.FileInfo>): (r: (Option<string>, bool))
    ensures r.1 <==> file.Some? && ValidateImage(file.value) == MainScript.Accepted
    ensures r.0.Some? <==> file.Some? && !r.1
  {
    if file.None? then (None, false)
    else
      var v := ValidateImage(file.value);
      (ImageAlert(v), v == MainScript.Accepted)
  }

  /** The username input. */
  class TextInput {
    var value: string
    var classes: set<string>

    constructor (value: string, classes: set<string>)
      ensures this.value == value && this.classes == classes
    {
      this.value := value;
      this.classes := classes;
    }
  }

  /** The form's submit button. */
  class SaveButton {
    var html: string
    var disabled: bool

    constructor ()
      ensures html == SaveHtml && !disabled
    {
      html := SaveHtml;
      disabled := false;
    }
  }

  const SavingHtml: string := "<span class=\"spinner-border spinner-border-sm me-2\"></span>Saving..."
  const SaveHtml: string := "<i class=\"fas fa-save me-2\"></i>Save Changes"
  const FixErrors: string := "Please fix the errors above."

  /** A message shown to the user, with its kind. */
  datatype Message = Message(text: string, kind: string)

  /** `ProfileManager`: the page's save button, if there is one, and the
      messages shown so far. */
  class ProfileManager {
    const submitButton: SaveButton?
    var messages: seq<Message>

    constructor (submitButton: SaveButton?)
      ensures this.submitButton == submitButton && messages == []
    {
      this.submitButton := submitButton;
      messages := [];
    }

    /** `validateForm`: the username is valid exactly when its trimmed value
        is not empty; `is-invalid` is set in the other case and removed
        otherwise, and a warning is shown. */
    method ValidateForm(username: TextInput) returns (isValid: bool)
      modifies username`classes, this`messages
      ensures isValid <==> !IsBlank(username.value)
      ensures username.classes ==
                (if isValid then old(username.classes) - {"is-invalid"}
                 else old(username.classes) - {"is-invalid"} + {"is-invalid"})
      ensures messages == old(messages) + (if isValid then [] else [Message(FixErrors, "warning")])
    {
      isValid := true;
      username.classes := username.classes - {"is-invalid"};
      TrimEmptyIffBlank(username.value);
      if Trim(username.value) == "" {
        username.classes := username.classes + {"is-invalid"};
        isValid := false;
      }
      if !isValid {
        messages := messages + [Message(FixErrors, "warning")];
      }
    }

    /** `showLoading(show)`: nothing without a button; otherwise the button
        shows "Saving..." and is disabled, or shows "Save Changes" and is
        enabled again. */
    method ShowLoading(show: bool)
      modifies submitButton
      ensures submitButton != null ==>
                submitButton.disabled == show
                && submitButton.html == (if show then SavingHtml else SaveHtml)
    {
      if submitButton != null {
        if show {
          submitButton.html := SavingHtml;
          submitButton.disabled := true;
        } else {
          submitButton.html := SaveHtml;
          submitButton.disabled := false;
        }
      }
    }

    /** The form's `submit` handler: it is prevented exactly when the
        username check fails; otherwise the button goes into its loading
        state. */
    method OnSubmit(username: TextInput) returns (prevented: bool)
      modifies username`classes, this`messages, submitButton
      ensures prevented <==> IsBlank(username.value)
      ensures messages == old(messages) + (if prevented then [Message(FixErrors, "warning")] else [])
      ensures "is-invalid" in username.classes <==> prevented
      ensures username.classes ==
                (if prevented then old(username.classes) + {"is-invalid"}
                 else old(username.classes) - {"is-invalid"})
      ensures submitButton != null && prevented ==>
                submitButton.disabled == old(submitButton.disabled) && submitButton.html == old(submitButton.html)
      ensures submitButton != null && !prevented ==> submitButton.disabled && submitButton.html == SavingHtml
    {
      var valid := ValidateForm(username);
      if !valid {
        prevented := true;
      } else {
        ShowLoading(true);
        prevented := false;
      }
    }
  }
}
