/**
 The sign-in dialog: its field validation, its submit handler and the three
 views it switches between (sign in, create account, and the notice that a
 verification e-mail was sent). Toasts and the dialog's closing are recorded
 as outputs; what the session store's calls settle with is an input.
 */
module AuthModal {
  import opened Core
  import opened JsStrings

  // ---------------------------------------------------------------------------
  // The e-mail pattern

  /** The unanchored pattern `\S+@\S+\.\S` matches `s` with its "@" at `at` and
      its "." at `dot`: a non-space character just before the "@", a non-empty
      run of non-space characters between the two, and a non-space character
      just after the ".". */
  predicate EmailMatchAt(s: string, at: int, dot: int) {
    && 1 <= at && at + 1 < dot && dot + 1 < |s|
    && s[at] == '@' && !IsSpace(s[at - 1])
    && (forall k :: at < k < dot ==> !IsSpace(s[k]))
    && s[dot] == '.' && !IsSpace(s[dot + 1])
  }

  /** `/\S+@\S+\.\S/.test(s)`. */
  predicate IsEmailLike(s: string) {
    exists at, dot | 0 <= at < |s| && 0 <= dot < |s| :: EmailMatchAt(s, at, dot)
  }

  /** Decides the e-mail pattern in one left-to-right pass, remembering the
      earliest "@" of the current run of non-space characters. */
  method MatchesEmail(s: string) returns (ok: bool)
    ensures ok <==> IsEmailLike(s)
  {
    var runStart := 0;
    var at := -1;
    var i := 0;
    while i < |s|
      invariant 0 <= runStart <= i <= |s|
      invariant forall k :: runStart <= k < i ==> !IsSpace(s[k])
      invariant runStart > 0 ==> IsSpace(s[runStart - 1])
      invariant at == -1 ==> forall b :: runStart < b < i ==> s[b] != '@'
      invariant at != -1 ==> runStart < at < i && s[at] == '@'
      invariant at != -1 ==> forall b :: runStart < b < at ==> s[b] != '@'
      invariant forall b, d :: 0 <= d < i ==> !EmailMatchAt(s, b, d)
    {
      if IsSpace(s[i]) {
        runStart, at := i + 1, -1;
      } else {
        if s[i] == '.' && at != -1 && at + 1 < i && i + 1 < |s| && !IsSpace(s[i + 1]) {
          assert EmailMatchAt(s, at, i);
          return true;
        }
        assert forall b :: EmailMatchAt(s, b, i) ==> runStart <= b - 1;
        if s[i] == '@' && at == -1 && i > runStart {
          at := i;
        }
      }
      i := i + 1;
    }
    return false;
  }

  /** A few inputs and what the pattern says about them. */
  lemma EmailExamples()
    ensures IsEmailLike("a@b.c")
    ensures IsEmailLike("a@..c")
    ensures !IsEmailLike("a@.c")
    ensures !IsEmailLike("a@b. c")
    ensures !IsEmailLike("@b.c")
  {
    assert EmailMatchAt("a@b.c", 1, 3);
    assert EmailMatchAt("a@..c", 1, 3);
    var t := "a@.c";
    assert forall at, dot :: !EmailMatchAt(t, at, dot);
    var u := "a@b. c";
    assert forall at, dot :: !EmailMatchAt(u, at, dot);
    var v := "@b.c";
    assert forall at, dot :: !EmailMatchAt(v, at, dot);
  }

  // ---------------------------------------------------------------------------
  // Validation

  /** The three views of the dialog. */
  datatype Mode = LoginMode | SignupMode | VerificationSent

  /** The form fields an error can be reported under. */
  datatype Field = EmailField | PasswordField | NameField | ConfirmPasswordField

  /** The text fields of the form. */
  datatype Form = Form(email: string, password: string, name: string, confirmPassword: string)

  /** `validate()`: the error map it builds; the form is valid iff it is empty. */
  function Validate(mode: Mode, f: Form): (errors: map<Field, string>)
    ensures EmailField in errors && errors[EmailField] == "Email is required" <==> f.email == ""
    ensures EmailField in errors && errors[EmailField] == "Email is invalid" <==>
              f.email != "" && !IsEmailLike(f.email)
    ensures EmailField in errors ==> errors[EmailField] in {"Email is required", "Email is invalid"}
    ensures PasswordField in errors && errors[PasswordField] == "Password is required" <==>
              mode != VerificationSent && f.password == ""
    ensures PasswordField in errors && errors[PasswordField] == "Password must be at least 6 characters" <==>
              mode != VerificationSent && f.password != "" && Utf16Length(f.password) < 6
    ensures PasswordField in errors ==>
              errors[PasswordField] in {"Password is required", "Password must be at least 6 characters"}
    ensures NameField in errors <==> mode == SignupMode && f.name == ""
    ensures NameField in errors ==> errors[NameField] == "Name is required"
    ensures ConfirmPasswordField in errors <==> mode == SignupMode && f.password != f.confirmPassword
    ensures ConfirmPasswordField in errors ==> errors[ConfirmPasswordField] == "Passwords do not match"
  {
    var errors := Put(Put(Put(Put(map[], EmailField, EmailError(f.email)), PasswordField, PasswordError(mode, f.password)),
                          NameField, NameError(mode, f.name)),
                      ConfirmPasswordField, ConfirmError(mode, f.password, f.confirmPassword));
    errors
  }

  /** The email rule: required, then shaped like an address. */
  function EmailError(email: string): (e: Option<string>)
    ensures e == Some("Email is required") <==> email == ""
    ensures e == Some("Email is invalid") <==> email != "" && !IsEmailLike(email)
    ensures e.Some? ==> e.value in {"Email is required", "Email is invalid"}
  {
    if email == "" then Some("Email is required")
    else if !IsEmailLike(email) then Some("Email is invalid")
    else None
  }

  /** The password rule, skipped on the verification screen: required, then
      at least six UTF-16 code units. */
  function PasswordError(mode: Mode, password: string): (e: Option<string>)
    ensures e == Some("Password is required") <==> mode != VerificationSent && password == ""
    ensures e == Some("Password must be at least 6 characters") <==>
              mode != VerificationSent && password != "" && Utf16Length(password) < 6
    ensures e.Some? ==> e.value in {"Password is required", "Password must be at least 6 characters"}
  {
    if mode == VerificationSent then None
    else if password == "" then Some("Password is required")
    else if Utf16Length(password) < 6 then Some("Password must be at least 6 characters")
    else None
  }

  /** The sign-up rule for the name. */
  function NameError(mode: Mode, name: string): (e: Option<string>)
    ensures e.Some? <==> mode == SignupMode && name == ""
    ensures e.Some? ==> e.value == "Name is required"
  {
    if mode == SignupMode && name == "" then Some("Name is required") else None
  }

  /** The sign-up rule for the confirmation. */
  function ConfirmError(mode: Mode, password: string, confirmPassword: string): (e: Option<string>)
    ensures e.Some? <==> mode == SignupMode && password != confirmPassword
    ensures e.Some? ==> e.value == "Passwords do not match"
  {
    if mode == SignupMode && password != confirmPassword then Some("Passwords do not match") else None
  }

  /** The map with `k` set to the message, if there is one. */
  function Put(m: map<Field, string>, k: Field, message: Option<string>): (r: map<Field, string>)
    ensures message.Some? ==> k in r && r[k] == message.value
    ensures message.None? ==> r == m
    ensures forall j :: j != k ==> (j in r <==> j in m) && (j in m ==> r[j] == m[j])
  {
    if message.Some? then m[k := message.value] else m
  }

  /** The conditions under which the form passes, spelled out rule by rule. */
  predicate Acceptable(mode: Mode, f: Form) {
    && f.email != "" && IsEmailLike(f.email)
    && (mode != VerificationSent ==> Utf16Length(f.password) >= 6)
    && (mode == SignupMode ==> f.name != "" && f.password == f.confirmPassword)
  }

  /** The error map is empty exactly when every rule is satisfied. */
  lemma ValidateEmptyIff(mode: Mode, f: Form)
    ensures Validate(mode, f) == map[] <==> Acceptable(mode, f)
  {
    var e := Validate(mode, f);
    if !Acceptable(mode, f) {
      if f.email == "" || !IsEmailLike(f.email) {
        assert EmailField in e;
      } else if mode != VerificationSent && Utf16Length(f.password) < 6 {
        assert PasswordField in e;
      } else if f.name == "" {
        assert NameField in e;
      } else {
        assert ConfirmPasswordField in e;
      }
    } else {
      assert e.Keys == {} by {
        forall k | k in e ensures false {
          match k
          case EmailField =>
          case PasswordField =>
          case NameField =>
          case ConfirmPasswordField =>
        }
      }
    }
  }

  // ---------------------------------------------------------------------------
  // The dialog's state machine

  /** The role offered to the sign-up call; the form starts on "buyer". */
  const DefaultRole: string := "buyer"

  datatype ModalState = ModalState(mode: Mode, form: Form, role: string, errors: map<Field, string>)

  /** The dialog as it mounts: the requested view, or sign in when none is
      requested, with empty fields and no errors. The dialog stays mounted,
      so hiding and showing it again keeps its view, fields and errors. */
  function Open(initialMode: Option<Mode>): (s: ModalState)
    requires initialMode != Some(VerificationSent)
    ensures s.mode == (if initialMode.Some? then initialMode.value else LoginMode)
    ensures s.mode != VerificationSent
    ensures s.form == Form("", "", "", "") && s.role == DefaultRole && s.errors == map[]
  {
    ModalState(if initialMode.Some? then initialMode.value else LoginMode, Form("", "", "", ""), DefaultRole, map[])
  }

  /** The call the submit handler makes on the session store. */
  datatype AuthCall =
    | NoCall
    | LoginCall(email: string, password: string)
    | SignupCall(name: string, email: string, password: string, role: string)

  /** How the store's call settles: resolved with the `accessToken` of its
      answer, if any, or rejected with the `message` of its error, if any. */
  datatype Reply = Resolved(accessToken: Option<string>) | Rejected(message: Option<string>)

  /** A toast raised by the dialog; an error toast may carry a duration. */
  datatype Toast = SuccessToast(text: string) | ErrorToast(text: string, duration: Option<int>)

  /** What one submission leads to. */
  datatype Submission = Submission(state: ModalState, call: AuthCall, toast: Option<Toast>, closed: bool)

  /** The error toast for a rejected call: the error's message or a fallback,
      shown for 5 seconds when it talks about verifying. */
  function FailureToast(message: Option<string>): (t: Toast)
    ensures t.ErrorToast?
    ensures Truthy(message) ==> t.text == message.value
    ensures !Truthy(message) ==> t.text == "Authentication failed."
    ensures t.duration.Some? <==>
              Contains(ToLower(t.text), "verify") || Contains(ToLower(t.text), "verification")
    ensures t.duration.Some? ==> t.duration.value == 5000
  {
    var text := if Truthy(message) then message.value else "Authentication failed.";
    var lower := ToLower(text);
    ErrorToast(text, if Contains(lower, "verify") || Contains(lower, "verification") then Some(5000) else None)
  }

  /** `handleSubmit`: validate, then call the store for the current view. */
  function Submit(s: ModalState, reply: Reply): (r: Submission)
    ensures r.state.errors == Validate(s.mode, s.form)
    ensures r.state.form == s.form && r.state.role == s.role
    ensures r.call != NoCall <==> Validate(s.mode, s.form) == map[] && s.mode != VerificationSent
    ensures r.call.LoginCall? ==> s.mode == LoginMode && r.call == LoginCall(s.form.email, s.form.password)
    ensures r.call.SignupCall? ==>
              s.mode == SignupMode && r.call == SignupCall(s.form.name, s.form.email, s.form.password, s.role)
    ensures r.call == NoCall ==> r.toast.None? && !r.closed && r.state.mode == s.mode
    ensures r.call != NoCall && reply.Rejected? ==>
              r.toast == Some(FailureToast(reply.message)) && !r.closed && r.state.mode == s.mode
    ensures r.closed <==> r.call != NoCall && reply.Resolved? &&
                            (s.mode == LoginMode || Truthy(reply.accessToken))
    ensures r.state.mode == VerificationSent <==>
              s.mode == VerificationSent ||
              (r.call.SignupCall? && reply.Resolved? && !Truthy(reply.accessToken))
  {
    var errors := Validate(s.mode, s.form);
    var checked := s.(errors := errors);
    if errors != map[] || s.mode == VerificationSent then Submission(checked, NoCall, None, false)
    else
      var call := if s.mode == LoginMode then LoginCall(s.form.email, s.form.password)
                  else SignupCall(s.form.name, s.form.email, s.form.password, s.role);
      match reply
      case Rejected(message) => Submission(checked, call, Some(FailureToast(message)), false)
      case Resolved(token) =>
        if s.mode == LoginMode then Submission(checked, call, Some(SuccessToast("Welcome back!")), true)
        else if Truthy(token) then
          Submission(checked, call, Some(SuccessToast("Account created successfully!")), true)
        else
          Submission(checked.(mode := VerificationSent), call,
                     Some(SuccessToast("Please verify your email to continue.")), false)
  }

  /** The session store's `signup` resolves with nothing, so an accepted
      sign-up through the dialog always lands on the verification notice and
      never closes the dialog. */
  lemma SignupThroughStoreAlwaysAsksToVerify(s: ModalState)
    requires s.mode == SignupMode && Acceptable(s.mode, s.form)
    ensures Submit(s, Resolved(None)).state.mode == VerificationSent
    ensures !Submit(s, Resolved(None)).closed
    ensures Submit(s, Resolved(None)).toast == Some(SuccessToast("Please verify your email to continue."))
  {
    ValidateEmptyIff(s.mode, s.form);
  }

  /** "Back to Sign In": the sign-in view, with only the password cleared. */
  function BackToSignIn(s: ModalState): (r: ModalState)
    ensures r.mode == LoginMode && r.form.password == ""
    ensures r.form.email == s.form.email && r.form.name == s.form.name
    ensures r.form.confirmPassword == s.form.confirmPassword
    ensures r.role == s.role && r.errors == s.errors
  {
    s.(mode := LoginMode, form := s.form.(password := ""))
  }

  /** The link under the form: from sign in to create account, from any other
      view back to sign in. Nothing but the view changes. */
  function ToggleMode(s: ModalState): (r: ModalState)
    ensures s.mode == LoginMode <==> r.mode == SignupMode
    ensures r.mode != VerificationSent
    ensures r.form == s.form && r.role == s.role && r.errors == s.errors
  {
    s.(mode := if s.mode == LoginMode then SignupMode else LoginMode)
  }

  /** Toggling twice between sign in and create account is no change. */
  lemma ToggleTwice(s: ModalState)
    requires s.mode != VerificationSent
    ensures ToggleMode(ToggleMode(s)) == s
  {
  }

  /** A validated login never hits the verification view, and a login that
      resolves closes the dialog with a welcome. */
  lemma LoginResolvedCloses(s: ModalState)
    requires s.mode == LoginMode && Acceptable(s.mode, s.form)
    ensures Submit(s, Resolved(None)).closed
    ensures Submit(s, Resolved(None)).toast == Some(SuccessToast("Welcome back!"))
    ensures Submit(s, Resolved(None)).state.mode == LoginMode
  {
    ValidateEmptyIff(s.mode, s.form);
  }

  /** The outcome of the Google sign-in button. */
  datatype GoogleOutcome = GoogleOutcome(toast: Toast, closed: bool)

  /** `handleGoogleLogin`: a welcome and the dialog closed, or a fixed error. */
  function GoogleLogin(succeeded: bool): (r: GoogleOutcome)
    ensures r.closed <==> succeeded
    ensures succeeded ==> r.toast == SuccessToast("Welcome back!")
    ensures !succeeded ==> r.toast == ErrorToast("Google login failed.", None)
  {
    if succeeded then GoogleOutcome(SuccessToast("Welcome back!"), true)
    else GoogleOutcome(ErrorToast("Google login failed.", None), false)
  }
}
