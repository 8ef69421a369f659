/**
 The settings dialog of the profile page: the profile form (name and a
 comma-separated list of interests), the password form, the avatar buttons
 and account deletion. The account service calls it makes are outside the
 model; how each settles is an input.
 */
module EditProfile {
  import opened Core
  import opened Types
  import opened JsStrings

  // ---------------------------------------------------------------------------
  // Interests

  /** `parts.map(i => i.trim())`. */
  function TrimAll(parts: seq<string>): (r: seq<string>)
    ensures |r| == |parts|
  {
    seq(|parts|, i requires 0 <= i < |parts| => Trim(parts[i]))
  }

  /** `parts.filter(i => i !== '')`. */
  function DropEmpty(parts: seq<string>): (r: seq<string>)
    ensures |r| <= |parts|
    ensures forall i :: 0 <= i < |r| ==> r[i] != "" && r[i] in parts
    ensures (forall i :: 0 <= i < |parts| ==> parts[i] != "") ==> r == parts
  {
    if |parts| == 0 then []
    else (if parts[0] == "" then [] else [parts[0]]) + DropEmpty(parts[1..])
  }

  /** The filter keeps every non-empty entry as often as it occurs, and no
      empty one. */
  lemma {:induction false} DropEmptyKeepsCount(parts: seq<string>, x: string)
    ensures multiset(DropEmpty(parts))[x] == if x == "" then 0 else multiset(parts)[x]
    decreases |parts|
  {
    if |parts| > 0 {
      assert parts == [parts[0]] + parts[1..];
      DropEmptyKeepsCount(parts[1..], x);
    }
  }

  /** The filter distributes over concatenation, so it keeps the non-empty
      entries in their order. */
  lemma {:induction false} DropEmptyAppend(a: seq<string>, b: seq<string>)
    ensures DropEmpty(a + b) == DropEmpty(a) + DropEmpty(b)
    decreases |a|
  {
    if |a| == 0 {
      assert a + b == b;
    } else {
      assert (a + b)[0] == a[0];
      assert (a + b)[1..] == a[1..] + b;
      DropEmptyAppend(a[1..], b);
    }
  }

  /** An interest as the dialog stores it: not empty, trimmed, without a comma. */
  predicate Clean(x: string) {
    x != "" && IsTrimmed(x) && ',' !in x
  }

  /** The interests typed as text, split at commas, trimmed, empty ones dropped. */
  function ParseInterests(text: string): (r: seq<string>)
    ensures forall i :: 0 <= i < |r| ==> Clean(r[i])
  {
    var parts := Split(text, ',');
    var trimmed := TrimAll(parts);
    forall i | 0 <= i < |trimmed|
      ensures ',' !in trimmed[i]
    {
      TrimKeepsOut(parts[i], ',');
    }
    DropEmpty(trimmed)
  }

  /** A piece without a comma is one interest, trimmed, or none when it is blank. */
  lemma ParseInterestsPiece(piece: string)
    requires ',' !in piece
    ensures ParseInterests(piece) == if Trim(piece) == "" then [] else [Trim(piece)]
  {
    SplitWithoutSeparator(piece, ',');
    assert TrimAll([piece]) == [Trim(piece)];
  }

  /** The text is read piece by piece: the interests of the text after the
      first comma follow those of the piece before it. */
  lemma ParseInterestsAppend(piece: string, rest: string)
    requires ',' !in piece
    ensures ParseInterests(piece + [','] + rest) == ParseInterests(piece) + ParseInterests(rest)
  {
    SplitAfterPiece(piece, ',', rest);
    SplitWithoutSeparator(piece, ',');
    var parts := Split(rest, ',');
    assert TrimAll([piece] + parts) == TrimAll([piece]) + TrimAll(parts);
    DropEmptyAppend(TrimAll([piece]), TrimAll(parts));
  }

  /** A clean interest typed alone is read back as itself. */
  lemma ParseInterestsClean(x: string)
    requires Clean(x)
    ensures ParseInterests(x) == [x]
  {
    ParseInterestsPiece(x);
    TrimFixesTrimmed(x);
  }

  /** Three pieces separated by two commas are read one after the other. */
  lemma ParseInterestsThreePieces(a: string, b: string, c: string)
    requires ',' !in a && ',' !in b
    ensures ParseInterests(a + [','] + (b + [','] + c))
              == ParseInterests(a) + (ParseInterests(b) + ParseInterests(c))
  {
    ParseInterestsAppend(a, b + [','] + c);
    ParseInterestsAppend(b, c);
  }

  /** A blank entry between two interests is dropped: "a,,b" and "a, ,b"
      both read as the two interests. */
  lemma ParseInterestsSkipsBlank(x: string, blank: string, y: string)
    requires Clean(x) && Clean(y)
    requires ',' !in blank && Trim(blank) == ""
    ensures ParseInterests(x + [','] + (blank + [','] + y)) == [x, y]
  {
    ParseInterestsThreePieces(x, blank, y);
    ParseInterestsClean(x);
    ParseInterestsClean(y);
    ParseInterestsPiece(blank);
  }

  /** Trimming never brings in a character the string did not have. */
  lemma TrimKeepsOut(s: string, c: char)
    requires c !in s
    ensures c !in Trim(s)
  {
    TrimEndOfTrimStart(s);
    InfixKeepsOut(s, Trim(s), |s| - |TrimStart(s)|, c);
  }

  lemma InfixKeepsOut(s: string, r: string, i: int, c: char)
    requires 0 <= i <= |s| - |r| && r == s[i..i + |r|]
    requires c !in s
    ensures c !in r
  {
    forall k | 0 <= k < |r|
      ensures r[k] != c
    {
      assert r[k] == s[i + k];
    }
  }

  /** The interests shown in the text field: `interests.join(', ')`. */
  function ShowInterests(interests: seq<string>): string {
    Join(interests, ", ")
  }

  /** `" " + x` for every element. */
  function Pad(xs: seq<string>): (r: seq<string>)
    ensures |r| == |xs|
    ensures forall i :: 0 <= i < |r| ==> r[i] == " " + xs[i]
  {
    if |xs| == 0 then [] else [" " + xs[0]] + Pad(xs[1..])
  }

  /** Joining with ", " is joining with "," after padding every element
      but the first with a space. */
  lemma {:induction false} JoinCommaSpace(ys: seq<string>)
    requires |ys| >= 1
    ensures " " + Join(ys, ", ") == Join(Pad(ys), ",")
    decreases |ys|
  {
    if |ys| > 1 {
      JoinCommaSpace(ys[1..]);
      assert Pad(ys)[1..] == Pad(ys[1..]);
    }
  }

  /** The pieces `ShowInterests(xs)` splits into at commas. */
  lemma ShowInterestsPieces(xs: seq<string>)
    requires |xs| >= 1
    ensures ShowInterests(xs) == Join([xs[0]] + Pad(xs[1..]), ",")
  {
    var pieces := [xs[0]] + Pad(xs[1..]);
    if |xs| > 1 {
      JoinCommaSpace(xs[1..]);
      assert pieces[1..] == Pad(xs[1..]);
    }
  }

  /** The padded pieces hold no comma when the interests hold none. */
  lemma PiecesCommaFree(xs: seq<string>)
    requires |xs| >= 1
    requires forall i :: 0 <= i < |xs| ==> Clean(xs[i])
    ensures forall i :: 0 <= i < |xs| ==> ',' !in ([xs[0]] + Pad(xs[1..]))[i]
  {
    var pieces := [xs[0]] + Pad(xs[1..]);
    forall i | 1 <= i < |xs|
      ensures ',' !in pieces[i]
    {
      assert pieces[i] == " " + xs[i];
    }
  }

  /** Trimming the padded pieces gives back the interests. */
  lemma PiecesTrimBack(xs: seq<string>)
    requires |xs| >= 1
    requires forall i :: 0 <= i < |xs| ==> Clean(xs[i])
    ensures TrimAll([xs[0]] + Pad(xs[1..])) == xs
  {
    var pieces := [xs[0]] + Pad(xs[1..]);
    forall i | 0 <= i < |xs|
      ensures Trim(pieces[i]) == xs[i]
    {
      TrimFixesTrimmed(xs[i]);
      if i > 0 {
        assert pieces[i] == [' '] + xs[i];
        TrimSkipsLeadingSpace(' ', xs[i]);
      }
    }
  }

  /** Reading back the text the dialog shows for clean interests gives the
      same interests, in the same order. */
  lemma ParseShowRoundTrip(xs: seq<string>)
    requires forall i :: 0 <= i < |xs| ==> Clean(xs[i])
    ensures ParseInterests(ShowInterests(xs)) == xs
  {
    if |xs| == 0 {
      assert Split("", ',') == [""];
      assert TrimAll([""]) == [""];
    } else {
      var pieces := [xs[0]] + Pad(xs[1..]);
      ShowInterestsPieces(xs);
      PiecesCommaFree(xs);
      SplitJoin(pieces, ',');
      PiecesTrimBack(xs);
    }
  }

  /** Parsing is a normal form: showing the parsed interests and parsing
      again changes nothing. */
  lemma ParseIsNormalForm(text: string)
    ensures ParseInterests(ShowInterests(ParseInterests(text))) == ParseInterests(text)
  {
    ParseShowRoundTrip(ParseInterests(text));
  }

  // ---------------------------------------------------------------------------
  // The dialog

  /** The dialog's fields as it opens for `user`. */
  datatype Fields = Fields(
    name: string,
    interests: string,
    currentPassword: string,
    newPassword: string,
    confirmPassword: string)

  /** The fields the dialog starts with: the user's name and interests, or
      empty text when there is no user or the value is missing. */
  function InitialFields(user: Option<User>): (f: Fields)
    ensures user.None? ==> f == Fields("", "", "", "", "")
    ensures user.Some? ==> f.name == user.value.name
    ensures user.Some? && user.value.interests.Some? ==> f.interests == ShowInterests(user.value.interests.value)
    ensures user.Some? && user.value.interests.None? ==> f.interests == ""
    ensures f.currentPassword == "" && f.newPassword == "" && f.confirmPassword == ""
  {
    var name := if user.Some? && user.value.name != "" then user.value.name else "";
    var interests := if user.Some? && user.value.interests.Some? then ShowInterests(user.value.interests.value) else "";
    Fields(name, if interests != "" then interests else "", "", "", "")
  }

  /** Opening the dialog for a user with clean interests and saving it
      unchanged sends exactly the user's interests back. */
  lemma UnchangedInterestsSurviveSave(user: User)
    requires user.interests.Some?
    requires forall i :: 0 <= i < |user.interests.value| ==> Clean(user.interests.value[i])
    ensures ParseInterests(InitialFields(Some(user)).interests) == user.interests.value
  {
    ParseShowRoundTrip(user.interests.value);
  }

  /** A toast the dialog raises. */
  datatype Toast = SuccessToast(text: string) | ErrorToast(text: string)

  /** The error toast for a failed call: the server's message, or the fallback. */
  function ErrorToastFor(serverMessage: Option<string>, fallback: string): (t: Toast)
    ensures Truthy(serverMessage) ==> t == ErrorToast(serverMessage.value)
    ensures !Truthy(serverMessage) ==> t == ErrorToast(fallback)
  {
    ErrorToast(if Truthy(serverMessage) then serverMessage.value else fallback)
  }

  /** How a service call settles: success, or failure with the server's
      message, if it sent one. */
  datatype Reply = Succeeded | Failed(message: Option<string>)

  /** The update the profile form sends. */
  datatype ProfileUpdate = ProfileUpdate(name: string, interests: seq<string>)

  /** What submitting the profile form leads to. */
  datatype ProfileOutcome = ProfileOutcome(sent: ProfileUpdate, toast: Toast, closed: bool, loading: bool)

  /** `handleUpdateProfile`: sends the name and the parsed interests; on
      success the user is refreshed and the dialog closes. */
  function UpdateProfile(f: Fields, reply: Reply): (r: ProfileOutcome)
    ensures r.sent == ProfileUpdate(f.name, ParseInterests(f.interests))
    ensures r.closed <==> reply.Succeeded?
    ensures reply.Succeeded? ==> r.toast == SuccessToast("Profile updated successfully")
    ensures reply.Failed? ==> r.toast == ErrorToastFor(reply.message, "Failed to update profile")
    ensures !r.loading
  {
    var sent := ProfileUpdate(f.name, ParseInterests(f.interests));
    match reply
    case Succeeded => ProfileOutcome(sent, SuccessToast("Profile updated successfully"), true, false)
    case Failed(m) => ProfileOutcome(sent, ErrorToastFor(m, "Failed to update profile"), false, false)
  }

  /** The password change the security form sends. */
  datatype PasswordChange = PasswordChange(currentPassword: string, password: string)

  /** What submitting the security form leads to. */
  datatype PasswordOutcome = PasswordOutcome(
    fields: Fields, sent: Option<PasswordChange>, toast: Toast, loading: bool)

  /** `handleChangePassword`: a mismatch is reported without any call and
      without touching the loading flag; otherwise the change is sent, and
      only a successful one clears the three password fields. */
  function ChangePassword(f: Fields, loading: bool, reply: Reply): (r: PasswordOutcome)
    ensures r.sent.None? <==> f.newPassword != f.confirmPassword
    ensures r.sent.None? ==>
              r.fields == f && r.loading == loading && r.toast == ErrorToast("Passwords do not match")
    ensures r.sent.Some? ==> r.sent.value == PasswordChange(f.currentPassword, f.newPassword) && !r.loading
    ensures r.sent.Some? && reply.Succeeded? ==>
              r.fields == f.(currentPassword := "", newPassword := "", confirmPassword := "")
              && r.toast == SuccessToast("Password changed successfully")
    ensures r.sent.Some? && reply.Failed? ==>
              r.fields == f && r.toast == ErrorToastFor(reply.message, "Failed to change password")
    ensures r.fields.name == f.name && r.fields.interests == f.interests
  {
    if f.newPassword != f.confirmPassword then
      PasswordOutcome(f, None, ErrorToast("Passwords do not match"), loading)
    else
      var sent := Some(PasswordChange(f.currentPassword, f.newPassword));
      match reply
      case Succeeded =>
        PasswordOutcome(f.(currentPassword := "", newPassword := "", confirmPassword := ""), sent,
                        SuccessToast("Password changed successfully"), false)
      case Failed(m) => PasswordOutcome(f, sent, ErrorToastFor(m, "Failed to change password"), false)
  }

  /** After a successful change the security form is empty, so an immediate
      second submission passes the mismatch gate with empty passwords. */
  lemma PasswordFormEmptyAfterSuccess(f: Fields, loading: bool)
    requires f.newPassword == f.confirmPassword
    ensures var r := ChangePassword(f, loading, Succeeded);
            r.fields.currentPassword == "" && r.fields.newPassword == "" && r.fields.confirmPassword == ""
    ensures ChangePassword(ChangePassword(f, loading, Succeeded).fields, false, Succeeded).sent
              == Some(PasswordChange("", ""))
  {
  }

  /** What the delete-account button leads to. */
  datatype DeleteOutcome = DeleteOutcome(called: bool, toast: Option<Toast>, loggedOut: bool, loading: bool)

  /** `handleDeleteAccount`: nothing at all unless the confirmation is
      accepted; a successful deletion logs out and leaves the dialog loading;
      a failed one reports and stops loading. */
  function DeleteAccount(confirmed: bool, loading: bool, reply: Reply): (r: DeleteOutcome)
    ensures r.called <==> confirmed
    ensures !confirmed ==> r == DeleteOutcome(false, None, false, loading)
    ensures r.loggedOut <==> confirmed && reply.Succeeded?
    ensures confirmed && reply.Succeeded? ==>
              r.loading && r.toast == Some(SuccessToast("Account deleted successfully"))
    ensures confirmed && reply.Failed? ==>
              !r.loading && r.toast == Some(ErrorToastFor(reply.message, "Failed to delete account"))
  {
    if !confirmed then DeleteOutcome(false, None, false, loading)
    else match reply
      case Succeeded => DeleteOutcome(true, Some(SuccessToast("Account deleted successfully")), true, true)
      case Failed(m) => DeleteOutcome(true, Some(ErrorToastFor(m, "Failed to delete account")), false, false)
  }

  /** What an avatar button leads to: whether the service was called, the
      toast, and the final state of the avatar spinner. */
  datatype AvatarOutcome = AvatarOutcome(called: bool, toast: Option<Toast>, uploading: bool)

  /** `handleAvatarUpload`: nothing without a chosen file; otherwise the
      upload is sent and the spinner stops whatever the outcome. */
  function UploadAvatar(file: Option<string>, uploading: bool, reply: Reply): (r: AvatarOutcome)
    ensures r.called <==> file.Some?
    ensures file.None? ==> r == AvatarOutcome(false, None, uploading)
    ensures file.Some? ==> !r.uploading
    ensures file.Some? && reply.Succeeded? ==> r.toast == Some(SuccessToast("Avatar updated successfully"))
    ensures file.Some? && reply.Failed? ==>
              r.toast == Some(ErrorToastFor(reply.message, "Failed to upload avatar"))
  {
    if file.None? then AvatarOutcome(false, None, uploading)
    else match reply
      case Succeeded => AvatarOutcome(true, Some(SuccessToast("Avatar updated successfully")), false)
      case Failed(m) => AvatarOutcome(true, Some(ErrorToastFor(m, "Failed to upload avatar")), false)
  }

  /** `handleDeleteAvatar`: always calls the service; the spinner stops. */
  function DeleteAvatar(reply: Reply): (r: AvatarOutcome)
    ensures r.called && !r.uploading
    ensures reply.Succeeded? ==> r.toast == Some(SuccessToast("Avatar removed"))
    ensures reply.Failed? ==> r.toast == Some(ErrorToastFor(reply.message, "Failed to remove avatar"))
  {
    match reply
    case Succeeded => AvatarOutcome(true, Some(SuccessToast("Avatar removed")), false)
    case Failed(m) => AvatarOutcome(true, Some(ErrorToastFor(m, "Failed to remove avatar")), false)
  }

  // ---------------------------------------------------------------------------
  // The mounted dialog

  /** The dialog as it stays mounted below the profile page: whether the page
      shows it, the fields, the two spinners, and whether a deletion has
      logged the user out. Hook state lives as long as the mount, so none of
      it is reset when the dialog is hidden and shown again. */
  datatype Dialog = Dialog(open: bool, fields: Fields, loading: bool, uploadingAvatar: bool, loggedOut: bool)

  /** The dialog as it mounts: the `useState` initializers run once, for the
      user of that first render. */
  function Mount(isOpen: bool, user: Option<User>): (d: Dialog)
    ensures d.open == isOpen && d.fields == InitialFields(user)
    ensures !d.loading && !d.uploadingAvatar && !d.loggedOut
  {
    Dialog(isOpen, InitialFields(user), false, false, false)
  }

  /** The dialog renders nothing while hidden, and otherwise the fields it holds. */
  function Render(d: Dialog): (view: Option<Fields>)
    ensures view.Some? <==> d.open
    ensures view.Some? ==> view.value == d.fields
  {
    if d.open then Some(d.fields) else None
  }

  /** What can happen to the mounted dialog. */
  datatype Event =
    | SetOpen(isOpen: bool)
    | Type(typed: Fields)
    | SaveProfile(reply: Reply)
    | SavePassword(reply: Reply)
    | PickAvatar(file: Option<string>, reply: Reply)
    | RemoveAvatar(reply: Reply)
    | RemoveAccount(confirmed: bool, reply: Reply)

  /** One event, through the handler it triggers; a successful profile update
      closes the dialog through `onClose`. */
  function Apply(d: Dialog, e: Event): Dialog {
    match e
    case SetOpen(isOpen) => d.(open := isOpen)
    case Type(typed) => d.(fields := typed)
    case SaveProfile(reply) =>
      var o := UpdateProfile(d.fields, reply);
      d.(open := d.open && !o.closed, loading := o.loading)
    case SavePassword(reply) =>
      var o := ChangePassword(d.fields, d.loading, reply);
      d.(fields := o.fields, loading := o.loading)
    case PickAvatar(file, reply) =>
      d.(uploadingAvatar := UploadAvatar(file, d.uploadingAvatar, reply).uploading)
    case RemoveAvatar(reply) =>
      d.(uploadingAvatar := DeleteAvatar(reply).uploading)
    case RemoveAccount(confirmed, reply) =>
      var o := DeleteAccount(confirmed, d.loading, reply);
      d.(loading := o.loading, loggedOut := d.loggedOut || o.loggedOut)
  }

  function Run(d: Dialog, events: seq<Event>): Dialog
    decreases |events|
  {
    if |events| == 0 then d else Run(Apply(d, events[0]), events[1..])
  }

  /** The confirmed deletion that the service accepted. */
  predicate DeletesAccount(e: Event) {
    e.RemoveAccount? && e.confirmed && e.reply.Succeeded?
  }

  /** A security form submission that the service accepted. */
  predicate ChangesPassword(e: Event) {
    e.SavePassword? && e.reply.Succeeded?
  }

  /** The fields with the three password fields emptied. */
  function ClearPasswords(f: Fields): Fields {
    f.(currentPassword := "", newPassword := "", confirmPassword := "")
  }

  /** Every handler that settles stops its spinner: from a quiet dialog, no
      run leaves a spinner on unless an accepted deletion logged the user
      out, and the user is logged out exactly when such a deletion happened. */
  lemma {:induction false} SpinnersSettle(d: Dialog, events: seq<Event>)
    requires !d.loading && !d.uploadingAvatar
    ensures (forall i :: 0 <= i < |events| ==> !DeletesAccount(events[i])) ==>
              !Run(d, events).loading && !Run(d, events).uploadingAvatar
    ensures Run(d, events).loggedOut <==>
              d.loggedOut || exists i :: 0 <= i < |events| && DeletesAccount(events[i])
    decreases |events|
  {
    if |events| > 0 {
      var e, next := events[0], Apply(d, events[0]);
      if DeletesAccount(e) {
        assert next.loggedOut;
        RunKeepsLoggedOut(next, events[1..]);
      } else {
        assert !next.loading && !next.uploadingAvatar;
        assert next.loggedOut == d.loggedOut;
        SpinnersSettle(next, events[1..]);
        assert forall i :: 0 <= i < |events[1..]| ==> events[1..][i] == events[i + 1];
        if exists i :: 0 <= i < |events| && DeletesAccount(events[i]) {
          var i :| 0 <= i < |events| && DeletesAccount(events[i]);
          assert DeletesAccount(events[1..][i - 1]);
        }
      }
    }
  }

  /** Nothing in the dialog logs the user back in. */
  lemma {:induction false} RunKeepsLoggedOut(d: Dialog, events: seq<Event>)
    requires d.loggedOut
    ensures Run(d, events).loggedOut
    decreases |events|
  {
    if |events| > 0 {
      RunKeepsLoggedOut(Apply(d, events[0]), events[1..]);
    }
  }

  /** Without typing, the fields change only through an accepted password
      change, which empties the three password fields, and only if the two
      new passwords agreed; hiding and showing the dialog, saving the
      profile and the avatar and account buttons leave them as they were. */
  lemma {:induction false} FieldsWithoutTyping(d: Dialog, events: seq<Event>)
    requires forall i :: 0 <= i < |events| ==> !events[i].Type?
    ensures Run(d, events).fields ==
              if d.fields.newPassword == d.fields.confirmPassword
                 && exists i :: 0 <= i < |events| && ChangesPassword(events[i])
              then ClearPasswords(d.fields) else d.fields
    decreases |events|
  {
    if |events| > 0 {
      var e, next := events[0], Apply(d, events[0]);
      assert forall i :: 0 <= i < |events[1..]| ==> events[1..][i] == events[i + 1];
      FieldsWithoutTyping(next, events[1..]);
      if exists i :: 0 <= i < |events| && ChangesPassword(events[i]) {
        var i :| 0 <= i < |events| && ChangesPassword(events[i]);
        if i > 0 {
          assert ChangesPassword(events[1..][i - 1]);
        }
      }
      if d.fields.newPassword == d.fields.confirmPassword && ChangesPassword(e) {
        assert next.fields == ClearPasswords(d.fields);
      } else {
        assert next.fields == d.fields;
      }
    }
  }

  /** What was typed is still there when the dialog is hidden and shown again. */
  lemma ReopenKeepsTyping(d: Dialog, typed: Fields)
    ensures Render(Run(d, [Type(typed), SetOpen(false), SetOpen(true)])) == Some(typed)
  {
    var events := [Type(typed), SetOpen(false), SetOpen(true)];
    var typedIn := Apply(d, Type(typed));
    var hidden := Apply(typedIn, SetOpen(false));
    var shown := Apply(hidden, SetOpen(true));
    assert events[1..] == [SetOpen(false), SetOpen(true)];
    assert [SetOpen(false), SetOpen(true)][1..] == [SetOpen(true)];
    assert Run(hidden, [SetOpen(true)]) == Run(shown, []);
    assert shown.fields == typed && shown.open;
  }
}
