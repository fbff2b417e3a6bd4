/** The two submission forms: `UserDataForm` (user-data-form.tsx) and
    `NameInputForm` (name-input-form.tsx). Lengths are JavaScript `.length`, that is
    UTF-16 code units; trimming is `String.prototype.trim`. */
module Forms {
  import opened Outcomes
  import opened Text

  const MinPasswordLength := 6
  const MaxNumberLength := 10
  const MaxNameLength := 20

  const AllFieldsRequired := "All fields are required."
  const InvalidEmail := "Please enter a valid email address."
  const PasswordTooShort := "Password must be at least 6 characters long."
  const NumberTooLong := "Number cannot be longer than 10 characters."
  const NameEmpty := "Name cannot be empty."
  const NameTooLong := "Name cannot be longer than 20 characters."
  const Unexpected := "An unexpected error occurred."

  // ---------------------------------------------------------------------------
  // The email pattern
  // ---------------------------------------------------------------------------

  ghost predicate NoSpace(s: string) {
    forall k :: 0 <= k < |s| ==> !IsSpace(s[k])
  }

  /** `\S+@\S+\.\S+` matches `s[i..e]`, with the `@` at `a` and the `.` at `d`. */
  ghost predicate EmailMatchAt(s: string, i: int, a: int, d: int, e: int) {
    && 0 <= i < a && a + 1 < d && d + 1 < e <= |s|
    && s[a] == '@' && s[d] == '.'
    && NoSpace(s[i..a]) && NoSpace(s[a + 1..d]) && NoSpace(s[d + 1..e])
  }

  /** The regular expression is not anchored: `test` succeeds iff it matches somewhere. */
  ghost predicate EmailPattern(s: string) {
    exists i, a, d, e :: EmailMatchAt(s, i, a, d, e)
  }

  /** An `@` at `a` and a `.` at `d`, with a non-space before the `@`, only
      non-spaces (at least one) between them, and a non-space after the `.`. */
  ghost predicate Anchors(s: string, a: int, d: int) {
    && 1 <= a && a + 1 < d && d + 1 < |s|
    && !IsSpace(s[a - 1]) && s[a] == '@' && s[d] == '.' && !IsSpace(s[d + 1])
    && forall k | a + 1 <= k < d :: !IsSpace(s[k])
  }

  /** Scans right from `d` for the `.` that closes an address whose `@` is at
      `a`, giving up at the first white space. */
  predicate DotFrom(s: string, a: nat, d: nat)
    requires a < d <= |s|
    decreases |s| - d
  {
    if d + 1 >= |s| || IsSpace(s[d]) then false
    else (s[d] == '.' && a + 1 < d && !IsSpace(s[d + 1])) || DotFrom(s, a, d + 1)
  }

  /** Scans right from `a` for an `@` that opens an address. */
  predicate AtFrom(s: string, a: nat)
    decreases |s| - a
  {
    if a >= |s| then false
    else (1 <= a && s[a] == '@' && !IsSpace(s[a - 1]) && DotFrom(s, a, a + 1)) || AtFrom(s, a + 1)
  }

  /** The check the form runs on the trimmed email. */
  predicate LooksLikeEmail(s: string) {
    AtFrom(s, 0)
  }

  lemma {:induction false} DotFromIff(s: string, a: nat, d: nat)
    requires 1 <= a < d <= |s| && s[a] == '@' && !IsSpace(s[a - 1])
    requires forall k | a + 1 <= k < d :: !IsSpace(s[k])
    ensures DotFrom(s, a, d) <==> exists e | d <= e < |s| :: Anchors(s, a, e)
    decreases |s| - d
  {
    if d + 1 >= |s| {
      assert forall e | d <= e < |s| :: !Anchors(s, a, e);
    } else if IsSpace(s[d]) {
      assert forall e | d <= e < |s| :: !Anchors(s, a, e);
    } else {
      DotFromIff(s, a, d + 1);
      if Anchors(s, a, d) {
      } else {
        forall e | d <= e < |s| && Anchors(s, a, e) ensures d + 1 <= e {
        }
      }
    }
  }

  lemma {:induction false} AtFromIff(s: string, i: nat)
    ensures AtFrom(s, i) <==> exists a, d | i <= a < |s| && 0 <= d < |s| :: Anchors(s, a, d)
    decreases |s| - i
  {
    if i < |s| {
      AtFromIff(s, i + 1);
      if 1 <= i && s[i] == '@' && !IsSpace(s[i - 1]) {
        DotFromIff(s, i, i + 1);
      } else {
        assert forall d | 0 <= d < |s| :: !Anchors(s, i, d);
      }
    }
  }

  /** The scan finds exactly the anchor pairs. */
  lemma LooksLikeEmailIffAnchors(s: string)
    ensures LooksLikeEmail(s) <==> exists a, d | 0 <= a < |s| && 0 <= d < |s| :: Anchors(s, a, d)
  {
    AtFromIff(s, 0);
  }

  /** The executable check agrees with the regular expression on every string. */
  lemma LooksLikeEmailIffPattern(s: string)
    ensures LooksLikeEmail(s) <==> EmailPattern(s)
  {
    LooksLikeEmailIffAnchors(s);
    if LooksLikeEmail(s) {
      var a, d :| 0 <= a < |s| && 0 <= d < |s| && Anchors(s, a, d);
      assert s[a - 1..a] == [s[a - 1]];
      assert s[d + 1..d + 2] == [s[d + 1]];
      assert EmailMatchAt(s, a - 1, a, d, d + 2);
    }
    if EmailPattern(s) {
      var i, a, d, e :| EmailMatchAt(s, i, a, d, e);
      assert s[i..a][a - 1 - i] == s[a - 1];
      assert s[d + 1..e][0] == s[d + 1];
      forall k | a + 1 <= k < d ensures !IsSpace(s[k]) {
        assert s[a + 1..d][k - (a + 1)] == s[k];
      }
      assert Anchors(s, a, d);
    }
  }

  /** The pattern is not anchored: text around an address does not matter. */
  lemma EmailInContext(p: string, s: string, q: string)
    requires LooksLikeEmail(s)
    ensures LooksLikeEmail(p + s + q)
  {
    LooksLikeEmailIffAnchors(s);
    LooksLikeEmailIffAnchors(p + s + q);
    var a, d :| 0 <= a < |s| && 0 <= d < |s| && Anchors(s, a, d);
    var t := p + s + q;
    forall k | |p| + a + 1 <= k < |p| + d ensures !IsSpace(t[k]) {
      assert t[k] == s[k - |p|];
    }
    assert Anchors(t, |p| + a, |p| + d);
  }

  lemma AddressAccepted()
    ensures LooksLikeEmail("a@b.c")
  {
    LooksLikeEmailIffAnchors("a@b.c");
    assert Anchors("a@b.c", 1, 3);
  }

  /** The part between `@` and `.` must be non-empty. */
  lemma EmptyDomainRejected()
    ensures !LooksLikeEmail("a@.c")
  {
    LooksLikeEmailIffAnchors("a@.c");
    forall a, d | 0 <= a < 4 && 0 <= d < 4 ensures !Anchors("a@.c", a, d) {
      if a == 1 && d == 2 {
        assert !(a + 1 < d);
      }
    }
  }

  // ---------------------------------------------------------------------------
  // UserDataForm
  // ---------------------------------------------------------------------------

  datatype Fields = Fields(username: string, email: string, password: string, number: string)

  datatype UserForm = UserForm(fields: Fields, loading: bool)

  function TrimAll(f: Fields): (r: Fields)
    ensures r.username == Trim(f.username) && r.email == Trim(f.email)
    ensures r.password == Trim(f.password) && r.number == Trim(f.number)
  {
    Fields(Trim(f.username), Trim(f.email), Trim(f.password), Trim(f.number))
  }

  /** The checks of `handleSubmit`, in order: all present, email, password, number. */
  function ValidateUserData(f: Fields): (r: Result<Fields>)
    ensures r.Ok? <==>
      && Trim(f.username) != "" && Trim(f.email) != "" && Trim(f.password) != "" && Trim(f.number) != ""
      && LooksLikeEmail(Trim(f.email))
      && Utf16Length(Trim(f.password)) >= MinPasswordLength
      && Utf16Length(Trim(f.number)) <= MaxNumberLength
    ensures r.Ok? ==> r.value == TrimAll(f)
    ensures var t := TrimAll(f);
      && (t.username == "" || t.email == "" || t.password == "" || t.number == "" ==> r == Err(AllFieldsRequired))
      && (r == Err(InvalidEmail) <==>
            t.username != "" && t.email != "" && t.password != "" && t.number != "" && !LooksLikeEmail(t.email))
      && (r == Err(PasswordTooShort) <==>
            t.username != "" && t.email != "" && t.password != "" && t.number != "" && LooksLikeEmail(t.email)
            && Utf16Length(t.password) < MinPasswordLength)
      && (r == Err(NumberTooLong) <==>
            t.username != "" && t.email != "" && t.password != "" && t.number != "" && LooksLikeEmail(t.email)
            && Utf16Length(t.password) >= MinPasswordLength && Utf16Length(t.number) > MaxNumberLength)
  {
    var t := TrimAll(f);
    if t.username == "" || t.email == "" || t.password == "" || t.number == "" then Err(AllFieldsRequired)
    else if !LooksLikeEmail(t.email) then Err(InvalidEmail)
    else if Utf16Length(t.password) < MinPasswordLength then Err(PasswordTooShort)
    else if Utf16Length(t.number) > MaxNumberLength then Err(NumberTooLong)
    else Ok(t)
  }

  /** What is handed to `saveUserData` passes validation again unchanged. */
  lemma ValidatedFieldsAreStable(f: Fields)
    requires ValidateUserData(f).Ok?
    ensures ValidateUserData(ValidateUserData(f).value) == ValidateUserData(f)
  {
    TrimIdempotent(f.username);
    TrimIdempotent(f.email);
    TrimIdempotent(f.password);
    TrimIdempotent(f.number);
  }

  /** A toast: title, description, and whether it is the destructive variant. */
  datatype Notice = Notice(title: string, description: string, destructive: bool)

  /** The answer of the save action: a result record, or a throw. */
  datatype SaveReply = Saved(success: bool, message: string) | SaveThrew

  /** The form state after a submit, the argument of the save call if one was made,
      and the toast shown. */
  datatype Submission<+S, +A> = Submission(state: S, call: Option<A>, notice: Notice)

  const Cleared := Fields("", "", "", "")

  /** `handleSubmit` of `UserDataForm`. */
  function SubmitUserData(form: UserForm, reply: SaveReply): (r: Submission<UserForm, Fields>)
    ensures ValidateUserData(form.fields).Err? ==>
      r == Submission(form, None, Notice("Validation Error", ValidateUserData(form.fields).msg, true))
    ensures r.call.Some? <==> ValidateUserData(form.fields).Ok?
    ensures r.call.Some? ==>
      && r.call.value == TrimAll(form.fields)
      && !r.state.loading
      && (reply.Saved? && reply.success ==>
            r.state.fields == Cleared && r.notice == Notice("Success!", reply.message, false))
      && (reply.Saved? && !reply.success ==>
            r.state.fields == form.fields && r.notice == Notice("Error", reply.message, true))
      && (reply.SaveThrew? ==>
            r.state.fields == form.fields && r.notice == Notice("Error", Unexpected, true))
  {
    match ValidateUserData(form.fields)
    case Err(m) => Submission(form, None, Notice("Validation Error", m, true))
    case Ok(t) =>
      match reply
      case SaveThrew => Submission(UserForm(form.fields, false), Some(t), Notice("Error", Unexpected, true))
      case Saved(ok, m) =>
        if ok then Submission(UserForm(Cleared, false), Some(t), Notice("Success!", m, false))
        else Submission(UserForm(form.fields, false), Some(t), Notice("Error", m, true))
  }

  /** After a successful save the form is empty, so an immediate second submit is
      rejected as incomplete and saves nothing. */
  lemma NoDoubleSave(form: UserForm, message: string, again: SaveReply)
    requires ValidateUserData(form.fields).Ok?
    ensures var first := SubmitUserData(form, Saved(true, message));
      var second := SubmitUserData(first.state, again);
      second.call == None && second.notice.description == AllFieldsRequired
  {
  }

  // ---------------------------------------------------------------------------
  // NameInputForm
  // ---------------------------------------------------------------------------

  datatype NameForm = NameForm(name: string, loading: bool)

  /** The checks of `handleSubmit` of `NameInputForm`: emptiness first, then length. */
  function ValidateName(name: string): (r: Result<string>)
    ensures r.Ok? <==> 1 <= Utf16Length(Trim(name)) <= MaxNameLength
    ensures r.Ok? ==> r.value == Trim(name)
    ensures r == Err(NameEmpty) <==> Trim(name) == ""
    ensures r == Err(NameTooLong) <==> Utf16Length(Trim(name)) > MaxNameLength
  {
    var t := Trim(name);
    if t == "" then Err(NameEmpty)
    else if Utf16Length(t) > MaxNameLength then Err(NameTooLong)
    else Ok(t)
  }

  /** A name is refused as empty exactly when it consists of white space only. */
  lemma NameEmptyIffBlank(name: string)
    ensures ValidateName(name) == Err(NameEmpty) <==> AllSpace(name)
  {
    TrimEmptyIffAllSpace(name);
  }

  /** `handleSubmit` of `NameInputForm`. */
  function SubmitName(form: NameForm, reply: SaveReply): (r: Submission<NameForm, string>)
    ensures ValidateName(form.name).Err? ==>
      r == Submission(form, None, Notice("Validation Error", ValidateName(form.name).msg, true))
    ensures r.call.Some? <==> ValidateName(form.name).Ok?
    ensures r.call.Some? ==>
      && r.call.value == Trim(form.name) && !r.state.loading
      && (reply.Saved? && reply.success ==> r.state.name == "" && r.notice == Notice("Success!", reply.message, false))
      && (reply.Saved? && !reply.success ==> r.state.name == form.name && r.notice == Notice("Error", reply.message, true))
      && (reply.SaveThrew? ==> r.state.name == form.name && r.notice == Notice("Error", Unexpected, true))
  {
    match ValidateName(form.name)
    case Err(m) => Submission(form, None, Notice("Validation Error", m, true))
    case Ok(t) =>
      match reply
      case SaveThrew => Submission(NameForm(form.name, false), Some(t), Notice("Error", Unexpected, true))
      case Saved(ok, m) =>
        if ok then Submission(NameForm("", false), Some(t), Notice("Success!", m, false))
        else Submission(NameForm(form.name, false), Some(t), Notice("Error", m, true))
  }

  /** The saved name is accepted again as it is. */
  lemma SavedNameIsStable(name: string)
    requires ValidateName(name).Ok?
    ensures ValidateName(ValidateName(name).value) == ValidateName(name)
  {
    TrimIdempotent(name);
  }
}
