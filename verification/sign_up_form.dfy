/** The sign-up form's submit and change handlers
    (src/Pages/SignUp/SignUp.tsx). The `signUp` slice the form dispatches
    to is not part of this model; only the action it is sent is. */
module SignUpForm {
  import opened Wrappers
  import opened Text

  datatype Form = Form(email: string, password: string, passwordConfirm: string,
                       firstName: string, lastName: string)

  /** What `signUpUser` is dispatched with: the confirmation is not sent. */
  datatype Payload = Payload(email: string, password: string, firstName: string, lastName: string)

  /** The outcome of one submit: a local error message, or a dispatch. */
  datatype Submit = ShowError(message: string) | Dispatch(payload: Payload)

  const MsgRequired := "Please fill in required fields"
  const MsgEmail := "Please enter a valid email"
  const MsgPasswordLength := "Password must be at least 6 characters"
  const MsgMismatch := "Passwords do not match"
  const MinPasswordLength := 6

  predicate MissingRequired(f: Form) {
    f.email == [] || f.password == [] || f.firstName == []
  }

  /** `handleSubmit`: four checks in order, the first failure wins. The
      password's `length` counts UTF-16 code units. */
  function HandleSubmit(f: Form): (r: Submit)
    ensures MissingRequired(f) ==> r == ShowError(MsgRequired)
    ensures !MissingRequired(f) && '@' !in f.email ==> r == ShowError(MsgEmail)
    ensures !MissingRequired(f) && '@' in f.email && |Utf16(f.password)| < MinPasswordLength ==>
              r == ShowError(MsgPasswordLength)
    ensures (!MissingRequired(f) && '@' in f.email && |Utf16(f.password)| >= MinPasswordLength
             && f.password != f.passwordConfirm) ==> r == ShowError(MsgMismatch)
  {
    if MissingRequired(f) then ShowError(MsgRequired)
    else if '@' !in f.email then ShowError(MsgEmail)
    else if |Utf16(f.password)| < MinPasswordLength then ShowError(MsgPasswordLength)
    else if f.password != f.passwordConfirm then ShowError(MsgMismatch)
    else Dispatch(Payload(f.email, f.password, f.firstName, f.lastName))
  }

  /** The form is dispatched exactly when all four checks pass, and then
      with the typed fields; the last name may be empty. */
  lemma DispatchIffValid(f: Form)
    ensures HandleSubmit(f).Dispatch? <==>
              f.email != [] && f.password != [] && f.firstName != []
              && '@' in f.email && |Utf16(f.password)| >= 6 && f.password == f.passwordConfirm
    ensures HandleSubmit(f).Dispatch? ==>
              HandleSubmit(f).payload == Payload(f.email, f.password, f.firstName, f.lastName)
  {
  }

  /** A dispatched sign-up carries a password of at least six characters
      and an email with an `@`. */
  lemma DispatchedPayloadWellFormed(f: Form)
    requires HandleSubmit(f).Dispatch?
    ensures '@' in HandleSubmit(f).payload.email
    ensures |Utf16(HandleSubmit(f).payload.password)| >= 6
    ensures HandleSubmit(f).payload.password == f.passwordConfirm
  {
  }

  /** An empty last name never causes a rejection. */
  lemma LastNameIgnored(f: Form, lastName: string)
    ensures HandleSubmit(f.(lastName := lastName)).Dispatch? == HandleSubmit(f).Dispatch?
    ensures HandleSubmit(f).ShowError? ==>
              HandleSubmit(f.(lastName := lastName)) == HandleSubmit(f)
  {
  }

  /** For a password inside the Basic Multilingual Plane, the length rule
      counts characters. */
  lemma BmpPasswordLength(f: Form)
    requires InBmp(f.password)
    ensures HandleSubmit(f) == ShowError(MsgPasswordLength) <==>
              !MissingRequired(f) && '@' in f.email && |f.password| < MinPasswordLength
  {
    Utf16OfBmp(f.password);
  }

  /** Three emoji are six code units, so they pass the length rule. */
  lemma ThreeEmojiPasswordAccepted(email: string, firstName: string)
    requires email != [] && firstName != [] && '@' in email
    ensures var pw := "\U{1F600}\U{1F600}\U{1F600}";
            HandleSubmit(Form(email, pw, pw, firstName, "")).Dispatch?
  {
    var pw := "\U{1F600}\U{1F600}\U{1F600}";
    assert Utf16(pw) == Utf16Units(pw[0]) + Utf16(pw[1..]);
    assert Utf16(pw[1..]) == Utf16Units(pw[1]) + Utf16(pw[2..]);
  }

  datatype Field = Email | Password | PasswordConfirm | FirstName | LastName

  /** The page's local state: the form fields and the local error message. */
  datatype Page = Page(form: Form, localError: string)

  /** The result of a change: the new page, and whether `clearError` is dispatched. */
  datatype Change = Change(page: Page, clearsSliceError: bool)

  /** `handleChange`: set the named field, clear the local error, and clear
      the slice's error when there is one. */
  function HandleChange(p: Page, field: Field, value: string, sliceError: Option<string>): (r: Change)
    ensures r.page.localError == []
    ensures r.clearsSliceError <==> sliceError.Some? && sliceError.value != []
    ensures field == Email ==> r.page.form == p.form.(email := value)
    ensures field == Password ==> r.page.form == p.form.(password := value)
    ensures field == PasswordConfirm ==> r.page.form == p.form.(passwordConfirm := value)
    ensures field == FirstName ==> r.page.form == p.form.(firstName := value)
    ensures field == LastName ==> r.page.form == p.form.(lastName := value)
  {
    var f := p.form;
    var f' := match field
      case Email => f.(email := value)
      case Password => f.(password := value)
      case PasswordConfirm => f.(passwordConfirm := value)
      case FirstName => f.(firstName := value)
      case LastName => f.(lastName := value);
    Change(Page(f', []), sliceError.Some? && sliceError.value != [])
  }
}
