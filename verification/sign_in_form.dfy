/** The sign-in form's submit handler (src/Pages/SignIn/SignIn.tsx). */
module SignInForm {
  import opened Wrappers

  /** What `signInUser` is dispatched with: the typed password is sent as
      `passwordHash`, unchanged. */
  datatype Payload = Payload(email: string, passwordHash: string)

  datatype Page = Page(email: string, password: string, error: string, loading: bool)

  /** The page after a submit, and the action dispatched, if any. */
  datatype Submit = Submit(page: Page, dispatched: Option<Payload>)

  const MsgEmpty := "Please fill in all fields"
  const MsgEmail := "Please enter a valid email"

  /** `handleSubmit`. The error is cleared and `loading` raised on entry;
      the `finally` block lowers `loading` on every path. */
  function HandleSubmit(p: Page): (r: Submit)
    ensures !r.page.loading
    ensures r.page.email == p.email && r.page.password == p.password
    ensures (p.email == [] || p.password == []) ==>
              r.page.error == MsgEmpty && r.dispatched.None?
    ensures p.email != [] && p.password != [] && '@' !in p.email ==>
              r.page.error == MsgEmail && r.dispatched.None?
  {
    var entered := p.(error := [], loading := true);
    var body :=
      if entered.email == [] || entered.password == [] then
        Submit(entered.(error := MsgEmpty), None)
      else if '@' !in entered.email then
        Submit(entered.(error := MsgEmail), None)
      else
        Submit(entered.(error := []), Some(Payload(entered.email, entered.password)));
    body.(page := body.page.(loading := false))
  }

  /** Sign-in is dispatched exactly for a non-empty email containing `@`
      and a non-empty password, with `passwordHash` the typed password,
      and then no error is left on the page. */
  lemma DispatchIffValid(p: Page)
    ensures HandleSubmit(p).dispatched.Some? <==> p.email != [] && p.password != [] && '@' in p.email
    ensures HandleSubmit(p).dispatched.Some? ==>
              HandleSubmit(p).dispatched.value == Payload(p.email, p.password)
              && HandleSubmit(p).page.error == []
  {
  }

  /** A stale error never survives a submit: the message shown afterwards
      depends only on the typed fields. */
  lemma ErrorDependsOnlyOnFields(p: Page, staleError: string, wasLoading: bool)
    ensures HandleSubmit(p.(error := staleError, loading := wasLoading)) == HandleSubmit(p)
  {
  }
}
