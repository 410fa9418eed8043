/** The logic of the sign-in page (`src/pages/Auth.tsx`): the mode flag, the
    required-field guard and the dispatch of a submission to `login` or
    `signup`, with the toast it raises. */
module AuthPage {
  import opened Base
  import opened HealthTypes
  import opened Auth

  /** The page's form state. */
  datatype AuthForm = AuthForm(isSignup: bool, email: string, password: string, name: string,
                               isLoading: bool)

  /** The toast a submission raises; `destructive` is the error variant. */
  datatype Toast = Toast(title: string, description: string, destructive: bool)

  /** Which store call a submission made. */
  datatype Call =
    | NoCall
    | LoginCall(email: string, password: string)
    | SignupCall(email: string, password: string, name: string)

  /** The outcome of a submission: the form afterwards, the auth store, the call
      made, the toast shown, and whether the page moves on to the dashboard. */
  datatype Submission = Submission(form: AuthForm, auth: AuthState, call: Call, toast: Toast,
                                   toDashboard: bool)

  const MissingFields: string := "Please fill in all fields"
  const UnknownError: string := "An error occurred"

  /** The form on first render: signup mode exactly when the `mode` query
      parameter is `signup`; empty fields; not loading. */
  function InitialForm(modeParam: Option<string>): (f: AuthForm)
    ensures f.isSignup <==> modeParam == Some("signup")
    ensures f.email == "" && f.password == "" && f.name == "" && !f.isLoading
  {
    AuthForm(modeParam == Some("signup"), "", "", "", false)
  }

  /** The link under the form flips the mode and touches nothing else. */
  function ToggleMode(f: AuthForm): (r: AuthForm)
    ensures r.isSignup != f.isSignup
    ensures r.(isSignup := f.isSignup) == f
  {
    f.(isSignup := !f.isSignup)
  }

  /** `result.error || 'An error occurred'`: an absent or empty error falls back. */
  function ErrorText(res: AuthResult): (t: string)
    ensures t != ""
    ensures res.error.Some? && res.error.value != "" ==> t == res.error.value
    ensures res.error.None? || res.error == Some("") ==> t == UnknownError
  {
    match res.error
    case Some(e) => if e == "" then UnknownError else e
    case None => UnknownError
  }

  /** The required-field check: email and password, and the name in signup mode. */
  predicate Complete(f: AuthForm)
  {
    f.email != "" && f.password != "" && (!f.isSignup || f.name != "")
  }

  /** `handleSubmit`: refuse an incomplete form; otherwise call `signup` in signup
      mode and `login` in login mode, toast the outcome, and move on to the
      dashboard on success. Loading is off again on every path. */
  function HandleSubmit(f: AuthForm, s: AuthState, freshId: RecordId, now: Timestamp): (r: Submission)
    ensures r.form == f.(isLoading := false)
    ensures !Complete(f) ==>
      r.call == NoCall && r.auth == s && !r.toDashboard
      && r.toast == Toast("Error", MissingFields, true)
    ensures Complete(f) && f.isSignup ==> r.call == SignupCall(f.email, f.password, f.name)
    ensures Complete(f) && !f.isSignup ==> r.call == LoginCall(f.email, f.password)
    ensures Complete(f) && f.isSignup ==> r.auth == Signup(s, f.email, f.password, f.name, freshId, now).0
    ensures Complete(f) && !f.isSignup ==> r.auth == Login(s, f.email, f.password).0
    ensures Complete(f) && f.isSignup ==> (r.toDashboard <==> !EmailListed(Directory(s.storage), f.email))
    ensures Complete(f) && !f.isSignup ==>
      (r.toDashboard <==> Registered(Directory(s.storage), f.email, f.password))
    ensures r.toDashboard ==> IsAuthenticated(r.auth) && !r.toast.destructive
    ensures !r.toDashboard ==> r.auth == s && r.toast.destructive && r.toast.title == "Error"
    ensures Complete(f) && !r.toDashboard ==>
      r.toast.description == if f.isSignup then EmailTaken else InvalidCredentials
    ensures r.toDashboard ==>
      r.toast == if f.isSignup then Toast("Account created!", "Your account has been created successfully.", false)
                 else Toast("Welcome back!", "You have been logged in successfully.", false)
  {
    var done := f.(isLoading := false);
    if !Complete(f) then
      Submission(done, s, NoCall, Toast("Error", MissingFields, true), false)
    else
      var call := if f.isSignup then SignupCall(f.email, f.password, f.name) else LoginCall(f.email, f.password);
      var (s', res) := if f.isSignup then Signup(s, f.email, f.password, f.name, freshId, now)
                       else Login(s, f.email, f.password);
      var toast :=
        if !res.success then Toast("Error", ErrorText(res), true)
        else if f.isSignup then Toast("Account created!", "Your account has been created successfully.", false)
        else Toast("Welcome back!", "You have been logged in successfully.", false);
      Submission(done, s', call, toast, res.success)
  }

  /** Every error toast names a concrete reason: the store always supplies an
      error on failure, so the fallback text is never shown. */
  lemma ErrorToastIsKnown(f: AuthForm, s: AuthState, freshId: RecordId, now: Timestamp)
    ensures var r := HandleSubmit(f, s, freshId, now);
      r.toast.destructive ==>
        r.toast.description in {MissingFields, InvalidCredentials, EmailTaken}
        && r.toast.description != UnknownError
  {
  }

  /** In login mode the name field plays no part: two forms that differ only in
      the name submit identically, apart from the name they keep. */
  lemma LoginIgnoresName(f: AuthForm, s: AuthState, freshId: RecordId, now: Timestamp, other: string)
    requires !f.isSignup
    ensures var a := HandleSubmit(f, s, freshId, now);
      var b := HandleSubmit(f.(name := other), s, freshId, now);
      a.auth == b.auth && a.call == b.call && a.toast == b.toast && a.toDashboard == b.toDashboard
  {
  }

  /** A signup through the page with a new email can sign in through the page
      straight after logging out. */
  lemma SignupThenSignIn(f: AuthForm, s: AuthState, freshId: RecordId, now: Timestamp,
                         freshId2: RecordId, now2: Timestamp)
    requires f.isSignup && Complete(f) && !EmailListed(Directory(s.storage), f.email)
    ensures var r := HandleSubmit(f, s, freshId, now);
      var back := HandleSubmit(ToggleMode(r.form), Logout(r.auth), freshId2, now2);
      r.toDashboard && back.toDashboard && back.auth.user == r.auth.user
  {
    var r := HandleSubmit(f, s, freshId, now);
    var entry := StoredUser(freshId, f.email, f.name, now, f.password);
    var ds := Directory(r.auth.storage);
    assert ds == Directory(s.storage) + [entry];
    assert Directory(Logout(r.auth).storage) == ds;
    assert Credentials(ds[|ds| - 1]) == (f.email, f.password);
    assert forall j :: 0 <= j < |ds| - 1 ==> ds[j].email != f.email;
  }
}
