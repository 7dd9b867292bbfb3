/** The admin login page (src/pages/admin/Login.jsx): a visitor who already
    has a session goes straight to the dashboard; otherwise the form signs
    in with email and password. The sign-in call is awaited, so the handler
    is modelled as the part before the call and the part after it. */
module Login {
  import opened Remote

  const DashboardPath := "/admin/dashboard"
  const BadCredentialsMessage := "البريد الإلكتروني أو كلمة المرور غير صحيحة"

  /** What the page asks of the auth service. */
  datatype Request = SignIn(email: string, password: string)

  /** The route the page goes to when it mounts, given the current session:
      the dashboard exactly when there is one. */
  method OnMount(session: Option<Session>) returns (navigateTo: Option<string>)
    ensures navigateTo.Some? <==> session.Some?
    ensures navigateTo.Some? ==> navigateTo.value == DashboardPath
  {
    navigateTo := None;
    if session.Some? {
      navigateTo := Some(DashboardPath);
    }
  }

  class LoginPage {
    var email: string
    var password: string
    var loading: bool
    var error: Option<string>

    constructor ()
      ensures email == "" && password == "" && !loading && error == None
    {
      email, password, loading, error := "", "", false, None;
    }

    /** The submit button is disabled while a sign-in is under way. */
    predicate SubmitDisabled()
      reads this
    {
      loading
    }

    /** `handleLogin` up to the sign-in call: loading on, error cleared,
        the form's fields sent. */
    method BeginLogin() returns (request: Request)
      modifies this`loading, this`error
      ensures loading && error == None
      ensures SubmitDisabled()
      ensures request == SignIn(email, password)
    {
      loading := true;
      error := None;
      request := SignIn(email, password);
    }

    /** `handleLogin` after the call: a failure shows the fixed message and
        ends loading without navigating; a success navigates to the dashboard
        and leaves loading on (the page is left). */
    method CompleteLogin(result: Status) returns (navigateTo: Option<string>)
      modifies this`loading, this`error
      ensures result.Failed? ==> error == Some(BadCredentialsMessage) && !loading && navigateTo == None
      ensures result.Failed? ==> !SubmitDisabled()
      ensures result.Done? ==> navigateTo == Some(DashboardPath) && loading == old(loading) && error == old(error)
    {
      if result.Failed? {
        error := Some(BadCredentialsMessage);
        loading := false;
        navigateTo := None;
      } else {
        navigateTo := Some(DashboardPath);
      }
    }
  }

  /** A client of the page: while the sign-in is under way the button is
      disabled; a failure enables it again with the error shown, and the
      next attempt clears that error. */
  method RetryAfterFailure(page: LoginPage) returns (secondNavigation: Option<string>)
    modifies page
    ensures secondNavigation == Some(DashboardPath)
    ensures page.SubmitDisabled() && page.error == None
  {
    var r := page.BeginLogin();
    assert page.SubmitDisabled();
    var nav := page.CompleteLogin(Failed("invalid"));
    assert !page.SubmitDisabled() && page.error == Some(BadCredentialsMessage);
    r := page.BeginLogin();
    secondNavigation := page.CompleteLogin(Done);
  }
}
