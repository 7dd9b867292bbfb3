/** The admin shell (src/layouts/AdminLayout.jsx): it holds the admin pages
    back until the auth service has answered whether there is a session,
    sends visitors without one to the login page, and offers the side menu
    and the sign-out button. */
module AdminLayout {
  import opened Remote
  import Text

  const LoginPath := "/admin/login"

  /** One entry of the side menu (its icon is left out). */
  datatype MenuItem = MenuItem(caption: string, path: string)

  const MenuItems: seq<MenuItem> := [
    MenuItem("Tableau de bord", "/admin/dashboard"),
    MenuItem("Niveaux", "/admin/levels"),
    MenuItem("Groupes", "/admin/groups"),
    MenuItem("Modules", "/admin/modules"),
    MenuItem("Annonces", "/admin/announcements"),
    MenuItem("Fichiers", "/admin/files"),
    MenuItem("Paramètres", "/admin/settings")
  ]

  /** The menu's paths, in order: seven admin routes, no two alike. */
  function MenuPaths(): (paths: seq<string>)
    ensures |paths| == 7
    ensures paths == ["/admin/dashboard", "/admin/levels", "/admin/groups", "/admin/modules",
                      "/admin/announcements", "/admin/files", "/admin/settings"]
    ensures forall i, j :: 0 <= i < j < |paths| ==> paths[i] != paths[j]
    ensures forall i :: 0 <= i < |paths| ==> Text.StartsWith(paths[i], "/admin/")
  {
    seq(|MenuItems|, i requires 0 <= i < |MenuItems| => MenuItems[i].path)
  }

  /** What the shell shows. */
  datatype View = Loading | RedirectTo(path: string) | Shell(session: Session)

  /** The two state variables. */
  datatype Guard = Guard(session: Option<Session>, loading: bool)

  const InitialGuard := Guard(None, true)

  /** What the auth service reports: the answer to the initial session
      query, or a later change of the session (sign-in, sign-out, refresh). */
  datatype AuthEvent = InitialSession(s: Option<Session>) | AuthChanged(s: Option<Session>)

  /** One event: either one replaces the session; only the initial answer
      ends loading. */
  function Step(g: Guard, e: AuthEvent): (next: Guard)
    ensures next.session == e.s
    ensures next.loading == (g.loading && e.AuthChanged?)
  {
    match e
    case InitialSession(s) => Guard(s, false)
    case AuthChanged(s) => Guard(s, g.loading)
  }

  function Replay(g: Guard, events: seq<AuthEvent>): Guard
    decreases |events|
  {
    if events == [] then g else Replay(Step(g, events[0]), events[1..])
  }

  /** The view of a state: nothing but the loading view while loading, then
      the redirect without a session and the shell with one. */
  function ViewOf(g: Guard): (v: View)
    ensures v == Loading <==> g.loading
    ensures v.RedirectTo? <==> !g.loading && g.session.None?
    ensures v.RedirectTo? ==> v.path == LoginPath
    ensures v.Shell? <==> !g.loading && g.session.Some?
    ensures v.Shell? ==> v.session == g.session.value
  {
    if g.loading then Loading
    else if g.session.None? then RedirectTo(LoginPath)
    else Shell(g.session.value)
  }

  /** Until the initial answer arrives, only the loading view is produced,
      however many auth changes come first. */
  lemma {:induction false} LoadingUntilInitialAnswer(g: Guard, events: seq<AuthEvent>)
    requires g.loading
    requires forall k :: 0 <= k < |events| ==> events[k].AuthChanged?
    ensures ViewOf(Replay(g, events)) == Loading
    decreases |events|
  {
    if events != [] {
      LoadingUntilInitialAnswer(Step(g, events[0]), events[1..]);
    }
  }

  /** Once the initial answer has arrived, the shell never goes back to loading. */
  lemma {:induction false} LoadedStaysLoaded(g: Guard, events: seq<AuthEvent>)
    requires !g.loading
    ensures !Replay(g, events).loading
    decreases |events|
  {
    if events != [] {
      LoadedStaysLoaded(Step(g, events[0]), events[1..]);
    }
  }

  /** The latest event decides the session. */
  lemma {:induction false} LatestEventWins(g: Guard, events: seq<AuthEvent>)
    requires events != []
    ensures Replay(g, events).session == Text.Last(events).s
    decreases |events|
  {
    if |events| > 1 {
      LatestEventWins(Step(g, events[0]), events[1..]);
    }
  }

  /** A sign-out reported after the initial answer sends the visitor to the login page. */
  lemma SignOutRedirects(g: Guard, events: seq<AuthEvent>)
    requires !g.loading
    ensures ViewOf(Replay(g, events + [AuthChanged(None)])) == RedirectTo(LoginPath)
  {
    LoadedStaysLoaded(g, events + [AuthChanged(None)]);
    LatestEventWins(g, events + [AuthChanged(None)]);
  }

  /** What the shell asks of the auth service and the router. */
  datatype Request = SignOut | NavigateTo(path: string)

  class AdminShell {
    var session: Option<Session>
    var loading: bool

    function State(): Guard
      reads this
    {
      Guard(session, loading)
    }

    constructor ()
      ensures State() == InitialGuard
    {
      session, loading := None, true;
    }

    /** The answer to `getSession`: the session is stored, then loading ends. */
    method OnInitialSession(s: Option<Session>)
      modifies this
      ensures State() == Step(old(State()), InitialSession(s))
    {
      session := s;
      loading := false;
    }

    /** The `onAuthStateChange` subscription: only the session changes. */
    method OnAuthStateChange(s: Option<Session>)
      modifies this
      ensures State() == Step(old(State()), AuthChanged(s))
    {
      session := s;
    }

    function View(): View
      reads this
    {
      ViewOf(State())
    }

    /** `handleSignOut`: sign out, then go to the login page; the outcome of
        the sign-out is not consulted. */
    method HandleSignOut() returns (requests: seq<Request>)
      ensures requests == [SignOut, NavigateTo(LoginPath)]
    {
      requests := [SignOut];
      requests := requests + [NavigateTo(LoginPath)];
    }
  }

  /** A client of the shell: an auth change that reports a session before
      the initial answer shows nothing yet; the initial answer then decides. */
  method ChangeBeforeAnswer(early: Session, answer: Option<Session>) returns (before: View, after: View)
    ensures before == Loading
    ensures after == if answer.Some? then Shell(answer.value) else RedirectTo(LoginPath)
  {
    var shell := new AdminShell();
    shell.OnAuthStateChange(Some(early));
    before := shell.View();
    shell.OnInitialSession(answer);
    after := shell.View();
  }
}
