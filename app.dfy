/**
 * The application shell: the signed-in user held at the top, and the route
 * table with its guards for the home page and the administrator settings.
 */
module App {
  import opened Wrappers
  import LoginPage
  import Text

  /** What a route shows. */
  datatype Page = LoginScreen | HomeScreen | AdminSettingsScreen

  /** A route either renders a page or redirects to another path. */
  datatype Outcome = Render(page: Page) | Redirect(to: string)

  /** `s` with every trailing "/" removed. */
  function TrimTrailingSlashes(s: string): (r: string)
    ensures r <= s
    ensures r == [] || r[|r| - 1] != '/'
    ensures forall i :: |r| <= i < |s| ==> s[i] == '/'
    decreases |s|
  {
    if s != [] && s[|s| - 1] == '/' then TrimTrailingSlashes(s[..|s| - 1]) else s
  }

  /**
   * The form in which a path is compared with the route patterns: matching
   * ignores case and any trailing slashes, and an empty remainder is the root.
   */
  function RouteKey(path: string): (key: string)
    ensures key != [] && Text.NoUpper(key)
    ensures key == "/" || key[|key| - 1] != '/'
  {
    var t := TrimTrailingSlashes(Text.ToLower(path));
    if t == [] then "/" else t
  }

  /** A lower-case path without a trailing slash is its own key. */
  lemma KeyOfPattern(p: string)
    requires p != [] && Text.NoUpper(p) && p[|p| - 1] != '/'
    ensures RouteKey(p) == p
  {
    Text.ToLowerOfNoUpper(p);
  }

  /** The two redirect targets are their own keys. */
  lemma RedirectTargetKeys()
    ensures RouteKey("/") == "/" && RouteKey("/login") == "/login"
  {
    Text.ToLowerOfNoUpper("/");
    assert TrimTrailingSlashes("/") == "";
    KeyOfPattern("/login");
  }

  /** Upper-case letters in the path make no difference. */
  lemma RouteKeyIgnoresCase(path: string)
    ensures RouteKey(Text.ToLower(path)) == RouteKey(path)
  {
    Text.ToLowerIdempotent(path);
  }

  /** Trailing slashes make no difference. */
  lemma RouteKeyIgnoresTrailingSlash(path: string)
    ensures RouteKey(path + "/") == RouteKey(path)
  {
    Text.ToLowerConcat(path, "/");
    Text.ToLowerOfNoUpper("/");
    var l := Text.ToLower(path);
    assert (l + "/")[..|l + "/"| - 1] == l;
  }

  /**
   * The route table, matched on the path's key; paths other than the three
   * listed fall through to the catch-all.
   */
  function Route(path: string, isAuthenticated: bool, userRole: string): (o: Outcome)
    ensures RouteKey(path) == "/login" ==> o == Render(LoginScreen)
    ensures RouteKey(path) == "/" ==> (o == Render(HomeScreen) <==> isAuthenticated)
    ensures RouteKey(path) == "/" && !isAuthenticated ==> o == Redirect("/login")
    ensures RouteKey(path) == "/admin/settings" ==>
      (o == Render(AdminSettingsScreen) <==> isAuthenticated && userRole == "Administrator")
    ensures RouteKey(path) == "/admin/settings" && !(isAuthenticated && userRole == "Administrator") ==> o == Redirect("/")
    ensures RouteKey(path) !in {"/login", "/", "/admin/settings"} ==> o == Redirect("/")
  {
    var key := RouteKey(path);
    if key == "/login" then Render(LoginScreen)
    else if key == "/" then (if isAuthenticated then Render(HomeScreen) else Redirect("/login"))
    else if key == "/admin/settings" then
      (if isAuthenticated && userRole == "Administrator" then Render(AdminSettingsScreen) else Redirect("/"))
    else Redirect("/")
  }

  /** "/LOGIN/" is routed as "/login", "/Admin/Settings" as "/admin/settings". */
  lemma RouteIgnoresCaseAndTrailingSlash(path: string, isAuthenticated: bool, userRole: string)
    ensures Route(Text.ToLower(path) + "/", isAuthenticated, userRole) == Route(path, isAuthenticated, userRole)
    ensures Route(Text.ToLower(path), isAuthenticated, userRole) == Route(path, isAuthenticated, userRole)
  {
    RouteKeyIgnoresTrailingSlash(Text.ToLower(path));
    RouteKeyIgnoresCase(path);
  }

  /** The outcome after following at most `hops` redirects from `path`. */
  function Follow(path: string, isAuthenticated: bool, userRole: string, hops: nat): Outcome
    decreases hops
  {
    match Route(path, isAuthenticated, userRole)
    case Render(p) => Render(p)
    case Redirect(to) => if hops == 0 then Redirect(to) else Follow(to, isAuthenticated, userRole, hops - 1)
  }

  /**
   * Every path settles within two redirects: signed out on the login screen,
   * signed in on the home screen unless the path is the login page or the
   * settings page the role may see.
   */
  lemma EveryPathSettles(path: string, isAuthenticated: bool, userRole: string)
    ensures Follow(path, isAuthenticated, userRole, 2).Render?
    ensures !isAuthenticated ==> Follow(path, isAuthenticated, userRole, 2) == Render(LoginScreen)
    ensures isAuthenticated ==>
      (Follow(path, isAuthenticated, userRole, 2) ==
       if RouteKey(path) == "/login" then Render(LoginScreen)
       else if RouteKey(path) == "/admin/settings" && userRole == "Administrator" then Render(AdminSettingsScreen)
       else Render(HomeScreen))
  {
    RedirectTargetKeys();
    assert Follow("/login", isAuthenticated, userRole, 0) == Render(LoginScreen);
    assert Follow("/", isAuthenticated, userRole, 1) == Render(if isAuthenticated then HomeScreen else LoginScreen);
  }

  /** The two redirect targets, "/" and "/login", never lead to the settings page. */
  lemma RedirectTargetsAvoidSettings(isAuthenticated: bool, userRole: string)
    ensures forall hops: nat :: Follow("/login", isAuthenticated, userRole, hops) == Render(LoginScreen)
    ensures forall hops: nat :: Follow("/", isAuthenticated, userRole, hops) != Render(AdminSettingsScreen)
  {
    RedirectTargetKeys();
    forall hops: nat ensures Follow("/", isAuthenticated, userRole, hops) != Render(AdminSettingsScreen) {
      if !isAuthenticated && hops > 0 {
        assert Follow("/", isAuthenticated, userRole, hops) == Follow("/login", isAuthenticated, userRole, hops - 1);
      }
    }
  }

  /** Only a signed-in administrator who asked for the settings page ever reaches it. */
  lemma SettingsOnlyForAdministrators(path: string, isAuthenticated: bool, userRole: string, hops: nat)
    requires Follow(path, isAuthenticated, userRole, hops) == Render(AdminSettingsScreen)
    ensures RouteKey(path) == "/admin/settings" && isAuthenticated && userRole == "Administrator"
  {
    if Route(path, isAuthenticated, userRole).Redirect? {
      RedirectTargetsAvoidSettings(isAuthenticated, userRole);
      assert false;
    }
  }

  class App {
    var isAuthenticated: bool
    var userName: string
    var userRole: string

    constructor ()
      ensures !isAuthenticated && userName == "" && userRole == "Technician"
    {
      isAuthenticated := false;
      userName := "";
      userRole := "Technician";
    }

    /** What a path shows for the current user, after its redirects. */
    function Show(path: string): Outcome
      reads this
    {
      Follow(path, isAuthenticated, userRole, 2)
    }

    /** The login page's callback: signed in, with the given name and role. */
    method HandleLogin(username: string, role: string)
      modifies this
      ensures isAuthenticated && userName == username && userRole == role
    {
      isAuthenticated := true;
      userName := username;
      userRole := role;
    }

    /** Signing out clears the name; the role of the last user stays. */
    method HandleLogout()
      modifies this`isAuthenticated, this`userName
      ensures !isAuthenticated && userName == "" && userRole == old(userRole)
    {
      isAuthenticated := false;
      userName := "";
    }
  }

  /**
   * The administrator pair, passed from the login form to the shell, opens the
   * settings page; after signing out the kept role opens nothing.
   */
  method AdministratorSession() returns (signedIn: Outcome, signedOut: Outcome, role: string)
    ensures signedIn == Render(AdminSettingsScreen)
    ensures signedOut == Render(LoginScreen) && role == "Administrator"
  {
    var page := new LoginPage.LoginPage();
    var call := page.Submit("admin", "admin123", false);
    var app := new App();
    app.HandleLogin(call.value.username, call.value.role);
    KeyOfPattern("/admin/settings");
    signedIn := app.Show("/admin/settings");
    EveryPathSettles("/admin/settings", app.isAuthenticated, app.userRole);
    app.HandleLogout();
    signedOut := app.Show("/admin/settings");
    EveryPathSettles("/admin/settings", app.isAuthenticated, app.userRole);
    role := app.userRole;
  }
}
