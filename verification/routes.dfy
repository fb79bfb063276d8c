/**
 * Session checks and the route table. The routes use the shell's own guard, which
 * wants `isLoggedIn` to be exactly "true"; the stand-alone guard component, which
 * nothing routes through, wants any non-empty `isLoggedIn` and `currentUsername`.
 */
module Routes {
  import opened Text
  import opened Outcomes
  import opened Cookies

  /** The two cookies the guards read, as `getCookie` returns them. */
  datatype SessionCookies = SessionCookies(isLoggedIn: Option<string>, currentUsername: Option<string>)

  function ReadSession(cookie: string, decode: Decoder): SessionCookies {
    SessionCookies(GetCookie(cookie, "isLoggedIn", decode), GetCookie(cookie, "currentUsername", decode))
  }

  /** `isAuthenticated`: the `isLoggedIn` value is exactly "true". */
  predicate IsAuthenticated(s: SessionCookies) {
    s.isLoggedIn == Some("true")
  }

  datatype Page = LoginPage | RegisterPage | HomePage | CheckerPage | AdminPage | PurchasesPage

  /** What a route shows: a page, or a replacing redirect to a path. */
  datatype View = Render(page: Page) | Redirect(to: string)

  /** The shell's guard: the page when authenticated, otherwise a redirect to the login path. */
  function AppGuard(s: SessionCookies, page: Page): (v: View)
    ensures v == Render(page) <==> s.isLoggedIn == Some("true")
    ensures v != Render(page) ==> v == Redirect("/")
  {
    if IsAuthenticated(s) then Render(page) else Redirect("/")
  }

  /** JavaScript truthiness of a `getCookie` result: `null` and "" are false. */
  predicate Truthy(v: Option<string>) {
    v.Some? && v.value != ""
  }

  /** The stand-alone guard component: redirect unless both cookies are present and non-empty. */
  function SessionGuard(s: SessionCookies, page: Page): (v: View)
    ensures v == Render(page) <==>
              s.isLoggedIn.Some? && s.isLoggedIn.value != "" && s.currentUsername.Some? && s.currentUsername.value != ""
    ensures v != Render(page) ==> v == Redirect("/")
  {
    if !Truthy(s.isLoggedIn) || !Truthy(s.currentUsername) then Redirect("/")
    else Render(page)
  }

  /** Whenever the stand-alone guard redirects, so does the shell's, unless the flag is "true" and the user is missing. */
  lemma GuardsCompared(s: SessionCookies, page: Page)
    ensures AppGuard(s, page) == Render(page) && SessionGuard(s, page) != Render(page) <==>
              s.isLoggedIn == Some("true") && !Truthy(s.currentUsername)
    ensures SessionGuard(s, page) == Render(page) && AppGuard(s, page) != Render(page) <==>
              Truthy(s.isLoggedIn) && s.isLoggedIn.value != "true" && Truthy(s.currentUsername)
  {
  }

  /** The route table, matched exactly; `*` sends everything else to the login path. */
  function Route(path: string, s: SessionCookies): (v: View)
    ensures path == "/" ==> v == Render(LoginPage)
    ensures path == "/register" ==> v == Render(RegisterPage)
    ensures !IsAuthenticated(s) && path != "/register" ==> v == Render(LoginPage) || v == Redirect("/")
    ensures v.Redirect? ==> v.to == "/"
    ensures v.Render? && v.page != LoginPage && v.page != RegisterPage ==> IsAuthenticated(s)
  {
    if path == "/" then Render(LoginPage)
    else if path == "/register" then Render(RegisterPage)
    else if path == "/index" then AppGuard(s, HomePage)
    else if path == "/checker" then AppGuard(s, CheckerPage)
    else if path == "/admin" then AppGuard(s, AdminPage)
    else if path == "/compras" then AppGuard(s, PurchasesPage)
    else Redirect("/")
  }

  /** The page a navigation ends on, after the at most one redirect the table can produce. */
  function Land(path: string, s: SessionCookies): (p: Page)
    ensures !IsAuthenticated(s) && path != "/register" ==> p == LoginPage
  {
    match Route(path, s)
    case Render(page) => page
    case Redirect(to) => Route(to, s).page
  }

  /** Every guarded path shows its page exactly when the session is authenticated. */
  lemma GuardedPaths(s: SessionCookies)
    ensures Route("/index", s) == Render(HomePage) <==> IsAuthenticated(s)
    ensures Route("/checker", s) == Render(CheckerPage) <==> IsAuthenticated(s)
    ensures Route("/admin", s) == Render(AdminPage) <==> IsAuthenticated(s)
    ensures Route("/compras", s) == Render(PurchasesPage) <==> IsAuthenticated(s)
  {
  }

  /** A path outside the table lands on the login page, signed in or not. */
  lemma UnknownPathLandsOnLogin(path: string, s: SessionCookies)
    requires path != "/" && path != "/register" && path != "/index"
    requires path != "/checker" && path != "/admin" && path != "/compras"
    ensures Route(path, s) == Redirect("/")
    ensures Land(path, s) == LoginPage
  {
  }

  /** The names the guards read, as the two lemmas below need them. */
  lemma SessionNames()
    ensures NoChar("isLoggedIn", '=') && NoChar("currentUsername", '=')
  {
  }

  /**
   * The login page sets `isLoggedIn` and `currentUsername` (src/pages/Login.jsx:86-87),
   * then `userRole` and the saved form fields. Cookies from an earlier visit may already
   * sit in the jar before them, in any order. Wherever the two session cookies sit, both
   * readers find their decoded values.
   */
  lemma ReadLoginCookie(jar: seq<Cookie>, flag: string, user: string, decode: Decoder)
    requires Jar(jar)
    requires Cookie("isLoggedIn", flag) in jar && Cookie("currentUsername", user) in jar
    ensures ReadSession(CookieHeader(jar), decode) == SessionCookies(Some(decode(flag)), Some(decode(user)))
  {
    var i :| 0 <= i < |jar| && jar[i] == Cookie("isLoggedIn", flag);
    var j :| 0 <= j < |jar| && jar[j] == Cookie("currentUsername", user);
    ReadJar(jar, i, decode);
    ReadJar(jar, j, decode);
  }

  /**
   * A second login after the home page's logout, which deletes only the session cookies
   * (src/pages/Home.jsx:107-109): `userRole` and a saved form field from the first visit
   * come first, and the session is still read.
   */
  lemma SecondLoginExample(decode: Decoder, page: Page)
    requires decode("true") == "true"
    ensures ReadSession(CookieHeader(SecondLoginJar), decode) == SessionCookies(Some("true"), Some(decode("ana")))
    ensures AppGuard(ReadSession(CookieHeader(SecondLoginJar), decode), page) == Render(page)
  {
    SecondLoginJarIsJar();
    assert SecondLoginJar[2] == Cookie("isLoggedIn", "true");
    assert SecondLoginJar[3] == Cookie("currentUsername", "ana");
    ReadLoginCookie(SecondLoginJar, "true", "ana", decode);
  }

  const SecondLoginJar: seq<Cookie> :=
    [Cookie("userRole", "user"), Cookie("savedUsername", "ana"), Cookie("isLoggedIn", "true"), Cookie("currentUsername", "ana")]

  lemma SecondLoginJarIsJar()
    ensures Jar(SecondLoginJar)
  {
    SecondLoginCookies();
    var jar := SecondLoginJar;
    assert |jar[0].name| == 8 && |jar[1].name| == 13 && |jar[2].name| == 10 && |jar[3].name| == 15;
  }

  lemma SecondLoginCookies()
    ensures WellFormedCookie(Cookie("userRole", "user")) && WellFormedCookie(Cookie("savedUsername", "ana"))
    ensures WellFormedCookie(Cookie("isLoggedIn", "true")) && WellFormedCookie(Cookie("currentUsername", "ana"))
  {
    LetterCookie("userRole", "user");
    LetterCookie("savedUsername", "ana");
    LetterCookie("isLoggedIn", "true");
    LetterCookie("currentUsername", "ana");
  }

  /** A cookie whose name and value are ASCII letters is one the application can write. */
  lemma LetterCookie(name: string, value: string)
    requires name != [] && Letters(name) && Letters(value)
    ensures WellFormedCookie(Cookie(name, value))
  {
  }

  predicate Letters(s: string) {
    forall k :: 0 <= k < |s| ==> IsAsciiLetter(s[k])
  }

  /**
   * With a flag such as "false" (any value decoding to neither "true" nor "") and a
   * non-empty user in the jar, the stand-alone guard renders and the shell's redirects.
   */
  lemma LoggedOutFlagPassesLooseGuard(jar: seq<Cookie>, flag: string, user: string, decode: Decoder, page: Page)
    requires Jar(jar)
    requires Cookie("isLoggedIn", flag) in jar && Cookie("currentUsername", user) in jar
    requires decode(flag) != "true" && decode(flag) != "" && decode(user) != ""
    ensures AppGuard(ReadSession(CookieHeader(jar), decode), page) == Redirect("/")
    ensures SessionGuard(ReadSession(CookieHeader(jar), decode), page) == Render(page)
  {
    ReadLoginCookie(jar, flag, user, decode);
  }

  /** With a "true" flag and no username cookie in the jar, the shell's guard renders and the stand-alone one redirects. */
  lemma MissingUserFailsLooseGuard(jar: seq<Cookie>, flag: string, decode: Decoder, page: Page)
    requires Jar(jar) && Cookie("isLoggedIn", flag) in jar && decode(flag) == "true"
    requires forall i :: 0 <= i < |jar| ==> jar[i].name != "currentUsername"
    ensures AppGuard(ReadSession(CookieHeader(jar), decode), page) == Render(page)
    ensures SessionGuard(ReadSession(CookieHeader(jar), decode), page) == Redirect("/")
  {
    var i :| 0 <= i < |jar| && jar[i] == Cookie("isLoggedIn", flag);
    ReadJar(jar, i, decode);
    SessionNames();
    ReadJarAbsent(jar, "currentUsername", decode);
  }

  /** The back button of the card panel, as written: it navigates to "/home". */
  const PanelBackAsWritten: string := "/home"

  /** The back target every other page uses for the home page. */
  const PanelBack: string := "/index"

  /** As written, the panel's back button leaves a signed-in user on the login page. */
  lemma PanelBackAsWrittenLandsOnLogin(s: SessionCookies)
    ensures Route(PanelBackAsWritten, s) == Redirect("/")
    ensures Land(PanelBackAsWritten, s) == LoginPage
  {
    UnknownPathLandsOnLogin(PanelBackAsWritten, s);
  }

  /** With the intended target, a signed-in user lands on the home page. */
  lemma PanelBackLandsHome(s: SessionCookies)
    requires IsAuthenticated(s)
    ensures Land(PanelBack, s) == HomePage
  {
  }
}
