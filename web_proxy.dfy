/**
 * The web app's request proxy (apps/web/src/proxy.ts): it classifies the
 * request path by prefix and redirects on the presence of the session cookie.
 */
module WebProxy {
  import opened Wrappers

  /** The session cookie set by the authentication library under its default name. */
  const SessionCookieName: string := "better-auth.session_token"

  const LoginPath: string := "/login"
  const DashboardPath: string := "/dashboard"
  const TodosPath: string := "/todos"

  /** The part of an incoming request the proxy looks at: its path and its cookies by name. */
  datatype Request = Request(pathname: string, cookies: map<string, string>)

  /**
   * `NextResponse.next()` or `NextResponse.redirect(new URL(location, request.url))`;
   * `location` is the path the redirect resolves against the request's origin.
   */
  datatype Response = Next | Redirect(location: string)

  /** `request.cookies.get(name)`: the cookie's value, or None when the request does not carry it. */
  function GetCookie(request: Request, name: string): (c: Option<string>)
    ensures c.Some? <==> name in request.cookies
    ensures c.Some? ==> c.value == request.cookies[name]
  {
    if name in request.cookies then Some(request.cookies[name]) else None
  }

  /** `startsWith("/dashboard") || startsWith("/todos")`: a plain prefix test, so `/dashboardX` counts. */
  predicate IsProtectedRoute(pathname: string) {
    DashboardPath <= pathname || TodosPath <= pathname
  }

  predicate IsAuthRoute(pathname: string) {
    LoginPath <= pathname
  }

  /**
   * `proxy(request)`. The cookie is tested for truthiness only, and a cookie
   * object is truthy whatever its value, so only its presence matters.
   */
  function Proxy(request: Request): (r: Response)
    ensures r.Redirect? ==> r.location == LoginPath || r.location == DashboardPath
  {
    var sessionCookie := GetCookie(request, SessionCookieName);
    var isProtectedRoute := IsProtectedRoute(request.pathname);
    var isAuthRoute := IsAuthRoute(request.pathname);
    if isProtectedRoute && sessionCookie.None? then Redirect(LoginPath)
    else if isAuthRoute && sessionCookie.Some? then Redirect(DashboardPath)
    else Next
  }

  predicate HasSessionCookie(request: Request) {
    SessionCookieName in request.cookies
  }

  /**
   * Route classification is prefix matching: anything that starts with
   * `/dashboard` or `/todos` is protected (`/dashboardX` and `/todos/1`
   * included), anything that starts with `/login` is an auth route, and
   * extending a classified path keeps its class; a path that only contains
   * one of them further on, such as `/api/todos`, is neither.
   */
  lemma RouteClassification(pathname: string, suffix: string)
    ensures IsProtectedRoute(DashboardPath + suffix) && IsProtectedRoute(TodosPath + suffix)
    ensures IsAuthRoute(LoginPath + suffix)
    ensures IsProtectedRoute(pathname) ==> IsProtectedRoute(pathname + suffix)
    ensures IsAuthRoute(pathname) ==> IsAuthRoute(pathname + suffix)
    ensures !IsProtectedRoute("/api" + TodosPath) && !IsAuthRoute("/api" + LoginPath)
  {
    assert ("/api" + TodosPath)[1] == 'a';
    assert ("/api" + LoginPath)[1] == 'a';
    if IsProtectedRoute(pathname) {
      if DashboardPath <= pathname {
        assert (pathname + suffix)[..|DashboardPath|] == pathname[..|DashboardPath|];
      } else {
        assert (pathname + suffix)[..|TodosPath|] == pathname[..|TodosPath|];
      }
    }
    if IsAuthRoute(pathname) {
      assert (pathname + suffix)[..|LoginPath|] == pathname[..|LoginPath|];
    }
  }

  /**
   * An empty session cookie counts like any other value, since the looked-up
   * cookie object is truthy whatever its value; on a protected path a request
   * without the cookie is answered differently.
   */
  lemma SessionCookiePresence(pathname: string, cookies: map<string, string>, value: string)
    ensures Proxy(Request(pathname, cookies[SessionCookieName := ""]))
         == Proxy(Request(pathname, cookies[SessionCookieName := value]))
    ensures IsProtectedRoute(pathname)
        ==> (Proxy(Request(pathname, cookies[SessionCookieName := ""]))
             != Proxy(Request(pathname, cookies - {SessionCookieName})))
  {
    ProtectedAndAuthDisjoint(pathname);
  }

  /** No path is both protected and an auth route: the prefixes differ at their second character. */
  lemma ProtectedAndAuthDisjoint(pathname: string)
    ensures !(IsProtectedRoute(pathname) && IsAuthRoute(pathname))
  {
    if IsAuthRoute(pathname) {
      assert pathname[1] == 'l';
      assert DashboardPath[1] == 'd' && TodosPath[1] == 't';
    }
  }

  /** What the proxy answers, case by case: both redirects and the pass-through, each as an if-and-only-if. */
  lemma ProxyDecision(request: Request)
    ensures Proxy(request) == Redirect(LoginPath)
        <==> IsProtectedRoute(request.pathname) && !HasSessionCookie(request)
    ensures Proxy(request) == Redirect(DashboardPath)
        <==> IsAuthRoute(request.pathname) && HasSessionCookie(request)
    ensures Proxy(request) == Next
        <==> ((!IsProtectedRoute(request.pathname) || HasSessionCookie(request))
              && (!IsAuthRoute(request.pathname) || !HasSessionCookie(request)))
  {
    ProtectedAndAuthDisjoint(request.pathname);
  }

  /** Two requests to the same path that agree on whether the session cookie is present get the same answer. */
  lemma OnlyCookiePresenceMatters(r1: Request, r2: Request)
    requires r1.pathname == r2.pathname
    requires HasSessionCookie(r1) <==> HasSessionCookie(r2)
    ensures Proxy(r1) == Proxy(r2)
  {
  }

  /**
   * No redirect loop: following a redirect with the same cookies reaches a
   * request the proxy lets through.
   */
  lemma RedirectTargetPassesThrough(request: Request)
    requires Proxy(request).Redirect?
    ensures Proxy(Request(Proxy(request).location, request.cookies)) == Next
  {
    ProtectedAndAuthDisjoint(LoginPath);
    ProtectedAndAuthDisjoint(DashboardPath);
  }
}
