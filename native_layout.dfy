/**
 * The native app's root layout (apps/native/app/_layout.tsx): the
 * session-gated redirect between the `(public)` and `(protected)` route
 * groups, the loading screen, and the one-time setup on mount.
 */
module NativeLayout {
  import opened Wrappers

  /** The signed-in session as the auth client reports it; only its presence is used here. */
  datatype Session = Session(userId: string)

  /** What one run of the redirect effect does to the router. */
  datatype Action = NoAction | Replace(path: string)

  const ProtectedGroup: string := "(protected)"
  const PublicGroup: string := "(public)"
  const PublicRoot: string := "/(public)"
  const ProtectedRoot: string := "/(protected)"

  /** `segments[0] === "(protected)"`; on no segments the index is `undefined`, which is not equal. */
  predicate InProtectedGroup(segments: seq<string>) {
    |segments| > 0 && segments[0] == ProtectedGroup
  }

  /** The redirect effect: nothing while the session is loading, otherwise at most one `replace`. */
  function Decide(isSessionLoading: bool, session: Option<Session>, segments: seq<string>): (a: Action)
    ensures a.Replace? ==> !isSessionLoading
    ensures a.Replace? ==> a.path == PublicRoot || a.path == ProtectedRoot
  {
    if isSessionLoading then NoAction
    else
      var inProtectedGroup := InProtectedGroup(segments);
      if session.None? && inProtectedGroup then Replace(PublicRoot)
      else if session.Some? && !inProtectedGroup then Replace(ProtectedRoot)
      else NoAction
  }

  /** While the session is loading no redirect is issued, whatever the route. */
  lemma NoRedirectWhileLoading(session: Option<Session>, segments: seq<string>)
    ensures Decide(true, session, segments) == NoAction
  {
  }

  /** Only `(protected)` as first segment is protected: not the empty route, `modal`, `+not-found` or `(public)`. */
  lemma ProtectedGroupIsFirstSegment(segments: seq<string>)
    ensures InProtectedGroup([ProtectedGroup] + segments)
    ensures !InProtectedGroup([]) && !InProtectedGroup(["modal"]) && !InProtectedGroup(["+not-found"])
    ensures !InProtectedGroup([PublicGroup] + segments)
  {
  }

  /** Signed out inside the protected group: the one action is a replace to the public root. */
  lemma SignedOutInProtectedGoesPublic(segments: seq<string>)
    requires InProtectedGroup(segments)
    ensures Decide(false, None, segments) == Replace(PublicRoot)
  {
  }

  /** Signed in anywhere outside the protected group (`modal` included): a replace to the protected root. */
  lemma SignedInOutsideGoesProtected(session: Session, segments: seq<string>)
    requires !InProtectedGroup(segments)
    ensures Decide(false, Some(session), segments) == Replace(ProtectedRoot)
  {
  }

  /** The decision in full, as an if-and-only-if per action. */
  lemma DecideCases(isSessionLoading: bool, session: Option<Session>, segments: seq<string>)
    ensures Decide(isSessionLoading, session, segments) == Replace(PublicRoot)
        <==> !isSessionLoading && session.None? && InProtectedGroup(segments)
    ensures Decide(isSessionLoading, session, segments) == Replace(ProtectedRoot)
        <==> !isSessionLoading && session.Some? && !InProtectedGroup(segments)
    ensures Decide(isSessionLoading, session, segments) == NoAction
        <==> (isSessionLoading || (session.None? <==> !InProtectedGroup(segments)))
  {
  }

  /** Four routes: loading, signed out on `/(protected)`, signed in on `/(public)/login`, signed in on `/(protected)`. */
  lemma ExampleRoutes(session: Session)
    ensures Decide(true, None, [ProtectedGroup]) == NoAction
    ensures Decide(false, None, [ProtectedGroup]) == Replace(PublicRoot)
    ensures Decide(false, Some(session), [PublicGroup, "login"]) == Replace(ProtectedRoot)
    ensures Decide(false, Some(session), [ProtectedGroup]) == NoAction
  {
    assert PublicGroup[2] != ProtectedGroup[2];
  }

  /**
   * The route group a replace lands in: the target path without its leading
   * `/`. The router is taken to report this group as the first segment after
   * `replace(path)`.
   */
  function LandingGroup(path: string): (g: string)
    ensures |path| > 0 && path[0] == '/' ==> [path[0]] + g == path
  {
    if |path| > 0 && path[0] == '/' then path[1..] else path
  }

  /**
   * No redirect storm: once the router has landed on the group a redirect
   * named, the next evaluation with the same session does nothing.
   */
  lemma NoRedirectStorm(session: Option<Session>, segments: seq<string>, landed: seq<string>)
    requires Decide(false, session, segments).Replace?
    requires |landed| > 0 && landed[0] == LandingGroup(Decide(false, session, segments).path)
    ensures Decide(false, session, landed) == NoAction
  {
    var p := Decide(false, session, segments).path;
    assert LandingGroup(PublicRoot) == PublicGroup;
    assert LandingGroup(ProtectedRoot) == ProtectedGroup;
    assert PublicGroup != ProtectedGroup by { assert PublicGroup[2] != ProtectedGroup[2]; }
  }

  /** The router's observable state: the current segments and every `replace` issued so far. */
  class Router {
    var segments: seq<string>
    var replaced: seq<string>

    constructor (segments: seq<string>)
      ensures this.segments == segments && replaced == []
    {
      this.segments := segments;
      replaced := [];
    }

    /** `router.replace(path)`: navigates to the group named by `path`, at its index screen. */
    method Replace(path: string)
      modifies this
      ensures replaced == old(replaced) + [path]
      ensures segments == [LandingGroup(path)]
    {
      replaced := replaced + [path];
      segments := [LandingGroup(path)];
    }

    /** One run of the redirect effect against the current segments. */
    method RunGate(isSessionLoading: bool, session: Option<Session>)
      modifies this
      ensures old(Decide(isSessionLoading, session, segments)) == NoAction
        ==> replaced == old(replaced) && segments == old(segments)
      ensures old(Decide(isSessionLoading, session, segments)).Replace?
        ==> (replaced == old(replaced) + [old(Decide(isSessionLoading, session, segments)).path]
             && segments == [LandingGroup(old(Decide(isSessionLoading, session, segments)).path)])
      ensures |replaced| <= |old(replaced)| + 1
    {
      var action := Decide(isSessionLoading, session, segments);
      if action.Replace? {
        Replace(action.path);
      }
    }

    /**
     * The effect re-runs when `segments` changes; with the session resolved,
     * the first run redirects at most once and the re-run adds nothing.
     */
    method RunGateUntilStable(session: Option<Session>)
      modifies this
      ensures var d := old(Decide(false, session, segments));
        && replaced == old(replaced) + (if d.Replace? then [d.path] else [])
        && (d.Replace? ==> segments == [LandingGroup(d.path)])
        && (d == NoAction ==> segments == old(segments))
      ensures Decide(false, session, segments) == NoAction
    {
      var before := segments;
      RunGate(false, session);
      if segments != before {
        ghost var landed := segments;
        NoRedirectStorm(session, before, landed);
        ghost var n := |replaced|;
        RunGate(false, session);
        assert |replaced| == n;
      }
    }
  }

  datatype ColorScheme = Light | Dark

  /**
   * The layout's mutable state: the `hasMounted` ref, the
   * `isColorSchemeLoaded` state, and the colour schemes passed to
   * `setAndroidNavigationBar` so far.
   */
  class RootLayout {
    var hasMounted: bool
    var isColorSchemeLoaded: bool
    var navigationBarUpdates: seq<ColorScheme>

    /** The setup has run exactly when the latch is set, and then exactly once. */
    ghost predicate Valid()
      reads this
    {
      isColorSchemeLoaded == hasMounted
      && |navigationBarUpdates| == (if hasMounted then 1 else 0)
    }

    constructor ()
      ensures Valid() && !hasMounted && !isColorSchemeLoaded && navigationBarUpdates == []
    {
      hasMounted := false;
      isColorSchemeLoaded := false;
      navigationBarUpdates := [];
    }

    /** The mount effect: the first run sets up the navigation bar and the latch; later runs return at once. */
    method MountEffect(colorScheme: ColorScheme)
      requires Valid()
      modifies this
      ensures Valid()
      ensures old(hasMounted) ==> unchanged(this)
      ensures !old(hasMounted) ==> hasMounted && isColorSchemeLoaded && navigationBarUpdates == [colorScheme]
    {
      if hasMounted {
        return;
      }
      navigationBarUpdates := navigationBarUpdates + [colorScheme];
      isColorSchemeLoaded := true;
      hasMounted := true;
    }

    /** The loading view is rendered until the setup has run and while the session is loading. */
    function ShowsLoading(isSessionLoading: bool): (r: bool)
      requires Valid()
      reads this
      ensures !r <==> hasMounted && |navigationBarUpdates| == 1 && !isSessionLoading
    {
      !isColorSchemeLoaded || isSessionLoading
    }
  }
}
