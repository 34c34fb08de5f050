/**
 * The route guard run in front of the signed-in pages: a path under a
 * protected prefix needs a session token, and a request without one is
 * sent to the login page with its destination attached.
 */
module Middleware {
  import opened Wrappers
  import opened Text

  const ProtectedPaths: seq<string> := ["/dashboard", "/account", "/billing"]

  /** A path is under `prefix` when it is the prefix itself or continues it with "/". */
  predicate Under(pathname: string, prefix: string) {
    pathname == prefix || StartsWith(pathname, prefix + "/")
  }

  /** `paths.some(p => pathname === p || pathname.startsWith(p + "/"))`. */
  function AnyProtects(paths: seq<string>, pathname: string): bool {
    if paths == [] then false
    else Under(pathname, paths[0]) || AnyProtects(paths[1..], pathname)
  }

  predicate IsProtected(pathname: string) {
    AnyProtects(ProtectedPaths, pathname)
  }

  /** The scan finds a match exactly when some listed prefix covers the path. */
  lemma {:induction false} AnyProtectsIff(paths: seq<string>, pathname: string)
    ensures AnyProtects(paths, pathname) <==> exists i :: 0 <= i < |paths| && Under(pathname, paths[i])
  {
    if paths != [] {
      AnyProtectsIff(paths[1..], pathname);
      if exists i :: 0 <= i < |paths| && Under(pathname, paths[i]) {
        var i :| 0 <= i < |paths| && Under(pathname, paths[i]);
        if i > 0 {
          assert paths[1..][i - 1] == paths[i];
        }
      }
    }
  }

  /** Protected paths are exactly /dashboard, /account and /billing and
      the paths below them. */
  lemma ProtectedIff(pathname: string)
    ensures IsProtected(pathname) <==>
            Under(pathname, "/dashboard") || Under(pathname, "/account") || Under(pathname, "/billing")
  {
    AnyProtectsIff(ProtectedPaths, pathname);
    assert ProtectedPaths[0] == "/dashboard" && ProtectedPaths[1] == "/account" && ProtectedPaths[2] == "/billing";
  }

  /** Matching is by whole path segment: "/dashboardx" and "/public" are
      open, "/dashboard/reports" is protected. */
  lemma SegmentMatching()
    ensures !IsProtected("/dashboardx")
    ensures !IsProtected("/public")
    ensures IsProtected("/dashboard/reports")
  {
    ProtectedIff("/dashboardx");
    ProtectedIff("/public");
    ProtectedIff("/dashboard/reports");
    assert ("/dashboard" + "/")[10] == '/' && "/dashboardx"[10] == 'x';
    assert ("/account" + "/")[1] == 'a' && ("/billing" + "/")[1] == 'b' && "/dashboardx"[1] == 'd';
    assert "/public"[1] == 'p';
    assert "/dashboard/reports"[..11] == "/dashboard/";
  }

  /** A session token as returned by `getToken`; its claims play no part here. */
  datatype Token = Token(subject: string)

  /** Let the request through, or redirect to /login with `next` set. */
  datatype Decision = Next | RedirectToLogin(nextParam: string)

  /** The verdict, and whether the session token was looked up at all. */
  datatype GuardResult = GuardResult(decision: Decision, tokenLookedUp: bool)

  /** `middleware`: `token` is what `getToken` would return for the request. */
  function Guard(pathname: string, token: Option<Token>): (r: GuardResult)
    ensures r.tokenLookedUp <==> IsProtected(pathname)
    ensures r.decision.RedirectToLogin? <==> IsProtected(pathname) && token.None?
    ensures r.decision.RedirectToLogin? ==> r.decision.nextParam == pathname
  {
    if !IsProtected(pathname) then GuardResult(Next, false)
    else if token.None? then GuardResult(RedirectToLogin(pathname), true)
    else GuardResult(Next, true)
  }

  /** An open path passes whatever the token, without consulting it. */
  lemma OpenPathIgnoresToken(pathname: string, t1: Option<Token>, t2: Option<Token>)
    requires !IsProtected(pathname)
    ensures Guard(pathname, t1) == Guard(pathname, t2) == GuardResult(Next, false)
  {
  }
}
