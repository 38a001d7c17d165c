/** The request guard that runs before every page: protected pages need a
    session, and a signed-in user is sent from the entry pages to the dashboard. */
module Middleware {

  import opened Common

  const ProtectedRoutes: seq<string> := ["/profile", "/bebes", "/medicos", "/consultas", "/desenvolvimento", "/dashboard"]

  const Home := "/"
  const Login := "/auth/login"
  const Dashboard := "/dashboard"

  /** `routes.some(route => path.startsWith(route))`. */
  function AnyPrefix(path: string, routes: seq<string>): (b: bool)
    ensures b <==> exists i :: 0 <= i < |routes| && StartsWith(path, routes[i])
  {
    if routes == [] then false
    else if StartsWith(path, routes[0]) then true
    else
      var b := AnyPrefix(path, routes[1..]);
      assert b ==> exists i :: 1 <= i < |routes| && StartsWith(path, routes[i]);
      b
  }

  predicate IsProtected(path: string)
  {
    AnyPrefix(path, ProtectedRoutes)
  }

  datatype Decision = RedirectTo(target: string) | Next

  /** The middleware's answer for a request path, given whether a session exists. */
  function Decide(path: string, hasSession: bool): (d: Decision)
    ensures d == RedirectTo(Home) <==> IsProtected(path) && !hasSession
    ensures d == RedirectTo(Dashboard) <==> (path == Login || path == Home) && hasSession
    ensures d == Next <==> !(IsProtected(path) && !hasSession) && !((path == Login || path == Home) && hasSession)
  {
    EntryPagesUnprotected();
    if IsProtected(path) && !hasSession then RedirectTo(Home)
    else if (path == Login || path == Home) && hasSession then RedirectTo(Dashboard)
    else Next
  }

  /** Neither entry page starts with a protected prefix, so the two redirects never compete. */
  lemma EntryPagesUnprotected()
    ensures !IsProtected(Home) && !IsProtected(Login)
  {
    forall i | 0 <= i < |ProtectedRoutes| ensures !StartsWith(Home, ProtectedRoutes[i]) && !StartsWith(Login, ProtectedRoutes[i]) {
      assert ProtectedRoutes[i][1] != Login[1];
    }
  }

  /** The vaccines page is not among the protected prefixes; sub-pages of a
      protected prefix, and any longer path sharing its text, are protected. */
  lemma ProtectedExamples()
    ensures !IsProtected("/vacinas")
    ensures IsProtected("/bebes/novo")
    ensures IsProtected("/dashboards")
  {
    assert StartsWith("/bebes/novo", ProtectedRoutes[1]);
    assert StartsWith("/dashboards", ProtectedRoutes[5]);
    forall i | 0 <= i < |ProtectedRoutes| ensures !StartsWith("/vacinas", ProtectedRoutes[i]) {
      assert ProtectedRoutes[i][1] != "/vacinas"[1];
    }
  }

  /** Without a session nothing is sent to the dashboard; with one, nothing is sent home. */
  lemma RedirectsFollowSession(path: string)
    ensures Decide(path, false) != RedirectTo(Dashboard)
    ensures Decide(path, true) != RedirectTo(Home)
  {
  }
}
