/** The top-level routes (src/App.tsx) and the two guards around the
    layouts (src/components/ProtectedRoute/protectedRoute.tsx and
    src/components/ProtectedRoute/AuthRedirect.tsx). A location is its
    list of path segments; the guards read the stored token. */
module Routing {
  import opened Common
  import Session

  /** The three layouts the router can mount. */
  datatype Layout = AuthLayout | AdminLayout | RtlLayout

  /** What the route table renders for one location: a layout, a
      `<Navigate replace>` to another location, or the 404 text. */
  datatype Outcome = Render(layout: Layout) | Redirect(target: seq<string>) | NotFound

  const SignInLocation := ["auth", "sign-in"]
  const AdminLocation := ["admin"]

  /** `localStorage.getItem('token')` is truthy: present and not empty. */
  predicate Authenticated(storage: Session.Storage) {
    Session.TokenKey in storage && storage[Session.TokenKey] != ""
  }

  /** `ProtectedRoute`: its children when authenticated, otherwise a
      redirect to the sign-in page. */
  function ProtectedRoute(storage: Session.Storage, children: Layout): (o: Outcome)
    ensures o == Render(children) <==> Authenticated(storage)
    ensures o == Redirect(SignInLocation) <==> !Authenticated(storage)
  {
    if !Authenticated(storage) then Redirect(SignInLocation) else Render(children)
  }

  /** `AuthRedirect`: the mirror image, sending signed-in users to the
      admin area. */
  function AuthRedirect(storage: Session.Storage, children: Layout): (o: Outcome)
    ensures o == Render(children) <==> !Authenticated(storage)
    ensures o == Redirect(AdminLocation) <==> Authenticated(storage)
  {
    if Authenticated(storage) then Redirect(AdminLocation) else Render(children)
  }

  /** For any storage exactly one of the two guards lets its children
      through. */
  lemma GuardsComplementary(storage: Session.Storage, a: Layout, b: Layout)
    ensures ProtectedRoute(storage, a).Render? != AuthRedirect(storage, b).Render?
  {
  }

  /** ASCII lower case; route matching ignores case. */
  function LowerChar(c: char): (d: char)
    ensures 'A' <= c <= 'Z' ==> d as int == c as int + 32
    ensures !('A' <= c <= 'Z') ==> d == c
  {
    if 'A' <= c <= 'Z' then (c as int + 32) as char else c
  }

  function Lower(s: string): (r: string)
    ensures |r| == |s| && forall i :: 0 <= i < |s| ==> r[i] == LowerChar(s[i])
  {
    seq(|s|, i requires 0 <= i < |s| => LowerChar(s[i]))
  }

  /** The layout route whose prefix (`auth`, `admin` or `rtl`, followed by
      any rest) the first segment matches, if any. */
  function LayoutOf(segment: string): (l: Option<Layout>)
    ensures l == Some(AuthLayout) <==> Lower(segment) == "auth"
    ensures l == Some(AdminLayout) <==> Lower(segment) == "admin"
    ensures l == Some(RtlLayout) <==> Lower(segment) == "rtl"
  {
    var s := Lower(segment);
    if s == "auth" then Some(AuthLayout)
    else if s == "admin" then Some(AdminLayout)
    else if s == "rtl" then Some(RtlLayout)
    else None
  }

  /** The route table: the `auth` prefix behind `AuthRedirect`, the `admin` and
      `rtl` prefixes behind `ProtectedRoute`, the root redirecting to the admin
      area, and everything else the 404 page. */
  function Route(segments: seq<string>, storage: Session.Storage): (o: Outcome)
    ensures segments == [] ==> o == Redirect(AdminLocation)
    ensures o.NotFound? <==> segments != [] && LayoutOf(segments[0]).None?
    ensures o.Render? ==> segments != [] && LayoutOf(segments[0]) == Some(o.layout)
    ensures o.Render? ==> (o.layout == AuthLayout <==> !Authenticated(storage))
    ensures segments != [] && LayoutOf(segments[0]).Some? ==>
              (o.Render? <==> (LayoutOf(segments[0]).value == AuthLayout) != Authenticated(storage))
    ensures o.Redirect? && segments != [] ==>
              o.target == (if LayoutOf(segments[0]) == Some(AuthLayout) then AdminLocation
                           else SignInLocation)
  {
    if segments == [] then Redirect(AdminLocation)
    else match LayoutOf(segments[0])
      case None => NotFound
      case Some(AuthLayout) => AuthRedirect(storage, AuthLayout)
      case Some(l) => ProtectedRoute(storage, l)
  }

  /** The screen the user finally sees, following redirects for at most
      `hops` steps. */
  datatype Screen = Shown(layout: Layout) | PageNotFound | StillRedirecting(location: seq<string>)

  /** Whatever the number of hops, a layout shown agrees with the sign-in
      state (the sign-in layout exactly when signed out), and a redirect
      still pending points at the admin area or at the sign-in page. The
      404 page comes only from the location asked for, since no redirect
      leads to an unknown prefix. */
  function Resolve(segments: seq<string>, storage: Session.Storage, hops: nat): (s: Screen)
    ensures s.Shown? ==> (s.layout == AuthLayout <==> !Authenticated(storage))
    ensures s.StillRedirecting? ==> s.location == AdminLocation || s.location == SignInLocation
    ensures s.PageNotFound? <==> segments != [] && LayoutOf(segments[0]).None?
    decreases hops
  {
    match Route(segments, storage)
    case Render(l) => Shown(l)
    case NotFound => PageNotFound
    case Redirect(target) =>
      if hops == 0 then StillRedirecting(target) else Resolve(target, storage, hops - 1)
  }

  /** Two redirects are always enough: every location settles on a layout
      or the 404 page, signed-in users see only the admin or RTL layouts,
      and signed-out users only the sign-in layout. */
  lemma {:induction false} ResolveSettles(segments: seq<string>, storage: Session.Storage)
    ensures var s := Resolve(segments, storage, 2);
            && !s.StillRedirecting?
            && (s.Shown? ==> (s.layout == AuthLayout <==> !Authenticated(storage)))
  {
    assert Lower("admin") == "admin";
    assert Lower("auth") == "auth";
    assert LayoutOf(AdminLocation[0]) == Some(AdminLayout);
    assert LayoutOf(SignInLocation[0]) == Some(AuthLayout);
  }

  /** One redirect is not always enough: a signed-out visit to the root
      goes to the admin area and from there to the sign-in page. */
  lemma RootNeedsTwoHops(storage: Session.Storage)
    requires !Authenticated(storage)
    ensures Resolve([], storage, 1) == StillRedirecting(SignInLocation)
    ensures Resolve([], storage, 2) == Shown(AuthLayout)
  {
    assert Lower("admin") == "admin";
    assert Lower("auth") == "auth";
    assert LayoutOf(AdminLocation[0]) == Some(AdminLayout);
    assert LayoutOf(SignInLocation[0]) == Some(AuthLayout);
  }

  /** The guards never look inside the token: two storages that agree on
      whether the token is truthy route every location alike, however many
      redirects are followed. An expired or garbage token therefore passes. */
  lemma {:induction false} TokenContentIgnored(segments: seq<string>, s1: Session.Storage,
                                               s2: Session.Storage, hops: nat)
    requires Authenticated(s1) == Authenticated(s2)
    ensures Route(segments, s1) == Route(segments, s2)
    ensures Resolve(segments, s1, hops) == Resolve(segments, s2, hops)
    decreases hops
  {
    var o := Route(segments, s1);
    if o.Redirect? && hops > 0 {
      TokenContentIgnored(o.target, s1, s2, hops - 1);
    }
  }

  /** An empty token is as good as none, and any other string is a
      sign-in. */
  lemma EmptyTokenIsSignedOut(storage: Session.Storage, token: string)
    ensures !Authenticated(storage[Session.TokenKey := ""])
    ensures Authenticated(storage[Session.TokenKey := token]) <==> token != ""
    ensures Authenticated(storage[Session.TokenKey := ""])
            == Authenticated(storage - {Session.TokenKey})
  {
  }

  /** A 2xx login answer without a token stores the string "undefined",
      which is truthy: the guards then treat the user as signed in. */
  lemma MissingTokenCountsAsSignedIn(f: Session.SignInForm, storage: Session.Storage)
    ensures Authenticated(Session.FinishSignIn(f, storage, Session.Ok(None)).storage)
  {
  }
}
