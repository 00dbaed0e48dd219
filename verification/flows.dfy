/** End-to-end sign-in and sign-out, joining the form
    (src/views/auth/signIn/index.tsx), the server (backend/main.go) and the
    route guards (src/App.tsx). The JSON exchange is taken as faithful: the
    server decodes exactly the strings the form sent, and the form reads
    the `token` field of the server's JSON object. */
module Flows {
  import opened Common
  import Session
  import LoginServer
  import Routing

  /** The body the server decodes from the form's `JSON.stringify`. */
  function RequestBody(c: Session.Credentials): (b: LoginServer.LoginBody)
    ensures b == LoginServer.Decoded(c.username, c.password)
  {
    LoginServer.Decoded(c.username, c.password)
  }

  /** How the form sees a server answer: a 2xx status is `response.ok`,
      and the token is the `token` field of a JSON body, if there is one. */
  function ClientView(r: LoginServer.Response): (v: Session.LoginResponse)
    ensures (v.Ok? || v.OkUnreadable?) <==> 200 <= r.status < 300
    ensures v.Ok? ==> r.body.Json? && (v.token.Some? <==> "token" in r.body.fields)
    ensures v.Ok? && v.token.Some? ==> v.token.value == r.body.fields["token"]
    ensures 200 <= r.status < 300 && r.body.Text? ==> v == Session.OkUnreadable
  {
    if !(200 <= r.status < 300) then Session.NotOk
    else match r.body
      case Text(_) => Session.OkUnreadable
      case Json(fields) =>
        Session.Ok(if "token" in fields then Some(fields["token"]) else None)
  }

  /** Signing in as admin/password against a server whose signer produces
      a non-empty token stores that token and opens the admin area. The
      answer is taken as delivered to the form, that is, the app is served
      from the origin the server's CORS header allows; a browser that
      blocks the answer ends the fetch in `Session.Thrown` instead. */
  lemma {:induction false} SignInOpensAdmin(f: Session.SignInForm, storage: Session.Storage,
                                            nowNanos: nat,
                                            sign: LoginServer.Claims -> Option<string>)
    requires !f.loading && f.username == "admin" && f.password == "password"
    requires var t := sign(LoginServer.Claims("admin", LoginServer.Expiry(nowNanos)));
             t.Some? && t.value != ""
    ensures var start := Session.StartSignIn(f);
            start.request.Some? &&
            var answer := LoginServer.Serve("/login", "POST", RequestBody(start.request.value),
                                            nowNanos, sign);
            var done := Session.FinishSignIn(start.form, storage, ClientView(answer));
            && done.navigate == Some(Session.DashboardPath)
            && Routing.Authenticated(done.storage)
            && Routing.Route(["admin", "default"], done.storage) == Routing.Render(Routing.AdminLayout)
  {
    var start := Session.StartSignIn(f);
    var answer := LoginServer.Serve("/login", "POST", RequestBody(start.request.value),
                                    nowNanos, sign);
    var token := sign(LoginServer.Claims("admin", LoginServer.Expiry(nowNanos))).value;
    assert answer.status == 200;
    assert answer.body == LoginServer.Json(map["token" := token]);
    assert ClientView(answer) == Session.Ok(Some(token));
    assert Routing.Lower("admin") == "admin";
  }

  /** Wrong credentials are refused with 401, the form shows the failure,
      and a signed-out user stays signed out. */
  lemma {:induction false} WrongCredentialsKeepSignedOut(f: Session.SignInForm,
                                                         storage: Session.Storage, nowNanos: nat,
                                                         sign: LoginServer.Claims -> Option<string>)
    requires !f.loading && f.username != "" && f.password != ""
    requires f.username != "admin" || f.password != "password"
    requires !Routing.Authenticated(storage)
    ensures var start := Session.StartSignIn(f);
            start.request.Some? &&
            var answer := LoginServer.Serve("/login", "POST", RequestBody(start.request.value),
                                            nowNanos, sign);
            var done := Session.FinishSignIn(start.form, storage, ClientView(answer));
            && answer.status == 401
            && done.toast == Session.LoginFailed
            && !Routing.Authenticated(done.storage)
  {
  }

  /** After logging out, every protected location leads to the sign-in
      page. */
  lemma LogoutLocksAdmin(storage: Session.Storage, rest: seq<string>)
    ensures var out := Session.Logout(storage);
            && !Routing.Authenticated(out.storage)
            && Routing.Resolve(["admin"] + rest, out.storage, 1) == Routing.Shown(Routing.AuthLayout)
  {
    var out := Session.Logout(storage);
    assert (["admin"] + rest)[0] == "admin";
    assert Routing.Lower("admin") == "admin";
    assert Routing.Lower("auth") == "auth";
    assert Routing.LayoutOf(Routing.SignInLocation[0]) == Some(Routing.AuthLayout);
  }
}
