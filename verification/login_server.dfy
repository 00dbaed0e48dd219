/** The login server (backend/main.go): one route, `/login`, wrapped in a
    CORS middleware. The handler checks the hard-wired credentials and
    answers with a signed token that expires fifteen minutes later. The
    clock and the signing step are parameters: the current time as Unix
    nanoseconds, and a signer that either produces a token for the claims
    or fails. */
module LoginServer {
  import opened Common

  type Headers = map<string, string>

  /** A response body: plain text, or a JSON object of string fields. */
  datatype Body = Text(text: string) | Json(fields: map<string, string>)

  datatype Response = Response(status: int, headers: Headers, body: Body)

  /** The request body as the JSON decoder sees it: not decodable, or a
      user object (fields missing from the JSON decode as ""). */
  datatype LoginBody = Malformed | Decoded(username: string, password: string)

  /** The token's claims: the username and the expiry in Unix seconds. */
  datatype Claims = Claims(username: string, expiresAt: int)

  const ValidUsername := "admin"
  const ValidPassword := "password"
  const NanosPerSecond := 1_000_000_000
  const TokenLifetimeSeconds := 15 * 60

  const AllowOrigin := "http://localhost:3002"
  const AllowMethods := "GET, POST, OPTIONS"
  const AllowHeaders := "Content-Type, Authorization"

  /** The three headers the middleware sets on every request it sees. */
  function CorsHeaders(): (h: Headers)
    ensures h.Keys == {"Access-Control-Allow-Origin", "Access-Control-Allow-Methods",
                       "Access-Control-Allow-Headers"}
    ensures h["Access-Control-Allow-Origin"] == AllowOrigin
    ensures h["Access-Control-Allow-Methods"] == AllowMethods
    ensures h["Access-Control-Allow-Headers"] == AllowHeaders
  {
    map["Access-Control-Allow-Origin" := AllowOrigin,
        "Access-Control-Allow-Methods" := AllowMethods,
        "Access-Control-Allow-Headers" := AllowHeaders]
  }

  /** `http.Error`: a plain-text body of the message and a newline, with
      the text content type and `nosniff`, on top of the headers already
      set. */
  function Error(headers: Headers, message: string, status: int): (r: Response)
    ensures r.status == status && r.body == Text(message + "\n")
    ensures r.headers.Keys == headers.Keys + {"Content-Type", "X-Content-Type-Options"}
    ensures r.headers["Content-Type"] == "text/plain; charset=utf-8"
    ensures r.headers["X-Content-Type-Options"] == "nosniff"
    ensures forall k :: k in headers && k !in {"Content-Type", "X-Content-Type-Options"} ==>
              r.headers[k] == headers[k]
  {
    Response(status, headers["Content-Type" := "text/plain; charset=utf-8"]
                            ["X-Content-Type-Options" := "nosniff"], Text(message + "\n"))
  }

  /** The expiry of a token issued at `nowNanos`: fifteen minutes later,
      truncated to whole seconds. */
  function Expiry(nowNanos: nat): (seconds: int)
    ensures seconds * NanosPerSecond <= nowNanos + TokenLifetimeSeconds * NanosPerSecond
    ensures nowNanos + TokenLifetimeSeconds * NanosPerSecond < (seconds + 1) * NanosPerSecond
    ensures seconds == nowNanos / NanosPerSecond + TokenLifetimeSeconds
  {
    (nowNanos + TokenLifetimeSeconds * NanosPerSecond) / NanosPerSecond
  }

  /** `GenerateJWT`: signs claims naming `username` that expire 900 whole
      seconds after the current second; fails exactly when signing fails. */
  function GenerateToken(username: string, nowNanos: nat, sign: Claims -> Option<string>)
    : (token: Option<string>)
    ensures token == sign(Claims(username, nowNanos / NanosPerSecond + TokenLifetimeSeconds))
  {
    sign(Claims(username, Expiry(nowNanos)))
  }

  /** `LoginHandler`, given the headers set so far: 400 for a body that does
      not decode, 401 for any credentials but admin/password, 500 when
      signing fails, else 200 with a JSON object holding only the token. */
  function LoginHandler(headers: Headers, body: LoginBody, nowNanos: nat,
                        sign: Claims -> Option<string>): (r: Response)
    ensures body.Malformed? <==> r.status == 400
    ensures r.status == 400 ==> r.body == Text("Invalid request payload\n")
    ensures r.status == 401 <==>
              body.Decoded? && (body.username != ValidUsername || body.password != ValidPassword)
    ensures r.status == 401 ==> r.body == Text("Invalid username or password\n")
    ensures r.status == 500 ==> r.body == Text("Failed to generate token\n")
    ensures r.status == 200 <==>
              body == Decoded(ValidUsername, ValidPassword)
              && sign(Claims(ValidUsername, Expiry(nowNanos))).Some?
    ensures r.status in {200, 400, 401, 500}
    ensures r.status == 200 ==>
              && r.body == Json(map["token" := sign(Claims(ValidUsername, Expiry(nowNanos))).value])
              && r.headers == headers["Content-Type" := "application/json"]
    ensures forall k :: k in headers && k !in {"Content-Type", "X-Content-Type-Options"} ==>
              k in r.headers && r.headers[k] == headers[k]
  {
    match body
    case Malformed => Error(headers, "Invalid request payload", 400)
    case Decoded(username, password) =>
      if username != ValidUsername || password != ValidPassword then
        Error(headers, "Invalid username or password", 401)
      else match GenerateToken(username, nowNanos, sign)
        case None => Error(headers, "Failed to generate token", 500)
        case Some(token) =>
          Response(200, headers["Content-Type" := "application/json"],
                   Json(map["token" := token]))
  }

  /** `enableCORS`: sets the three headers, answers a preflight `OPTIONS`
      itself with an empty 200, and hands any other method on to `next`
      with the headers in place. */
  function EnableCors(requestMethod: string, next: Headers -> Response): (r: Response)
    ensures requestMethod == "OPTIONS" ==> r == Response(200, CorsHeaders(), Text(""))
    ensures requestMethod != "OPTIONS" ==> r == next(CorsHeaders())
  {
    if requestMethod == "OPTIONS" then Response(200, CorsHeaders(), Text(""))
    else next(CorsHeaders())
  }

  /** A preflight never reaches the wrapped handler: its answer does not
      depend on it. */
  lemma PreflightIgnoresNext(next1: Headers -> Response, next2: Headers -> Response)
    ensures EnableCors("OPTIONS", next1) == EnableCors("OPTIONS", next2)
  {
  }

  /** The router. `/login` with POST or OPTIONS goes through the middleware
      to the handler; `/login` with another method is answered 405 with an
      empty body, and any other path is the standard 404. The middleware
      runs only for a matched route, so these two answers carry no CORS
      headers. */
  function Serve(path: string, requestMethod: string, body: LoginBody, nowNanos: nat,
                 sign: Claims -> Option<string>): (r: Response)
    ensures path == "/login" && requestMethod in {"POST", "OPTIONS"} ==>
              r == EnableCors(requestMethod, h => LoginHandler(h, body, nowNanos, sign))
    ensures path == "/login" && requestMethod !in {"POST", "OPTIONS"} ==>
              r == Response(405, map[], Text(""))
    ensures path != "/login" ==> r == Error(map[], "404 page not found", 404)
  {
    if path != "/login" then Error(map[], "404 page not found", 404)
    else if requestMethod in {"POST", "OPTIONS"} then
      EnableCors(requestMethod, h => LoginHandler(h, body, nowNanos, sign))
    else Response(405, map[], Text(""))
  }

  /** Every answer from `/login` to POST or OPTIONS carries the three CORS
      headers, whatever the handler decided. */
  lemma {:induction false} LoginAnswersCarryCors(requestMethod: string, body: LoginBody,
                                                 nowNanos: nat, sign: Claims -> Option<string>)
    requires requestMethod in {"POST", "OPTIONS"}
    ensures var r := Serve("/login", requestMethod, body, nowNanos, sign);
            forall k :: k in CorsHeaders() ==> k in r.headers && r.headers[k] == CorsHeaders()[k]
  {
    var cors := CorsHeaders();
    if requestMethod == "POST" {
      var r := LoginHandler(cors, body, nowNanos, sign);
      assert forall k :: k in cors ==> k !in {"Content-Type", "X-Content-Type-Options"};
      assert forall k :: k in cors ==> k in r.headers && r.headers[k] == cors[k];
    }
  }

  /** A POST logs in exactly for admin/password with a working signer, and
      the token returned is the one signed for claims naming "admin" that
      expire fifteen minutes (to the second) after the request. */
  lemma {:induction false} LoginSucceedsExactly(body: LoginBody, nowNanos: nat,
                                                sign: Claims -> Option<string>)
    ensures var r := Serve("/login", "POST", body, nowNanos, sign);
            && (r.status == 200 <==>
                  body == Decoded(ValidUsername, ValidPassword)
                  && sign(Claims(ValidUsername, nowNanos / NanosPerSecond + TokenLifetimeSeconds)).Some?)
            && (r.status == 200 ==>
                  r.body.Json? && r.body.fields.Keys == {"token"}
                  && Some(r.body.fields["token"])
                     == sign(Claims(ValidUsername, nowNanos / NanosPerSecond + TokenLifetimeSeconds)))
  {
    assert Expiry(nowNanos) == nowNanos / NanosPerSecond + TokenLifetimeSeconds;
  }
}
