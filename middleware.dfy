/**
 * app/http/middleware/auth.go: the gate in front of every `/users` route.
 * A request's `gin.Context` is a `Context` object that records, in order,
 * what the handler chain does to it; the gate's decision is the pure
 * function `Authenticate`, and `AuthMiddleware` carries it out on the context.
 */
module Middleware {
  import opened Base
  import opened Text
  import opened Config
  import opened Crypto
  import opened Http

  /** `GetJWTSecretKey()`: the configured signing key (as bytes; a string here). */
  function GetJWTSecretKey(env: Env): (key: string)
    ensures key == JWTSecret(env) && key != ""
  {
    JWTSecret(env)
  }

  /**
   * The key function handed to `jwt.Parse`: a token whose header names a
   * non-HMAC algorithm ("none", RSA, ECDSA, …) is refused before any key is
   * given out; otherwise the key is the configured secret.
   */
  function HmacKeyFunc(env: Env, token: Token): (r: Result<string, ParseError>)
    ensures r.Ok? <==> IsHmac(token.alg)
    ensures r.Ok? ==> r.value == JWTSecret(env) && r.value != ""
  {
    if IsHmac(token.alg) then Ok(GetJWTSecretKey(env)) else Err(SignatureInvalid)
  }

  /**
   * The key function looks at the header's algorithm alone: two tokens with
   * the same "alg" get the same answer whatever they claim, and every HMAC
   * token is checked against the one configured, non-empty secret.
   */
  lemma KeyFuncIgnoresClaims(env: Env, t: Token, t': Token)
    requires t.alg == t'.alg
    ensures HmacKeyFunc(env, t) == HmacKeyFunc(env, t')
    ensures IsHmac(t.alg) ==> HmacKeyFunc(env, t') == Ok(JWTSecret(env)) && JWTSecret(env) != ""
    ensures !IsHmac(t.alg) ==> HmacKeyFunc(env, t').Err?
  {
  }

  /**
   * The header shape test: `strings.Split(header, " ")` must give exactly
   * `["Bearer", token]`. That is the case exactly when the header is
   * "Bearer " followed by a token without spaces, and the token is then
   * everything after "Bearer ".
   */
  function BearerToken(header: string): (token: Option<string>)
    ensures token.Some? <==> |header| >= 7 && header[..7] == "Bearer " && ' ' !in header[7..]
    ensures token.Some? ==> token.value == header[7..]
  {
    var parts := Split(header, ' ');
    BearerTokenShape(header);
    if |parts| != 2 || parts[0] != "Bearer" then None else Some(parts[1])
  }

  lemma BearerTokenShape(header: string)
    ensures (|Split(header, ' ') | == 2 && Split(header, ' ')[0] == "Bearer") <==>
            (|header| >= 7 && header[..7] == "Bearer " && ' ' !in header[7..])
    ensures |Split(header, ' ') | == 2 && Split(header, ' ')[0] == "Bearer" ==> Split(header, ' ')[1] == header[7..]
  {
    var parts := Split(header, ' ');
    if |parts| == 2 && parts[0] == "Bearer" {
      SplitTwo(header, ' ', parts[0], parts[1]);
      assert header == "Bearer" + " " + parts[1];
      assert header[..7] == "Bearer " && header[7..] == parts[1];
    }
    if |header| >= 7 && header[..7] == "Bearer " && ' ' !in header[7..] {
      assert header == "Bearer" + [' '] + header[7..];
      SplitTwo(header, ' ', "Bearer", header[7..]);
    }
  }

  /** What the gate decides about one request. */
  datatype Decision =
    | MissingHeader                                   // empty Authorization header
    | MalformedHeader                                 // not "Bearer <token>"
    | InvalidToken(reason: ParseError)                // any failure of jwt.Parse
    | Authorized(userId: nat, email: ClaimValue)     // identity for the handlers
    | BadUserIdClaim                                  // valid token whose user_id is not a number: the type assertion panics

  const MsgMissingHeader: string := "Authorization header diperlukan"
  const MsgMalformedHeader: string := "Format Authorization header tidak valid. Gunakan: Bearer <token>"
  const MsgInvalidToken: string := "Token tidak valid atau telah kedaluwarsa"

  /**
   * The gate's decision for the Authorization header `header` at clock
   * reading `now`: an empty header is missing; one that is not "Bearer "
   * followed by a space-free token is malformed; a token `jwt.Parse` refuses
   * is invalid; and an identity is handed on only for an HMAC token signed
   * with the configured secret whose time claims hold, the identity being
   * its "user_id" and "email" claims.
   */
  function Authenticate(header: string, env: Env, jwt: Jwt, now: nat): (d: Decision)
    ensures d.MissingHeader? <==> header == ""
    ensures d.MalformedHeader? <==> header != "" && !(|header| >= 7 && header[..7] == "Bearer " && ' ' !in header[7..])
    ensures d.InvalidToken? || d.Authorized? || d.BadUserIdClaim? ==>
      |header| >= 7 && header[..7] == "Bearer " && ' ' !in header[7..]
    ensures d.Authorized? ==>
      && |header| >= 7 && jwt.decode(header[7..]).Some?
      && var token := jwt.decode(header[7..]).value;
      && IsHmac(token.alg)
      && jwt.signatureOk(header[7..], token.alg, JWTSecret(env))
      && ValidateClaims(token.claims, now).None?
      && ClaimAt(token.claims, "user_id") == Num(d.userId)
      && ClaimAt(token.claims, "email") == d.email
    ensures d.BadUserIdClaim? ==>
      && |header| >= 7 && jwt.decode(header[7..]).Some?
      && !ClaimAt(jwt.decode(header[7..]).value.claims, "user_id").Num?
  {
    if header == "" then MissingHeader
    else
      match BearerToken(header)
      case None => MalformedHeader
      case Some(tokenString) =>
        match Parse(jwt, tokenString, (t: Token) => HmacKeyFunc(env, t), now)
        case Err(e) => InvalidToken(e)
        case Ok(token) =>
          match ClaimAt(token.claims, "user_id")
          case Num(id) => Authorized(id, ClaimAt(token.claims, "email"))
          case _ => BadUserIdClaim
  }

  /** A value stored in the context: the user ID as a `uint`, the raw email claim. */
  datatype CtxValue = Uint(n: nat) | Claim(c: ClaimValue)

  /** One thing a handler does to the context. */
  datatype Step = Set(key: string, value: CtxValue) | Json(status: nat, body: Json) | Abort | Next | Panic

  /** The steps the gate takes for each decision. */
  function GateSteps(d: Decision): (steps: seq<Step>)
    ensures Next in steps <==> d.Authorized?
    ensures Abort in steps <==> d.MissingHeader? || d.MalformedHeader? || d.InvalidToken?
    ensures d.Authorized? ==> steps[|steps| - 1] == Next && (forall i :: 0 <= i < |steps| - 1 ==> steps[i].Set?)
  {
    match d
    case MissingHeader => [Json(StatusUnauthorized, ErrorBody(MsgMissingHeader)), Abort]
    case MalformedHeader => [Json(StatusUnauthorized, ErrorBody(MsgMalformedHeader)), Abort]
    case InvalidToken(_) => [Json(StatusUnauthorized, ErrorBody(MsgInvalidToken)), Abort]
    case Authorized(id, email) => [Set("user_id", Uint(id)), Set("user_email", Claim(email)), Next]
    case BadUserIdClaim => [Panic]
  }

  /** The parts of `gin.Context` the gate uses. */
  class Context {
    const headers: map<string, string>
    var keys: map<string, CtxValue>
    var aborted: bool
    var steps: seq<Step>

    constructor (headers: map<string, string>)
      ensures this.headers == headers && keys == map[] && !aborted && steps == []
    {
      this.headers := headers;
      keys, aborted, steps := map[], false, [];
    }

    /** `c.GetHeader(name)`: "" when the header is absent. */
    function GetHeader(name: string): string
    {
      if name in headers then headers[name] else ""
    }

    /** `c.Set(key, value)`. */
    method Set(key: string, value: CtxValue)
      modifies this
      ensures keys == old(keys)[key := value] && aborted == old(aborted)
      ensures steps == old(steps) + [Step.Set(key, value)]
    {
      keys := keys[key := value];
      steps := steps + [Step.Set(key, value)];
    }

    /** `c.JSON(status, body)`. */
    method JSON(status: nat, body: Json)
      modifies this
      ensures keys == old(keys) && aborted == old(aborted)
      ensures steps == old(steps) + [Step.Json(status, body)]
    {
      steps := steps + [Step.Json(status, body)];
    }

    /** `c.Abort()`: the handlers after this one will not run. */
    method Abort()
      modifies this
      ensures keys == old(keys) && aborted
      ensures steps == old(steps) + [Step.Abort]
    {
      aborted := true;
      steps := steps + [Step.Abort];
    }

    /** `c.Next()`: hand the request to the protected handler. */
    method Next()
      modifies this
      ensures keys == old(keys) && aborted == old(aborted)
      ensures steps == old(steps) + [Step.Next]
    {
      steps := steps + [Step.Next];
    }
  }

  /**
   * `AuthMiddleware()` applied to one request: the context receives exactly
   * the steps of the gate's decision. Identity is stored, and the request
   * passed on, only when the token is valid; every other outcome responds 401
   * and aborts.
   */
  method AuthMiddleware(c: Context, env: Env, jwt: Jwt, now: nat)
    modifies c
    ensures c.steps == old(c.steps) + GateSteps(Authenticate(c.GetHeader("Authorization"), env, jwt, now))
    ensures match Authenticate(c.GetHeader("Authorization"), env, jwt, now)
      case Authorized(id, email) =>
        c.keys == old(c.keys)["user_id" := Uint(id)]["user_email" := Claim(email)] && c.aborted == old(c.aborted)
      case BadUserIdClaim => c.keys == old(c.keys) && c.aborted == old(c.aborted)
      case _ => c.keys == old(c.keys) && c.aborted
  {
    var authHeader := c.GetHeader("Authorization");
    ghost var d := Authenticate(authHeader, env, jwt, now);
    if authHeader == "" {
      c.JSON(StatusUnauthorized, ErrorBody(MsgMissingHeader));
      c.Abort();
      return;
    }

    var parts := Split(authHeader, ' ');
    BearerTokenShape(authHeader);
    if |parts| != 2 || parts[0] != "Bearer" {
      c.JSON(StatusUnauthorized, ErrorBody(MsgMalformedHeader));
      c.Abort();
      return;
    }

    var tokenString := parts[1];
    var parsed := Parse(jwt, tokenString, (t: Token) => HmacKeyFunc(env, t), now);
    if parsed.Err? {
      c.JSON(StatusUnauthorized, ErrorBody(MsgInvalidToken));
      c.Abort();
      return;
    }

    var claims := parsed.value.claims;
    var userId := ClaimAt(claims, "user_id");
    if !userId.Num? {
      // claims["user_id"].(float64) panics; gin's recovery ends the request
      c.steps := c.steps + [Panic];
      return;
    }
    c.Set("user_id", Uint(userId.n));
    c.Set("user_email", Claim(ClaimAt(claims, "email")));
    c.Next();
  }

  /**
   * The shape test comes before any verification: a header that is not
   * exactly "Bearer <token>" is refused whatever the secret, the library or
   * the clock, so a refused header never reaches the verifier.
   */
  lemma ShapeCheckedFirst(header: string, env: Env, jwt: Jwt, now: nat, env': Env, jwt': Jwt, now': nat)
    requires header == "" || BearerToken(header).None?
    ensures Authenticate(header, env, jwt, now) == Authenticate(header, env', jwt', now')
    ensures Authenticate(header, env, jwt, now) == if header == "" then MissingHeader else MalformedHeader
  {
  }

  /** Headers refused for their shape: another scheme, the scheme in lower case, a token with a space. */
  lemma MalformedExamples(env: Env, jwt: Jwt, now: nat)
    ensures Authenticate("Token abc123", env, jwt, now) == MalformedHeader
    ensures Authenticate("bearer x", env, jwt, now) == MalformedHeader
    ensures Authenticate("Bearer a b", env, jwt, now) == MalformedHeader
  {
    assert "Token abc123"[..7][0] != "Bearer "[0];
    assert "bearer x"[..7][0] != "Bearer "[0];
    assert "Bearer a b"[7..][1] == ' ';
  }

  /**
   * The verifier sees exactly the text after "Bearer ", and it alone decides
   * a well-shaped header; "Bearer " itself passes the shape test with the
   * empty token.
   */
  lemma VerifierSeesToken(token: string, env: Env, jwt: Jwt, now: nat)
    requires ' ' !in token
    ensures BearerToken("Bearer " + token) == Some(token)
    ensures var d := Authenticate("Bearer " + token, env, jwt, now);
      var p := Parse(jwt, token, (t: Token) => HmacKeyFunc(env, t), now);
      && (d.InvalidToken? <==> p.Err?)
      && (p.Err? ==> d == InvalidToken(p.error))
      && (d.Authorized? ==> p.Ok? && Num(d.userId) == ClaimAt(p.value.claims, "user_id"))
    ensures BearerToken("Bearer ") == Some("")
  {
    var header := "Bearer " + token;
    assert header[..7] == "Bearer " && header[7..] == token;
    assert "Bearer "[7..] == "";
  }

  /**
   * A token whose header names a non-HMAC algorithm ("none", RSA, ECDSA, …)
   * is refused before any key is handed out, whatever it claims.
   */
  lemma NonHmacRefused(header: string, env: Env, jwt: Jwt, now: nat)
    requires header != "" && BearerToken(header).Some?
    requires jwt.decode(BearerToken(header).value).Some? && !IsHmac(jwt.decode(BearerToken(header).value).value.alg)
    ensures Authenticate(header, env, jwt, now) == InvalidToken(Unverifiable)
  {
  }

  /**
   * Only a signature made with the configured secret gets through: every
   * authorized header carries an HMAC token whose signature checks under
   * `GetJWTSecretKey`, and whose time claims hold at `now`.
   */
  lemma AuthorizedNeedsSecret(header: string, env: Env, jwt: Jwt, now: nat)
    requires Authenticate(header, env, jwt, now).Authorized?
    ensures BearerToken(header).Some?
    ensures var tok := BearerToken(header).value;
      && jwt.decode(tok).Some? && IsHmac(jwt.decode(tok).value.alg)
      && jwt.signatureOk(tok, jwt.decode(tok).value.alg, GetJWTSecretKey(env))
      && ValidateClaims(jwt.decode(tok).value.claims, now).None?
  {
  }

  /**
   * Every verifier failure looks the same from outside: one 401 with one
   * message, then abort, whatever the reason.
   */
  lemma OneInvalidTokenResponse(e: ParseError, e': ParseError)
    ensures GateSteps(InvalidToken(e)) == GateSteps(InvalidToken(e'))
    ensures GateSteps(InvalidToken(e)) == [Json(StatusUnauthorized, ErrorBody(MsgInvalidToken)), Abort]
  {
  }
}
