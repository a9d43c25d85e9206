/**
 * app/http/controllers/AuthController.go: registration, login and the token
 * they hand out. Each handler is a method on the table whose effect is pinned
 * to a pure outcome function (the new table and the response); the
 * properties of the handlers are lemmas about those functions.
 */
module AuthController {
  import opened Base
  import opened Config
  import opened Crypto
  import opened Http
  import opened Models
  import opened Database
  import opened Middleware
  import opened Signup

  datatype RegisterRequest = RegisterRequest(name: string, email: string, password: string)
  datatype LoginRequest = LoginRequest(email: string, password: string)

  /** The two `time.Now()` readings `generateToken` takes: one for "exp", then one for "iat". */
  datatype Clock = Clock(expReading: nat, iatReading: nat)

  /** `time.Hour * 24`, in seconds. */
  const TokenLifetime: nat := 24 * 60 * 60

  const MsgTokenFailed: string := "Gagal membuat token"
  const MsgRegistered: string := "Registrasi berhasil"
  const MsgBadCredentials: string := "Email atau password salah"
  const MsgServerError: string := "Terjadi kesalahan"
  const MsgLoggedIn: string := "Login berhasil"

  /** The error `token.SignedString` returns. */
  datatype SignError = SignError

  /**
   * The claim set of an issued token: exactly the user's ID, the email, the
   * expiry one day after the first clock reading and the issue time of the
   * second, both in whole seconds.
   */
  function TokenClaims(userId: nat, email: string, clock: Clock): (claims: Claims)
    ensures claims.Keys == {"user_id", "email", "exp", "iat"}
    ensures "nbf" !in claims && claims["exp"].Num? && claims["exp"].n != 0
  {
    map["user_id" := Num(userId), "email" := Str(email),
        "exp" := Num(Unix(clock.expReading) + TokenLifetime), "iat" := Num(Unix(clock.iatReading))]
  }

  /**
   * The two readings are taken one after the other, so unless a second
   * boundary falls between them the token lives exactly one day after its
   * issue time, and at worst one second less.
   */
  lemma TokenLifetimeBounds(userId: nat, email: string, clock: Clock)
    requires clock.expReading <= clock.iatReading < clock.expReading + NanosPerSecond
    ensures var c := TokenClaims(userId, email, clock);
      c["exp"].n - c["iat"].n == TokenLifetime || c["exp"].n - c["iat"].n == TokenLifetime - 1
    ensures clock.expReading == clock.iatReading ==>
      var c := TokenClaims(userId, email, clock); c["exp"].n - c["iat"].n == TokenLifetime
  {
    var a, b := Unix(clock.expReading), Unix(clock.iatReading);
    assert a <= b <= a + 1;
  }

  /**
   * `generateToken(userID, email)`: an HS256 token over `TokenClaims`, signed
   * with the configured secret. For a sound library it decodes to exactly
   * that token and its signature checks under that secret.
   */
  function GenerateToken(userId: nat, email: string, env: Env, jwt: Jwt, clock: Clock): (r: Result<string, SignError>)
    ensures jwt.Sound() && r.Ok? ==>
      && jwt.decode(r.value) == Some(Token(HS256, TokenClaims(userId, email, clock)))
      && jwt.signatureOk(r.value, HS256, GetJWTSecretKey(env))
      && ' ' !in r.value
  {
    match jwt.sign(Token(HS256, TokenClaims(userId, email, clock)), GetJWTSecretKey(env))
    case None => Err(SignError)
    case Some(s) => Ok(s)
  }

  /** The round trip token → gate: an issued token, presented before it expires, lets its user in. */
  lemma IssuedTokenAuthorizes(userId: nat, email: string, env: Env, jwt: Jwt, clock: Clock, now: nat)
    requires jwt.Sound() && GenerateToken(userId, email, env, jwt, clock).Ok?
    requires now < (Unix(clock.expReading) + TokenLifetime) * NanosPerSecond
    ensures Authenticate("Bearer " + GenerateToken(userId, email, env, jwt, clock).value, env, jwt, now)
            == Authorized(userId, Str(email))
  {
    var tok := GenerateToken(userId, email, env, jwt, clock).value;
    var header := "Bearer " + tok;
    assert header[..7] == "Bearer " && header[7..] == tok;
    assert BearerToken(header) == Some(tok);
  }

  /** Once its "exp" second has begun, an issued token is refused as expired. */
  lemma IssuedTokenExpires(userId: nat, email: string, env: Env, jwt: Jwt, clock: Clock, now: nat)
    requires jwt.Sound() && GenerateToken(userId, email, env, jwt, clock).Ok?
    requires (Unix(clock.expReading) + TokenLifetime) * NanosPerSecond <= now
    ensures Authenticate("Bearer " + GenerateToken(userId, email, env, jwt, clock).value, env, jwt, now)
            == InvalidToken(Expired)
  {
    var tok := GenerateToken(userId, email, env, jwt, clock).value;
    var header := "Bearer " + tok;
    assert header[..7] == "Bearer " && header[7..] == tok;
    assert BearerToken(header) == Some(tok);
  }

  /** `gin.H{"id": …, "name": …, "email": …}`: the public part of a user. */
  function UserSummary(row: Record): (j: Json)
    ensures j.JObj? && j.fields.Keys == {"id", "name", "email"}
    ensures !MentionsKey(j, "password")
  {
    var m := map["id" := JNum(row.id), "name" := JStr(row.name), "email" := JStr(row.email)];
    assert forall k :: k in m ==> !MentionsKey(m[k], "password");
    JObj(m)
  }

  /** The success body of both handlers: a message, then the user's summary and the token. */
  function AuthBody(message: string, row: Record, token: string): (j: Json)
    ensures j.JObj? && j.fields.Keys == {"message", "data"}
    ensures j.fields["data"].JObj? && j.fields["data"].fields.Keys == {"user", "token"}
    ensures j.fields["data"].fields["token"] == JStr(token)
    ensures !MentionsKey(j, "password")
  {
    var data := map["user" := UserSummary(row), "token" := JStr(token)];
    assert forall k :: k in data ==> !MentionsKey(data[k], "password");
    var m := map["message" := JStr(message), "data" := JObj(data)];
    assert forall k :: k in m ==> !MentionsKey(m[k], "password");
    JObj(m)
  }

  // ---------------------------------------------------------------------------
  // Register

  /**
   * What `Register` does to the table and answers: a signup, then a token for
   * the stored user. The token is made after the insert, so a signing
   * failure leaves the new user stored.
   */
  function RegisterOutcome(s: TableState, bound: Bind<RegisterRequest>, bcrypt: Bcrypt, salt: nat,
                           jwt: Jwt, env: Env, now: nat, clock: Clock, io: Io): (out: (TableState, Response))
    requires Consistent(s)
    ensures Consistent(out.0)
    ensures out.1.status == StatusCreated ==> out.0 != s
  {
    match bound
    case BindError(message) => (s, Failure(StatusBadRequest, message))
    case Bound(req) =>
      match SignupOutcome(s, req.name, req.email, req.password, bcrypt, salt, now, io)
      case Err(e) => (s, SignupFailure(e))
      case Ok(s') =>
        SignupStoresHash(s, req.name, req.email, req.password, bcrypt, salt, now, io);
        match GenerateToken(s.nextId, req.email, env, jwt, clock)
        case Err(_) => (s', Failure(StatusInternalServerError, MsgTokenFailed))
        case Ok(token) => (s', Response(StatusCreated, AuthBody(MsgRegistered, s'.rows[s.nextId], token)))
  }

  /** `Register(c)`. */
  method Register(db: Table, bound: Bind<RegisterRequest>, bcrypt: Bcrypt, salt: nat,
                  jwt: Jwt, env: Env, now: nat, clock: Clock, io: Io) returns (resp: Response)
    requires db.Valid()
    modifies db
    ensures db.Valid()
    ensures (db.State(), resp) == RegisterOutcome(old(db.State()), bound, bcrypt, salt, jwt, env, now, clock, io)
  {
    if bound.BindError? {
      return Failure(StatusBadRequest, bound.message);
    }
    var req := bound.req;
    var stored := SignupUser(db, req.name, req.email, req.password, bcrypt, salt, now, io);
    if stored.Err? {
      return SignupFailure(stored.error);
    }
    var user := stored.value;
    var token := GenerateToken(user.id, user.email, env, jwt, clock);
    if token.Err? {
      return Failure(StatusInternalServerError, MsgTokenFailed);
    }
    resp := Response(StatusCreated, AuthBody(MsgRegistered, user, token.value));
  }

  /**
   * Registering an email already stored gives 409 when the lookup works, and
   * 500 otherwise; either way the table is unchanged and no token is issued.
   */
  lemma RegisterNeverDuplicates(s: TableState, req: RegisterRequest, bcrypt: Bcrypt, salt: nat,
                                jwt: Jwt, env: Env, now: nat, clock: Clock, io: Io)
    requires Consistent(s) && EmailTaken(s.rows, req.email)
    ensures var out := RegisterOutcome(s, Bound(req), bcrypt, salt, jwt, env, now, clock, io);
      && out.0 == s
      && (io.readError.None? ==> out.1 == Failure(StatusConflict, MsgEmailRegistered))
      && (io.readError.Some? ==> out.1.status == StatusInternalServerError)
  {
    SignupNeverDuplicates(s, req.name, req.email, req.password, bcrypt, salt, now, io);
  }

  /**
   * The table changes only by the signup of the request's user (the bcrypt
   * hash stored under the next ID), and a 201 always comes with it.
   */
  lemma RegisterStoresHash(s: TableState, bound: Bind<RegisterRequest>, bcrypt: Bcrypt, salt: nat,
                           jwt: Jwt, env: Env, now: nat, clock: Clock, io: Io)
    requires Consistent(s)
    ensures var out := RegisterOutcome(s, bound, bcrypt, salt, jwt, env, now, clock, io);
      && (out.0 == s || (bound.Bound? && bcrypt.generate(bound.req.password, salt).Some? && !EmailTaken(s.rows, bound.req.email)
                         && out.0 == Inserted(s, bound.req.name, bound.req.email, bcrypt.generate(bound.req.password, salt).value, now)))
      && (out.1.status == StatusCreated ==> out.0 != s)
  {
  }

  /** A signing failure after the insert answers 500 and keeps the new user. */
  lemma RegisterTokenFailureKeepsUser(s: TableState, req: RegisterRequest, bcrypt: Bcrypt, salt: nat,
                                      jwt: Jwt, env: Env, now: nat, clock: Clock, io: Io)
    requires Consistent(s) && !EmailTaken(s.rows, req.email) && io.writeError.None?
    requires bcrypt.generate(req.password, salt).Some?
    requires GenerateToken(s.nextId, req.email, env, jwt, clock).Err?
    ensures RegisterOutcome(s, Bound(req), bcrypt, salt, jwt, env, now, clock, io)
      == (Inserted(s, req.name, req.email, bcrypt.generate(req.password, salt).value, now),
          Failure(StatusInternalServerError, MsgTokenFailed))
  {
  }

  /** Whatever happens, the response of `Register` never carries a password field. */
  lemma RegisterHidesPassword(s: TableState, bound: Bind<RegisterRequest>, bcrypt: Bcrypt, salt: nat,
                              jwt: Jwt, env: Env, now: nat, clock: Clock, io: Io)
    requires Consistent(s)
    ensures !MentionsKey(RegisterOutcome(s, bound, bcrypt, salt, jwt, env, now, clock, io).1.body, "password")
  {
    var out := RegisterOutcome(s, bound, bcrypt, salt, jwt, env, now, clock, io);
    if out.1.body.JObj? && "error" in out.1.body.fields {
      ErrorBodyMentionsOnlyError(out.1.body.fields["error"].s, "password");
    }
  }

  /**
   * The token a 201 carries is the one issued for the new row, and before it
   * expires it lets that user through the gate.
   */
  lemma RegisterTokenAuthorizes(s: TableState, req: RegisterRequest, bcrypt: Bcrypt, salt: nat,
                                jwt: Jwt, env: Env, now: nat, clock: Clock, io: Io, later: nat)
    requires Consistent(s) && jwt.Sound()
    requires RegisterOutcome(s, Bound(req), bcrypt, salt, jwt, env, now, clock, io).1.status == StatusCreated
    requires later < (Unix(clock.expReading) + TokenLifetime) * NanosPerSecond
    ensures GenerateToken(s.nextId, req.email, env, jwt, clock).Ok?
    ensures var out := RegisterOutcome(s, Bound(req), bcrypt, salt, jwt, env, now, clock, io);
      var token := GenerateToken(s.nextId, req.email, env, jwt, clock).value;
      && out.1.body == AuthBody(MsgRegistered, out.0.rows[s.nextId], token)
      && Authenticate("Bearer " + token, env, jwt, later) == Authorized(s.nextId, Str(req.email))
  {
    IssuedTokenAuthorizes(s.nextId, req.email, env, jwt, clock, later);
  }

  // ---------------------------------------------------------------------------
  // Login

  /**
   * What `Login` answers. An unknown email and a wrong password get the same
   * 401; any other lookup error is a 500.
   */
  ghost function LoginOutcome(s: TableState, bound: Bind<LoginRequest>, bcrypt: Bcrypt,
                              jwt: Jwt, env: Env, clock: Clock, io: Io): (r: Response)
    requires Consistent(s)
    ensures !MentionsKey(r.body, "password")
  {
    match bound
    case BindError(message) =>
      ErrorBodyMentionsOnlyError(message, "password");
      Failure(StatusBadRequest, message)
    case Bound(req) =>
      ErrorBodyMentionsOnlyError(MsgServerError, "password");
      ErrorBodyMentionsOnlyError(MsgBadCredentials, "password");
      ErrorBodyMentionsOnlyError(MsgTokenFailed, "password");
      if io.readError.Some? then Failure(StatusInternalServerError, MsgServerError)
      else if !EmailTaken(s.rows, req.email) then Failure(StatusUnauthorized, MsgBadCredentials)
      else
        var row := s.rows[IdWithEmail(s.rows, req.email)];
        if !bcrypt.compare(row.password, req.password) then Failure(StatusUnauthorized, MsgBadCredentials)
        else
          match GenerateToken(row.id, row.email, env, jwt, clock)
          case Err(_) => Failure(StatusInternalServerError, MsgTokenFailed)
          case Ok(token) => Response(StatusOK, AuthBody(MsgLoggedIn, row, token))
  }

  /** `Login(c)`: reads the table and changes nothing. */
  method Login(db: Table, bound: Bind<LoginRequest>, bcrypt: Bcrypt, jwt: Jwt, env: Env, clock: Clock, io: Io)
    returns (resp: Response)
    requires db.Valid()
    ensures resp == LoginOutcome(db.State(), bound, bcrypt, jwt, env, clock, io)
  {
    if bound.BindError? {
      return Failure(StatusBadRequest, bound.message);
    }
    var req := bound.req;
    var found := db.FindByEmail(req.email, io);
    if found.Failed? {
      return Failure(StatusInternalServerError, MsgServerError);
    }
    if found.NotFound? {
      return Failure(StatusUnauthorized, MsgBadCredentials);
    }
    var user := new User.Load(found.row);
    if !user.CheckPassword(bcrypt, req.password) {
      return Failure(StatusUnauthorized, MsgBadCredentials);
    }
    var token := GenerateToken(user.id, user.email, env, jwt, clock);
    if token.Err? {
      return Failure(StatusInternalServerError, MsgTokenFailed);
    }
    resp := Response(StatusOK, AuthBody(MsgLoggedIn, user.Row(), token.value));
  }

  /**
   * A 401 from `Login` says nothing about which check failed: it is the same
   * response for an unknown email and for a wrong password, and it is given
   * exactly when one of the two fails.
   */
  lemma LoginRejectionsIndistinguishable(s: TableState, req: LoginRequest, bcrypt: Bcrypt,
                                         jwt: Jwt, env: Env, clock: Clock, io: Io)
    requires Consistent(s) && io.readError.None?
    ensures var r := LoginOutcome(s, Bound(req), bcrypt, jwt, env, clock, io);
      && (r.status == StatusUnauthorized ==> r == Failure(StatusUnauthorized, MsgBadCredentials))
      && (r.status == StatusUnauthorized <==>
           (!EmailTaken(s.rows, req.email) || !bcrypt.compare(s.rows[IdWithEmail(s.rows, req.email)].password, req.password)))
  {
  }

  /**
   * A 200 from `Login` names the one stored user with that email, whose hash
   * accepted the password, and carries the token issued for that user.
   */
  lemma LoginSucceedsOnlyWithPassword(s: TableState, req: LoginRequest, bcrypt: Bcrypt,
                                      jwt: Jwt, env: Env, clock: Clock, io: Io)
    requires Consistent(s)
    requires LoginOutcome(s, Bound(req), bcrypt, jwt, env, clock, io).status == StatusOK
    ensures io.readError.None? && EmailTaken(s.rows, req.email)
    ensures forall id :: id in s.rows && s.rows[id].email == req.email ==>
      && bcrypt.compare(s.rows[id].password, req.password)
      && GenerateToken(id, req.email, env, jwt, clock).Ok?
      && LoginOutcome(s, Bound(req), bcrypt, jwt, env, clock, io)
         == Response(StatusOK, AuthBody(MsgLoggedIn, s.rows[id], GenerateToken(id, req.email, env, jwt, clock).value))
  {
    var chosen := IdWithEmail(s.rows, req.email);
    forall id | id in s.rows && s.rows[id].email == req.email
      ensures id == chosen
    {
      assert s.rows[chosen].email == req.email;
    }
  }

  /**
   * Register and Login agree: with a sound bcrypt, right after a successful
   * registration the same email and password log in as the new user.
   */
  lemma RegisterThenLogin(s: TableState, req: RegisterRequest, bcrypt: Bcrypt, salt: nat,
                          jwt: Jwt, env: Env, now: nat, clock: Clock, io: Io, clock': Clock)
    requires Consistent(s) && bcrypt.Sound()
    requires RegisterOutcome(s, Bound(req), bcrypt, salt, jwt, env, now, clock, io).1.status == StatusCreated
    requires GenerateToken(s.nextId, req.email, env, jwt, clock').Ok?
    ensures var s' := RegisterOutcome(s, Bound(req), bcrypt, salt, jwt, env, now, clock, io).0;
      LoginOutcome(s', Bound(LoginRequest(req.email, req.password)), bcrypt, jwt, env, clock', Healthy)
      == Response(StatusOK, AuthBody(MsgLoggedIn, s'.rows[s.nextId], GenerateToken(s.nextId, req.email, env, jwt, clock').value))
  {
    var s' := RegisterOutcome(s, Bound(req), bcrypt, salt, jwt, env, now, clock, io).0;
    assert s'.rows[s.nextId].email == req.email;
    var chosen := IdWithEmail(s'.rows, req.email);
    assert chosen == s.nextId by {
      assert s'.rows[chosen].email == s'.rows[s.nextId].email;
    }
  }
}
