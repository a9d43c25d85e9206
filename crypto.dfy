/**
 * The two foreign libraries the service trusts, as abstract operations:
 * bcrypt (golang.org/x/crypto/bcrypt) and JSON Web Tokens
 * (github.com/golang-jwt/jwt/v5). Their internals (salting, Blowfish,
 * base64url, HMAC-SHA256) are not modelled; each library is a value holding
 * its operations as functions, and `Sound()` holds the laws the service
 * relies on. The laws are stated as preconditions of the lemmas that need
 * them, never assumed.
 */
module Crypto {
  import opened Base

  // ---------------------------------------------------------------------------
  // bcrypt

  /**
   * `generate(password, salt)` is `bcrypt.GenerateFromPassword` with the random
   * salt made an input (`None` is its error); `compare(hash, password)` is
   * `bcrypt.CompareHashAndPassword(hash, password) == nil`.
   */
  datatype Bcrypt = Bcrypt(generate: (string, nat) -> Option<string>, compare: (string, string) -> bool)
  {
    /** A generated hash verifies against the password it was made from. */
    ghost predicate Sound()
    {
      forall p, salt :: generate(p, salt).Some? ==> compare(generate(p, salt).value, p)
    }
  }

  // ---------------------------------------------------------------------------
  // JSON Web Tokens (RFC 7519), signed with the algorithms of section 3.1 of RFC 7518

  /**
   * The "alg" of a token header: the signing algorithms jwt/v5 registers
   * (`NoneAlg` is the unsecured "none"), or a name it does not know.
   */
  datatype Alg = HS256 | HS384 | HS512 | RS256 | RS384 | RS512 | PS256 | ES256 | EdDSA | NoneAlg | Unregistered

  /** `token.Method.(*jwt.SigningMethodHMAC)` succeeds: HMAC with SHA-2 (section 3.2 of RFC 7518). */
  predicate IsHmac(alg: Alg)
  {
    alg == HS256 || alg == HS384 || alg == HS512
  }

  /**
   * A claim value after JSON decoding: a number (non-negative integers only),
   * a string, JSON null, or anything else (object, array, boolean).
   */
  datatype ClaimValue = Num(n: nat) | Str(s: string) | Null | Other

  type Claims = map<string, ClaimValue>

  /** Indexing a Go `MapClaims`: a missing claim reads as nil. */
  function ClaimAt(claims: Claims, name: string): ClaimValue
  {
    if name in claims then claims[name] else Null
  }

  /** The header algorithm and the claim set of a token. */
  datatype Token = Token(alg: Alg, claims: Claims)

  /**
   * `sign(t, key)` is `token.SignedString(key)` (`None` is its error);
   * `decode(s)` is the unverified parse of a compact token: three base64url
   * segments, a header naming an "alg" and a JSON claim set (`None`: malformed);
   * `signatureOk(s, alg, key)` is `alg.Verify` of the signature segment of `s`.
   */
  datatype Jwt = Jwt(
    sign: (Token, string) -> Option<string>,
    decode: string -> Option<Token>,
    signatureOk: (string, Alg, string) -> bool)
  {
    /**
     * A signed token decodes to what was signed, its signature checks out under
     * the same algorithm and key, and, being compact (section 7.1 of RFC 7515:
     * base64url segments joined by dots), it has no space in it.
     */
    ghost predicate Sound()
    {
      forall t, key :: sign(t, key).Some? ==>
        && decode(sign(t, key).value) == Some(t)
        && signatureOk(sign(t, key).value, t.alg, key)
        && ' ' !in sign(t, key).value
    }
  }

  /** The error kinds of `jwt.Parse`. */
  datatype ParseError =
    | Malformed           // ErrTokenMalformed
    | Unverifiable        // ErrTokenUnverifiable: an unregistered algorithm, or the key function returned an error
    | SignatureInvalid    // ErrTokenSignatureInvalid
    | Expired             // ErrTokenExpired ("exp", section 4.1.4 of RFC 7519)
    | NotValidYet         // ErrTokenNotValidYet ("nbf", section 4.1.5 of RFC 7519)
    | InvalidClaimType    // a time claim that is not a number

  /**
   * `MapClaims.parseNumericDate(name)`: an absent claim and the number 0 are
   * both "not set"; a value that is not a number, JSON null included, is of
   * the wrong type.
   */
  function NumericDate(claims: Claims, name: string): (r: Result<Option<nat>, ParseError>)
    ensures r.Err? <==> name in claims && !claims[name].Num?
    ensures r.Err? ==> r.error == InvalidClaimType
    ensures r.Ok? && r.value.Some? <==> name in claims && claims[name].Num? && claims[name].n != 0
    ensures r.Ok? && r.value.Some? ==> r.value.value == claims[name].n
  {
    if name !in claims then Ok(None)
    else
      match claims[name]
      case Num(n) => if n == 0 then Ok(None) else Ok(Some(n))
      case _ => Err(InvalidClaimType)
  }

  /** The "exp" check: a token is accepted strictly before its expiry time. */
  function CheckExpiry(exp: Result<Option<nat>, ParseError>, now: nat): Option<ParseError>
  {
    match exp
    case Err(e) => Some(e)
    case Ok(None) => None
    case Ok(Some(e)) => if now < e * NanosPerSecond then None else Some(Expired)
  }

  /** The "nbf" check: a token is not accepted before its not-before time. */
  function CheckNotBefore(nbf: Result<Option<nat>, ParseError>, now: nat): Option<ParseError>
  {
    match nbf
    case Err(e) => Some(e)
    case Ok(None) => None
    case Ok(Some(n)) => if n * NanosPerSecond <= now then None else Some(NotValidYet)
  }

  /** A time claim that is present and set: a number other than 0. */
  predicate IsSetTime(claims: Claims, name: string)
  {
    name in claims && claims[name].Num? && claims[name].n != 0
  }

  /**
   * The time claims jwt/v5's default validator checks: "exp" and "nbf" when
   * set; "iat" is not checked. A claim that is absent or 0 is not checked,
   * and one that is present but not a number (null, a string, …) is an
   * error. (The library joins all errors it finds; here the first one stands
   * for them.)
   */
  function ValidateClaims(claims: Claims, now: nat): (r: Option<ParseError>)
    ensures r.None? <==>
      && ("exp" in claims ==> claims["exp"].Num?)
      && ("nbf" in claims ==> claims["nbf"].Num?)
      && (IsSetTime(claims, "exp") ==> now < claims["exp"].n * NanosPerSecond)
      && (IsSetTime(claims, "nbf") ==> claims["nbf"].n * NanosPerSecond <= now)
  {
    var expiry := CheckExpiry(NumericDate(claims, "exp"), now);
    if expiry.Some? then expiry else CheckNotBefore(NumericDate(claims, "nbf"), now)
  }

  /**
   * The edge cases of the time claims: an "exp" of 0 is no expiry at all, and an
   * "exp" or "nbf" of JSON null is rejected rather than read as absent.
   */
  lemma TimeClaimEdgeCases(now: nat)
    ensures ValidateClaims(map["exp" := Num(0)], now).None?
    ensures ValidateClaims(map["nbf" := Num(0)], now).None?
    ensures ValidateClaims(map["exp" := Null], now) == Some(InvalidClaimType)
    ensures ValidateClaims(map["nbf" := Null], now) == Some(InvalidClaimType)
    ensures ValidateClaims(map[], now).None?
  {
  }

  /**
   * `jwt.Parse(s, keyFunc)` at clock reading `now` (nanoseconds): parse,
   * refuse an unregistered algorithm, obtain the key from `keyFunc`, check
   * the signature, then validate the time claims. The token is valid exactly
   * when no error is returned.
   */
  function Parse(jwt: Jwt, s: string, keyFunc: Token -> Result<string, ParseError>, now: nat)
    : (r: Result<Token, ParseError>)
    ensures r.Ok? <==>
      && jwt.decode(s).Some? && jwt.decode(s).value.alg != Unregistered
      && keyFunc(jwt.decode(s).value).Ok?
      && jwt.signatureOk(s, jwt.decode(s).value.alg, keyFunc(jwt.decode(s).value).value)
      && ValidateClaims(jwt.decode(s).value.claims, now).None?
    ensures r.Ok? ==> Some(r.value) == jwt.decode(s)
  {
    match jwt.decode(s)
    case None => Err(Malformed)
    case Some(token) =>
      if token.alg == Unregistered then Err(Unverifiable)
      else
        match keyFunc(token)
        case Err(_) => Err(Unverifiable)
        case Ok(key) =>
          if !jwt.signatureOk(s, token.alg, key) then Err(SignatureInvalid)
          else
            match ValidateClaims(token.claims, now)
            case Some(e) => Err(e)
            case None => Ok(token)
  }
}
