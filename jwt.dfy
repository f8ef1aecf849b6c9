/** JSON Web Token claims of backend/utils/jwt.go (RFC 7519, registered claims
    of section 4.1; HS256 of section 3.2 of RFC 7518). Signing is symbolic: a
    signature is the value `Mac(key, alg, claims)`, which only a holder of
    `key` can form, so `Parse` accepts exactly what was signed with the key. */
module Jwt {
  import opened Wrappers
  import Decimal

  /** `jwtDuration = 10 * time.Minute`, in seconds. */
  const AccessTokenLifetime: int := 600
  /** `refreshTokenDuration = 7 * 24 * time.Hour`, in seconds. */
  const RefreshTokenLifetime: int := 604800
  const Issuer: string := "backend"
  const AccessSubject: string := "auth"
  const RefreshSubject: string := "refresh"

  /** The `alg` header values the library knows. */
  datatype Alg =
    | HS256 | HS384 | HS512
    | RS256 | RS384 | RS512
    | PS256 | PS384 | PS512
    | ES256 | ES384 | ES512
    | EdDSA | NoSignature

  /** `token.Method.(*jwt.SigningMethodHMAC)` succeeds. */
  predicate IsHmac(alg: Alg)
  {
    alg.HS256? || alg.HS384? || alg.HS512?
  }

  /** `CustomClaims`: the admin flag and the registered claims the code sets.
      A numeric date that is absent from the token is `None`. */
  datatype Claims = Claims(
    isAdmin: bool,
    iss: string,
    sub: string,
    jti: string,
    exp: Option<int>,
    nbf: Option<int>,
    iat: Option<int>)

  datatype Signature = Mac(key: string, alg: Alg, claims: Claims) | Bytes(raw: string)

  /** A token string: a well-formed compact serialisation, or anything else. */
  datatype Token = Compact(alg: Alg, claims: Claims, signature: Signature) | Malformed(text: string)

  /** The empty string returned in place of a token on failure. */
  const NoToken: Token := Malformed("")

  datatype JwtError =
    | AccessSigningFailed
    | RefreshSigningFailed
    | Unparseable
    | UnexpectedSigningMethod
    | SignatureInvalid
    | Expired
    | NotValidYet
    | NotAdmin
    | InvalidTokenType
    | InvalidUserId

  /** The library's default claim validation: `exp` must lie strictly after
      `now` and `nbf` not after it; `iat` is not checked. */
  predicate TimeValid(c: Claims, now: int)
  {
    && (c.exp.None? || now < c.exp.value)
    && (c.nbf.None? || c.nbf.value <= now)
  }

  /** `jwt.ParseWithClaims` with the key function of every validator here: the
      key function refuses a non-HMAC `alg`, then the signature is checked
      against `key`, then the time claims. A token is accepted only if it was
      signed with `key` under an HMAC algorithm and is currently valid. */
  function Parse(key: string, token: Token, now: int): (r: Result<Claims, JwtError>)
    ensures r.Ok? <==>
      && token.Compact?
      && IsHmac(token.alg)
      && token.signature == Mac(key, token.alg, token.claims)
      && TimeValid(token.claims, now)
    ensures r.Ok? ==> r.value == token.claims
  {
    match token
    case Malformed(_) => Err(Unparseable)
    case Compact(alg, claims, signature) =>
      if !IsHmac(alg) then Err(UnexpectedSigningMethod)
      else if signature != Mac(key, alg, claims) then Err(SignatureInvalid)
      else if claims.exp.Some? && now >= claims.exp.value then Err(Expired)
      else if claims.nbf.Some? && now < claims.nbf.value then Err(NotValidYet)
      else Ok(claims)
  }

  /** `jwt.NewWithClaims(jwt.SigningMethodHS256, claims).SignedString(key)`;
      `signOk` is the library's outcome. What is signed parses back under the
      same key whenever it is time-valid, and never under another key. */
  function Sign(key: string, claims: Claims, signOk: bool): (r: Option<Token>)
    ensures r.Some? <==> signOk
    ensures r.Some? ==> forall now :: TimeValid(claims, now) ==> Parse(key, r.value, now) == Ok(claims)
    ensures r.Some? ==> forall other, now :: other != key ==> Parse(other, r.value, now).Err?
  {
    if signOk then Some(Compact(HS256, claims, Mac(key, HS256, claims))) else None
  }

  /** The claims both generators build; they differ in subject and lifetime. */
  function IssuedClaims(subject: string, lifetime: int, userID: int, isAdmin: bool, now: int): Claims
  {
    Claims(isAdmin, Issuer, subject, Decimal.Format(userID), Some(now + lifetime), Some(now), Some(now))
  }

  /** `GenerateJWT`: an access token for `userID`, valid for ten minutes. */
  function GenerateJWT(key: string, userID: int, isAdmin: bool, now: int, signOk: bool): (r: Result<Token, JwtError>)
    ensures r.Ok? <==> signOk
    ensures r.Err? ==> r.error == AccessSigningFailed
    ensures r.Ok? ==> r.value.Compact? && r.value.alg == HS256
    ensures r.Ok? ==>
      var c := r.value.claims;
      && c.sub == AccessSubject && c.iss == Issuer
      && c.jti == Decimal.Format(userID) && c.isAdmin == isAdmin
      && c.iat == Some(now) && c.nbf == Some(now) && c.exp == Some(now + AccessTokenLifetime)
    ensures r.Ok? ==> forall t :: Parse(key, r.value, t).Ok? <==> now <= t < now + AccessTokenLifetime
  {
    match Sign(key, IssuedClaims(AccessSubject, AccessTokenLifetime, userID, isAdmin, now), signOk)
    case Some(token) => Ok(token)
    case None => Err(AccessSigningFailed)
  }

  /** `GenerateRefreshToken`: as `GenerateJWT` but subject "refresh" and
      valid for seven days. */
  function GenerateRefreshToken(key: string, userID: int, isAdmin: bool, now: int, signOk: bool): (r: Result<Token, JwtError>)
    ensures r.Ok? <==> signOk
    ensures r.Err? ==> r.error == RefreshSigningFailed
    ensures r.Ok? ==> r.value.Compact? && r.value.alg == HS256
    ensures r.Ok? ==>
      var c := r.value.claims;
      && c.sub == RefreshSubject && c.iss == Issuer
      && c.jti == Decimal.Format(userID) && c.isAdmin == isAdmin
      && c.iat == Some(now) && c.nbf == Some(now) && c.exp == Some(now + RefreshTokenLifetime)
    ensures r.Ok? ==> forall t :: Parse(key, r.value, t).Ok? <==> now <= t < now + RefreshTokenLifetime
  {
    match Sign(key, IssuedClaims(RefreshSubject, RefreshTokenLifetime, userID, isAdmin, now), signOk)
    case Some(token) => Ok(token)
    case None => Err(RefreshSigningFailed)
  }

  /** Go's `(accessToken, refreshToken string, err error)`. */
  datatype TokenPair = TokenPair(access: Token, refresh: Token, err: Option<JwtError>)

  /** `GenerateTokenPair`: both tokens or neither. */
  function GenerateTokenPair(key: string, userID: int, isAdmin: bool, now: int, accessOk: bool, refreshOk: bool): (r: TokenPair)
    ensures r.err.None? <==> accessOk && refreshOk
    ensures r.err.Some? ==> r.access == NoToken && r.refresh == NoToken
    ensures r.err.None? ==>
      && GenerateJWT(key, userID, isAdmin, now, true) == Ok(r.access)
      && GenerateRefreshToken(key, userID, isAdmin, now, true) == Ok(r.refresh)
  {
    match GenerateJWT(key, userID, isAdmin, now, accessOk)
    case Err(e) => TokenPair(NoToken, NoToken, Some(e))
    case Ok(access) =>
      match GenerateRefreshToken(key, userID, isAdmin, now, refreshOk)
      case Err(e) => TokenPair(NoToken, NoToken, Some(e))
      case Ok(refresh) => TokenPair(access, refresh, None)
  }

  /** `ValidateJWT`: parse, then the code's own `exp.Before(now)` check. That
      check never fires after a successful parse, so the token is accepted
      exactly when it parses: subject and admin flag are not looked at. */
  function ValidateJWT(key: string, token: Token, now: int): (r: Outcome<JwtError>)
    ensures r.Pass? <==> Parse(key, token, now).Ok?
  {
    match Parse(key, token, now)
    case Err(e) => Fail(e)
    case Ok(c) => if c.exp.Some? && c.exp.value < now then Fail(Expired) else Pass
  }

  /** `ValidateAdminJWT`: as `ValidateJWT`, and the admin claim must be set;
      the subject is not looked at. */
  function ValidateAdminJWT(key: string, token: Token, now: int): (r: Outcome<JwtError>)
    ensures r.Pass? <==> Parse(key, token, now).Ok? && token.claims.isAdmin
    ensures Parse(key, token, now).Ok? && !token.claims.isAdmin ==> r == Fail(NotAdmin)
  {
    match Parse(key, token, now)
    case Err(e) => Fail(e)
    case Ok(c) =>
      if c.exp.Some? && c.exp.value < now then Fail(Expired)
      else if !c.isAdmin then Fail(NotAdmin)
      else Pass
  }

  /** Go's `(int, bool, error)` result of `ValidateRefreshToken`. */
  datatype RefreshIdentity = RefreshIdentity(userID: int, isAdmin: bool, err: Option<JwtError>)

  /** `ValidateRefreshToken`: parse, check expiry, require subject "refresh",
      then read the user id from `jti` with `%d`. Every failure yields
      `(0, false, err)`. */
  function ValidateRefreshToken(key: string, token: Token, now: int): (r: RefreshIdentity)
    ensures r.err.Some? ==> r.userID == 0 && !r.isAdmin
    ensures r.err.None? <==>
      && Parse(key, token, now).Ok?
      && token.claims.sub == RefreshSubject
      && Decimal.Scan(token.claims.jti).Ok?
    ensures r.err.None? ==>
      Decimal.Scan(token.claims.jti) == Ok(r.userID) && r.isAdmin == token.claims.isAdmin
  {
    match Parse(key, token, now)
    case Err(e) => RefreshIdentity(0, false, Some(e))
    case Ok(c) =>
      if c.exp.Some? && c.exp.value < now then RefreshIdentity(0, false, Some(Expired))
      else if c.sub != RefreshSubject then RefreshIdentity(0, false, Some(InvalidTokenType))
      else
        match Decimal.Scan(c.jti)
        case Err(_) => RefreshIdentity(0, false, Some(InvalidUserId))
        case Ok(id) => RefreshIdentity(id, c.isAdmin, None)
  }

  /** An access token passes `ValidateJWT` from the second it is issued until
      just before its expiry, and at no other time. */
  lemma AccessTokenWindow(key: string, userID: int, isAdmin: bool, issued: int, now: int)
    ensures ValidateJWT(key, GenerateJWT(key, userID, isAdmin, issued, true).value, now).Pass?
            <==> issued <= now < issued + AccessTokenLifetime
  {
  }

  /** Round trip: an unexpired refresh token gives back the user id and admin
      flag it was issued for. */
  lemma RefreshRoundTrip(key: string, userID: int, isAdmin: bool, issued: int, now: int)
    requires Decimal.IsInt64(userID)
    requires issued <= now < issued + RefreshTokenLifetime
    ensures ValidateRefreshToken(key, GenerateRefreshToken(key, userID, isAdmin, issued, true).value, now)
            == RefreshIdentity(userID, isAdmin, None)
  {
    Decimal.ScanFormat(userID);
  }

  /** An access token is never accepted as a refresh token. */
  lemma RefreshValidatorRefusesAccessToken(key: string, userID: int, isAdmin: bool, issued: int, now: int)
    ensures ValidateRefreshToken(key, GenerateJWT(key, userID, isAdmin, issued, true).value, now)
            .err.Some?
  {
  }

  /** `ValidateJWT` accepts an unexpired refresh token as well. */
  lemma AccessValidatorAcceptsRefreshToken(key: string, userID: int, isAdmin: bool, issued: int, now: int)
    requires issued <= now < issued + RefreshTokenLifetime
    ensures ValidateJWT(key, GenerateRefreshToken(key, userID, isAdmin, issued, true).value, now).Pass?
  {
  }

  /** `ValidateAdminJWT` accepts an admin's unexpired refresh token. */
  lemma AdminValidatorAcceptsRefreshToken(key: string, userID: int, issued: int, now: int)
    requires issued <= now < issued + RefreshTokenLifetime
    ensures ValidateAdminJWT(key, GenerateRefreshToken(key, userID, true, issued, true).value, now).Pass?
  {
  }

  /** All three validators refuse a non-HMAC algorithm and a token whose
      expiry is not after `now`. */
  lemma ValidatorsRefuse(key: string, token: Token, now: int)
    requires token.Compact?
    requires !IsHmac(token.alg) || (token.claims.exp.Some? && token.claims.exp.value <= now)
    ensures ValidateJWT(key, token, now).Fail?
    ensures ValidateAdminJWT(key, token, now).Fail?
    ensures ValidateRefreshToken(key, token, now) == RefreshIdentity(0, false, ValidateRefreshToken(key, token, now).err)
    ensures ValidateRefreshToken(key, token, now).err.Some?
  {
  }
}
