/** The account service of backend/services/user_servicies.go. The clock
    (`now`), the password hash function, the random digit draws, the signing
    key and the outcome of every external call (store driver, SMTP delivery,
    token signing) are parameters. */
module UserService {
  import opened Wrappers
  import opened Model
  import Email
  import Jwt
  import Decimal
  import opened UserClient

  /** `time.Now().Add(15 * time.Minute)`: a code's lifetime, in seconds. */
  const CodeLifetime: int := 900

  const RegisteredMessage: string :=
    "User registered successfully. Please check your email for verification code."
  const VerifiedMessage: string := "Email verified successfully. You can now log in."
  const VerifiedWithoutTokensMessage: string := "Email verified successfully"

  datatype RegisterRequest = RegisterRequest(email: string, password: string, firstName: string, lastName: string)
  datatype RegisterResponse = RegisterResponse(message: string, email: string)
  datatype VerifyEmailRequest = VerifyEmailRequest(email: string, code: string)
  datatype VerifyEmailResponse = VerifyEmailResponse(message: string, accessToken: Jwt.Token, refreshToken: Jwt.Token)
  datatype LoginResponse = LoginResponse(accessToken: Jwt.Token, refreshToken: Jwt.Token, name: string, surname: string)
  datatype UserDto = UserDto(id: int, email: string, password: string, firstName: string, lastName: string,
                             isAdmin: bool, isVerified: bool)
  datatype RefreshTokenResponse = RefreshTokenResponse(accessToken: Jwt.Token, refreshToken: Jwt.Token)

  /** One constructor per error the service returns. */
  datatype ServiceError =
    | ExistenceCheckFailed(cause: DbError)
    | EmailTaken(email: string)
    | CodeGenerationFailed
    | CreateFailed(cause: DbError)
    | UserNotFound
    | AlreadyVerified
    | InvalidCode
    | CodeExpired
    | VerifyFailed(cause: DbError)
    | CodeUpdateFailed(cause: DbError)
    | EmailSendFailed
    | LoginLookupFailed(cause: DbError)
    | NotVerified
    | InvalidPassword
    | TokenGenerationFailed(reason: Jwt.JwtError)
    | Lookup(cause: DbError)
    | InvalidRefreshToken
    | TokenRejected(reason: Jwt.JwtError)
    | AdminTokenRejected(reason: Jwt.JwtError)

  /** The verification workflow on the abstract lifecycle state, with the
      checks in the order `VerifyEmail` makes them: unknown account, already
      verified, wrong code, expired code (strictly after the expiry). */
  function AttemptVerify(s: AccountState, code: string, now: int): (r: Result<AccountState, ServiceError>)
    ensures r.Ok? <==> s.Unverified? && s.code == code && now <= s.expiresAt
    ensures r.Ok? ==> r.value == Verified
    ensures s.Unregistered? <==> r == Err(UserNotFound)
  {
    match s
    case Unregistered => Err(UserNotFound)
    case Verified => Err(AlreadyVerified)
    case Unverified(expected, expiresAt) =>
      if expected != code then Err(InvalidCode)
      else if now > expiresAt then Err(CodeExpired)
      else Ok(Verified)
  }

  /** The consequences of that order: a verified account is always refused, a
      wrong code is reported as wrong even once expired, the right code is
      accepted up to and including the expiry second and refused after it,
      and success leads to a state where every further attempt is refused. */
  lemma VerificationOrder(s: AccountState, code: string, now: int)
    ensures s.Verified? ==> AttemptVerify(s, code, now) == Err(AlreadyVerified)
    ensures s.Unverified? && s.code != code ==> AttemptVerify(s, code, now) == Err(InvalidCode)
    ensures s.Unverified? && s.code == code ==>
      (AttemptVerify(s, code, now).Ok? <==> now <= s.expiresAt)
    ensures s.Unverified? && s.code == code && now > s.expiresAt ==>
      AttemptVerify(s, code, now) == Err(CodeExpired)
    ensures AttemptVerify(s, code, now).Ok? ==>
      forall code', later :: AttemptVerify(AttemptVerify(s, code, now).value, code', later) == Err(AlreadyVerified)
  {
  }

  /** `Register`: refuses a taken email (and aborts on any lookup failure
      other than not-found) without writing; otherwise stores an unverified,
      non-admin account with the hashed password and a fresh code expiring in
      fifteen minutes. The outcome of the verification email is ignored. */
  method Register(store: UserStore, req: RegisterRequest, now: int, hash: string -> string,
                  draws: seq<Email.Draw>, readOk: bool, writeOk: bool, mailOk: bool)
    returns (r: Result<RegisterResponse, ServiceError>)
    requires store.Valid()
    requires Email.CodeLength <= |draws|
    modifies store
    ensures store.Valid()
    ensures Evolves(old(store.rows), store.rows)
    ensures AllWellFormed(old(store.rows)) ==> AllWellFormed(store.rows)
    ensures !readOk ==> r == Err(ExistenceCheckFailed(Wrapped(DriverFailure)))
    ensures readOk && HasEmail(old(store.rows), req.email) ==> r == Err(EmailTaken(req.email))
    ensures readOk && !HasEmail(old(store.rows), req.email) && Email.DrawnCode(draws).None? ==>
      r == Err(CodeGenerationFailed)
    ensures readOk && !HasEmail(old(store.rows), req.email) && Email.DrawnCode(draws).Some? && !writeOk ==>
      r == Err(CreateFailed(Wrapped(DriverFailure)))
    ensures r.Err? ==> store.rows == old(store.rows) && store.nextId == old(store.nextId)
    ensures r.Ok? <==>
      readOk && !HasEmail(old(store.rows), req.email) && Email.DrawnCode(draws).Some? && writeOk
    ensures r.Ok? ==>
      var id := old(store.nextId);
      var code := Email.DrawnCode(draws).value;
      && r.value == RegisterResponse(RegisteredMessage, req.email)
      && store.nextId == old(store.nextId) + 1
      && store.rows == old(store.rows)[id := UserModel(id, req.email, hash(req.password), req.firstName, req.lastName,
                                                       false, false, now, Some(code), Some(now + CodeLifetime))]
      && StateOf(old(store.rows), req.email) == Unregistered
      && StateOf(store.rows, req.email) == Unverified(code, now + CodeLifetime)
  {
    var existing, lookupErr := store.GetUserByEmail(req.email, readOk);
    if lookupErr.Some? && lookupErr.value != RecordNotFound {
      return Err(ExistenceCheckFailed(lookupErr.value));
    }
    if existing.id != 0 {
      return Err(EmailTaken(req.email));
    }
    var passwordHash := hash(req.password);
    var code, codeErr := Email.GenerateVerificationCode(draws);
    if codeErr.Some? {
      return Err(CodeGenerationFailed);
    }
    var newUser := UserModel(0, req.email, passwordHash, req.firstName, req.lastName,
                             false, false, ZeroTime, Some(code), Some(now + CodeLifetime));
    ghost var before := store.rows;
    var created, createErr := store.CreateUser(newUser, now, writeOk);
    if createErr.Some? {
      return Err(CreateFailed(createErr.value));
    }
    IdOfEmailUnique(store.rows, req.email, created.id);
    assert forall id :: id in before ==> id < created.id;
    // SendVerificationEmail(created.email, code, created.firstName): its outcome,
    // mailOk, does not change the result.
    r := Ok(RegisterResponse(RegisteredMessage, created.email));
  }

  /** `VerifyEmail`: the lifecycle transition Unverified -> Verified, guarded
      as `AttemptVerify` says. A refused attempt writes nothing. On success the
      account is verified with its code cleared, and the response carries a
      token pair for the account's id and existing admin flag, or no tokens
      when signing fails; the welcome email's outcome is ignored. */
  method VerifyEmail(store: UserStore, req: VerifyEmailRequest, now: int, key: string,
                     readOk: bool, writeOk: bool, mailOk: bool, accessSignOk: bool, refreshSignOk: bool)
    returns (r: Result<VerifyEmailResponse, ServiceError>)
    requires store.Valid()
    modifies store
    ensures store.Valid() && store.nextId == old(store.nextId)
    ensures Evolves(old(store.rows), store.rows)
    ensures AllWellFormed(old(store.rows)) ==> AllWellFormed(store.rows)
    ensures !readOk ==> r == Err(UserNotFound)
    ensures readOk && AttemptVerify(old(StateOf(store.rows, req.email)), req.code, now).Err? ==>
      r == Err(AttemptVerify(old(StateOf(store.rows, req.email)), req.code, now).error)
    ensures readOk && AttemptVerify(old(StateOf(store.rows, req.email)), req.code, now).Ok? && !writeOk ==>
      r == Err(VerifyFailed(Wrapped(DriverFailure)))
    ensures r.Err? ==> store.rows == old(store.rows)
    ensures r.Ok? <==>
      readOk && AttemptVerify(old(StateOf(store.rows, req.email)), req.code, now).Ok? && writeOk
    ensures r.Ok? ==>
      var id := IdOfEmail(old(store.rows), req.email);
      var u := old(store.rows)[id];
      var pair := Jwt.GenerateTokenPair(key, u.id, u.isAdmin, now, accessSignOk, refreshSignOk);
      && store.rows == old(store.rows)[id := MarkVerified(u)]
      && StateOf(store.rows, req.email) == Verified
      && r.value == if pair.err.None?
                    then VerifyEmailResponse(VerifiedMessage, pair.access, pair.refresh)
                    else VerifyEmailResponse(VerifiedWithoutTokensMessage, Jwt.NoToken, Jwt.NoToken)
  {
    var user, lookupErr := store.GetUserByEmail(req.email, readOk);
    if lookupErr.Some? {
      return Err(UserNotFound);
    }
    if user.isVerified {
      return Err(AlreadyVerified);
    }
    if CodeRead(user) != req.code {
      return Err(InvalidCode);
    }
    if now > ExpiryRead(user) {
      return Err(CodeExpired);
    }
    ghost var before := store.rows;
    var writeErr := store.VerifyUserEmail(user.id, writeOk);
    if writeErr.Some? {
      return Err(VerifyFailed(writeErr.value));
    }
    IdOfEmailUnique(store.rows, req.email, user.id);
    assert AllWellFormed(before) ==> AllWellFormed(store.rows) by {
      if AllWellFormed(before) {
        forall id | id in store.rows ensures WellFormed(store.rows[id]) {
          assert id != user.id ==> store.rows[id] == before[id];
        }
      }
    }
    // SendWelcomeEmail(user.email, user.firstName): its outcome, mailOk, does
    // not change the result.
    var pair := Jwt.GenerateTokenPair(key, user.id, user.isAdmin, now, accessSignOk, refreshSignOk);
    if pair.err.Some? {
      return Ok(VerifyEmailResponse(VerifiedWithoutTokensMessage, Jwt.NoToken, Jwt.NoToken));
    }
    r := Ok(VerifyEmailResponse(VerifiedMessage, pair.access, pair.refresh));
  }

  /** `ResendVerificationCode`: refuses an unknown or verified account without
      writing; otherwise stores a new code expiring in fifteen minutes, and
      only then sends it. A failed send fails the call but the new code stays. */
  method ResendVerificationCode(store: UserStore, email: string, now: int, draws: seq<Email.Draw>,
                                readOk: bool, writeOk: bool, mailOk: bool)
    returns (r: Outcome<ServiceError>)
    requires store.Valid()
    requires Email.CodeLength <= |draws|
    modifies store
    ensures store.Valid() && store.nextId == old(store.nextId)
    ensures Evolves(old(store.rows), store.rows)
    ensures AllWellFormed(old(store.rows)) ==> AllWellFormed(store.rows)
    ensures !readOk || old(StateOf(store.rows, email)).Unregistered? ==>
      r == Fail(UserNotFound) && store.rows == old(store.rows)
    ensures readOk && old(StateOf(store.rows, email)).Verified? ==>
      r == Fail(AlreadyVerified) && store.rows == old(store.rows)
    ensures readOk && old(StateOf(store.rows, email)).Unverified? && Email.DrawnCode(draws).None? ==>
      r == Fail(CodeGenerationFailed) && store.rows == old(store.rows)
    ensures readOk && old(StateOf(store.rows, email)).Unverified? && Email.DrawnCode(draws).Some? && !writeOk ==>
      r == Fail(CodeUpdateFailed(Wrapped(DriverFailure))) && store.rows == old(store.rows)
    ensures readOk && old(StateOf(store.rows, email)).Unverified? && Email.DrawnCode(draws).Some? && writeOk ==>
      var id := IdOfEmail(old(store.rows), email);
      var code := Email.DrawnCode(draws).value;
      && store.rows == old(store.rows)[id := old(store.rows)[id].(verificationCode := Some(code),
                                                                  codeExpiresAt := Some(now + CodeLifetime))]
      && StateOf(store.rows, email) == Unverified(code, now + CodeLifetime)
      && r == if mailOk then Pass else Fail(EmailSendFailed)
  {
    var user, lookupErr := store.GetUserByEmail(email, readOk);
    if lookupErr.Some? {
      return Fail(UserNotFound);
    }
    if user.isVerified {
      return Fail(AlreadyVerified);
    }
    var code, codeErr := Email.GenerateVerificationCode(draws);
    if codeErr.Some? {
      return Fail(CodeGenerationFailed);
    }
    ghost var before := store.rows;
    var writeErr := store.UpdateVerificationCode(user.id, code, now + CodeLifetime, writeOk);
    if writeErr.Some? {
      return Fail(CodeUpdateFailed(writeErr.value));
    }
    IdOfEmailUnique(store.rows, email, user.id);
    assert AllWellFormed(before) ==> AllWellFormed(store.rows) by {
      if AllWellFormed(before) {
        forall id | id in store.rows ensures WellFormed(store.rows[id]) {
          assert id != user.id ==> store.rows[id] == before[id];
        }
      }
    }
    // SendVerificationEmail(user.email, code, user.firstName)
    if !mailOk {
      return Fail(EmailSendFailed);
    }
    r := Pass;
  }

  /** `Login`: looks the account up by email; an unverified account is refused
      whatever the password, then the password hash must match; the answer is
      a token pair for the account's id and admin flag plus its names. */
  method Login(store: UserStore, email: string, password: string, hash: string -> string, now: int, key: string,
               readOk: bool, accessSignOk: bool, refreshSignOk: bool)
    returns (r: Result<LoginResponse, ServiceError>)
    requires store.Valid()
    ensures !readOk ==> r == Err(LoginLookupFailed(Wrapped(DriverFailure)))
    ensures readOk && StateOf(store.rows, email).Unregistered? ==> r == Err(LoginLookupFailed(Wrapped(RecordNotFound)))
    ensures readOk && StateOf(store.rows, email).Unverified? ==> r == Err(NotVerified)
    ensures readOk && StateOf(store.rows, email).Verified?
            && hash(password) != store.rows[IdOfEmail(store.rows, email)].passwordHash
            ==> r == Err(InvalidPassword)
    ensures readOk && StateOf(store.rows, email).Verified?
            && hash(password) == store.rows[IdOfEmail(store.rows, email)].passwordHash
            && !(accessSignOk && refreshSignOk)
            ==> r == Err(TokenGenerationFailed(if accessSignOk then Jwt.RefreshSigningFailed else Jwt.AccessSigningFailed))
    ensures r.Ok? <==>
      && readOk
      && StateOf(store.rows, email).Verified?
      && hash(password) == store.rows[IdOfEmail(store.rows, email)].passwordHash
      && accessSignOk && refreshSignOk
    ensures r.Ok? ==>
      var u := store.rows[IdOfEmail(store.rows, email)];
      var pair := Jwt.GenerateTokenPair(key, u.id, u.isAdmin, now, true, true);
      r.value == LoginResponse(pair.access, pair.refresh, u.firstName, u.lastName)
  {
    var user, lookupErr := store.GetUserByUsername(email, readOk);
    if lookupErr.Some? {
      return Err(LoginLookupFailed(lookupErr.value));
    }
    if !user.isVerified {
      return Err(NotVerified);
    }
    if hash(password) != user.passwordHash {
      return Err(InvalidPassword);
    }
    var pair := Jwt.GenerateTokenPair(key, user.id, user.isAdmin, now, accessSignOk, refreshSignOk);
    if pair.err.Some? {
      return Err(TokenGenerationFailed(pair.err.value));
    }
    r := Ok(LoginResponse(pair.access, pair.refresh, user.firstName, user.lastName));
  }

  /** `GetUserByID`: the stored account projected to the public record. The
      password is never filled in, and neither is the verified flag. */
  method GetUserByID(store: UserStore, id: int, readOk: bool) returns (r: Result<UserDto, ServiceError>)
    ensures r.Ok? <==> readOk && id in store.rows && store.rows[id].id != 0
    ensures r.Ok? ==>
      var u := store.rows[id];
      r.value == UserDto(u.id, u.email, "", u.firstName, u.lastName, u.isAdmin, false)
    ensures !readOk ==> r == Err(Lookup(Wrapped(DriverFailure)))
    ensures readOk && id !in store.rows ==> r == Err(Lookup(Wrapped(RecordNotFound)))
    ensures readOk && id in store.rows && store.rows[id].id == 0 ==> r == Err(Lookup(RecordNotFound))
  {
    var user, err := store.GetUserByID(id, readOk);
    if err.Some? {
      return Err(Lookup(err.value));
    }
    r := Ok(UserDto(user.id, user.email, "", user.firstName, user.lastName, user.isAdmin, false));
  }

  /** `VerifyToken`: accepts exactly the tokens `Jwt.Parse` accepts, access or
      refresh alike. */
  function VerifyToken(key: string, token: Jwt.Token, now: int): (r: Outcome<ServiceError>)
    ensures r.Pass? <==> Jwt.Parse(key, token, now).Ok?
    ensures r.Fail? ==> r.error.TokenRejected?
  {
    match Jwt.ValidateJWT(key, token, now)
    case Fail(e) => Fail(TokenRejected(e))
    case Pass => Pass
  }

  /** `VerifyAdminToken`: accepts exactly the parseable tokens whose admin
      claim is set, whatever their subject. */
  function VerifyAdminToken(key: string, token: Jwt.Token, now: int): (r: Outcome<ServiceError>)
    ensures r.Pass? <==> Jwt.Parse(key, token, now).Ok? && token.claims.isAdmin
    ensures r.Fail? ==> r.error.AdminTokenRejected?
  {
    match Jwt.ValidateAdminJWT(key, token, now)
    case Fail(e) => Fail(AdminTokenRejected(e))
    case Pass => Pass
  }

  /** `RefreshAccessToken`: a valid refresh token is exchanged for a new pair
      issued for the identity it carries; the old token stays usable. The new
      refresh token gives back that identity and the new access token is
      accepted, both from the moment of the exchange. */
  function RefreshAccessToken(key: string, token: Jwt.Token, now: int, accessSignOk: bool, refreshSignOk: bool)
    : (r: Result<RefreshTokenResponse, ServiceError>)
    ensures Jwt.ValidateRefreshToken(key, token, now).err.Some? ==> r == Err(InvalidRefreshToken)
    ensures r.Ok? <==> Jwt.ValidateRefreshToken(key, token, now).err.None? && accessSignOk && refreshSignOk
    ensures r.Ok? ==>
      var identity := Jwt.ValidateRefreshToken(key, token, now);
      && Jwt.ValidateRefreshToken(key, r.value.refreshToken, now) == identity
      && Jwt.ValidateJWT(key, r.value.accessToken, now).Pass?
      && r.value.accessToken.claims.isAdmin == identity.isAdmin
    ensures r.Ok? ==>
      var identity := Jwt.ValidateRefreshToken(key, token, now);
      var pair := Jwt.GenerateTokenPair(key, identity.userID, identity.isAdmin, now, true, true);
      && r.value == RefreshTokenResponse(pair.access, pair.refresh)
      && r.value.accessToken.claims.sub == Jwt.AccessSubject
      && r.value.accessToken.claims.jti == Decimal.Format(identity.userID)
      && r.value.accessToken.claims.exp == Some(now + Jwt.AccessTokenLifetime)
    ensures Jwt.ValidateRefreshToken(key, token, now).err.None? && !(accessSignOk && refreshSignOk) ==>
      r == Err(TokenGenerationFailed(if accessSignOk then Jwt.RefreshSigningFailed else Jwt.AccessSigningFailed))
  {
    var identity := Jwt.ValidateRefreshToken(key, token, now);
    if identity.err.Some? then Err(InvalidRefreshToken)
    else
      var pair := Jwt.GenerateTokenPair(key, identity.userID, identity.isAdmin, now, accessSignOk, refreshSignOk);
      if pair.err.Some? then Err(TokenGenerationFailed(pair.err.value))
      else
        Jwt.RefreshRoundTrip(key, identity.userID, identity.isAdmin, now, now);
        Ok(RefreshTokenResponse(pair.access, pair.refresh))
  }

  /** A chain of refreshes keeps the identity: refreshing a refresh token
      issued for (userID, isAdmin) at any second of its life yields a refresh
      token that again gives back (userID, isAdmin) for its whole life. */
  lemma RefreshKeepsIdentity(key: string, userID: int, isAdmin: bool, issued: int, now: int, later: int)
    requires Decimal.IsInt64(userID)
    requires issued <= now < issued + Jwt.RefreshTokenLifetime
    requires now <= later < now + Jwt.RefreshTokenLifetime
    ensures var previous := Jwt.GenerateRefreshToken(key, userID, isAdmin, issued, true).value;
            var exchanged := RefreshAccessToken(key, previous, now, true, true);
            && exchanged.Ok?
            && Jwt.ValidateRefreshToken(key, exchanged.value.refreshToken, later) == Jwt.RefreshIdentity(userID, isAdmin, None)
  {
    Jwt.RefreshRoundTrip(key, userID, isAdmin, issued, now);
    Jwt.RefreshRoundTrip(key, userID, isAdmin, now, later);
  }

  /** An access token cannot be exchanged for a new pair. */
  lemma RefreshRefusesAccessToken(key: string, userID: int, isAdmin: bool, issued: int, now: int)
    ensures RefreshAccessToken(key, Jwt.GenerateJWT(key, userID, isAdmin, issued, true).value, now, true, true)
            == Err(InvalidRefreshToken)
  {
  }
}
