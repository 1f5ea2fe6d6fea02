/** The token and credential lifecycle of AuthService
    (src/services/auth_service.py) as functions from the stores before a call
    to the outcome of the call and the stores after it. The stores are the
    users, refresh_tokens and password_reset_tokens tables and the broker's
    outbox; the clock, the uuids, the raw reset token and the bcrypt salts are
    parameters. */
module AuthModel {
  import opened Exceptions
  import opened Crypto
  import opened Jwt
  import opened Repo
  import opened Records
  import Security

  datatype World = World(
    users: TableState<User>,
    refreshTokens: TableState<RefreshRecord>,
    resetTokens: TableState<ResetRecord>,
    outbox: seq<Message>)

  /** A service call's outcome and the stores it leaves. */
  type Step<T> = Outcome<T, World>

  datatype TokenPair = TokenPair(accessToken: Token, refreshToken: Token)

  /** The four readings of the clock login_user makes, in order: for the
      refresh token's expiry, inside create_access_token, inside
      create_refresh_token, and for the stored record's expiry. */
  datatype LoginClock = LoginClock(expiryAt: int, accessAt: int, refreshAt: int, recordAt: int)

  /** What the database keeps true: unique keys below each counter, unique
      e-mails, unique jtis, unique lookup hashes. */
  ghost predicate Inv(w: World)
  {
    && WellFormed(w.users) && UniqueBy(w.users.rows, EmailOf)
    && WellFormed(w.refreshTokens) && UniqueBy(w.refreshTokens.rows, JtiOf)
    && WellFormed(w.resetTokens) && UniqueBy(w.resetTokens.rows, LookupHashOf)
  }

  /** authenticate_user: the user with that e-mail, if the password verifies
      and the user is active. */
  function AuthenticateUser(w: World, email: string, password: string): (r: Result<Entry<User>>)
    ensures r.Ok? ==> && r.value in w.users.rows && r.value.data.email == email
                      && VerifyPassword(password, r.value.data.hashedPassword) && r.value.data.isActive
  {
    match Find(w.users, ByEmail(email))
    case Err(e) => Err(e)
    case Ok(None) => Err(IncorrectCredentials)
    case Ok(Some(u)) =>
      FindSome(w.users, ByEmail(email));
      if !VerifyPassword(password, u.data.hashedPassword) then Err(IncorrectCredentials)
      else if !u.data.isActive then Err(InactiveUser)
      else Ok(u)
  }

  /** now + timedelta(days=refresh_expire_day). */
  function RefreshExpiry(settings: Security.JwtSettings, now: int): int
  {
    now + settings.refreshExpireDays * Security.SecondsPerDay
  }

  /** The refresh record login_user stores. */
  function LoginRecord(settings: Security.JwtSettings, user: Entry<User>, clock: LoginClock, jti: Uuid): RefreshRecord
  {
    RefreshRecord(user.id, jti, RefreshExpiry(settings, clock.recordAt))
  }

  /** login_user: an access token, a refresh token carrying jti, and one new
      refresh record; the unique jti index refuses a jti already stored. */
  function LoginUser(
    w: World, settings: Security.JwtSettings, user: Entry<User>, clock: LoginClock, jti: Uuid, accessUuid: Uuid): (s: Step<TokenPair>)
  {
    var access := Security.CreateAccessToken(settings, user.id, clock.accessAt, accessUuid);
    // The fallback uuid of create_refresh_token is never drawn: jti is not empty.
    var refresh := Security.CreateRefreshToken(settings, user.id, jti, RefreshExpiry(settings, clock.expiryAt), clock.refreshAt, jti);
    if JtiInUse(w.refreshTokens, jti) then Outcome(Err(IntegrityError), w)
    else Outcome(Ok(TokenPair(access, refresh)),
                 w.(refreshTokens := Inserted(w.refreshTokens, LoginRecord(settings, user, clock, jti))))
  }

  /** get_token: the record of (userId, jti); an expired one is deleted
      before the error is raised. A record expiring exactly now is valid. */
  function GetToken(w: World, userId: int, jti: string, now: int): (s: Step<Entry<RefreshRecord>>)
  {
    match Find(w.refreshTokens, ByUserAndJti(userId, jti))
    case Err(e) => Outcome(Err(e), w)
    case Ok(None) => Outcome(Err(InvalidToken), w)
    case Ok(Some(token)) =>
      if token.data.expiresAt < now then
        Outcome(Err(InvalidToken), w.(refreshTokens := Deleted(w.refreshTokens, ById(token.id))))
      else Outcome(Ok(token), w)
  }

  /** update_refresh_token: rotation. The presented record is deleted and a
      fresh login follows. */
  function UpdateRefreshToken(
    w: World, settings: Security.JwtSettings, user: Entry<User>, jti: string, now: int,
    clock: LoginClock, newJti: Uuid, accessUuid: Uuid): (s: Step<TokenPair>)
  {
    var g := GetToken(w, user.id, jti, now);
    match g.result
    case Err(e) => Outcome(Err(e), g.state)
    case Ok(token) =>
      LoginUser(g.state.(refreshTokens := Deleted(g.state.refreshTokens, ById(token.id))), settings, user, clock, newJti, accessUuid)
  }

  /** logout_user: decodes the refresh token at decodeAt, reads its "jti",
      and deletes that one session of userId. */
  function LogoutUser(
    w: World, settings: Security.JwtSettings, userId: int, refreshToken: Token, decodeAt: int, now: int): (s: Step<()>)
  {
    var payload := Security.DecodeToken(settings, refreshToken, decodeAt);
    if payload.Err? then Outcome(Err(payload.error), w)
    else if "jti" !in payload.value then Outcome(Err(KeyError("jti")), w)
    else
      DecodedClaimsAreValid(refreshToken, settings.secretKey, settings.algorithm, decodeAt);
      var g := GetToken(w, userId, payload.value["jti"].s, now);
      match g.result
      case Err(e) => Outcome(Err(e), g.state)
      case Ok(token) => Outcome(Ok(()), g.state.(refreshTokens := Deleted(g.state.refreshTokens, ById(token.id))))
  }

  /** The record create_reset_token stores for a raw token. */
  function ResetRecordFor(settings: Security.JwtSettings, user: Entry<User>, rawToken: string, salt: nat, now: int): ResetRecord
  {
    ResetRecord(user.id, HashTokenSha256(rawToken), HashPassword(rawToken, salt),
                now + settings.resetTokenExpireMinutes * Security.SecondsPerMinute)
  }

  /** create_reset_token: silent for an unknown e-mail; otherwise one record
      (the unique lookup_hash refuses a hash already stored) and, after it,
      one message to the reset queue. */
  function CreateResetToken(
    w: World, settings: Security.JwtSettings, email: string, rawToken: string, salt: nat, now: int): (s: Step<()>)
  {
    match Find(w.users, ByEmail(email))
    case Err(e) => Outcome(Err(e), w)
    case Ok(None) => Outcome(Ok(()), w)
    case Ok(Some(user)) =>
      var record := ResetRecordFor(settings, user, rawToken, salt, now);
      if LookupHashInUse(w.resetTokens, record.lookupHash) then Outcome(Err(IntegrityError), w)
      else Outcome(Ok(()), w.(resetTokens := Inserted(w.resetTokens, record),
                                outbox := w.outbox + [Message(ResetQueue, user.data.email, rawToken)]))
  }

  /** update_user_password: sets the hash of newPassword on the user with key
      userId; the row update returns is dropped. */
  function UpdateUserPassword(w: World, userId: int, newPassword: string, salt: nat): (s: Step<()>)
  {
    var assign := SetPassword(HashPassword(newPassword, salt));
    var r := UpdateResult(w.users, ById(userId), assign);
    Outcome(if r.Err? then Err(r.error) else Ok(()), w.(users := Updated(w.users, ById(userId), assign)))
  }

  /** reset_password: lookup by hash, expiry (lazy delete), credential check,
      owner check, then the record's deletion followed by the new password. */
  function ResetPassword(
    w: World, token: string, newPassword: string, now: int, salt: nat): (s: Step<()>)
  {
    match Find(w.resetTokens, ByLookupHash(HashTokenSha256(token)))
    case Err(e) => Outcome(Err(e), w)
    case Ok(None) => Outcome(Err(InvalidToken), w)
    case Ok(Some(record)) =>
      if record.data.expiresAt < now then
        Outcome(Err(InvalidToken), w.(resetTokens := Deleted(w.resetTokens, ById(record.id))))
      else if !VerifyPassword(token, record.data.hashedToken) then Outcome(Err(IncorrectCredentials), w)
      else
        match Find(w.users, ById(record.data.userId))
        case Err(e) => Outcome(Err(e), w)
        case Ok(None) => Outcome(Err(InvalidToken), w)
        case Ok(Some(user)) =>
          UpdateUserPassword(w.(resetTokens := Deleted(w.resetTokens, ById(record.id))), user.id, newPassword, salt)
  }

  /** change_password: old password checked against the caller's row, new
      hash stored, then every refresh record of the user deleted. */
  function ChangePassword(
    w: World, user: Entry<User>, oldPassword: string, newPassword: string, salt: nat): (s: Step<()>)
  {
    if !VerifyPassword(oldPassword, user.data.hashedPassword) then Outcome(Err(IncorrectOldPassword), w)
    else
      var u := UpdateUserPassword(w, user.id, newPassword, salt);
      if u.result.Err? then u
      else Outcome(Ok(()), u.state.(refreshTokens := Deleted(u.state.refreshTokens, ByUser(user.id))))
  }

  /** The stores after the request's session ends: committed when the call
      returned, rolled back when it raised (db_helper.get_session). */
  function Committed<T>(before: World, s: Step<T>): (w: World)
    ensures s.result.Err? ==> w == before
  {
    if s.result.Ok? then s.state else before
  }
}
