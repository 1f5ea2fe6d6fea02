/** The bearer-token gate (src/core/security/authentication.py): header
    present, token decodes, token type matches, subject names a user, user
    active. Each step is a function of the request, the settings, the moment
    of the check and the users table it reads. */
module Authentication {
  import opened Exceptions
  import opened Text
  import opened Jwt
  import opened Repo
  import opened Records
  import opened Users
  import Security

  /** get_current_token_payload; credentials is None when the request has no
      Authorization header. decode_token raises ValueError, which the handler
      for JWTError does not catch, so that error goes out unchanged. */
  function GetCurrentTokenPayload(settings: Security.JwtSettings, credentials: Option<Token>, now: int): (r: Result<Claims>)
    ensures credentials.None? ==> r == Err(HeaderMissing)
    ensures credentials.Some? ==> r == Security.DecodeToken(settings, credentials.value, now)
    ensures r.Err? ==> r.error == HeaderMissing || r.error == InvalidOrExpiredToken
  {
    match credentials
    case None => Err(HeaderMissing)
    case Some(token) => Security.DecodeToken(settings, token, now)
  }

  /** validate_token: payload.get("type") must equal tokenType. */
  function ValidateToken(payload: Claims, tokenType: string): (r: Result<bool>)
    ensures r == Ok(true) <==> "type" in payload && payload["type"] == Text(tokenType)
    ensures !("type" in payload && payload["type"] == Text(tokenType)) ==> r == Err(InvalidTokenType(tokenType))
    ensures r.Ok? ==> r.value
  {
    if "type" in payload && payload["type"] == Text(tokenType) then Ok(true)
    else Err(InvalidTokenType(tokenType))
  }

  /** int(sub) for sub = payload.get("sub"). */
  function SubjectId(sub: Option<Claim>): (r: Result<int>)
    ensures sub.None? ==> r == Err(TypeError)
    ensures sub.Some? && sub.value.Text? ==> r == ParseInt(sub.value.s)
  {
    match sub
    case None => Err(TypeError)
    case Some(Text(s)) => ParseInt(s)
    case Some(Number(n)) => Ok(n)
  }

  /** get_user_by_token_sub: UserService.get(id=int(sub)). get raises
      NotFoundError itself, so the "Invalid token" raised after it is never
      reached. */
  function GetUserBySub(payload: Claims, users: TableState<User>): (r: Result<Entry<User>>)
    ensures r.Err? ==> r.error != InvalidToken
    ensures r.Ok? ==> r.value in users.rows
    ensures r.Ok? ==> SubjectId(if "sub" in payload then Some(payload["sub"]) else None) == Ok(r.value.id)
  {
    var id := SubjectId(if "sub" in payload then Some(payload["sub"]) else None);
    if id.Err? then Err(id.error) else GetUser(users, ById(id.value))
  }

  /** The token in credentials decodes at now to claims of type tokenType. */
  predicate DecodesAs(tokenType: string, settings: Security.JwtSettings, credentials: Option<Token>, now: int)
  {
    && credentials.Some?
    && Security.DecodeToken(settings, credentials.value, now).Ok?
    && var c := Security.DecodeToken(settings, credentials.value, now).value;
       "type" in c && c["type"] == Text(tokenType)
  }

  /** The subject of the claims the token in credentials decodes to. */
  function Subject(settings: Security.JwtSettings, credentials: Option<Token>, now: int): Option<Claim>
    requires credentials.Some? && Security.DecodeToken(settings, credentials.value, now).Ok?
  {
    var c := Security.DecodeToken(settings, credentials.value, now).value;
    if "sub" in c then Some(c["sub"]) else None
  }

  /** The dependency get_auth_user_from_token_of_type(tokenType): the payload
      first, then the type check, only then the user lookup. A user comes out
      only for a token that decodes, is of that type, and whose subject is
      the key of that stored user. */
  function GetAuthUserFromToken(
    tokenType: string, settings: Security.JwtSettings, credentials: Option<Token>, now: int,
    users: TableState<User>): (r: Result<Entry<User>>)
    ensures credentials.None? ==> r == Err(HeaderMissing)
    ensures r.Ok? <==>
      && DecodesAs(tokenType, settings, credentials, now)
      && GetUserBySub(Security.DecodeToken(settings, credentials.value, now).value, users).Ok?
    ensures r.Ok? ==>
      && r.value in users.rows
      && SubjectId(Subject(settings, credentials, now)) == Ok(r.value.id)
  {
    var payload := GetCurrentTokenPayload(settings, credentials, now);
    if payload.Err? then Err(payload.error)
    else
      var valid := ValidateToken(payload.value, tokenType);
      if valid.Err? then Err(valid.error)
      else GetUserBySub(payload.value, users)
  }

  /** get_current_auth_user: a user authenticated by an access token. */
  function GetCurrentAuthUser(
    settings: Security.JwtSettings, credentials: Option<Token>, now: int, users: TableState<User>): (r: Result<Entry<User>>)
    ensures credentials.None? ==> r == Err(HeaderMissing)
    ensures r.Ok? ==>
      && DecodesAs(Security.AccessToken, settings, credentials, now)
      && r.value in users.rows
      && SubjectId(Subject(settings, credentials, now)) == Ok(r.value.id)
  {
    GetAuthUserFromToken(Security.AccessToken, settings, credentials, now, users)
  }

  /** The converse of the contract of GetAuthUserFromToken: a token that
      decodes to the expected type and whose subject is the key of a stored
      user authenticates that user. */
  lemma GateAcceptsStoredSubject(
    tokenType: string, settings: Security.JwtSettings, credentials: Option<Token>, now: int,
    users: TableState<User>, u: Entry<User>)
    requires WellFormed(users) && u in users.rows
    requires DecodesAs(tokenType, settings, credentials, now)
    requires SubjectId(Subject(settings, credentials, now)) == Ok(u.id)
    ensures GetAuthUserFromToken(tokenType, settings, credentials, now, users) == Ok(u)
  {
    GetUserById(users, u.id);
  }

  /** check_user_is_active. */
  function CheckUserIsActive(employee: Entry<User>): (r: Result<bool>)
    ensures r == Ok(true) <==> employee.data.isActive
    ensures !employee.data.isActive ==> r == Err(InactiveUser)
    ensures r.Ok? ==> r.value
  {
    if !employee.data.isActive then Err(InactiveUser) else Ok(true)
  }

  /** Without a header the gate fails before any decoding, whatever the
      expected type and the users. */
  lemma MissingHeaderFirst(tokenType: string, settings: Security.JwtSettings, now: int, users: TableState<User>)
    ensures GetAuthUserFromToken(tokenType, settings, None, now, users) == Err(HeaderMissing)
  {
  }

  /** A token of the wrong type is refused without the users table being
      consulted: the answer is the same for any two tables. */
  lemma WrongTypeNeverReachesUsers(
    tokenType: string, settings: Security.JwtSettings, token: Token, now: int,
    users1: TableState<User>, users2: TableState<User>)
    requires Security.DecodeToken(settings, token, now).Ok?
    requires var c := Security.DecodeToken(settings, token, now).value;
      !("type" in c && c["type"] == Text(tokenType))
    ensures GetAuthUserFromToken(tokenType, settings, Some(token), now, users1) == Err(InvalidTokenType(tokenType))
    ensures GetAuthUserFromToken(tokenType, settings, Some(token), now, users2) == Err(InvalidTokenType(tokenType))
  {
  }

  /** The subject of a token names the user with key int(sub), and a missing
      user is NotFoundError. */
  lemma GetUserBySubId(payload: Claims, users: TableState<User>, id: int)
    requires WellFormed(users)
    requires "sub" in payload && payload["sub"].Text? && ParseInt(payload["sub"].s) == Ok(id)
    ensures forall e :: GetUserBySub(payload, users) == Ok(e) <==> e in users.rows && e.id == id
    ensures GetUserBySub(payload, users) == Err(NotFound) <==> forall i :: 0 <= i < |users.rows| ==> users.rows[i].id != id
  {
    GetUserById(users, id);
  }

  /** An access token issued to a user authenticates that user until it
      expires. */
  lemma AccessTokenAuthenticates(
    settings: Security.JwtSettings, users: TableState<User>, u: Entry<User>, issuedAt: int, uuid: string, now: int)
    requires WellFormed(users) && u in users.rows
    requires now <= issuedAt + settings.accessExpireDays * Security.SecondsPerDay
    ensures GetCurrentAuthUser(settings, Some(Security.CreateAccessToken(settings, u.id, issuedAt, uuid)), now, users) == Ok(u)
  {
    Security.AccessTokenRoundTrip(settings, u.id, issuedAt, uuid, now);
    var payload := Security.DecodeToken(settings, Security.CreateAccessToken(settings, u.id, issuedAt, uuid), now).value;
    GetUserBySubId(payload, users, u.id);
  }

  /** A refresh token is no access token: it never authenticates a request. */
  lemma RefreshTokenIsNotAccess(
    settings: Security.JwtSettings, users: TableState<User>, userId: nat, jti: string, refreshExp: int,
    issuedAt: int, uuid: string, now: int)
    requires jti != "" && now <= refreshExp
    ensures GetCurrentAuthUser(settings, Some(Security.CreateRefreshToken(settings, userId, jti, refreshExp, issuedAt, uuid)), now, users)
         == Err(InvalidTokenType(Security.AccessToken))
  {
    Security.RefreshTokenRoundTrip(settings, userId, jti, refreshExp, issuedAt, uuid, now);
  }

  /** An expired access token is refused with the error of decode_token. */
  lemma ExpiredAccessTokenRejected(
    settings: Security.JwtSettings, users: TableState<User>, userId: nat, issuedAt: int, uuid: string, now: int)
    requires issuedAt + settings.accessExpireDays * Security.SecondsPerDay < now
    ensures GetCurrentAuthUser(settings, Some(Security.CreateAccessToken(settings, userId, issuedAt, uuid)), now, users)
         == Err(InvalidOrExpiredToken)
  {
  }
}
