/** Token issuing and decoding of the current Security class
    (src/core/security/security.py): which claims a token carries, where its
    "jti" comes from and which of three sources decides its "exp". */
module Security {
  import opened Exceptions
  import opened Text
  import opened Jwt

  const AccessToken := "access"
  const RefreshToken := "refresh"
  const SecondsPerDay := 86400
  const SecondsPerMinute := 60

  /** The jwt section of the settings: fixed for the life of the process and
      threaded through every call. */
  datatype JwtSettings = JwtSettings(
    secretKey: string,
    algorithm: string,
    accessExpireDays: int,
    refreshExpireDays: int,
    resetTokenExpireMinutes: int)

  /** Python truthiness of the optional arguments of _create_token: a None
      or a zero timedelta is false, a None or an empty jti is false. */
  predicate TruthyDelta(d: Option<int>) { d.Some? && d.value != 0 }

  predicate TruthyText(s: Option<string>) { s.Some? && s.value != "" }

  /** The claims _create_token hands to the encoder. The caller's payload is
      a value here, so it cannot be changed by the call (the source copies
      it for the same reason). */
  function CreateClaims(
    tokenType: string, payload: Claims, expireDays: int, expireTimedelta: Option<int>,
    jti: Option<string>, refreshExp: Option<int>, now: int, freshUuid: string): (c: Claims)
    ensures "type" in c && c["type"] == Text(tokenType)
    ensures "iat" in c && c["iat"] == Number(now)
    ensures refreshExp.Some? ==> "exp" in c && c["exp"] == Number(refreshExp.value)
    ensures refreshExp.None? && TruthyDelta(expireTimedelta) ==>
      "exp" in c && c["exp"] == Number(now + expireTimedelta.value)
    ensures refreshExp.None? && !TruthyDelta(expireTimedelta) ==>
      "exp" in c && c["exp"] == Number(now + expireDays * SecondsPerDay)
    ensures tokenType == AccessToken ==> "jti" in c && c["jti"] == Text(freshUuid)
    ensures tokenType == RefreshToken && TruthyText(jti) ==> "jti" in c && c["jti"] == Text(jti.value)
    ensures tokenType == RefreshToken && !TruthyText(jti) ==> "jti" in c && c["jti"] == Text(freshUuid)
    ensures tokenType != AccessToken && tokenType != RefreshToken ==>
      ("jti" in c <==> "jti" in payload) && ("jti" in payload ==> c["jti"] == payload["jti"])
    ensures forall k :: k != "type" && k != "exp" && k != "iat" && k != "jti" ==>
      (k in c <==> k in payload) && (k in payload ==> c[k] == payload[k])
  {
    var expire := if TruthyDelta(expireTimedelta) then now + expireTimedelta.value
                  else now + expireDays * SecondsPerDay;
    var base := payload["type" := Text(tokenType)]["exp" := Number(expire)]["iat" := Number(now)];
    var withJti :=
      if tokenType == AccessToken then base["jti" := Text(freshUuid)]
      else if tokenType == RefreshToken then base["jti" := Text(if TruthyText(jti) then jti.value else freshUuid)]
      else base;
    withJti["exp" := Number(if refreshExp.Some? then refreshExp.value else expire)]
  }

  /** _create_token: the assembled claims, signed with the given key. */
  function CreateToken(
    settings: JwtSettings, tokenType: string, payload: Claims, secretKey: string, expireDays: int,
    expireTimedelta: Option<int>, jti: Option<string>, refreshExp: Option<int>,
    now: int, freshUuid: string): (t: Token)
    ensures t.Signed? && t.key == secretKey && t.algorithm == settings.algorithm
    ensures t.claims == CreateClaims(tokenType, payload, expireDays, expireTimedelta, jti, refreshExp, now, freshUuid)
  {
    Encode(CreateClaims(tokenType, payload, expireDays, expireTimedelta, jti, refreshExp, now, freshUuid),
           secretKey, settings.algorithm)
  }

  /** The claims of an access token for user userId issued at now. */
  predicate IsAccessClaims(c: Claims, settings: JwtSettings, userId: nat, now: int, jti: string)
  {
    c == map["sub" := Text(IntToString(userId)), "type" := Text(AccessToken),
             "exp" := Number(now + settings.accessExpireDays * SecondsPerDay),
             "iat" := Number(now), "jti" := Text(jti)]
  }

  /** create_access_token: subject str(id), type "access", a fresh jti and an
      expiry access_expire_day days after now, signed with the secret key. */
  function CreateAccessToken(settings: JwtSettings, userId: nat, now: int, freshUuid: string): (t: Token)
    ensures t.Signed? && t.key == settings.secretKey && t.algorithm == settings.algorithm
    ensures IsAccessClaims(t.claims, settings, userId, now, freshUuid)
  {
    var t := CreateToken(settings, AccessToken, map["sub" := Text(IntToString(userId))], settings.secretKey,
                         settings.accessExpireDays, None, None, None, now, freshUuid);
    assert t.claims.Keys == {"sub", "type", "exp", "iat", "jti"};
    t
  }

  /** create_refresh_token: subject str(id), type "refresh", the caller's
      jti (a fresh one only if the caller's is empty) and an expiry equal to
      refresh_exp, whatever the configured lifetimes. */
  function CreateRefreshToken(
    settings: JwtSettings, userId: nat, jti: string, refreshExp: int, now: int, freshUuid: string): (t: Token)
    ensures t.Signed? && t.key == settings.secretKey && t.algorithm == settings.algorithm
    ensures t.claims == map["sub" := Text(IntToString(userId)), "type" := Text(RefreshToken),
                            "exp" := Number(refreshExp), "iat" := Number(now),
                            "jti" := Text(if jti != "" then jti else freshUuid)]
  {
    var t := CreateToken(settings, RefreshToken, map["sub" := Text(IntToString(userId))], settings.secretKey,
                         settings.accessExpireDays, None, Some(jti), Some(refreshExp), now, freshUuid);
    assert t.claims.Keys == {"sub", "type", "exp", "iat", "jti"};
    t
  }

  /** decode_token: every failure of the library, whatever its cause, becomes
      the one ValueError("Invalid or expired token"). */
  function DecodeToken(settings: JwtSettings, token: Token, now: int): (r: Result<Claims>)
    ensures r.Err? ==> r.error == InvalidOrExpiredToken
    ensures r.Ok? <==> Decode(token, settings.secretKey, settings.algorithm, now).Ok?
    ensures r.Ok? ==> r.value == Decode(token, settings.secretKey, settings.algorithm, now).value
  {
    match Decode(token, settings.secretKey, settings.algorithm, now)
    case Ok(c) => Ok(c)
    case Err(_) => Err(InvalidOrExpiredToken)
  }

  /** A bad signature, a malformed token and an expired token are told apart
      by the library but not by decode_token. */
  lemma DecodeTokenFailuresAreUniform(settings: JwtSettings, c: Claims, otherKey: string, text: string, now: int)
    requires otherKey != settings.secretKey
    requires WellTyped(c) && "exp" in c && c["exp"].n < now
    ensures DecodeToken(settings, Encode(c, otherKey, settings.algorithm), now) == Err(InvalidOrExpiredToken)
    ensures DecodeToken(settings, Malformed(text), now) == Err(InvalidOrExpiredToken)
    ensures DecodeToken(settings, Encode(c, settings.secretKey, settings.algorithm), now) == Err(InvalidOrExpiredToken)
  {
  }

  /** An access token decodes, up to its expiry, to exactly the claims it was
      issued with; its subject parses back to the user id. */
  lemma AccessTokenRoundTrip(settings: JwtSettings, userId: nat, issuedAt: int, uuid: string, now: int)
    requires now <= issuedAt + settings.accessExpireDays * SecondsPerDay
    ensures var r := DecodeToken(settings, CreateAccessToken(settings, userId, issuedAt, uuid), now);
      && r.Ok? && IsAccessClaims(r.value, settings, userId, issuedAt, uuid)
      && ParseInt(r.value["sub"].s) == Ok(userId)
  {
    var t := CreateAccessToken(settings, userId, issuedAt, uuid);
    DecodeEncode(t.claims, settings.secretKey, settings.algorithm, now);
    ParseIntOfIntToString(userId);
  }

  /** A refresh token decodes, up to its expiry, to its claims, carrying the
      jti it was issued with. */
  lemma RefreshTokenRoundTrip(
    settings: JwtSettings, userId: nat, jti: string, refreshExp: int, issuedAt: int, uuid: string, now: int)
    requires jti != "" && now <= refreshExp
    ensures var r := DecodeToken(settings, CreateRefreshToken(settings, userId, jti, refreshExp, issuedAt, uuid), now);
      && r.Ok? && r.value["jti"] == Text(jti) && r.value["type"] == Text(RefreshToken)
      && r.value["exp"] == Number(refreshExp) && ParseInt(r.value["sub"].s) == Ok(userId)
  {
    var t := CreateRefreshToken(settings, userId, jti, refreshExp, issuedAt, uuid);
    DecodeEncode(t.claims, settings.secretKey, settings.algorithm, now);
    ParseIntOfIntToString(userId);
  }
}
