/** The older Security class (src/core/security.py), which the unit tests
    exercise: every token, whatever its type, gets a fresh jti, the expiry
    comes from the timedelta or the day count alone, and the user is a
    dictionary with an "id" key. Password hashing and decode_token are the
    same as in the current class and are modelled once, in Crypto and in
    Security.DecodeToken. */
module LegacySecurity {
  import opened Exceptions
  import opened Text
  import opened Jwt
  import Security

  /** _create_token of the older class. */
  function CreateClaims(
    tokenType: string, payload: Claims, expireDays: int, expireTimedelta: Option<int>,
    now: int, freshUuid: string): (c: Claims)
    ensures "type" in c && c["type"] == Text(tokenType)
    ensures "iat" in c && c["iat"] == Number(now)
    ensures "jti" in c && c["jti"] == Text(freshUuid)
    ensures Security.TruthyDelta(expireTimedelta) ==> "exp" in c && c["exp"] == Number(now + expireTimedelta.value)
    ensures !Security.TruthyDelta(expireTimedelta) ==>
      "exp" in c && c["exp"] == Number(now + expireDays * Security.SecondsPerDay)
    ensures forall k :: k != "type" && k != "exp" && k != "iat" && k != "jti" ==>
      (k in c <==> k in payload) && (k in payload ==> c[k] == payload[k])
  {
    var expire := if Security.TruthyDelta(expireTimedelta) then now + expireTimedelta.value
                  else now + expireDays * Security.SecondsPerDay;
    payload["type" := Text(tokenType)]["exp" := Number(expire)]["iat" := Number(now)]["jti" := Text(freshUuid)]
  }

  /** str(x) of a claim value. */
  function ClaimToString(v: Claim): string
  {
    match v
    case Text(s) => s
    case Number(n) => IntToString(n)
  }

  /** The token the older class issues to the user dictionary data:
      subject str(data["id"]); a KeyError when data has no "id". */
  function CreateTypedToken(
    settings: Security.JwtSettings, tokenType: string, data: Claims, expireDays: int,
    now: int, freshUuid: string): (r: Result<Token>)
    ensures "id" !in data ==> r == Err(KeyError("id"))
    ensures "id" in data ==>
      && r.Ok? && r.value.Signed?
      && r.value.key == settings.secretKey && r.value.algorithm == settings.algorithm
      && r.value.claims == map["sub" := Text(ClaimToString(data["id"])), "type" := Text(tokenType),
                               "exp" := Number(now + expireDays * Security.SecondsPerDay),
                               "iat" := Number(now), "jti" := Text(freshUuid)]
  {
    if "id" !in data then Err(KeyError("id"))
    else
      var c := CreateClaims(tokenType, map["sub" := Text(ClaimToString(data["id"]))], expireDays, None, now, freshUuid);
      assert c.Keys == {"sub", "type", "exp", "iat", "jti"};
      Ok(Encode(c, settings.secretKey, settings.algorithm))
  }

  /** create_access_token: type "access", access_expire_day days. */
  function CreateAccessToken(settings: Security.JwtSettings, data: Claims, now: int, freshUuid: string): (r: Result<Token>)
    ensures "id" !in data ==> r == Err(KeyError("id"))
    ensures "id" in data ==>
      && r.Ok? && r.value.Signed? && r.value.key == settings.secretKey
      && r.value.claims.Keys == {"sub", "type", "exp", "iat", "jti"}
      && r.value.claims["sub"] == Text(ClaimToString(data["id"]))
      && r.value.claims["type"] == Text(Security.AccessToken)
      && r.value.claims["exp"] == Number(now + settings.accessExpireDays * Security.SecondsPerDay)
      && r.value.claims["jti"] == Text(freshUuid)
      && r.value.claims["iat"] == Number(now)
      && r.value.algorithm == settings.algorithm
  {
    CreateTypedToken(settings, Security.AccessToken, data, settings.accessExpireDays, now, freshUuid)
  }

  /** create_refresh_token: type "refresh", refresh_expire_day days; the
      caller cannot choose the jti. */
  function CreateRefreshToken(settings: Security.JwtSettings, data: Claims, now: int, freshUuid: string): (r: Result<Token>)
    ensures "id" !in data ==> r == Err(KeyError("id"))
    ensures "id" in data ==>
      && r.Ok? && r.value.Signed? && r.value.key == settings.secretKey
      && r.value.claims.Keys == {"sub", "type", "exp", "iat", "jti"}
      && r.value.claims["sub"] == Text(ClaimToString(data["id"]))
      && r.value.claims["type"] == Text(Security.RefreshToken)
      && r.value.claims["exp"] == Number(now + settings.refreshExpireDays * Security.SecondsPerDay)
      && r.value.claims["jti"] == Text(freshUuid)
      && r.value.claims["iat"] == Number(now)
      && r.value.algorithm == settings.algorithm
  {
    CreateTypedToken(settings, Security.RefreshToken, data, settings.refreshExpireDays, now, freshUuid)
  }

  /** Two refresh tokens issued with two uuids carry two different jtis, even
      for the same user at the same instant. */
  lemma RefreshJtiAlwaysFresh(settings: Security.JwtSettings, data: Claims, now: int, uuid1: string, uuid2: string)
    requires "id" in data && uuid1 != uuid2
    ensures CreateRefreshToken(settings, data, now, uuid1).value.claims["jti"]
         != CreateRefreshToken(settings, data, now, uuid2).value.claims["jti"]
  {
  }

  /** The unit test test_create_access_token_and_decode: the access token of
      {"id": 12}, decoded between its issue and the end of its first day, has
      subject "12", type "access", the keys exp, iat and jti, and an expiry
      after the moment of the check. */
  lemma AccessTokenOfUser12(settings: Security.JwtSettings, issuedAt: int, decodedAt: int, checkedAt: int, uuid: string)
    requires settings.accessExpireDays >= 1
    requires issuedAt <= decodedAt <= checkedAt < issuedAt + Security.SecondsPerDay
    ensures var t := CreateAccessToken(settings, map["id" := Number(12)], issuedAt, uuid);
      && t.Ok? && Security.DecodeToken(settings, t.value, decodedAt).Ok?
      && var d := Security.DecodeToken(settings, t.value, decodedAt).value;
      && d["sub"] == Text("12") && d["type"] == Text("access")
      && "exp" in d && "iat" in d && "jti" in d
      && d["exp"].Number? && d["exp"].n > checkedAt
  {
    var t := CreateAccessToken(settings, map["id" := Number(12)], issuedAt, uuid);
    assert IntToString(12) == "12" by {
      assert NatToString(1) == "1";
      assert NatToString(12) == NatToString(1) + [DigitChar(2)];
    }
    DecodeEncode(t.value.claims, settings.secretKey, settings.algorithm, decodedAt);
  }
}
