/** A stand-in for the JWT library (jose): a token is either a claims
    dictionary signed with a key under an algorithm, or a string that is not a
    token at all. Signatures are modelled as perfect: a token verifies under a
    key exactly when it was signed with that key. */
module Jwt {
  import opened Exceptions

  /** A claim value: a string, or a number (times are POSIX seconds). */
  datatype Claim = Text(s: string) | Number(n: int)

  type Claims = map<string, Claim>

  datatype Token = Signed(claims: Claims, key: string, algorithm: string) | Malformed(text: string)

  /** jwt.encode(claims, key, algorithm). */
  function Encode(claims: Claims, key: string, algorithm: string): (t: Token)
  {
    Signed(claims, key, algorithm)
  }

  /** A registered claim, when present, has the type the library insists on:
      "iat" and "exp" are numbers, "sub" and "jti" are strings. */
  predicate WellTyped(c: Claims)
  {
    && ("iat" in c ==> c["iat"].Number?)
    && ("exp" in c ==> c["exp"].Number?)
    && ("sub" in c ==> c["sub"].Text?)
    && ("jti" in c ==> c["jti"].Text?)
  }

  /** The claim checks of jwt.decode, in the library's order. A token whose
      "exp" is before now is expired; one whose "exp" equals now is not. */
  function ValidateClaims(c: Claims, now: int): (r: Result<Claims>)
  {
    if "iat" in c && !c["iat"].Number? then Err(JwtClaimsError("iat"))
    else if "exp" in c && !c["exp"].Number? then Err(JwtClaimsError("exp"))
    else if "exp" in c && c["exp"].n < now then Err(JwtExpired)
    else if "sub" in c && !c["sub"].Text? then Err(JwtClaimsError("sub"))
    else if "jti" in c && !c["jti"].Text? then Err(JwtClaimsError("jti"))
    else Ok(c)
  }

  /** jwt.decode(token, key, algorithms=[algorithm]) at time now. */
  function Decode(token: Token, key: string, algorithm: string, now: int): (r: Result<Claims>)
  {
    match token
    case Malformed(_) => Err(JwtMalformed)
    case Signed(c, k, a) =>
      if a != algorithm then Err(JwtAlgorithmError)
      else if k != key then Err(JwtSignatureError)
      else ValidateClaims(c, now)
  }

  /** Decoding gives back exactly the encoded claims while they are well typed
      and not expired. */
  lemma DecodeEncode(c: Claims, key: string, algorithm: string, now: int)
    requires WellTyped(c)
    requires "exp" in c ==> now <= c["exp"].n
    ensures Decode(Encode(c, key, algorithm), key, algorithm, now) == Ok(c)
  {
  }

  /** A token signed with another key is rejected. */
  lemma DecodeOtherKey(c: Claims, key: string, other: string, algorithm: string, now: int)
    requires other != key
    ensures Decode(Encode(c, other, algorithm), key, algorithm, now) == Err(JwtSignatureError)
  {
  }

  /** A token whose "exp" has passed is rejected. */
  lemma DecodeExpired(c: Claims, key: string, algorithm: string, now: int)
    requires WellTyped(c) && "exp" in c && c["exp"].n < now
    ensures Decode(Encode(c, key, algorithm), key, algorithm, now) == Err(JwtExpired)
  {
  }

  /** Whatever decodes is well typed, and unexpired when it carries an "exp". */
  lemma DecodedClaimsAreValid(token: Token, key: string, algorithm: string, now: int)
    ensures Decode(token, key, algorithm, now).Ok? ==>
      var c := Decode(token, key, algorithm, now).value;
      && token == Signed(c, key, algorithm)
      && WellTyped(c)
      && ("exp" in c ==> now <= c["exp"].n)
  {
  }
}
