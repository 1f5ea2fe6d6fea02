/** What the lifecycle of AuthModel guarantees: the database invariants hold
    after every call, each call succeeds and fails exactly as
    src/services/auth_service.py decides, changes only what it names, and the
    tokens it hands out stop working when they should. */
module AuthProperties {
  import opened Exceptions
  import opened Text
  import opened Crypto
  import opened Jwt
  import opened Repo
  import opened Records
  import opened AuthModel
  import Security

  // ---------------------------------------------------------------------
  // The invariants are kept

  lemma RefreshDeleteKeepsInv(w: World, p: Filter<RefreshRecord>)
    requires Inv(w)
    ensures Inv(w.(refreshTokens := Deleted(w.refreshTokens, p)))
  {
    DeletedWellFormed(w.refreshTokens, p);
    KeptUnique(w.refreshTokens.rows, p, JtiOf);
  }

  lemma ResetDeleteKeepsInv(w: World, p: Filter<ResetRecord>)
    requires Inv(w)
    ensures Inv(w.(resetTokens := Deleted(w.resetTokens, p)))
  {
    DeletedWellFormed(w.resetTokens, p);
    KeptUnique(w.resetTokens.rows, p, LookupHashOf);
  }

  /** login_user keeps the invariants. */
  lemma LoginKeepsInv(
    w: World, settings: Security.JwtSettings, user: Entry<User>, clock: LoginClock, jti: Uuid, accessUuid: Uuid)
    requires Inv(w)
    ensures Inv(LoginUser(w, settings, user, clock, jti, accessUuid).state)
  {
    if !JtiInUse(w.refreshTokens, jti) {
      var r := LoginRecord(settings, user, clock, jti);
      InsertedWellFormed(w.refreshTokens, r);
      InsertedUnique(w.refreshTokens, r, JtiOf);
    }
  }

  /** get_token keeps the invariants. */
  lemma GetTokenKeepsInv(w: World, userId: int, jti: string, now: int)
    requires Inv(w)
    ensures Inv(GetToken(w, userId, jti, now).state)
  {
    var f := Find(w.refreshTokens, ByUserAndJti(userId, jti));
    if f.Ok? && f.value.Some? {
      RefreshDeleteKeepsInv(w, ById(f.value.value.id));
    }
  }

  /** update_refresh_token keeps the invariants. */
  lemma UpdateRefreshKeepsInv(
    w: World, settings: Security.JwtSettings, user: Entry<User>, jti: string, now: int,
    clock: LoginClock, newJti: Uuid, accessUuid: Uuid)
    requires Inv(w)
    ensures Inv(UpdateRefreshToken(w, settings, user, jti, now, clock, newJti, accessUuid).state)
  {
    var g := GetToken(w, user.id, jti, now);
    GetTokenKeepsInv(w, user.id, jti, now);
    if g.result.Ok? {
      var w1 := g.state.(refreshTokens := Deleted(g.state.refreshTokens, ById(g.result.value.id)));
      RefreshDeleteKeepsInv(g.state, ById(g.result.value.id));
      LoginKeepsInv(w1, settings, user, clock, newJti, accessUuid);
    }
  }

  /** logout_user keeps the invariants. */
  lemma LogoutKeepsInv(
    w: World, settings: Security.JwtSettings, userId: int, refreshToken: Token, decodeAt: int, now: int)
    requires Inv(w)
    ensures Inv(LogoutUser(w, settings, userId, refreshToken, decodeAt, now).state)
  {
    var payload := Security.DecodeToken(settings, refreshToken, decodeAt);
    if payload.Ok? && "jti" in payload.value {
      DecodedClaimsAreValid(refreshToken, settings.secretKey, settings.algorithm, decodeAt);
      var jti := payload.value["jti"].s;
      var g := GetToken(w, userId, jti, now);
      GetTokenKeepsInv(w, userId, jti, now);
      if g.result.Ok? {
        RefreshDeleteKeepsInv(g.state, ById(g.result.value.id));
      }
    }
  }

  /** create_reset_token keeps the invariants. */
  lemma CreateResetKeepsInv(
    w: World, settings: Security.JwtSettings, email: string, rawToken: string, salt: nat, now: int)
    requires Inv(w)
    ensures Inv(CreateResetToken(w, settings, email, rawToken, salt, now).state)
  {
    var f := Find(w.users, ByEmail(email));
    if f.Ok? && f.value.Some? {
      var r := ResetRecordFor(settings, f.value.value, rawToken, salt, now);
      if !LookupHashInUse(w.resetTokens, r.lookupHash) {
        InsertedWellFormed(w.resetTokens, r);
        InsertedUnique(w.resetTokens, r, LookupHashOf);
      }
    }
  }

  /** update_user_password keeps the invariants; under them it never fails. */
  lemma UpdateUserPasswordKeepsInv(w: World, userId: int, newPassword: string, salt: nat)
    requires Inv(w)
    ensures Inv(UpdateUserPassword(w, userId, newPassword, salt).state)
    ensures UpdateUserPassword(w, userId, newPassword, salt).result == Ok(())
  {
    var assign := SetPassword(HashPassword(newPassword, salt));
    UpdatedWellFormed(w.users, ById(userId), assign);
    UpdatedUnique(w.users, ById(userId), assign, EmailOf);
    UpdateById(w.users, userId, assign);
    FindNone(w.users, ById(userId));
  }

  /** reset_password keeps the invariants. */
  lemma ResetPasswordKeepsInv(w: World, token: string, newPassword: string, now: int, salt: nat)
    requires Inv(w)
    ensures Inv(ResetPassword(w, token, newPassword, now, salt).state)
  {
    var f := Find(w.resetTokens, ByLookupHash(HashTokenSha256(token)));
    if f.Ok? && f.value.Some? {
      var record := f.value.value;
      var w1 := w.(resetTokens := Deleted(w.resetTokens, ById(record.id)));
      ResetDeleteKeepsInv(w, ById(record.id));
      var u := Find(w.users, ById(record.data.userId));
      if record.data.expiresAt >= now && VerifyPassword(token, record.data.hashedToken) && u.Ok? && u.value.Some? {
        UpdateUserPasswordKeepsInv(w1, u.value.value.id, newPassword, salt);
      }
    }
  }

  /** change_password keeps the invariants. */
  lemma ChangePasswordKeepsInv(w: World, user: Entry<User>, oldPassword: string, newPassword: string, salt: nat)
    requires Inv(w)
    ensures Inv(ChangePassword(w, user, oldPassword, newPassword, salt).state)
  {
    if VerifyPassword(oldPassword, user.data.hashedPassword) {
      var u := UpdateUserPassword(w, user.id, newPassword, salt);
      UpdateUserPasswordKeepsInv(w, user.id, newPassword, salt);
      RefreshDeleteKeepsInv(u.state, ByUser(user.id));
    }
  }

  // ---------------------------------------------------------------------
  // authenticate_user

  /** An unknown e-mail and a wrong password fail alike; a right password on
      an inactive user fails Forbidden; otherwise the user is returned. */
  lemma AuthenticateCases(w: World, email: string, password: string)
    requires Inv(w)
    ensures (forall i :: 0 <= i < |w.users.rows| ==> w.users.rows[i].data.email != email) ==>
      AuthenticateUser(w, email, password) == Err(IncorrectCredentials)
    ensures forall u :: u in w.users.rows && u.data.email == email && !VerifyPassword(password, u.data.hashedPassword) ==>
      AuthenticateUser(w, email, password) == Err(IncorrectCredentials)
    ensures forall u :: u in w.users.rows && u.data.email == email && VerifyPassword(password, u.data.hashedPassword) && !u.data.isActive ==>
      AuthenticateUser(w, email, password) == Err(InactiveUser)
    ensures forall u :: u in w.users.rows && u.data.email == email && VerifyPassword(password, u.data.hashedPassword) && u.data.isActive ==>
      AuthenticateUser(w, email, password) == Ok(u)
  {
    FindByUniqueKey(w.users, EmailOf, email, ByEmail(email));
    FindNone(w.users, ByEmail(email));
    forall u | u in w.users.rows && u.data.email == email
      ensures Find(w.users, ByEmail(email)) == Ok(Some(u))
    {
      var v := Find(w.users, ByEmail(email)).value.value;
      UniqueKeyedRow(w.users.rows, EmailOf, u, v);
    }
  }

  // ---------------------------------------------------------------------
  // login_user

  /** With a jti not stored yet, login adds exactly one refresh record, for
      the user and that jti, and changes nothing else. The refresh token
      carries the same jti and the user's id as subject; its expiry is the
      first clock reading plus the refresh lifetime, so the record, stamped
      from a later reading, never expires before the token. */
  lemma LoginEffect(
    w: World, settings: Security.JwtSettings, user: Entry<User>, clock: LoginClock, jti: Uuid, accessUuid: Uuid)
    requires !JtiInUse(w.refreshTokens, jti)
    ensures var s := LoginUser(w, settings, user, clock, jti, accessUuid);
      && s.result.Ok?
      && s.state == w.(refreshTokens := Inserted(w.refreshTokens, RefreshRecord(user.id, jti, RefreshExpiry(settings, clock.recordAt))))
      && Security.IsAccessClaims(s.result.value.accessToken.claims, settings, user.id, clock.accessAt, accessUuid)
      && var c := s.result.value.refreshToken.claims;
      && c["jti"] == Text(jti) && c["sub"] == Text(IntToString(user.id)) && c["type"] == Text(Security.RefreshToken)
      && c["exp"] == Number(RefreshExpiry(settings, clock.expiryAt))
      && (clock.expiryAt <= clock.recordAt ==> c["exp"].n <= RefreshExpiry(settings, clock.recordAt))
  {
  }

  /** The unique jti index refuses a jti already stored. */
  lemma LoginDuplicateJti(
    w: World, settings: Security.JwtSettings, user: Entry<User>, clock: LoginClock, jti: Uuid, accessUuid: Uuid)
    requires JtiInUse(w.refreshTokens, jti)
    ensures LoginUser(w, settings, user, clock, jti, accessUuid) == Outcome(Err(IntegrityError), w)
  {
  }

  // ---------------------------------------------------------------------
  // get_token

  /** No record of (userId, jti): invalid token, nothing changes. */
  lemma GetTokenMissing(w: World, userId: int, jti: string, now: int)
    requires forall i :: 0 <= i < |w.refreshTokens.rows| ==>
      !(w.refreshTokens.rows[i].data.userId == userId && w.refreshTokens.rows[i].data.jti == jti)
    ensures GetToken(w, userId, jti, now) == Outcome(Err(InvalidToken), w)
  {
    FindNone(w.refreshTokens, ByUserAndJti(userId, jti));
  }

  /** The record of (userId, jti): returned while expiresAt >= now (an expiry
      of exactly now is still valid), deleted by its key and refused once
      expiresAt < now. */
  lemma GetTokenFound(w: World, userId: int, jti: string, now: int, i: nat)
    requires Inv(w) && i < |w.refreshTokens.rows|
    requires w.refreshTokens.rows[i].data.userId == userId && w.refreshTokens.rows[i].data.jti == jti
    ensures var e := w.refreshTokens.rows[i];
      e.data.expiresAt >= now ==> GetToken(w, userId, jti, now) == Outcome(Ok(e), w)
    ensures var e := w.refreshTokens.rows[i];
      e.data.expiresAt < now ==>
        GetToken(w, userId, jti, now) == Outcome(Err(InvalidToken), w.(refreshTokens := Deleted(w.refreshTokens, ById(e.id))))
  {
    var t := w.refreshTokens;
    FindByUniqueKey(t, JtiOf, jti, ByUserAndJti(userId, jti));
    var v := Find(t, ByUserAndJti(userId, jti)).value.value;
    UniqueKeyedRow(t.rows, JtiOf, t.rows[i], v);
  }

  /** The lazy expiry removes that record and keeps every other one. */
  lemma GetTokenExpiredDeletesOnlyIt(w: World, userId: int, jti: string, now: int, i: nat)
    requires Inv(w) && i < |w.refreshTokens.rows|
    requires w.refreshTokens.rows[i].data.userId == userId && w.refreshTokens.rows[i].data.jti == jti
    requires w.refreshTokens.rows[i].data.expiresAt < now
    ensures var s := GetToken(w, userId, jti, now);
      && s.result == Err(InvalidToken)
      && s.state.users == w.users && s.state.resetTokens == w.resetTokens && s.state.outbox == w.outbox
      && forall x :: x in s.state.refreshTokens.rows <==> x in w.refreshTokens.rows && x != w.refreshTokens.rows[i]
  {
    GetTokenFound(w, userId, jti, now, i);
    DeleteById(w.refreshTokens, i);
  }

  // ---------------------------------------------------------------------
  // update_refresh_token

  /** Rotation of a live session: the old record is gone, exactly one new
      record exists, for the new jti, and the new refresh token carries it. */
  lemma RotationEffect(
    w: World, settings: Security.JwtSettings, user: Entry<User>, jti: string, now: int,
    clock: LoginClock, newJti: Uuid, accessUuid: Uuid, i: nat)
    requires Inv(w) && i < |w.refreshTokens.rows|
    requires w.refreshTokens.rows[i].data.userId == user.id && w.refreshTokens.rows[i].data.jti == jti
    requires w.refreshTokens.rows[i].data.expiresAt >= now
    requires !JtiInUse(w.refreshTokens, newJti)
    ensures var s := UpdateRefreshToken(w, settings, user, jti, now, clock, newJti, accessUuid);
      && s.result.Ok? && s.result.value.refreshToken.claims["jti"] == Text(newJti)
      && s.state == w.(refreshTokens := Inserted(Deleted(w.refreshTokens, ById(w.refreshTokens.rows[i].id)),
                                                 LoginRecord(settings, user, clock, newJti)))
      && forall x :: x in s.state.refreshTokens.rows <==>
           (x in w.refreshTokens.rows && x != w.refreshTokens.rows[i])
           || x == Entry(w.refreshTokens.nextId, RefreshRecord(user.id, newJti, RefreshExpiry(settings, clock.recordAt)))
  {
    var t := w.refreshTokens;
    GetTokenFound(w, user.id, jti, now, i);
    DeleteById(t, i);
    var d := Deleted(t, ById(t.rows[i].id));
    assert !JtiInUse(d, newJti) by {
      forall k | 0 <= k < |d.rows| ensures d.rows[k].data.jti != newJti {
        assert d.rows[k] in d.rows;
      }
    }
    LoginEffect(w.(refreshTokens := d), settings, user, clock, newJti, accessUuid);
  }

  /** Replaying the rotated jti fails, whenever it is tried, and changes
      nothing. */
  lemma RotationReplay(
    w: World, settings: Security.JwtSettings, user: Entry<User>, jti: string, now: int,
    clock: LoginClock, newJti: Uuid, accessUuid: Uuid, i: nat,
    later: int, clock2: LoginClock, newJti2: Uuid, accessUuid2: Uuid)
    requires Inv(w) && i < |w.refreshTokens.rows|
    requires w.refreshTokens.rows[i].data.userId == user.id && w.refreshTokens.rows[i].data.jti == jti
    requires w.refreshTokens.rows[i].data.expiresAt >= now
    requires !JtiInUse(w.refreshTokens, newJti)
    ensures var s := UpdateRefreshToken(w, settings, user, jti, now, clock, newJti, accessUuid);
      && GetToken(s.state, user.id, jti, later) == Outcome(Err(InvalidToken), s.state)
      && UpdateRefreshToken(s.state, settings, user, jti, later, clock2, newJti2, accessUuid2) == Outcome(Err(InvalidToken), s.state)
  {
    var t := w.refreshTokens;
    var s := UpdateRefreshToken(w, settings, user, jti, now, clock, newJti, accessUuid);
    RotationEffect(w, settings, user, jti, now, clock, newJti, accessUuid, i);
    KeyGoneAfterDelete(t, JtiOf, i);
    var r := s.state.refreshTokens.rows;
    forall k | 0 <= k < |r| ensures r[k].data.jti != jti {
      assert r[k] in r;
      assert t.rows[i] in t.rows;
    }
    GetTokenMissing(s.state, user.id, jti, later);
  }

  // ---------------------------------------------------------------------
  // logout_user

  /** A token that does not decode, or decodes without a jti, ends no
      session. */
  lemma LogoutRefused(
    w: World, settings: Security.JwtSettings, userId: int, refreshToken: Token, decodeAt: int, now: int)
    ensures Security.DecodeToken(settings, refreshToken, decodeAt).Err? ==>
      LogoutUser(w, settings, userId, refreshToken, decodeAt, now) == Outcome(Err(InvalidOrExpiredToken), w)
    ensures Security.DecodeToken(settings, refreshToken, decodeAt).Ok? && "jti" !in Security.DecodeToken(settings, refreshToken, decodeAt).value ==>
      LogoutUser(w, settings, userId, refreshToken, decodeAt, now) == Outcome(Err(KeyError("jti")), w)
  {
  }

  /** A token whose jti is the live record of userId ends that one session
      and keeps every other record. */
  lemma LogoutEffect(
    w: World, settings: Security.JwtSettings, userId: int, refreshToken: Token, decodeAt: int, now: int, i: nat)
    requires Inv(w) && i < |w.refreshTokens.rows|
    requires Security.DecodeToken(settings, refreshToken, decodeAt).Ok?
    requires var c := Security.DecodeToken(settings, refreshToken, decodeAt).value;
      "jti" in c && c["jti"] == Text(w.refreshTokens.rows[i].data.jti)
    requires w.refreshTokens.rows[i].data.userId == userId && w.refreshTokens.rows[i].data.expiresAt >= now
    ensures var s := LogoutUser(w, settings, userId, refreshToken, decodeAt, now);
      && s == Outcome(Ok(()), w.(refreshTokens := Deleted(w.refreshTokens, ById(w.refreshTokens.rows[i].id))))
      && forall x :: x in s.state.refreshTokens.rows <==> x in w.refreshTokens.rows && x != w.refreshTokens.rows[i]
  {
    GetTokenFound(w, userId, w.refreshTokens.rows[i].data.jti, now, i);
    DeleteById(w.refreshTokens, i);
  }

  /** Two sessions of one user; logging out with the first refresh token
      leaves the second one usable and the first one gone. */
  lemma LogoutKeepsOtherSession(
    w: World, settings: Security.JwtSettings, user: Entry<User>,
    clockA: LoginClock, jtiA: Uuid, uuidA: Uuid, clockB: LoginClock, jtiB: Uuid, uuidB: Uuid,
    decodeAt: int, now: int, later: int)
    requires Inv(w) && !JtiInUse(w.refreshTokens, jtiA) && !JtiInUse(w.refreshTokens, jtiB) && jtiA != jtiB
    requires decodeAt <= RefreshExpiry(settings, clockA.expiryAt) && now <= RefreshExpiry(settings, clockA.recordAt)
    requires later <= RefreshExpiry(settings, clockB.recordAt)
    ensures var a := LoginUser(w, settings, user, clockA, jtiA, uuidA);
      var b := LoginUser(a.state, settings, user, clockB, jtiB, uuidB);
      var s := LogoutUser(b.state, settings, user.id, a.result.value.refreshToken, decodeAt, now);
      && a.result.Ok? && b.result.Ok? && s.result == Ok(())
      && GetToken(s.state, user.id, jtiB, later).result.Ok?
      && GetToken(s.state, user.id, jtiA, later) == Outcome(Err(InvalidToken), s.state)
  {
    TwoLogins(w, settings, user, clockA, jtiA, uuidA, clockB, jtiB, uuidB);
    var a := LoginUser(w, settings, user, clockA, jtiA, uuidA);
    var b := LoginUser(a.state, settings, user, clockB, jtiB, uuidB);
    var n := |w.refreshTokens.rows|;
    var token := a.result.value.refreshToken;
    Security.RefreshTokenRoundTrip(settings, user.id, jtiA, RefreshExpiry(settings, clockA.expiryAt), clockA.refreshAt, jtiA, decodeAt);
    assert Security.DecodeToken(settings, token, decodeAt).value["jti"] == Text(b.state.refreshTokens.rows[n].data.jti);
    LogoutOneOfTwo(b.state, settings, user.id, token, decodeAt, now, later, n);
  }

  /** Two logins in a row with fresh jtis store their two records last. */
  lemma TwoLogins(
    w: World, settings: Security.JwtSettings, user: Entry<User>,
    clockA: LoginClock, jtiA: Uuid, uuidA: Uuid, clockB: LoginClock, jtiB: Uuid, uuidB: Uuid)
    requires Inv(w) && !JtiInUse(w.refreshTokens, jtiA) && !JtiInUse(w.refreshTokens, jtiB) && jtiA != jtiB
    ensures var a := LoginUser(w, settings, user, clockA, jtiA, uuidA);
      var b := LoginUser(a.state, settings, user, clockB, jtiB, uuidB);
      var n := |w.refreshTokens.rows|;
      && a.result.Ok? && b.result.Ok? && Inv(b.state)
      && |b.state.refreshTokens.rows| == n + 2
      && b.state.refreshTokens.rows[n].data == RefreshRecord(user.id, jtiA, RefreshExpiry(settings, clockA.recordAt))
      && b.state.refreshTokens.rows[n + 1].data == RefreshRecord(user.id, jtiB, RefreshExpiry(settings, clockB.recordAt))
      && a.result.value.refreshToken
           == Security.CreateRefreshToken(settings, user.id, jtiA, RefreshExpiry(settings, clockA.expiryAt), clockA.refreshAt, jtiA)
  {
    var a := LoginUser(w, settings, user, clockA, jtiA, uuidA);
    LoginEffect(w, settings, user, clockA, jtiA, uuidA);
    LoginKeepsInv(w, settings, user, clockA, jtiA, uuidA);
    var n := |w.refreshTokens.rows|;
    assert a.state.refreshTokens.rows[n].data.jti == jtiA;
    assert !JtiInUse(a.state.refreshTokens, jtiB) by {
      forall k | 0 <= k < |a.state.refreshTokens.rows| ensures a.state.refreshTokens.rows[k].data.jti != jtiB {
        if k < n { assert a.state.refreshTokens.rows[k] == w.refreshTokens.rows[k]; }
      }
    }
    LoginEffect(a.state, settings, user, clockB, jtiB, uuidB);
    LoginKeepsInv(a.state, settings, user, clockB, jtiB, uuidB);
  }

  /** With the records of two sessions of one user at n and n + 1, logging
      out the first ends it and leaves the second usable. */
  lemma LogoutOneOfTwo(
    w: World, settings: Security.JwtSettings, userId: int, token: Token, decodeAt: int, now: int, later: int, n: nat)
    requires Inv(w) && n + 1 < |w.refreshTokens.rows|
    requires var t := w.refreshTokens.rows;
      t[n].data.userId == userId && t[n + 1].data.userId == userId
      && t[n].data.jti != t[n + 1].data.jti
      && t[n].data.expiresAt >= now && t[n + 1].data.expiresAt >= later
    requires Security.DecodeToken(settings, token, decodeAt).Ok?
    requires var c := Security.DecodeToken(settings, token, decodeAt).value;
      "jti" in c && c["jti"] == Text(w.refreshTokens.rows[n].data.jti)
    ensures var s := LogoutUser(w, settings, userId, token, decodeAt, now);
      && s.result == Ok(())
      && GetToken(s.state, userId, w.refreshTokens.rows[n + 1].data.jti, later).result.Ok?
      && GetToken(s.state, userId, w.refreshTokens.rows[n].data.jti, later) == Outcome(Err(InvalidToken), s.state)
  {
    var t := w.refreshTokens;
    LogoutEffect(w, settings, userId, token, decodeAt, now, n);
    var s := LogoutUser(w, settings, userId, token, decodeAt, now);
    assert t.rows[n + 1] in t.rows && t.rows[n + 1] != t.rows[n];
    assert t.rows[n + 1] in s.state.refreshTokens.rows;
    var j :| 0 <= j < |s.state.refreshTokens.rows| && s.state.refreshTokens.rows[j] == t.rows[n + 1];
    RefreshDeleteKeepsInv(w, ById(t.rows[n].id));
    GetTokenFound(s.state, userId, t.rows[n + 1].data.jti, later, j);
    KeyGoneAfterDelete(t, JtiOf, n);
    var r := s.state.refreshTokens.rows;
    forall q | 0 <= q < |r| ensures r[q].data.jti != t.rows[n].data.jti {
      assert r[q] in r;
    }
    GetTokenMissing(s.state, userId, t.rows[n].data.jti, later);
  }

  // ---------------------------------------------------------------------
  // create_reset_token

  /** An unknown e-mail is answered like a known one and changes nothing. */
  lemma CreateResetUnknownEmail(
    w: World, settings: Security.JwtSettings, email: string, rawToken: string, salt: nat, now: int)
    requires forall i :: 0 <= i < |w.users.rows| ==> w.users.rows[i].data.email != email
    ensures CreateResetToken(w, settings, email, rawToken, salt, now) == Outcome(Ok(()), w)
  {
    FindNone(w.users, ByEmail(email));
  }

  /** A known e-mail gets one record for its owner, holding the token only as
      its SHA-256 and its bcrypt hash, expiring reset_token_expire_minutes
      later, and one message carrying the raw token to the reset queue. */
  lemma CreateResetKnownEmail(
    w: World, settings: Security.JwtSettings, rawToken: string, salt: nat, now: int, i: nat)
    requires Inv(w) && i < |w.users.rows|
    requires !LookupHashInUse(w.resetTokens, HashTokenSha256(rawToken))
    ensures var u := w.users.rows[i];
      var s := CreateResetToken(w, settings, u.data.email, rawToken, salt, now);
      && s.result == Ok(())
      && s.state.users == w.users && s.state.refreshTokens == w.refreshTokens
      && s.state.resetTokens == Inserted(w.resetTokens, ResetRecord(u.id, HashTokenSha256(rawToken), HashPassword(rawToken, salt),
                                                                    now + settings.resetTokenExpireMinutes * 60))
      && s.state.outbox == w.outbox + [Message(ResetQueue, u.data.email, rawToken)]
      && VerifyPassword(rawToken, s.state.resetTokens.rows[|w.resetTokens.rows|].data.hashedToken)
  {
    var u := w.users.rows[i];
    FindByUniqueKey(w.users, EmailOf, u.data.email, ByEmail(u.data.email));
    var v := Find(w.users, ByEmail(u.data.email)).value.value;
    UniqueKeyedRow(w.users.rows, EmailOf, u, v);
  }

  /** A lookup hash already stored is refused by the database. */
  lemma CreateResetDuplicateHash(
    w: World, settings: Security.JwtSettings, rawToken: string, salt: nat, now: int, i: nat)
    requires Inv(w) && i < |w.users.rows|
    requires LookupHashInUse(w.resetTokens, HashTokenSha256(rawToken))
    ensures CreateResetToken(w, settings, w.users.rows[i].data.email, rawToken, salt, now) == Outcome(Err(IntegrityError), w)
  {
    var u := w.users.rows[i];
    FindByUniqueKey(w.users, EmailOf, u.data.email, ByEmail(u.data.email));
  }

  // ---------------------------------------------------------------------
  // reset_password

  /** A token no record was made for: invalid, nothing changes. */
  lemma ResetMissing(w: World, token: string, newPassword: string, now: int, salt: nat)
    requires forall i :: 0 <= i < |w.resetTokens.rows| ==> w.resetTokens.rows[i].data.lookupHash != HashTokenSha256(token)
    ensures ResetPassword(w, token, newPassword, now, salt) == Outcome(Err(InvalidToken), w)
  {
    FindNone(w.resetTokens, ByLookupHash(HashTokenSha256(token)));
  }

  /** The record found by the token's SHA-256, in the order reset_password
      checks it: expired (deleted, refused), bcrypt mismatch (refused), owner
      missing (refused), else the record is deleted and the owner's password
      replaced. */
  lemma ResetFound(w: World, token: string, newPassword: string, now: int, salt: nat, i: nat)
    requires Inv(w) && i < |w.resetTokens.rows|
    requires w.resetTokens.rows[i].data.lookupHash == HashTokenSha256(token)
    ensures var r := w.resetTokens.rows[i];
      r.data.expiresAt < now ==>
        ResetPassword(w, token, newPassword, now, salt) == Outcome(Err(InvalidToken), w.(resetTokens := Deleted(w.resetTokens, ById(r.id))))
    ensures var r := w.resetTokens.rows[i];
      r.data.expiresAt >= now && !VerifyPassword(token, r.data.hashedToken) ==>
        ResetPassword(w, token, newPassword, now, salt) == Outcome(Err(IncorrectCredentials), w)
    ensures var r := w.resetTokens.rows[i];
      r.data.expiresAt >= now && VerifyPassword(token, r.data.hashedToken) && (forall k :: 0 <= k < |w.users.rows| ==> w.users.rows[k].id != r.data.userId) ==>
        ResetPassword(w, token, newPassword, now, salt) == Outcome(Err(InvalidToken), w)
    ensures var r := w.resetTokens.rows[i];
      r.data.expiresAt >= now && VerifyPassword(token, r.data.hashedToken) && (exists k :: 0 <= k < |w.users.rows| && w.users.rows[k].id == r.data.userId) ==>
        ResetPassword(w, token, newPassword, now, salt)
          == Outcome(Ok(()), w.(resetTokens := Deleted(w.resetTokens, ById(r.id)),
                                users := Updated(w.users, ById(r.data.userId), SetPassword(HashPassword(newPassword, salt)))))
  {
    var t := w.resetTokens;
    var r := t.rows[i];
    ResetLookupFinds(w, token, i);
    if r.data.expiresAt < now {
    } else if !VerifyPassword(token, r.data.hashedToken) {
    } else {
      FindById(w.users, r.data.userId);
      if exists k :: 0 <= k < |w.users.rows| && w.users.rows[k].id == r.data.userId {
        var k :| 0 <= k < |w.users.rows| && w.users.rows[k].id == r.data.userId;
        ResetWithOwner(w, token, newPassword, now, salt, i, k);
      } else {
        FindNone(w.users, ById(r.data.userId));
      }
    }
  }

  /** The last branch of reset_password: a live, matching record whose owner
      is stored. */
  lemma ResetWithOwner(w: World, token: string, newPassword: string, now: int, salt: nat, i: nat, k: nat)
    requires Inv(w) && i < |w.resetTokens.rows| && k < |w.users.rows|
    requires Find(w.resetTokens, ByLookupHash(HashTokenSha256(token))) == Ok(Some(w.resetTokens.rows[i]))
    requires var r := w.resetTokens.rows[i];
      r.data.expiresAt >= now && VerifyPassword(token, r.data.hashedToken) && w.users.rows[k].id == r.data.userId
    ensures var r := w.resetTokens.rows[i];
      ResetPassword(w, token, newPassword, now, salt)
        == Outcome(Ok(()), w.(resetTokens := Deleted(w.resetTokens, ById(r.id)),
                              users := Updated(w.users, ById(r.data.userId), SetPassword(HashPassword(newPassword, salt)))))
  {
    var r := w.resetTokens.rows[i];
    FindById(w.users, r.data.userId);
    assert w.users.rows[k] in w.users.rows;
    var w1 := w.(resetTokens := Deleted(w.resetTokens, ById(r.id)));
    ResetDeleteKeepsInv(w, ById(r.id));
    UpdateUserPasswordKeepsInv(w1, r.data.userId, newPassword, salt);
  }

  /** The lookup hash of a stored reset record finds exactly that record. */
  lemma ResetLookupFinds(w: World, token: string, i: nat)
    requires Inv(w) && i < |w.resetTokens.rows|
    requires w.resetTokens.rows[i].data.lookupHash == HashTokenSha256(token)
    ensures Find(w.resetTokens, ByLookupHash(HashTokenSha256(token))) == Ok(Some(w.resetTokens.rows[i]))
  {
    var t := w.resetTokens;
    var h := HashTokenSha256(token);
    FindByUniqueKey(t, LookupHashOf, h, ByLookupHash(h));
    var v := Find(t, ByLookupHash(h)).value.value;
    UniqueKeyedRow(t.rows, LookupHashOf, t.rows[i], v);
  }

  /** A reset token works once: after a successful reset the same token is
      refused, whenever and with whatever password. */
  lemma ResetSingleUse(
    w: World, token: string, newPassword: string, now: int, salt: nat, i: nat,
    password2: string, now2: int, salt2: nat)
    requires Inv(w) && i < |w.resetTokens.rows|
    requires w.resetTokens.rows[i].data.lookupHash == HashTokenSha256(token)
    requires ResetPassword(w, token, newPassword, now, salt).result == Ok(())
    ensures var s := ResetPassword(w, token, newPassword, now, salt);
      ResetPassword(s.state, token, password2, now2, salt2) == Outcome(Err(InvalidToken), s.state)
  {
    var t := w.resetTokens;
    var r := t.rows[i];
    ResetFound(w, token, newPassword, now, salt, i);
    var s := ResetPassword(w, token, newPassword, now, salt);
    assert s.state.resetTokens == Deleted(t, ById(r.id));
    KeyGoneAfterDelete(t, LookupHashOf, i);
    var d := s.state.resetTokens.rows;
    forall q | 0 <= q < |d| ensures d[q].data.lookupHash != HashTokenSha256(token) {
      assert d[q] in d;
    }
    ResetMissing(s.state, token, password2, now2, salt2);
  }

  // ---------------------------------------------------------------------
  // update_user_password and change_password

  /** After the password of a user is replaced, the old password no longer
      signs the user in and the new one does (while the user is active); the
      token tables are untouched. */
  lemma PasswordReplaced(w: World, k: nat, newPassword: string, salt: nat, oldPassword: string)
    requires Inv(w) && k < |w.users.rows| && oldPassword != newPassword
    ensures var u := w.users.rows[k];
      var s := UpdateUserPassword(w, u.id, newPassword, salt);
      && AuthenticateUser(s.state, u.data.email, oldPassword) == Err(IncorrectCredentials)
      && (u.data.isActive ==>
            AuthenticateUser(s.state, u.data.email, newPassword) == Ok(Entry(u.id, u.data.(hashedPassword := HashPassword(newPassword, salt)))))
      && s.state.refreshTokens == w.refreshTokens && s.state.resetTokens == w.resetTokens && s.state.outbox == w.outbox
  {
    var u := w.users.rows[k];
    var s := UpdateUserPassword(w, u.id, newPassword, salt);
    UpdateUserPasswordKeepsInv(w, u.id, newPassword, salt);
    var u2 := Entry(u.id, u.data.(hashedPassword := HashPassword(newPassword, salt)));
    assert s.state.users.rows[k] == u2;
    assert u2 in s.state.users.rows;
    AuthenticateCases(s.state, u.data.email, oldPassword);
    AuthenticateCases(s.state, u.data.email, newPassword);
  }

  /** change_password: a wrong old password changes nothing; a right one
      stores the new hash and ends every session of the user, and only
      theirs. */
  lemma ChangePasswordCases(w: World, user: Entry<User>, oldPassword: string, newPassword: string, salt: nat)
    requires Inv(w)
    ensures !VerifyPassword(oldPassword, user.data.hashedPassword) ==>
      ChangePassword(w, user, oldPassword, newPassword, salt) == Outcome(Err(IncorrectOldPassword), w)
    ensures VerifyPassword(oldPassword, user.data.hashedPassword) ==>
      var s := ChangePassword(w, user, oldPassword, newPassword, salt);
      && s == Outcome(Ok(()), w.(users := Updated(w.users, ById(user.id), SetPassword(HashPassword(newPassword, salt))),
                                 refreshTokens := Deleted(w.refreshTokens, ByUser(user.id))))
      && (forall x :: x in s.state.refreshTokens.rows <==> x in w.refreshTokens.rows && x.data.userId != user.id)
      && (forall jti, now :: GetToken(s.state, user.id, jti, now) == Outcome(Err(InvalidToken), s.state))
  {
    if VerifyPassword(oldPassword, user.data.hashedPassword) {
      UpdateUserPasswordKeepsInv(w, user.id, newPassword, salt);
      var s := ChangePassword(w, user, oldPassword, newPassword, salt);
      KeptMembers(w.refreshTokens.rows, ByUser(user.id));
      var r := s.state.refreshTokens.rows;
      forall jti, now ensures GetToken(s.state, user.id, jti, now) == Outcome(Err(InvalidToken), s.state) {
        forall q | 0 <= q < |r| ensures r[q].data.userId != user.id {
          var j := KeptSource(w.refreshTokens.rows, ByUser(user.id), r[q]);
        }
        GetTokenMissing(s.state, user.id, jti, now);
      }
    }
  }

  // ---------------------------------------------------------------------
  // Whole flows

  /** Sign in, rotate once, replay the first refresh token: the rotation
      hands out a token for the new jti, which works until its record
      expires, and the replay is refused. */
  lemma LoginRotateReplay(
    w: World, settings: Security.JwtSettings, user: Entry<User>,
    clock1: LoginClock, jti1: Uuid, uuid1: Uuid, now: int,
    clock2: LoginClock, jti2: Uuid, uuid2: Uuid, later: int,
    clock3: LoginClock, jti3: Uuid, uuid3: Uuid)
    requires Inv(w) && !JtiInUse(w.refreshTokens, jti1) && !JtiInUse(w.refreshTokens, jti2) && jti1 != jti2
    requires now <= RefreshExpiry(settings, clock1.recordAt)
    ensures var s1 := LoginUser(w, settings, user, clock1, jti1, uuid1);
      var s2 := UpdateRefreshToken(s1.state, settings, user, jti1, now, clock2, jti2, uuid2);
      && s1.result.Ok? && s1.result.value.refreshToken.claims["jti"] == Text(jti1)
      && s2.result.Ok? && s2.result.value.refreshToken.claims["jti"] == Text(jti2)
      && UpdateRefreshToken(s2.state, settings, user, jti1, later, clock3, jti3, uuid3) == Outcome(Err(InvalidToken), s2.state)
      && (later <= RefreshExpiry(settings, clock2.recordAt) ==> GetToken(s2.state, user.id, jti2, later).result.Ok?)
  {
    var s1 := LoginUser(w, settings, user, clock1, jti1, uuid1);
    LoginEffect(w, settings, user, clock1, jti1, uuid1);
    LoginKeepsInv(w, settings, user, clock1, jti1, uuid1);
    var n := |w.refreshTokens.rows|;
    var t1 := s1.state.refreshTokens;
    assert !JtiInUse(t1, jti2) by {
      forall k | 0 <= k < |t1.rows| ensures t1.rows[k].data.jti != jti2 {
        if k < n { assert t1.rows[k] == w.refreshTokens.rows[k]; }
      }
    }
    RotationEffect(s1.state, settings, user, jti1, now, clock2, jti2, uuid2, n);
    RotationReplay(s1.state, settings, user, jti1, now, clock2, jti2, uuid2, n, later, clock3, jti3, uuid3);
    UpdateRefreshKeepsInv(s1.state, settings, user, jti1, now, clock2, jti2, uuid2);
    var s2 := UpdateRefreshToken(s1.state, settings, user, jti1, now, clock2, jti2, uuid2);
    var t2 := s2.state.refreshTokens;
    var m := |t2.rows| - 1;
    assert t2.rows[m].data == LoginRecord(settings, user, clock2, jti2);
    GetTokenFound(s2.state, user.id, jti2, later, m);
  }

  /** Forgotten password: the request mails a raw token; confirming with it
      sets the new password, after which the old one no longer signs in,
      the token cannot be used again, and the refresh sessions of the user
      are left as they were. */
  lemma ForgottenPasswordFlow(
    w: World, settings: Security.JwtSettings, k: nat, rawToken: string, salt1: nat, requestedAt: int,
    newPassword: string, confirmedAt: int, salt2: nat, oldPassword: string)
    requires Inv(w) && k < |w.users.rows| && oldPassword != newPassword
    requires !LookupHashInUse(w.resetTokens, HashTokenSha256(rawToken))
    requires confirmedAt <= requestedAt + settings.resetTokenExpireMinutes * 60
    ensures var u := w.users.rows[k];
      var s1 := CreateResetToken(w, settings, u.data.email, rawToken, salt1, requestedAt);
      s1.result == Ok(()) && s1.state.outbox == w.outbox + [Message(ResetQueue, u.data.email, rawToken)]
    ensures var u := w.users.rows[k];
      var s1 := CreateResetToken(w, settings, u.data.email, rawToken, salt1, requestedAt);
      var mailed := s1.state.outbox[|w.outbox|];
      var s2 := ResetPassword(s1.state, mailed.token, newPassword, confirmedAt, salt2);
      && s2.result == Ok(())
      && AuthenticateUser(s2.state, u.data.email, oldPassword) == Err(IncorrectCredentials)
      && ResetPassword(s2.state, mailed.token, newPassword, confirmedAt, salt2) == Outcome(Err(InvalidToken), s2.state)
      && s2.state.refreshTokens == w.refreshTokens
  {
    var u := w.users.rows[k];
    CreateResetKnownEmail(w, settings, rawToken, salt1, requestedAt, k);
    CreateResetKeepsInv(w, settings, u.data.email, rawToken, salt1, requestedAt);
    var s1 := CreateResetToken(w, settings, u.data.email, rawToken, salt1, requestedAt);
    var n := |w.resetTokens.rows|;
    var rec := s1.state.resetTokens.rows[n];
    assert rec.data.userId == u.id && rec.data.lookupHash == HashTokenSha256(rawToken);
    assert s1.state.users.rows[k] == u;
    ResetFound(s1.state, rawToken, newPassword, confirmedAt, salt2, n);
    ResetSingleUse(s1.state, rawToken, newPassword, confirmedAt, salt2, n, newPassword, confirmedAt, salt2);
    var w1 := s1.state.(resetTokens := Deleted(s1.state.resetTokens, ById(rec.id)));
    ResetDeleteKeepsInv(s1.state, ById(rec.id));
    PasswordReplaced(w1, k, newPassword, salt2, oldPassword);
  }

  // ---------------------------------------------------------------------
  // What a request leaves behind

  /** The lazy delete of an expired refresh record is made in the session and
      then the call raises, so the session rolls it back: after the request
      the expired record is still stored, for get_token and for rotation. */
  lemma ExpiredSessionOutlivesRequest(
    w: World, settings: Security.JwtSettings, user: Entry<User>, jti: string, now: int,
    clock: LoginClock, newJti: Uuid, accessUuid: Uuid, i: nat)
    requires Inv(w) && i < |w.refreshTokens.rows|
    requires w.refreshTokens.rows[i].data.userId == user.id && w.refreshTokens.rows[i].data.jti == jti
    requires w.refreshTokens.rows[i].data.expiresAt < now
    ensures var g := GetToken(w, user.id, jti, now);
      && w.refreshTokens.rows[i] !in g.state.refreshTokens.rows
      && Committed(w, g) == w
    ensures Committed(w, UpdateRefreshToken(w, settings, user, jti, now, clock, newJti, accessUuid)) == w
  {
    GetTokenFound(w, user.id, jti, now, i);
    DeleteById(w.refreshTokens, i);
  }

  /** The same for an expired reset record: reset_password deletes it and
      raises, and the request leaves it stored. */
  lemma ExpiredResetOutlivesRequest(w: World, token: string, newPassword: string, now: int, salt: nat, i: nat)
    requires Inv(w) && i < |w.resetTokens.rows|
    requires w.resetTokens.rows[i].data.lookupHash == HashTokenSha256(token)
    requires w.resetTokens.rows[i].data.expiresAt < now
    ensures var s := ResetPassword(w, token, newPassword, now, salt);
      && w.resetTokens.rows[i] !in s.state.resetTokens.rows
      && Committed(w, s) == w
  {
    ResetFound(w, token, newPassword, now, salt, i);
    DeleteById(w.resetTokens, i);
  }
}
