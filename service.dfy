/** AuthService (src/services/auth_service.py) as a class over the three
    repositories of one database session and the message broker. Every
    method leaves the stores exactly as the matching function of AuthModel
    says and returns what it returns; the lemmas of AuthProperties then say
    what that means. */
module Service {
  import opened Exceptions
  import opened Crypto
  import opened Jwt
  import opened Repo
  import opened Records
  import AuthModel
  import AuthProperties
  import Security

  /** The broker as the service sees it: the messages published so far. */
  class Broker {
    var messages: seq<Message>

    constructor ()
      ensures messages == []
    {
      messages := [];
    }

    /** broker.publish(payload, queue=...). */
    method Publish(m: Message)
      modifies this
      ensures messages == old(messages) + [m]
    {
      messages := messages + [m];
    }
  }

  class AuthService {
    const users: Table<User>
    const refreshTokens: Table<RefreshRecord>
    const resetTokens: Table<ResetRecord>
    const broker: Broker
    const settings: Security.JwtSettings

    constructor (
      users: Table<User>, refreshTokens: Table<RefreshRecord>, resetTokens: Table<ResetRecord>,
      broker: Broker, settings: Security.JwtSettings)
      ensures this.users == users && this.refreshTokens == refreshTokens && this.resetTokens == resetTokens
      ensures this.broker == broker && this.settings == settings
    {
      this.users := users;
      this.refreshTokens := refreshTokens;
      this.resetTokens := resetTokens;
      this.broker := broker;
      this.settings := settings;
    }

    /** The stores the service works on. */
    function World(): AuthModel.World
      reads users, refreshTokens, resetTokens, broker
    {
      AuthModel.World(users.State(), refreshTokens.State(), resetTokens.State(), broker.messages)
    }

    ghost predicate Valid()
      reads users, refreshTokens, resetTokens, broker
    {
      users.Valid() && refreshTokens.Valid() && resetTokens.Valid() && AuthModel.Inv(World())
    }

    /** authenticate_user. */
    method AuthenticateUser(email: string, password: string) returns (r: Result<Entry<User>>)
      ensures r == AuthModel.AuthenticateUser(World(), email, password)
    {
      var found := users.FindSingle(ByEmail(email));
      if found.Err? {
        return Err(found.error);
      }
      if found.value.None? {
        return Err(IncorrectCredentials);
      }
      var user := found.value.value;
      if !VerifyPassword(password, user.data.hashedPassword) {
        return Err(IncorrectCredentials);
      }
      if !user.data.isActive {
        return Err(InactiveUser);
      }
      r := Ok(user);
    }

    /** login_user; jti and accessUuid are the uuids it draws, clock the
        readings of the clock it makes. */
    method LoginUser(user: Entry<User>, clock: AuthModel.LoginClock, jti: Uuid, accessUuid: Uuid)
      returns (r: Result<AuthModel.TokenPair>)
      requires Valid()
      modifies refreshTokens
      ensures Valid()
      ensures r == AuthModel.LoginUser(old(World()), settings, user, clock, jti, accessUuid).result
      ensures World() == AuthModel.LoginUser(old(World()), settings, user, clock, jti, accessUuid).state
    {
      AuthProperties.LoginKeepsInv(World(), settings, user, clock, jti, accessUuid);
      var access := Security.CreateAccessToken(settings, user.id, clock.accessAt, accessUuid);
      var refresh := Security.CreateRefreshToken(
        settings, user.id, jti, AuthModel.RefreshExpiry(settings, clock.expiryAt), clock.refreshAt, jti);
      if JtiInUse(refreshTokens.State(), jti) {
        return Err(IntegrityError);
      }
      var _ := refreshTokens.Create(AuthModel.LoginRecord(settings, user, clock, jti));
      r := Ok(AuthModel.TokenPair(access, refresh));
    }

    /** get_token. */
    method GetToken(userId: int, jti: string, now: int) returns (r: Result<Entry<RefreshRecord>>)
      requires Valid()
      modifies refreshTokens
      ensures Valid()
      ensures r == AuthModel.GetToken(old(World()), userId, jti, now).result
      ensures World() == AuthModel.GetToken(old(World()), userId, jti, now).state
    {
      AuthProperties.GetTokenKeepsInv(World(), userId, jti, now);
      var found := refreshTokens.FindSingle(ByUserAndJti(userId, jti));
      if found.Err? {
        return Err(found.error);
      }
      if found.value.None? {
        return Err(InvalidToken);
      }
      var token := found.value.value;
      if token.data.expiresAt < now {
        refreshTokens.Delete(ById(token.id));
        return Err(InvalidToken);
      }
      r := Ok(token);
    }

    /** update_refresh_token. */
    method UpdateRefreshToken(
      user: Entry<User>, jti: string, now: int, clock: AuthModel.LoginClock, newJti: Uuid, accessUuid: Uuid)
      returns (r: Result<AuthModel.TokenPair>)
      requires Valid()
      modifies refreshTokens
      ensures Valid()
      ensures r == AuthModel.UpdateRefreshToken(old(World()), settings, user, jti, now, clock, newJti, accessUuid).result
      ensures World() == AuthModel.UpdateRefreshToken(old(World()), settings, user, jti, now, clock, newJti, accessUuid).state
    {
      var token := GetToken(user.id, jti, now);
      if token.Err? {
        return Err(token.error);
      }
      AuthProperties.RefreshDeleteKeepsInv(World(), ById(token.value.id));
      refreshTokens.Delete(ById(token.value.id));
      r := LoginUser(user, clock, newJti, accessUuid);
    }

    /** logout_user; the token is decoded at decodeAt and the record checked
        at now. */
    method LogoutUser(userId: int, refreshToken: Token, decodeAt: int, now: int) returns (r: Result<()>)
      requires Valid()
      modifies refreshTokens
      ensures Valid()
      ensures r == AuthModel.LogoutUser(old(World()), settings, userId, refreshToken, decodeAt, now).result
      ensures World() == AuthModel.LogoutUser(old(World()), settings, userId, refreshToken, decodeAt, now).state
    {
      var payload := Security.DecodeToken(settings, refreshToken, decodeAt);
      if payload.Err? {
        return Err(payload.error);
      }
      if "jti" !in payload.value {
        return Err(KeyError("jti"));
      }
      DecodedClaimsAreValid(refreshToken, settings.secretKey, settings.algorithm, decodeAt);
      var token := GetToken(userId, payload.value["jti"].s, now);
      if token.Err? {
        return Err(token.error);
      }
      AuthProperties.RefreshDeleteKeepsInv(World(), ById(token.value.id));
      refreshTokens.Delete(ById(token.value.id));
      r := Ok(());
    }

    /** create_reset_token; rawToken is the token it generates and salt the
        salt bcrypt draws. */
    method CreateResetToken(email: string, rawToken: string, salt: nat, now: int) returns (r: Result<()>)
      requires Valid()
      modifies resetTokens, broker
      ensures Valid()
      ensures r == AuthModel.CreateResetToken(old(World()), settings, email, rawToken, salt, now).result
      ensures World() == AuthModel.CreateResetToken(old(World()), settings, email, rawToken, salt, now).state
    {
      AuthProperties.CreateResetKeepsInv(World(), settings, email, rawToken, salt, now);
      var found := users.FindSingle(ByEmail(email));
      if found.Err? {
        return Err(found.error);
      }
      if found.value.None? {
        return Ok(());
      }
      var user := found.value.value;
      var record := AuthModel.ResetRecordFor(settings, user, rawToken, salt, now);
      if LookupHashInUse(resetTokens.State(), record.lookupHash) {
        return Err(IntegrityError);
      }
      var _ := resetTokens.Create(record);
      broker.Publish(Message(ResetQueue, user.data.email, rawToken));
      r := Ok(());
    }

    /** update_user_password. */
    method UpdateUserPassword(userId: int, newPassword: string, salt: nat) returns (r: Result<()>)
      requires Valid()
      modifies users
      ensures Valid()
      ensures r == AuthModel.UpdateUserPassword(old(World()), userId, newPassword, salt).result
      ensures World() == AuthModel.UpdateUserPassword(old(World()), userId, newPassword, salt).state
    {
      AuthProperties.UpdateUserPasswordKeepsInv(World(), userId, newPassword, salt);
      // The row update returns is dropped; with unique keys it never raises.
      var _ := users.Update(SetPassword(HashPassword(newPassword, salt)), ById(userId));
      r := Ok(());
    }

    /** reset_password. */
    method ResetPassword(token: string, newPassword: string, now: int, salt: nat) returns (r: Result<()>)
      requires Valid()
      modifies resetTokens, users
      ensures Valid()
      ensures r == AuthModel.ResetPassword(old(World()), token, newPassword, now, salt).result
      ensures World() == AuthModel.ResetPassword(old(World()), token, newPassword, now, salt).state
    {
      var found := resetTokens.FindSingle(ByLookupHash(HashTokenSha256(token)));
      if found.Err? {
        return Err(found.error);
      }
      if found.value.None? {
        return Err(InvalidToken);
      }
      var record := found.value.value;
      if record.data.expiresAt < now {
        AuthProperties.ResetDeleteKeepsInv(World(), ById(record.id));
        resetTokens.Delete(ById(record.id));
        return Err(InvalidToken);
      }
      if !VerifyPassword(token, record.data.hashedToken) {
        return Err(IncorrectCredentials);
      }
      var owner := users.FindSingle(ById(record.data.userId));
      if owner.Err? {
        return Err(owner.error);
      }
      if owner.value.None? {
        return Err(InvalidToken);
      }
      AuthProperties.ResetDeleteKeepsInv(World(), ById(record.id));
      resetTokens.Delete(ById(record.id));
      r := UpdateUserPassword(owner.value.value.id, newPassword, salt);
    }

    /** change_password; user is the caller as the access token named them. */
    method ChangePassword(user: Entry<User>, oldPassword: string, newPassword: string, salt: nat) returns (r: Result<()>)
      requires Valid()
      modifies users, refreshTokens
      ensures Valid()
      ensures r == AuthModel.ChangePassword(old(World()), user, oldPassword, newPassword, salt).result
      ensures World() == AuthModel.ChangePassword(old(World()), user, oldPassword, newPassword, salt).state
    {
      if !VerifyPassword(oldPassword, user.data.hashedPassword) {
        return Err(IncorrectOldPassword);
      }
      r := UpdateUserPassword(user.id, newPassword, salt);
      if r.Err? {
        return;
      }
      AuthProperties.RefreshDeleteKeepsInv(World(), ByUser(user.id));
      refreshTokens.Delete(ByUser(user.id));
      r := Ok(());
    }
  }
}
