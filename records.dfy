/** The rows of the three tables the service works on, the message it
    publishes, the column filters its queries use, and the unique columns
    the database enforces. Time is in whole POSIX seconds. */
module Records {
  import opened Exceptions
  import opened Crypto
  import opened Repo
  import opened UserSchemas

  /** A row of users. */
  datatype User = User(
    firstName: string,
    lastName: Option<string>,
    email: string,
    phoneNumber: Option<string>,
    role: Role,
    hashedPassword: Digest,
    isActive: bool,
    isVerified: bool)

  /** A row of refresh_tokens: one signed-in session. */
  datatype RefreshRecord = RefreshRecord(userId: nat, jti: string, expiresAt: int)

  /** A row of password_reset_tokens: the SHA-256 of the raw token to find the
      row, its bcrypt hash to check it. */
  datatype ResetRecord = ResetRecord(userId: nat, lookupHash: LookupDigest, hashedToken: Digest, expiresAt: int)

  /** A message handed to the broker: its queue and its payload {email, token}. */
  datatype Message = Message(queue: string, email: string, token: string)

  const ResetQueue := "password-reset-request"

  /** str(uuid.uuid4()): 36 characters, never empty. */
  type Uuid = s: string | |s| == 36 witness "00000000-0000-0000-0000-000000000000"

  /** filter_by(email=email). */
  function ByEmail(email: string): Filter<User>
  {
    (e: Entry<User>) => e.data.email == email
  }

  /** filter_by(user_id=userId, jti=jti). */
  function ByUserAndJti(userId: int, jti: string): Filter<RefreshRecord>
  {
    (e: Entry<RefreshRecord>) => e.data.userId == userId && e.data.jti == jti
  }

  /** filter_by(user_id=userId). */
  function ByUser(userId: int): Filter<RefreshRecord>
  {
    (e: Entry<RefreshRecord>) => e.data.userId == userId
  }

  /** filter_by(lookup_hash=h). */
  function ByLookupHash(h: LookupDigest): Filter<ResetRecord>
  {
    (e: Entry<ResetRecord>) => e.data.lookupHash == h
  }

  function EmailOf(e: Entry<User>): string { e.data.email }

  function JtiOf(e: Entry<RefreshRecord>): string { e.data.jti }

  function LookupHashOf(e: Entry<ResetRecord>): LookupDigest { e.data.lookupHash }

  /** The unique index on users.phone_number, which admits any number of
      NULLs. */
  ghost predicate PhonesUnique(rows: seq<Entry<User>>)
  {
    forall i, j :: 0 <= i < j < |rows| && rows[i].data.phoneNumber.Some? ==>
      rows[i].data.phoneNumber != rows[j].data.phoneNumber
  }

  /** Whether an insert of phone would break the unique phone index. */
  predicate PhoneInUse(t: TableState<User>, phone: Option<string>)
  {
    phone.Some? && exists i :: 0 <= i < |t.rows| && t.rows[i].data.phoneNumber == phone
  }

  /** Whether an insert of jti would break the unique index on refresh_tokens.jti. */
  predicate JtiInUse(t: TableState<RefreshRecord>, jti: string)
  {
    exists i :: 0 <= i < |t.rows| && t.rows[i].data.jti == jti
  }

  /** Whether an insert of h would break the unique lookup_hash column. */
  predicate LookupHashInUse(t: TableState<ResetRecord>, h: LookupDigest)
  {
    exists i :: 0 <= i < |t.rows| && t.rows[i].data.lookupHash == h
  }

  /** The new hashed_password of update_user_password; nothing else changes. */
  function SetPassword(h: Digest): User -> User
  {
    (u: User) => u.(hashedPassword := h)
  }
}
