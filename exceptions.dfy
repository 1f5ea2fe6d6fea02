/** The failure taxonomy of the authentication service and the wrappers that
    carry it. Every exception the modelled code raises (its own HTTP errors,
    the errors of the libraries it calls, the service errors) is one
    constructor of Error; an operation that can raise returns a Result. */
module Exceptions {

  datatype Option<+T> = None | Some(value: T)

  datatype Error =
    /** 401 "Incorrect email or password" (unauthorized_exc_incorrect). */
    | IncorrectCredentials
    /** 403 "Inactive user" (forbidden_exc_inactive, FORBIDDEN_EXC_INACTIVE). */
    | InactiveUser
    /** 401 "Invalid token" (unauthorized_exc_inactive_token, UNAUTHORIZED_EXC_INVALID_TOKEN). */
    | InvalidToken
    /** 400 "Old password is incorrect" (incorrect_old_password). */
    | IncorrectOldPassword
    /** 401 "Authentication header missing". */
    | HeaderMissing
    /** 401 "Invalid token type ... expected ...". */
    | InvalidTokenType(expected: string)
    /** ValueError("Invalid or expired token") raised by decode_token. */
    | InvalidOrExpiredToken
    /** The JWT library's own errors (all of them subclasses of JWTError). */
    | JwtMalformed
    | JwtSignatureError
    | JwtAlgorithmError
    | JwtClaimsError(claim: string)
    | JwtExpired
    /** KeyError on a missing dictionary key. */
    | KeyError(key: string)
    /** TypeError: int(None). */
    | TypeError
    /** ValueError: int() of a string that is not an integer literal. */
    | ValueError
    /** AttributeError: `.value` of a role that is None. */
    | AttributeError
    /** The service errors of user_service.py. */
    | NotFound
    | AlreadyExists
    /** A request field rejected by schema validation. */
    | ValidationError(field: string)
    /** A unique constraint of the database refused an insert. */
    | IntegrityError
    /** scalar_one_or_none() saw more than one row. */
    | MultipleResultsFound

  datatype Result<+T> = Ok(value: T) | Err(error: Error)

  /** What a call that changes a store leaves behind: its outcome, and the
      store as the call left it (on an error, as it was when the error was
      raised). */
  datatype Outcome<+T, S> = Outcome(result: Result<T>, state: S)
}
