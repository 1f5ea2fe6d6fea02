/** The registration request (RegisterUserSchema in src/schemas/user_schemas.py):
    the length bounds of its fields, their defaults, and the phone-number
    validator that runs after the length check of its field. */
module UserSchemas {
  import opened Exceptions
  import opened Text

  /** UserRole: "user" or "admin". */
  datatype Role = UserRole | AdminRole

  /** A field of the request body: left out, sent as null, or sent. */
  datatype Field<+T> = Omitted | Null | Given(value: T)

  /** The request body as it arrives, before validation. */
  datatype RawRegistration = RawRegistration(
    firstName: string,
    lastName: Field<string>,
    email: string,
    phoneNumber: Field<string>,
    role: Field<Role>,
    password: string)

  /** A validated request: optional fields are None when left out or null,
      and role is None only when null was sent explicitly. */
  datatype Registration = Registration(
    firstName: string,
    lastName: Option<string>,
    email: string,
    phoneNumber: Option<string>,
    role: Option<Role>,
    password: string)

  /** The regular expression \+\d{5,15}, matched against the whole string. */
  predicate IsPhoneFormat(v: string)
  {
    6 <= |v| <= 16 && v[0] == '+' && AllDigits(v[1..])
  }

  /** value.strip().replace(" ", ""): the part of value between its outer
      whitespace, with every space inside it taken out and every other
      character kept in order. */
  function NormalisePhone(value: string): (v: string)
    ensures |v| <= |value|
    ensures forall i :: 0 <= i < |v| ==> v[i] != ' '
    ensures exists i, j :: StripsTo(value, i, j) && v == RemoveAll(value[i..j], ' ')
  {
    RemoveAll(Strip(value), ' ')
  }

  /** validate_phone_number: None passes through; a string is normalised and
      must then be a "+" followed by 5 to 15 digits. */
  function ValidatePhoneNumber(value: Option<string>): (r: Result<Option<string>>)
    ensures value.None? ==> r == Ok(None)
    ensures value.Some? && r.Ok? ==> r.value.Some? && IsPhoneFormat(r.value.value)
    ensures r.Err? ==> r.error == ValidationError("phone_number")
  {
    match value
    case None => Ok(None)
    case Some(s) =>
      var v := NormalisePhone(s);
      if IsPhoneFormat(v) then Ok(Some(v)) else Err(ValidationError("phone_number"))
  }

  /** A string accepted by the validator comes out with its outer whitespace
      stripped and its spaces removed, and a string is accepted exactly when
      that normal form has the phone shape. */
  lemma PhoneAccepted(s: string)
    ensures ValidatePhoneNumber(Some(s)).Ok? <==> IsPhoneFormat(RemoveAll(Strip(s), ' '))
    ensures ValidatePhoneNumber(Some(s)).Ok? ==> ValidatePhoneNumber(Some(s)).value == Some(RemoveAll(Strip(s), ' '))
  {
  }

  /** A string in the phone shape contains no whitespace. */
  lemma PhoneFormatHasNoSpace(v: string)
    requires IsPhoneFormat(v)
    ensures forall i :: 0 <= i < |v| ==> !IsSpace(v[i])
  {
    forall i | 0 <= i < |v| ensures !IsSpace(v[i]) {
      if i > 0 {
        assert v[i] == v[1..][i - 1];
      }
    }
  }

  /** The validator is idempotent: its output, validated again, is itself. */
  lemma PhoneIdempotent(s: string)
    requires ValidatePhoneNumber(Some(s)).Ok?
    ensures ValidatePhoneNumber(ValidatePhoneNumber(Some(s)).value) == ValidatePhoneNumber(Some(s))
  {
    PhoneFormatFixpoint(ValidatePhoneNumber(Some(s)).value.value);
  }

  /** pydantic's min_length/max_length on a str. */
  predicate LengthIn(s: string, lo: nat, hi: nat)
  {
    lo <= |s| <= hi
  }

  /** The value an Optional[str] field with default None takes. */
  function OptionalText(f: Field<string>): Option<string>
  {
    match f
    case Given(s) => Some(s)
    case _ => None
  }

  /** RegisterUserSchema(**body): the length bounds in field order (the first
      failing field is reported), the phone validator after its field's
      bound, then the defaults. */
  function ValidateRegistration(raw: RawRegistration): (r: Result<Registration>)
    ensures r.Err? ==> r.error.ValidationError?
    ensures !LengthIn(raw.firstName, 3, 50) ==> r == Err(ValidationError("first_name"))
    ensures LengthIn(raw.firstName, 3, 50) && raw.lastName.Given? && !LengthIn(raw.lastName.value, 3, 50) ==>
      r == Err(ValidationError("last_name"))
    ensures LengthIn(raw.firstName, 3, 50) && (raw.lastName.Given? ==> LengthIn(raw.lastName.value, 3, 50)) ==>
      && (!LengthIn(raw.email, 7, 50) ==> r == Err(ValidationError("email")))
      && (LengthIn(raw.email, 7, 50) && raw.phoneNumber.Given? && !LengthIn(raw.phoneNumber.value, 7, 15) ==>
            r == Err(ValidationError("phone_number")))
      && (LengthIn(raw.email, 7, 50) && (raw.phoneNumber.Given? ==> LengthIn(raw.phoneNumber.value, 7, 15)) ==>
            && (ValidatePhoneNumber(OptionalText(raw.phoneNumber)).Err? ==> r == Err(ValidationError("phone_number")))
            && (ValidatePhoneNumber(OptionalText(raw.phoneNumber)).Ok? && !LengthIn(raw.password, 3, 50) ==>
                  r == Err(ValidationError("password"))))
    ensures r.Ok? ==>
      && r.value.firstName == raw.firstName && r.value.email == raw.email
      && r.value.password == raw.password
      && r.value.lastName == OptionalText(raw.lastName)
  {
    if !LengthIn(raw.firstName, 3, 50) then Err(ValidationError("first_name"))
    else if raw.lastName.Given? && !LengthIn(raw.lastName.value, 3, 50) then Err(ValidationError("last_name"))
    else if !LengthIn(raw.email, 7, 50) then Err(ValidationError("email"))
    else if raw.phoneNumber.Given? && !LengthIn(raw.phoneNumber.value, 7, 15) then Err(ValidationError("phone_number"))
    else
      var phone := ValidatePhoneNumber(OptionalText(raw.phoneNumber));
      if phone.Err? then Err(phone.error)
      else if !LengthIn(raw.password, 3, 50) then Err(ValidationError("password"))
      else
        var role := match raw.role
          case Omitted => Some(UserRole)
          case Null => None
          case Given(x) => Some(x);
        Ok(Registration(raw.firstName, OptionalText(raw.lastName), raw.email, phone.value, role, raw.password))
  }

  /** A request is accepted exactly when it meets every length bound and
      the phone validator accepts its phone number. */
  lemma RegistrationBounds(raw: RawRegistration)
    ensures ValidateRegistration(raw).Ok? <==>
      && LengthIn(raw.firstName, 3, 50) && LengthIn(raw.email, 7, 50) && LengthIn(raw.password, 3, 50)
      && (raw.lastName.Given? ==> LengthIn(raw.lastName.value, 3, 50))
      && (raw.phoneNumber.Given? ==> LengthIn(raw.phoneNumber.value, 7, 15))
      && ValidatePhoneNumber(OptionalText(raw.phoneNumber)).Ok?
  {
  }

  /** Left-out fields take their defaults: no last name, no phone number,
      and the role "user"; an explicit null role stays None. */
  lemma RegistrationDefaults(raw: RawRegistration)
    requires ValidateRegistration(raw).Ok?
    ensures raw.lastName.Omitted? ==> ValidateRegistration(raw).value.lastName == None
    ensures raw.phoneNumber.Omitted? ==> ValidateRegistration(raw).value.phoneNumber == None
    ensures raw.role.Omitted? ==> ValidateRegistration(raw).value.role == Some(UserRole)
    ensures raw.role.Null? ==> ValidateRegistration(raw).value.role == None
    ensures raw.role.Given? ==> ValidateRegistration(raw).value.role == Some(raw.role.value)
  {
  }

  /** A registered phone number is the validator's output on the sent string
      and carries 5 to 14 digits: the bound of 15 characters applies to the
      string before normalisation, "+" included, so the 15 digits the
      expression allows never get through. */
  lemma RegisteredPhoneDigits(raw: RawRegistration)
    requires ValidateRegistration(raw).Ok?
    requires ValidateRegistration(raw).value.phoneNumber.Some?
    ensures raw.phoneNumber.Given?
    ensures ValidateRegistration(raw).value.phoneNumber == ValidatePhoneNumber(Some(raw.phoneNumber.value)).value
    ensures var v := ValidateRegistration(raw).value.phoneNumber.value;
      IsPhoneFormat(v) && 5 <= |v| - 1 <= 14
  {
    RegistrationPhone(raw);
    RegistrationBounds(raw);
    ValidatedPhoneNoLonger(raw.phoneNumber.value);
  }

  /** The phone number of an accepted request is the validator's output. */
  lemma RegistrationPhone(raw: RawRegistration)
    requires ValidateRegistration(raw).Ok?
    ensures ValidateRegistration(raw).value.phoneNumber == ValidatePhoneNumber(OptionalText(raw.phoneNumber)).value
  {
  }

  /** Validation never lengthens a phone number. */
  lemma ValidatedPhoneNoLonger(s: string)
    ensures ValidatePhoneNumber(Some(s)).Ok? ==> |ValidatePhoneNumber(Some(s)).value.value| <= |s|
  {
  }

  /** "+" and 15 digits pass the validator but not the length bound. */
  lemma FifteenDigitsRejected(raw: RawRegistration)
    requires raw.phoneNumber.Given? && IsPhoneFormat(raw.phoneNumber.value) && |raw.phoneNumber.value| == 16
    ensures ValidatePhoneNumber(Some(raw.phoneNumber.value)) == Ok(Some(raw.phoneNumber.value))
    ensures ValidateRegistration(raw).Err?
  {
    PhoneFormatFixpoint(raw.phoneNumber.value);
    assert !LengthIn(raw.phoneNumber.value, 7, 15);
    RegistrationBounds(raw);
  }

  /** A string already in the phone shape passes the validator unchanged. */
  lemma PhoneFormatFixpoint(v: string)
    requires IsPhoneFormat(v)
    ensures ValidatePhoneNumber(Some(v)) == Ok(Some(v))
  {
    PhoneFormatHasNoSpace(v);
    NormaliseSpaceless(v);
  }

  /** Normalising a string with no whitespace in it leaves it as it is. */
  lemma NormaliseSpaceless(v: string)
    requires forall i :: 0 <= i < |v| ==> !IsSpace(v[i])
    ensures NormalisePhone(v) == v
  {
    StripNoSpace(v);
    RemoveAllAbsent(v, ' ');
  }
}
