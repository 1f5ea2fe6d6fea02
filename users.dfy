/** Registration and lookup of users (UserService in
    src/services/user_service.py) over the users table. */
module Users {
  import opened Exceptions
  import opened Crypto
  import opened Repo
  import opened UserSchemas
  import opened Records

  /** What the database keeps true of the users table: unique keys below the
      counter, unique e-mails, unique non-null phone numbers. */
  ghost predicate UsersValid(t: TableState<User>)
  {
    WellFormed(t) && UniqueBy(t.rows, EmailOf) && PhonesUnique(t.rows)
  }

  /** The row add builds from a validated request whose role is role: the
      password only as its hash, active, not verified. */
  function NewUser(reg: Registration, role: Role, salt: nat): User
  {
    User(reg.firstName, reg.lastName, reg.email, reg.phoneNumber, role, HashPassword(reg.password, salt), true, false)
  }

  /** add: refuses a known e-mail, then reads role.value (None has no value),
      then inserts; the unique phone index refuses a number already taken. */
  function AddUser(t: TableState<User>, reg: Registration, salt: nat): (o: Outcome<Entry<User>, TableState<User>>)
    ensures o.result.Err? ==> o.state == t
    ensures o.result.Ok? ==> o.result.value.id == t.nextId && o.state == Inserted(t, o.result.value.data)
  {
    match Find(t, ByEmail(reg.email))
    case Err(e) => Outcome(Err(e), t)
    case Ok(Some(_)) => Outcome(Err(AlreadyExists), t)
    case Ok(None) =>
      if reg.role.None? then Outcome(Err(AttributeError), t)
      else if PhoneInUse(t, reg.phoneNumber) then Outcome(Err(IntegrityError), t)
      else
        var u := NewUser(reg, reg.role.value, salt);
        Outcome(Ok(Entry(t.nextId, u)), Inserted(t, u))
  }

  /** get(**filters): the one matching user, or NotFoundError. */
  function GetUser(t: TableState<User>, p: Filter<User>): (r: Result<Entry<User>>)
    ensures r.Ok? ==> r.value in t.rows && p(r.value)
  {
    match Find(t, p)
    case Err(e) => Err(e)
    case Ok(None) => Err(NotFound)
    case Ok(Some(u)) =>
      FindSome(t, p);
      Ok(u)
  }

  /** A registered e-mail is refused, and nothing is created. */
  lemma AddExistingEmail(t: TableState<User>, reg: Registration, salt: nat)
    requires UniqueBy(t.rows, EmailOf)
    requires exists i :: 0 <= i < |t.rows| && t.rows[i].data.email == reg.email
    ensures AddUser(t, reg, salt) == Outcome(Err(AlreadyExists), t)
  {
    FindByUniqueKey(t, EmailOf, reg.email, ByEmail(reg.email));
  }

  /** A new e-mail with a role and a free phone number creates exactly one
      user, keyed by the counter, holding the request's fields, a hash the
      password verifies against (and no other password does), active. */
  lemma AddNewUser(t: TableState<User>, reg: Registration, salt: nat)
    requires forall i :: 0 <= i < |t.rows| ==> t.rows[i].data.email != reg.email
    requires reg.role.Some? && !PhoneInUse(t, reg.phoneNumber)
    ensures var o := AddUser(t, reg, salt);
      && o.result.Ok? && o.result.value.id == t.nextId
      && o.state == Inserted(t, o.result.value.data)
      && var u := o.result.value.data;
      && u.firstName == reg.firstName && u.lastName == reg.lastName && u.email == reg.email
      && u.phoneNumber == reg.phoneNumber && u.role == reg.role.value
      && u.isActive && !u.isVerified
      && VerifyPassword(reg.password, u.hashedPassword)
      && forall q :: q != reg.password ==> !VerifyPassword(q, u.hashedPassword)
  {
    FindNone(t, ByEmail(reg.email));
  }

  /** An explicit null role fails on role.value before anything is created. */
  lemma AddNullRole(t: TableState<User>, reg: Registration, salt: nat)
    requires forall i :: 0 <= i < |t.rows| ==> t.rows[i].data.email != reg.email
    requires reg.role.None?
    ensures AddUser(t, reg, salt) == Outcome(Err(AttributeError), t)
  {
    FindNone(t, ByEmail(reg.email));
  }

  /** A phone number already registered is refused by the database. */
  lemma AddTakenPhone(t: TableState<User>, reg: Registration, salt: nat)
    requires forall i :: 0 <= i < |t.rows| ==> t.rows[i].data.email != reg.email
    requires reg.role.Some? && PhoneInUse(t, reg.phoneNumber)
    ensures AddUser(t, reg, salt) == Outcome(Err(IntegrityError), t)
  {
    FindNone(t, ByEmail(reg.email));
  }

  /** add keeps the users table valid, whatever the request. */
  lemma AddKeepsValid(t: TableState<User>, reg: Registration, salt: nat)
    requires UsersValid(t)
    ensures UsersValid(AddUser(t, reg, salt).state)
  {
    var o := AddUser(t, reg, salt);
    if o.result.Ok? {
      FindNone(t, ByEmail(reg.email));
      var u := o.result.value.data;
      InsertedWellFormed(t, u);
      InsertedUnique(t, u, EmailOf);
      var r := o.state.rows;
      forall i, j | 0 <= i < j < |r| && r[i].data.phoneNumber.Some?
        ensures r[i].data.phoneNumber != r[j].data.phoneNumber
      {
        assert r[i] == t.rows[i];
        if j < |t.rows| { assert r[j] == t.rows[j]; }
      }
    }
  }

  /** In a valid table, get(id=id) returns the user with that key, and
      raises NotFoundError exactly when there is none. */
  lemma GetUserById(t: TableState<User>, id: int)
    requires WellFormed(t)
    ensures forall e :: GetUser(t, ById(id)) == Ok(e) <==> e in t.rows && e.id == id
    ensures GetUser(t, ById(id)) == Err(NotFound) <==> forall i :: 0 <= i < |t.rows| ==> t.rows[i].id != id
  {
    FindById(t, id);
    FindNone(t, ById(id));
  }

  /** UserService over the users repository. */
  class UserService {
    const users: Table<User>

    constructor (users: Table<User>)
      ensures this.users == users
    {
      this.users := users;
    }

    ghost predicate Valid()
      reads users
    {
      users.Valid() && UsersValid(users.State())
    }

    /** add(user_data). */
    method Add(reg: Registration, salt: nat) returns (r: Result<Entry<User>>)
      requires Valid()
      modifies users
      ensures Valid()
      ensures r == AddUser(old(users.State()), reg, salt).result
      ensures users.State() == AddUser(old(users.State()), reg, salt).state
    {
      AddKeepsValid(users.State(), reg, salt);
      var found := users.FindSingle(ByEmail(reg.email));
      if found.Err? {
        return Err(found.error);
      }
      if found.value.Some? {
        return Err(AlreadyExists);
      }
      if reg.role.None? {
        return Err(AttributeError);
      }
      if PhoneInUse(users.State(), reg.phoneNumber) {
        return Err(IntegrityError);
      }
      var row := users.Create(NewUser(reg, reg.role.value, salt));
      r := Ok(row);
    }

    /** get(**filters). */
    method Get(p: Filter<User>) returns (r: Result<Entry<User>>)
      ensures r == GetUser(users.State(), p)
    {
      var found := users.FindSingle(p);
      if found.Err? {
        return Err(found.error);
      }
      if found.value.None? {
        return Err(NotFound);
      }
      r := Ok(found.value.value);
    }

    /** update(**kwargs): an empty body. */
    method Update() returns (r: Option<Entry<User>>)
      ensures r == None
    {
      r := None;
    }

    /** delete(**kwargs): an empty body. */
    method Delete() returns (r: Option<Entry<User>>)
      ensures r == None
    {
      r := None;
    }

    /** get_all(**kwargs): an empty body. */
    method GetAll() returns (r: Option<seq<Entry<User>>>)
      ensures r == None
    {
      r := None;
    }
  }
}
