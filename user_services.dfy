/** src/services/user.rs: registration (`create_user`, `add_user`) over a user
    table held by the service, and `verify_password`. bcrypt is a parameter
    whose assumed behaviour is stated by `Consistent` and `BcryptShaped`. */
module UserServices {
  import opened Wrappers
  import opened Entities
  import opened UserDto
  import opened UserRepository
  import opened DbErrors
  import opened UserErrors
  import opened ApiErrors

  /** `sqlx::Error` as `create_user` inspects it: an error reported by the
      database, with its SQLSTATE code if any, or any other failure. `text` is
      the error's `to_string()`. */
  datatype SqlxError = Database(code: Option<string>, text: string) | Other(text: string)

  /** PostgreSQL's SQLSTATE for `unique_violation`. */
  const UNIQUE_VIOLATION := "23505"

  /** The work factor `add_user` passes to `bcrypt::hash`. */
  const BCRYPT_COST := 4

  /** `bcrypt::hash(password, cost)` with its random salt made a parameter, and
      `bcrypt::verify(password, hash)`. */
  datatype Hasher = Hasher(
    hash: (string, int, string) -> string,
    verify: (string, string) -> Result<bool, string>)

  /** A password verifies against any hash made from it. */
  ghost predicate Consistent(h: Hasher)
  {
    forall password, salt :: h.verify(password, h.hash(password, BCRYPT_COST, salt)) == Ok(true)
  }

  /** A bcrypt hash is a 60-character string. */
  ghost predicate BcryptShaped(h: Hasher)
  {
    forall password, salt :: |h.hash(password, BCRYPT_COST, salt)| == 60
  }

  /** `verify_password`: true only when bcrypt positively confirms the
      password; a verification error counts as a mismatch. */
  function VerifyPassword(h: Hasher, user: User, password: string): (ok: bool)
    ensures ok <==> h.verify(password, user.password) == Ok(true)
  {
    match h.verify(password, user.password)
    case Ok(matches) => matches
    case Err(_) => false
  }

  /** How the round trip of `add_user`'s `INSERT ... RETURNING` ends. Either
      the statement reaches the table, where the unique index on `email`
      refuses a taken email and otherwise the row commits with the columns
      the database fills in; or it is refused for a reason of its own (a
      concurrent duplicate, another constraint, a lost connection, a pool
      time-out, ...). */
  datatype InsertOutcome =
    | Committed(id: i32, createdAt: Timestamp, updatedAt: Option<Timestamp>)
    | Refused(error: SqlxError)

  /** The row `add_user` inserts: the payload's names and email, the hash of
      the password, and `is_active` set to 1. */
  function NewRow(payload: UserRegisterDto, hashed: string, id: i32, createdAt: Timestamp,
                  updatedAt: Option<Timestamp>): (u: User)
    ensures u.email == payload.email && u.userName == payload.userName
    ensures u.firstName == payload.firstName && u.lastName == payload.lastName
    ensures u.password == hashed && u.isActive == 1
    ensures u.id == id && u.createdAt == createdAt && u.updatedAt == updatedAt
  {
    User(id, payload.firstName, payload.lastName, payload.userName, payload.email, hashed, createdAt, updatedAt, 1)
  }

  /** The error-classification `match` of `create_user`: SQLSTATE 23505 is a
      duplicate; every other database error and every non-database error is
      the catch-all, keeping the error's text. */
  function Classify(e: SqlxError): (d: DbError)
    ensures d.UniqueConstraintViolation? <==> e.Database? && e.code == Some(UNIQUE_VIOLATION)
    ensures d.text == e.text
  {
    match e
    case Database(code, text) =>
      if code == Some(UNIQUE_VIOLATION) then UniqueConstraintViolation(text) else SomethingWentWrong(text)
    case Other(text) => SomethingWentWrong(text)
  }

  /** The unique index on `users.email`, as the database reports a breach. */
  const DUPLICATE_EMAIL := Database(Some(UNIQUE_VIOLATION), "duplicate key value violates unique constraint")

  /** `add_user` on a table: its result and the table afterwards. */
  function Insert(users: map<string, User>, row: User, outcome: InsertOutcome): (Result<User, SqlxError>, map<string, User>)
  {
    match outcome
    case Refused(e) => (Err(e), users)
    case Committed(_, _, _) =>
      if row.email in users then (Err(DUPLICATE_EMAIL), users) else (Ok(row), users[row.email := row])
  }

  /** The row `add_user` would build for this payload, salt and outcome. */
  function RowFor(payload: UserRegisterDto, h: Hasher, salt: string, outcome: InsertOutcome): User
  {
    var hashed := h.hash(payload.password, BCRYPT_COST, salt);
    match outcome
    case Committed(id, createdAt, updatedAt) => NewRow(payload, hashed, id, createdAt, updatedAt)
    case Refused(_) => NewRow(payload, hashed, 0, Timestamp(0), None)
  }

  /** `create_user` on a table: its result and the table afterwards. */
  function CreateUserSpec(users: map<string, User>, payload: UserRegisterDto, h: Hasher, salt: string,
                          lookup: QueryOutcome, outcome: InsertOutcome): (Result<UserReadDto, ApiError>, map<string, User>)
  {
    match FindByEmail(users, payload.email, lookup)
    case Some(_) => (Err(ApiErrors.UserError(UserAlreadyExists)), users)
    case None =>
      var (added, after) := Insert(users, RowFor(payload, h, salt, outcome), outcome);
      match added
      case Ok(row) => (Ok(ReadDtoFrom(row)), after)
      case Err(e) => (Err(ApiErrors.DbError(Classify(e))), after)
  }

  /** A user found by the pre-check makes registration fail with
      `UserAlreadyExists` and leaves the table as it was. */
  lemma ExistingEmailRejected(users: map<string, User>, payload: UserRegisterDto, h: Hasher, salt: string,
                              outcome: InsertOutcome)
    requires payload.email in users
    ensures CreateUserSpec(users, payload, h, salt, Answered, outcome)
            == (Err(ApiErrors.UserError(UserAlreadyExists)), users)
  {
  }

  /** Registration succeeds exactly when the pre-check finds nobody, the
      email is free and the database commits; then the table gains exactly the
      new row, whose password is the bcrypt hash of the payload's password and
      which is active, and the caller gets that row's read view. Otherwise the
      table is unchanged. */
  lemma RegistrationOutcome(users: map<string, User>, payload: UserRegisterDto, h: Hasher, salt: string,
                            lookup: QueryOutcome, outcome: InsertOutcome)
    requires KeyedByEmail(users)
    ensures var (r, after) := CreateUserSpec(users, payload, h, salt, lookup, outcome);
      && KeyedByEmail(after)
      && (r.Ok? <==> payload.email !in users && outcome.Committed?)
      && (r.Ok? ==>
            var row := after[payload.email];
            && after == users[payload.email := row]
            && row == NewRow(payload, h.hash(payload.password, BCRYPT_COST, salt),
                             outcome.id, outcome.createdAt, outcome.updatedAt)
            && row.password == h.hash(payload.password, BCRYPT_COST, salt)
            && row.isActive == 1
            && row.id == outcome.id
            && r.value == ReadDtoFrom(row))
      && (r.Err? ==> after == users)
  {
  }

  /** Insert failures are classified by the database's SQLSTATE: a stored
      email that the pre-check missed (its query failed) and that the insert
      brings to the index is `UniqueConstraintViolation`; any refusal of the
      insert, whether the email is stored or not, is classified by its own
      error, so a lost connection is `SomethingWentWrong` with the driver's
      text. */
  lemma InsertFailureClassified(users: map<string, User>, payload: UserRegisterDto, h: Hasher, salt: string,
                                lookup: QueryOutcome, outcome: InsertOutcome)
    requires FindByEmail(users, payload.email, lookup).None?
    ensures var r := CreateUserSpec(users, payload, h, salt, lookup, outcome).0;
      && (payload.email in users && outcome.Committed? ==>
            r == Err(ApiErrors.DbError(UniqueConstraintViolation(DUPLICATE_EMAIL.text))))
      && (outcome.Refused? ==> r == Err(ApiErrors.DbError(Classify(outcome.error))))
      && (outcome.Refused? && outcome.error.Database? && outcome.error.code != Some(UNIQUE_VIOLATION) ==>
            r == Err(ApiErrors.DbError(SomethingWentWrong(outcome.error.text))))
      && (outcome.Refused? && outcome.error.Other? ==>
            r == Err(ApiErrors.DbError(SomethingWentWrong(outcome.error.text))))
  {
  }

  /** With bcrypt-shaped hashes, a password that passed validation (at most 20
      characters) is never what gets stored. */
  lemma StoredPasswordIsNotPlainText(users: map<string, User>, payload: UserRegisterDto, h: Hasher, salt: string,
                                     lookup: QueryOutcome, outcome: InsertOutcome)
    requires BcryptShaped(h)
    requires |payload.password| <= 20
    requires CreateUserSpec(users, payload, h, salt, lookup, outcome).0.Ok?
    ensures CreateUserSpec(users, payload, h, salt, lookup, outcome).1[payload.email].password != payload.password
  {
    assert |h.hash(payload.password, BCRYPT_COST, salt)| == 60;
  }

  /** The service: the `users` table, keyed by email. */
  class UserService {
    var users: map<string, User>

    ghost predicate Valid()
      reads this
    {
      KeyedByEmail(users)
    }

    /** `UserService::new`: the service works on the table the database
        already holds. */
    constructor (users: map<string, User>)
      requires KeyedByEmail(users)
      ensures Valid() && this.users == users
    {
      this.users := users;
    }

    /** `add_user`: hash the password and insert the row; the table changes
        only when the insert reaches the table and the email is free. */
    method AddUser(payload: UserRegisterDto, h: Hasher, salt: string, outcome: InsertOutcome)
      returns (r: Result<User, SqlxError>)
      requires Valid()
      modifies this
      ensures Valid()
      ensures (r, users) == Insert(old(users), RowFor(payload, h, salt, outcome), outcome)
      ensures r.Ok? ==> users == old(users)[payload.email := r.value]
      ensures r.Err? ==> users == old(users)
    {
      var hashed := h.hash(payload.password, BCRYPT_COST, salt);
      match outcome
      case Refused(e) =>
        r := Err(e);
      case Committed(id, createdAt, updatedAt) =>
        if payload.email in users {
          r := Err(DUPLICATE_EMAIL);
        } else {
          var row := NewRow(payload, hashed, id, createdAt, updatedAt);
          users := users[row.email := row];
          r := Ok(row);
        }
    }

    /** `create_user`: the email pre-check, then the insert and the
        classification of its failure. */
    method CreateUser(payload: UserRegisterDto, h: Hasher, salt: string, lookup: QueryOutcome,
                      outcome: InsertOutcome) returns (r: Result<UserReadDto, ApiError>)
      requires Valid()
      modifies this
      ensures Valid()
      ensures (r, users) == CreateUserSpec(old(users), payload, h, salt, lookup, outcome)
    {
      match FindByEmail(users, payload.email, lookup)
      case Some(_) =>
        r := Err(ApiErrors.UserError(UserAlreadyExists));
      case None =>
        var added := AddUser(payload, h, salt, outcome);
        match added
        case Ok(row) => r := Ok(ReadDtoFrom(row));
        case Err(e) => r := Err(ApiErrors.DbError(Classify(e)));
    }
  }
}
