/** src/dto/user.rs: the login and registration payloads with their declared
    constraints, the password-free read view of a user, and the password-free
    `Debug` output of the payloads. */
module UserDto {
  import opened Wrappers
  import opened Entities
  import opened Validation

  datatype UserLoginDto = UserLoginDto(email: string, password: string)

  datatype UserRegisterDto = UserRegisterDto(
    email: string,
    password: string,
    firstName: Option<string>,
    lastName: Option<string>,
    userName: string)

  /** What the API returns about a user: the row without its password hash. */
  datatype UserReadDto = UserReadDto(
    id: i32,
    firstName: Option<string>,
    lastName: Option<string>,
    userName: string,
    email: string,
    createdAt: Timestamp,
    updatedAt: Option<Timestamp>,
    isActive: int)

  const EMAIL_ERROR := FieldError("email", "Email is not valid")
  const PASSWORD_ERROR := FieldError("password", "Password must be between 8 and 20 characters")
  const USER_NAME_ERROR := FieldError("user_name", "Username must be between 8 and 20 characters")

  /** `Validate for UserLoginDto`; `isEmail` is the `validator` crate's email
      rule. The payload is valid exactly when the email passes that rule and
      the password has 8 to 20 characters; each failure is reported on its
      own field. */
  function ValidateLogin(d: UserLoginDto, isEmail: string -> bool): (errors: seq<FieldError>)
    ensures errors == [] <==> isEmail(d.email) && LengthWithin(d.password, 8, 20)
    ensures EMAIL_ERROR in errors <==> !isEmail(d.email)
    ensures PASSWORD_ERROR in errors <==> !LengthWithin(d.password, 8, 20)
    ensures forall e :: e in errors ==> e == EMAIL_ERROR || e == PASSWORD_ERROR
  {
    var checks := [Check(isEmail(d.email), EMAIL_ERROR),
                   Check(LengthWithin(d.password, 8, 20), PASSWORD_ERROR)];
    ReportedIffFails(checks, 0);
    ReportedIffFails(checks, 1);
    Collect(checks)
  }

  /** `Validate for UserRegisterDto`: the login rules plus a user name of 8 to
      20 characters; the optional names are not constrained. */
  function ValidateRegister(d: UserRegisterDto, isEmail: string -> bool): (errors: seq<FieldError>)
    ensures errors == [] <==>
      isEmail(d.email) && LengthWithin(d.password, 8, 20) && LengthWithin(d.userName, 8, 20)
    ensures EMAIL_ERROR in errors <==> !isEmail(d.email)
    ensures PASSWORD_ERROR in errors <==> !LengthWithin(d.password, 8, 20)
    ensures USER_NAME_ERROR in errors <==> !LengthWithin(d.userName, 8, 20)
    ensures forall e :: e in errors ==> e == EMAIL_ERROR || e == PASSWORD_ERROR || e == USER_NAME_ERROR
  {
    var checks := [Check(isEmail(d.email), EMAIL_ERROR),
                   Check(LengthWithin(d.password, 8, 20), PASSWORD_ERROR),
                   Check(LengthWithin(d.userName, 8, 20), USER_NAME_ERROR)];
    ReportedIffFails(checks, 0);
    ReportedIffFails(checks, 1);
    ReportedIffFails(checks, 2);
    Collect(checks)
  }

  /** `first_name` and `last_name` never affect validation. */
  lemma OptionalNamesUnconstrained(d: UserRegisterDto, first: Option<string>, last: Option<string>,
                                   isEmail: string -> bool)
    ensures ValidateRegister(d.(firstName := first, lastName := last), isEmail) == ValidateRegister(d, isEmail)
  {
  }

  /** `UserReadDto::from`: every field but the password hash is copied from
      the row; the hash is dropped, so two rows that differ only in their hash
      read the same. */
  function ReadDtoFrom(u: User): (r: UserReadDto)
    ensures r.id == u.id && r.email == u.email && r.userName == u.userName
    ensures r.firstName == u.firstName && r.lastName == u.lastName
    ensures r.createdAt == u.createdAt && r.updatedAt == u.updatedAt && r.isActive == u.isActive
  {
    UserReadDto(u.id, u.firstName, u.lastName, u.userName, u.email, u.createdAt, u.updatedAt, u.isActive)
  }

  lemma ReadDtoDropsPassword(u: User, hash: string)
    ensures ReadDtoFrom(u.(password := hash)) == ReadDtoFrom(u)
  {
  }

  /** What `Formatter::debug_struct` is given: the struct name and its fields. */
  datatype DebugValue = DebugStr(s: string) | DebugNone | DebugSome(inner: string)
  datatype DebugStruct = DebugStruct(name: string, fields: seq<(string, DebugValue)>)

  function DebugOption(o: Option<string>): DebugValue
  {
    match o
    case Some(s) => DebugSome(s)
    case None => DebugNone
  }

  function FieldNames(s: DebugStruct): seq<string>
  {
    seq(|s.fields|, i requires 0 <= i < |s.fields| => s.fields[i].0)
  }

  /** `Debug for UserLoginDto`: only the email is written. */
  function DebugLogin(d: UserLoginDto): (r: DebugStruct)
    ensures r.name == "UserLoginDto" && FieldNames(r) == ["email"]
  {
    DebugStruct("UserLoginDto", [("email", DebugStr(d.email))])
  }

  /** `Debug for UserRegisterDto`: every field except the password. */
  function DebugRegister(d: UserRegisterDto): (r: DebugStruct)
    ensures r.name == "UserRegisterDto"
    ensures FieldNames(r) == ["first_name", "last_name", "user_name", "email"]
  {
    DebugStruct("UserRegisterDto",
      [("first_name", DebugOption(d.firstName)), ("last_name", DebugOption(d.lastName)),
       ("user_name", DebugStr(d.userName)), ("email", DebugStr(d.email))])
  }

  /** The `Debug` output never depends on the password, so it cannot reveal it. */
  lemma DebugHidesPassword(login: UserLoginDto, register: UserRegisterDto, password: string)
    ensures DebugLogin(login.(password := password)) == DebugLogin(login)
    ensures DebugRegister(register.(password := password)) == DebugRegister(register)
    ensures "password" !in FieldNames(DebugLogin(login)) && "password" !in FieldNames(DebugRegister(register))
  {
  }
}
