/** The user schema (src/models/User.ts) as a validator: required fields, the name and
    password length limits, the email pattern, the role enumeration and its default, and
    email uniqueness as an invariant of the user collection. */
module UserModel {
  import opened Wrappers
  import UserEmail
  import Text

  datatype Role = UserRole | AdminRole

  /** The stored spelling of a role. */
  function RoleName(r: Role): string {
    match r
    case UserRole => "user"
    case AdminRole => "admin"
  }

  /** The role a string names, when it is one of the enumeration's values. */
  function ParseRole(s: string): (r: Option<Role>)
    ensures r.Some? <==> s == "user" || s == "admin"
    ensures r.Some? ==> RoleName(r.value) == s
  {
    if s == "user" then Some(UserRole) else if s == "admin" then Some(AdminRole) else None
  }

  /** A document as given to the model: each path present or absent. */
  datatype UserInput = UserInput(
    name: Option<string>, email: Option<string>, password: Option<string>,
    role: Option<string>, createdAt: Option<int>)

  /** A document that passed validation, with the defaults filled in. */
  datatype UserRecord = UserRecord(name: string, email: string, password: string, role: Role, createdAt: int)

  /** The failures the schema's validators report. */
  datatype Violation =
    | NameRequired | NameTooLong
    | EmailRequired | EmailInvalid
    | PasswordRequired | PasswordTooShort
    | RoleInvalid(value: string)

  /** The message of each failure; the role's is Mongoose's built-in enum message. */
  function ViolationMessage(v: Violation): string {
    match v
    case NameRequired => "Please provide a name"
    case NameTooLong => "Name cannot be more than 50 characters"
    case EmailRequired => "Please provide an email"
    case EmailInvalid => "Please provide a valid email"
    case PasswordRequired => "Please provide a password"
    case PasswordTooShort => "Password must be at least 6 characters"
    case RoleInvalid(value) => "`" + value + "` is not a valid enum value for path `role`."
  }

  /** A required string fails when absent or empty. */
  predicate Missing(v: Option<string>) {
    v.None? || v.value == ""
  }

  /** Every failing validator. A path reports only its first failing validator, and
      `required` runs first; the other validators skip absent values. */
  function Violations(input: UserInput): set<Violation> {
    (if Missing(input.name) then {NameRequired} else {})
    + (if input.name.Some? && Text.Utf16Length(input.name.value) > 50 then {NameTooLong} else {})
    + (if Missing(input.email) then {EmailRequired} else {})
    + (if input.email.Some? && input.email.value != "" && !UserEmail.IsUserEmail(input.email.value)
       then {EmailInvalid} else {})
    + (if Missing(input.password) then {PasswordRequired} else {})
    + (if !Missing(input.password) && Text.Utf16Length(input.password.value) < 6 then {PasswordTooShort} else {})
    + (if input.role.Some? && ParseRole(input.role.value).None? then {RoleInvalid(input.role.value)} else {})
  }

  /** What a stored user satisfies, as the schema states it. */
  ghost predicate ValidRecord(u: UserRecord) {
    && u.name != "" && Text.Utf16Length(u.name) <= 50
    && UserEmail.EmailPattern(u.email)
    && Text.Utf16Length(u.password) >= 6
  }

  /** Validation and defaults: the record, or every failure. */
  function ValidateUser(input: UserInput, now: int): (r: Result<UserRecord, set<Violation>>)
    ensures r.Ok? <==> (&& !Missing(input.name) && Text.Utf16Length(input.name.value) <= 50
                        && !Missing(input.email) && UserEmail.EmailPattern(input.email.value)
                        && input.password.Some? && Text.Utf16Length(input.password.value) >= 6
                        && (input.role.Some? ==> ParseRole(input.role.value).Some?))
    ensures r.Ok? ==> ValidRecord(r.value)
    ensures r.Ok? ==> && r.value.name == input.name.value && r.value.email == input.email.value
                      && r.value.password == input.password.value
                      && RoleName(r.value.role) == input.role.GetOr("user")
                      && r.value.createdAt == input.createdAt.GetOr(now)
    ensures r.Err? ==> r.error == Violations(input) && r.error != {}
  {
    UserEmail.EmailPatternIffUserEmail(input.email.GetOr(""));
    var errors := Violations(input);
    if errors != {} then Err(errors)
    else
      var role := if input.role.Some? then ParseRole(input.role.value).value else UserRole;
      Ok(UserRecord(input.name.value, input.email.value, input.password.value, role,
                    input.createdAt.GetOr(now)))
  }

  /** An empty email is reported as missing only; an address that does not match the
      pattern is reported as invalid only. */
  lemma EmailReports(input: UserInput, now: int)
    ensures input.email == Some("") ==> var r := ValidateUser(input, now);
      r.Err? && EmailRequired in r.error && EmailInvalid !in r.error
    ensures input.email.Some? && input.email.value != "" && !UserEmail.EmailPattern(input.email.value)
      ==> var r := ValidateUser(input, now);
          r.Err? && EmailInvalid in r.error && EmailRequired !in r.error
  {
    if input.email.Some? {
      UserEmail.EmailPatternIffUserEmail(input.email.value);
    }
  }

  /** An empty password is reported as missing only; a short one as too short only. */
  lemma PasswordReports(input: UserInput, now: int)
    ensures input.password == Some("") ==> var r := ValidateUser(input, now);
      r.Err? && PasswordRequired in r.error && PasswordTooShort !in r.error
    ensures input.password.Some? && 0 < Text.Utf16Length(input.password.value) < 6 ==> var r := ValidateUser(input, now);
      r.Err? && PasswordTooShort in r.error && PasswordRequired !in r.error
  {
  }

  /** Each path reports at most one failure. */
  lemma OneViolationPerPath(input: UserInput)
    ensures !(NameRequired in Violations(input) && NameTooLong in Violations(input))
    ensures !(EmailRequired in Violations(input) && EmailInvalid in Violations(input))
    ensures !(PasswordRequired in Violations(input) && PasswordTooShort in Violations(input))
  {
  }

  /** "a@b.com" is a valid address and "a@b.c" is not. */
  lemma ExampleAddresses(now: int)
    ensures ValidateUser(UserInput(Some("Ann"), Some("a@b.com"), Some("secret"), None, None), now)
         == Ok(UserRecord("Ann", "a@b.com", "secret", UserRole, now))
    ensures var r := ValidateUser(UserInput(Some("Ann"), Some("a@b.c"), Some("secret"), None, None), now);
      r.Err? && EmailInvalid in r.error
  {
    UserEmail.Examples();
    EmailReports(UserInput(Some("Ann"), Some("a@b.c"), Some("secret"), None, None), now);
  }

  /** The limits count UTF-16 code units, as JavaScript's `length` does: three emoji make a
      six-unit password, long enough, while five letters are too short. */
  lemma PasswordLimitCountsCodeUnits()
    ensures PasswordTooShort !in Violations(UserInput(None, None, Some("\U{1F600}\U{1F600}\U{1F600}"), None, None))
    ensures PasswordTooShort in Violations(UserInput(None, None, Some("abcde"), None, None))
  {
    Text.Utf16LengthOutsidePlane("\U{1F600}\U{1F600}\U{1F600}");
    Text.Utf16LengthInPlane("abcde");
  }

  /** A name of 26 emoji has 26 characters but 52 code units: too long. */
  lemma NameLimitCountsCodeUnits()
    ensures var name := seq(26, _ => '\U{1F600}');
      |name| <= 50 && NameTooLong in Violations(UserInput(Some(name), None, None, None, None))
  {
    Text.Utf16LengthOutsidePlane(seq(26, _ => '\U{1F600}'));
  }

  // Uniqueness of emails, which the database's unique index enforces.

  ghost predicate UniqueEmails(users: seq<UserRecord>) {
    forall i, j :: 0 <= i < |users| && 0 <= j < |users| && i != j ==> users[i].email != users[j].email
  }

  predicate EmailTaken(users: seq<UserRecord>, email: string) {
    exists i :: 0 <= i < |users| && users[i].email == email
  }

  datatype InsertError = Invalid(violations: set<Violation>) | DuplicateEmail

  /** Creating a user: the document is validated, then refused when its email is already
      stored. */
  function InsertUser(users: seq<UserRecord>, input: UserInput, now: int): (r: Result<seq<UserRecord>, InsertError>)
    ensures r.Ok? <==> ValidateUser(input, now).Ok? && !EmailTaken(users, input.email.value)
    ensures r.Ok? ==> r.value == users + [ValidateUser(input, now).value]
  {
    match ValidateUser(input, now)
    case Err(errors) => Err(Invalid(errors))
    case Ok(u) => if EmailTaken(users, u.email) then Err(DuplicateEmail) else Ok(users + [u])
  }

  /** Inserting keeps every stored email distinct. */
  lemma InsertKeepsEmailsUnique(users: seq<UserRecord>, input: UserInput, now: int)
    requires UniqueEmails(users)
    ensures var r := InsertUser(users, input, now); r.Ok? ==> UniqueEmails(r.value)
  {
    var r := InsertUser(users, input, now);
    if r.Ok? {
      var u := ValidateUser(input, now).value;
      var s := r.value;
      forall i, j | 0 <= i < |s| && 0 <= j < |s| && i != j ensures s[i].email != s[j].email {
        if i == |users| {
          assert s[j] == users[j];
        } else if j == |users| {
          assert s[i] == users[i];
        } else {
          assert s[i] == users[i] && s[j] == users[j];
        }
      }
    }
  }
}
