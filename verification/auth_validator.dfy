/** The request-body schemas for accounts (api/src/validators/auth.validator.js):
    registration and login. Both drop keys they do not list. The email
    format check belongs to the schema library and is a parameter here. */
module AuthValidator {
  import opened Common
  import opened ErrorHandler

  /** `z.email()`'s format check on a string. */
  type EmailCheck = string -> bool

  const NameRequired := "Name is required"
  const InvalidEmail := "Invalid email format"
  const InvalidRole := "Invalid role. Use: admin, manager, user"
  const PasswordTooShort := "Password must be at least 6 characters"
  const PasswordRequired := "Password is required"

  const MinName := 1
  const MinRegisterPassword := 6
  const MinLoginPassword := 1

  /** `key` holds a string of at least `min` characters. */
  predicate HasMinLength(body: Body, key: string, min: int) {
    key in body && body[key].JStr? && |body[key].s| >= min
  }

  predicate HasEmail(body: Body, isEmail: EmailCheck) {
    "email" in body && body["email"].JStr? && isEmail(body["email"].s)
  }

  predicate HasRole(body: Body) {
    "role" in body && body["role"].JStr? && ParseRole(body["role"].s).Some?
  }

  /** `z.string().min(min, message)`. */
  function MinLengthIssues(body: Body, key: string, min: int, message: string): (r: seq<Issue>)
    ensures |r| <= 1
    ensures r == [] <==> HasMinLength(body, key, min)
    ensures r != [] ==> r[0].path == [key]
  {
    if key !in body || !body[key].JStr? then [Issue([key], ExpectedString)]
    else if |body[key].s| < min then [Issue([key], message)]
    else []
  }

  /** `z.email({ message })`: the message covers every failure of the field. */
  function EmailIssues(body: Body, isEmail: EmailCheck): (r: seq<Issue>)
    ensures r == [] <==> HasEmail(body, isEmail)
    ensures r != [] ==> r == [Issue(["email"], InvalidEmail)]
  {
    if HasEmail(body, isEmail) then [] else [Issue(["email"], InvalidEmail)]
  }

  /** `z.enum(["admin", "manager", "user"], { message })`. */
  function RoleIssues(body: Body): (r: seq<Issue>)
    ensures r == [] <==> HasRole(body)
    ensures r != [] ==> r == [Issue(["role"], InvalidRole)]
  {
    if HasRole(body) then [] else [Issue(["role"], InvalidRole)]
  }

  /** A registration after validation. */
  datatype Registration = Registration(name: string, email: string, role: Role, password: string)

  /** When the registration schema accepts a body. There is no `isActive`
      key in it. */
  predicate ValidRegisterBody(body: Body, isEmail: EmailCheck) {
    && HasMinLength(body, "name", MinName)
    && HasEmail(body, isEmail)
    && HasRole(body)
    && HasMinLength(body, "password", MinRegisterPassword)
  }

  function RegisterIssues(body: Body, isEmail: EmailCheck): (r: seq<Issue>)
    ensures |r| <= 4
    ensures r == [] <==> ValidRegisterBody(body, isEmail)
  {
    MinLengthIssues(body, "name", MinName, NameRequired)
    + EmailIssues(body, isEmail)
    + RoleIssues(body)
    + MinLengthIssues(body, "password", MinRegisterPassword, PasswordTooShort)
  }

  /** `registerSchema.parse`: the four fields, or every issue in the
      schema's key order. */
  function ParseRegister(body: Body, isEmail: EmailCheck): (r: Result<Registration, seq<Issue>>)
    ensures r.Ok? <==> ValidRegisterBody(body, isEmail)
    ensures r.Err? ==> 1 <= |r.error| <= 4
    ensures r.Ok? ==> && body["name"] == JStr(r.value.name) && |r.value.name| >= MinName
                      && body["email"] == JStr(r.value.email) && isEmail(r.value.email)
                      && body["role"] == JStr(RoleName(r.value.role))
                      && body["password"] == JStr(r.value.password) && |r.value.password| >= MinRegisterPassword
  {
    var issues := RegisterIssues(body, isEmail);
    if issues != [] then Err(issues)
    else
      var role := ParseRole(body["role"].s).value;
      Ok(Registration(body["name"].s, body["email"].s, role, body["password"].s))
  }

  /** An `isActive` sent with a registration is dropped: it can neither
      cause an issue nor reach the parsed value. */
  lemma RegisterDropsIsActive(body: Body, v: Json, isEmail: EmailCheck)
    ensures ParseRegister(body["isActive" := v], isEmail) == ParseRegister(body, isEmail)
  {
    var b := body["isActive" := v];
    assert MinLengthIssues(b, "name", MinName, NameRequired) == MinLengthIssues(body, "name", MinName, NameRequired);
    assert EmailIssues(b, isEmail) == EmailIssues(body, isEmail);
    assert RoleIssues(b) == RoleIssues(body);
    assert MinLengthIssues(b, "password", MinRegisterPassword, PasswordTooShort)
        == MinLengthIssues(body, "password", MinRegisterPassword, PasswordTooShort);
  }

  /** Login credentials after validation. */
  datatype Credentials = Credentials(email: string, password: string)

  predicate ValidLoginBody(body: Body, isEmail: EmailCheck) {
    HasEmail(body, isEmail) && HasMinLength(body, "password", MinLoginPassword)
  }

  /** `loginSchema.parse`: a well-formed email and a non-empty password. */
  function ParseLogin(body: Body, isEmail: EmailCheck): (r: Result<Credentials, seq<Issue>>)
    ensures r.Ok? <==> ValidLoginBody(body, isEmail)
    ensures r.Err? ==> 1 <= |r.error| <= 2
    ensures r.Ok? ==> && body["email"] == JStr(r.value.email) && isEmail(r.value.email)
                      && body["password"] == JStr(r.value.password) && |r.value.password| >= MinLoginPassword
  {
    var issues := EmailIssues(body, isEmail) + MinLengthIssues(body, "password", MinLoginPassword, PasswordRequired);
    if issues != [] then Err(issues)
    else Ok(Credentials(body["email"].s, body["password"].s))
  }
}
