/** Values shared by every part of the API model: optional and fallible
    results, the JSON values a request body carries, query strings, roles,
    the authenticated-user record a request carries and the HTTP reply. */
module Common {

  datatype Option<+T> = None | Some(value: T) {
    function GetOr(default: T): T {
      match this
      case Some(v) => v
      case None => default
    }
  }

  datatype Result<+T, +E> = Ok(value: T) | Err(error: E)

  /** A JSON value as express.json() hands it over. Numbers are integers in
      this model; arrays and objects only matter for their truthiness. */
  datatype Json = JNull | JBool(b: bool) | JNum(n: int) | JStr(s: string) | JCompound

  /** A request body: the keys present, with their values. An absent key is
      JavaScript's `undefined`. */
  type Body = map<string, Json>

  /** JavaScript truthiness, as used by `!!value` and `value || default`. */
  predicate Truthy(j: Json) {
    match j
    case JNull => false
    case JBool(b) => b
    case JNum(n) => n != 0
    case JStr(s) => s != ""
    case JCompound => true
  }

  /** A parsed query-string value: one string, or a repeated key (a list). */
  datatype QueryValue = QStr(s: string) | QList(items: seq<string>)

  type Query = map<string, QueryValue>

  /** The three roles of the user model. */
  datatype Role = AdminRole | ManagerRole | UserRole

  function RoleName(r: Role): string {
    match r
    case AdminRole => "admin"
    case ManagerRole => "manager"
    case UserRole => "user"
  }

  /** The inverse of RoleName on its range, and None elsewhere. */
  function ParseRole(s: string): (r: Option<Role>)
    ensures r.Some? ==> RoleName(r.value) == s
    ensures r.None? ==> s !in ["admin", "manager", "user"]
  {
    if s == "admin" then Some(AdminRole)
    else if s == "manager" then Some(ManagerRole)
    else if s == "user" then Some(UserRole)
    else None
  }

  lemma ParseRoleName(r: Role)
    ensures ParseRole(RoleName(r)) == Some(r)
  {
  }

  /** `bcrypt.hash` as a free constructor: two hashes are equal exactly
      when their secrets are, and `bcrypt.compare(p, h)` holds exactly when
      `h == BcryptHash(p)`. Salt and cost factor are not part of this
      model. */
  datatype PasswordHash = BcryptHash(secret: string)

  /** A field of a stored document, as the JSON encoder writes it. */
  datatype Value =
    | VString(s: string)
    | VDate(ms: int)
    | VBool(b: bool)
    | VId(id: string)
    | VNum(n: int)
    | VHash(hash: PasswordHash)
    | VNull

  /** A stored document, or the JSON object sent for one. */
  type Document = map<string, Value>

  /** A subset is no larger than its superset (used to bound the size of
      a filtered collection by the size of the whole). */
  lemma {:induction false} SubsetCardinality<T>(a: set<T>, b: set<T>)
    requires a <= b
    ensures |a| <= |b|
  {
    if a != {} {
      var x :| x in a;
      SubsetCardinality(a - {x}, b - {x});
    }
  }

  /** `req.user` as the authentication middleware sets it: both values come
      from the token payload and may be missing from it. */
  datatype ReqUser = ReqUser(id: Option<string>, role: Option<string>)

  /** The parts of an Express request the core reads. */
  datatype Request = Request(
    authorization: Option<string>,  // the Authorization header
    id: string,                     // the `:id` route parameter
    query: Query,
    body: Body,
    user: Option<ReqUser>)          // set by requireAuth

  /** What a middleware decides: call `next()`, answer the request itself,
      or throw (an uncaught TypeError, say) before doing either. */
  datatype Verdict = Pass | Halt(status: int, message: string) | Crash(message: string)

  /** One entry of the `errors` list of a validation-error reply. */
  datatype FieldError = FieldError(field: string, message: string)

  /** An HTTP reply: status code, the `message` key, the payload (if the
      handler sends one) and the `errors` list (validation errors only).
      A message of "" stands for a reply that has no `message` key. */
  datatype Reply<+T> = Reply(status: int, message: string, data: Option<T>, errors: Option<seq<FieldError>>)

  /** A reply that carries only a message: every error reply, and the
      success replies of the task delete and the password change. */
  function Message<T>(status: int, message: string): Reply<T> {
    Reply(status, message, None, None)
  }

  function Send<T>(status: int, message: string, data: T): Reply<T> {
    Reply(status, message, Some(data), None)
  }

  const StatusOk: int := 200
  const StatusCreated: int := 201
  const StatusBadRequest: int := 400
  const StatusUnauthorized: int := 401
  const StatusForbidden: int := 403
  const StatusNotFound: int := 404
  const StatusConflict: int := 409
  const StatusInternal: int := 500
}
