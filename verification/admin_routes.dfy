/** The admin routes (api/src/routes/admin.routes.js): all five run
    `requireAuth` and then `requireRole("admin", "manager")` before their
    handler, so only a token whose role is admin or manager reaches the
    admin controller. */
module AdminRoutes {
  import opened Common
  import opened AuthMiddleware
  import opened GuardChain
  import opened UserModel
  import opened AdminController
  import Text

  /** The chain in front of every admin route. */
  const AdminChain: seq<Guard> := [Authenticate, RoleIn(StaffRoles)]

  /** The payload of the request's token, if its header has the right shape
      and the verifier accepts it. */
  function TokenClaims(req: Request, verify: TokenVerifier): (c: Option<Claims>)
    ensures c.Some? <==> BearerToken(req.authorization).Some? && verify(BearerToken(req.authorization).value).Some?
  {
    match BearerToken(req.authorization)
    case None => None
    case Some(token) => verify(token)
  }

  /** Running the admin chain: 401 without a valid token, 401 for a token
      without a role, 403 for a role other than admin or manager, and
      otherwise the request with `user` taken from the token. */
  function AdminGate(req: Request, verify: TokenVerifier): (r: Result<Request, Verdict>)
    ensures r.Err? ==> r.error.Halt?
    ensures TokenClaims(req, verify).None? ==> r.Err? && r.error.status == StatusUnauthorized
    ensures TokenClaims(req, verify).Some? && ActorRole(Some(ReqUser(TokenClaims(req, verify).value.sub, TokenClaims(req, verify).value.role))).None? ==>
      r == Err(Halt(StatusUnauthorized, UnauthorizedMessage))
    ensures TokenClaims(req, verify).Some? && (var role := TokenClaims(req, verify).value.role;
      role.Some? && role.value != "" && !IsStaff(role)) ==>
      r == Err(Halt(StatusForbidden, ForbiddenMessage))
    ensures r.Ok? <==> TokenClaims(req, verify).Some? && IsStaff(TokenClaims(req, verify).value.role)
    ensures r.Ok? ==> r.value == req.(user := Some(ReqUser(TokenClaims(req, verify).value.sub, TokenClaims(req, verify).value.role)))
  {
    var r := RunChain(AdminChain, req, map[], verify);
    assert AdminChain[1..] == [RoleIn(StaffRoles)];
    match RequireAuth(req, verify)
    case Err(v) => r
    case Ok(authed) =>
      assert r == RunChain([RoleIn(StaffRoles)], authed, map[], verify);
      assert RunChain([RoleIn(StaffRoles)][1..], authed, map[], verify) == Ok(authed);
      r
  }

  /** GET /users: the listing, for staff only, over `docs`, the store
      `users` in the order `find` walks it. The parsed `page`, `limit` and
      `q` query values are parameters. */
  function ServeListUsers(users: map<UserId, User>, docs: seq<(UserId, User)>, req: Request, verify: TokenVerifier,
                          page: Option<int>, limit: Option<int>, q: Option<string>): (r: Reply<UserPage>)
    requires Enumerates(docs, users)
    ensures AdminGate(req, verify).Err? ==> r.status in {StatusUnauthorized, StatusForbidden} && r.data.None?
    ensures AdminGate(req, verify).Ok? ==> r == Send(StatusOk, "", ListUsers(docs, page, limit, q))
    ensures AdminGate(req, verify).Ok? ==> r.data.value.total == |MatchingUsers(users, Text.Trim(q.GetOr("")))|
  {
    ListedCountsStoredMatches(docs, users, q);
    match AdminGate(req, verify)
    case Err(v) => StopReply(v)
    case Ok(_) => Send(StatusOk, "", ListUsers(docs, page, limit, q))
  }

  /** PUT /users/:id/update. */
  function ServeUpdateUser(users: map<UserId, User>, req: Request, verify: TokenVerifier, body: UserUpdateBody)
    : (o: Outcome<Document>)
    ensures AdminGate(req, verify).Err? ==>
      o.users == users && o.reply.status in {StatusUnauthorized, StatusForbidden} && o.reply.data.None?
    ensures AdminGate(req, verify).Ok? ==> o == UpdateUser(users, req.id, AdminGate(req, verify).value.user.value, body)
  {
    match AdminGate(req, verify)
    case Err(v) => Outcome(StopReply(v), users)
    case Ok(authed) => UpdateUser(users, authed.id, authed.user.value, body)
  }

  /** POST /users/:id/deactivate (active false) and /users/:id/activate
      (active true). */
  function ServeSetActive(users: map<UserId, User>, req: Request, verify: TokenVerifier, active: bool)
    : (o: Outcome<Document>)
    ensures AdminGate(req, verify).Err? ==>
      o.users == users && o.reply.status in {StatusUnauthorized, StatusForbidden} && o.reply.data.None?
    ensures AdminGate(req, verify).Ok? ==> o == SetActive(users, req.id, active)
  {
    match AdminGate(req, verify)
    case Err(v) => Outcome(StopReply(v), users)
    case Ok(authed) => SetActive(users, authed.id, active)
  }

  /** DELETE /users/:id/delete. */
  function ServeDeleteUser(users: map<UserId, User>, req: Request, verify: TokenVerifier): (o: Outcome<Document>)
    ensures AdminGate(req, verify).Err? ==>
      o.users == users && o.reply.status in {StatusUnauthorized, StatusForbidden} && o.reply.data.None?
    ensures AdminGate(req, verify).Ok? ==> o == DeleteUser(users, req.id, AdminGate(req, verify).value.user.value)
  {
    match AdminGate(req, verify)
    case Err(v) => Outcome(StopReply(v), users)
    case Ok(authed) => DeleteUser(users, authed.id, authed.user.value)
  }

  /** A valid token whose role is "user" is refused with 403 on every
      admin route, and the collection is left as it was. */
  lemma PlainUserIsForbidden(users: map<UserId, User>, docs: seq<(UserId, User)>, req: Request, verify: TokenVerifier,
                             body: UserUpdateBody, active: bool, page: Option<int>, limit: Option<int>, q: Option<string>)
    requires Enumerates(docs, users)
    requires TokenClaims(req, verify).Some? && TokenClaims(req, verify).value.role == Some("user")
    ensures ServeListUsers(users, docs, req, verify, page, limit, q) == Message(StatusForbidden, ForbiddenMessage)
    ensures ServeUpdateUser(users, req, verify, body) == Outcome(Message(StatusForbidden, ForbiddenMessage), users)
    ensures ServeSetActive(users, req, verify, active) == Outcome(Message(StatusForbidden, ForbiddenMessage), users)
    ensures ServeDeleteUser(users, req, verify) == Outcome(Message(StatusForbidden, ForbiddenMessage), users)
  {
    assert AdminGate(req, verify) == Err(Halt(StatusForbidden, ForbiddenMessage));
  }

  /** Authentication comes first: without a valid token every admin route
      answers 401, whatever the request asks for. */
  lemma MissingTokenPrecedesRole(users: map<UserId, User>, docs: seq<(UserId, User)>, req: Request, verify: TokenVerifier,
                                 body: UserUpdateBody, active: bool, page: Option<int>, limit: Option<int>,
                                 q: Option<string>)
    requires Enumerates(docs, users)
    requires TokenClaims(req, verify).None?
    ensures ServeListUsers(users, docs, req, verify, page, limit, q).status == StatusUnauthorized
    ensures ServeSetActive(users, req, verify, active).reply.status == StatusUnauthorized
    ensures ServeUpdateUser(users, req, verify, body).reply.status == StatusUnauthorized
    ensures ServeDeleteUser(users, req, verify).reply.status == StatusUnauthorized
  {
  }

  /** The role checks inside `updateUser` and `deleteUser` can never fire
      behind this chain: it already lets only admins and managers through. */
  lemma HandlerRoleChecksAreUnreachable(users: map<UserId, User>, req: Request, verify: TokenVerifier, body: UserUpdateBody)
    ensures ServeUpdateUser(users, req, verify, body).reply != Message(StatusForbidden, RoleGateMessage)
    ensures ServeDeleteUser(users, req, verify).reply != Message(StatusBadRequest, DeleteRoleMessage)
  {
    match AdminGate(req, verify)
    case Err(v) =>
    case Ok(authed) =>
      assert IsStaff(authed.user.value.role);
  }
}
