/** The account handlers (api/src/controllers/auth.controller.js): sign-up
    (served under two names with one behaviour), login, password change,
    and the payload of the tokens login hands out. */
module AuthController {
  import opened Common
  import opened ErrorHandler
  import opened Text
  import opened UserModel
  import opened AuthValidator
  import opened AuthMiddleware

  const EmailTakenMessage := "email already registered"
  const RegisteredMessage := "registered"
  const InvalidCredentialsMessage := "invalid credentials"
  const LoginPasswordTooShort := "password must be at least 8 characters"
  const LoggedInMessage := "logged_in"
  /** The constant the login reply puts in its top-level `role` key. */
  const LoginBanner := "naan than da Leo..."
  const PasswordsRequiredMessage := "oldPassword and newPassword are required"
  const NewPasswordTooShort := "newPassword must be at least 8 characters"
  const UserNotFoundMessage := "User not found"
  const OldPasswordIncorrect := "Old password is incorrect"
  const PasswordUnchangedMessage := "New password must be different from old password"
  const PasswordChangedMessage := "Password changed successfully"

  /** The length login and password change demand of a password. */
  const MinPassword := 8
  const DefaultExpiry := "1h"

  // --- tokens -------------------------------------------------------------

  /** The claims a token is signed over, and its lifetime. */
  datatype TokenPayload = TokenPayload(sub: UserId, role: string, email: string)
  datatype SignedToken = SignedToken(payload: TokenPayload, expiresIn: string)

  /** `jwt.sign` with the server's secret: the token text. */
  type TokenSigner = SignedToken -> string

  /** `signToken(user)`: subject, role and email of the user; the lifetime
      from the configuration, "1h" when that is unset or empty. */
  function SignToken(id: UserId, u: User, expiresIn: Option<string>): (t: SignedToken)
    ensures t.payload == TokenPayload(id, RoleName(u.role), u.email)
    ensures t.expiresIn == (if expiresIn.Some? && expiresIn.value != "" then expiresIn.value else DefaultExpiry)
    ensures t.expiresIn != ""
  {
    SignedToken(TokenPayload(id, RoleName(u.role), u.email),
                if expiresIn.Some? && expiresIn.value != "" then expiresIn.value else DefaultExpiry)
  }

  // --- sign-up ------------------------------------------------------------

  /** Some user is stored under this exact email. */
  predicate EmailTaken(users: map<UserId, User>, email: string)
    ensures EmailsUnique(users) ==> (EmailTaken(users, email) <==> FindByEmail(users, email).Some?)
  {
    exists id :: id in users && users[id].email == email
  }

  /** The record `User.create` stores for a registration: the email in
      lower case, the password as its hash, the validated role, and the
      schema's default activity (the registration schema has no isActive). */
  function NewUser(r: Registration, now: int): (u: User)
    ensures u.email == ToLower(r.email) && u.name == r.name && u.role == r.role
    ensures u.passwordHash == BcryptHash(r.password)
    ensures u.isActive == DefaultActive && u.createdAt == now
  {
    User(r.name, ToLower(r.email), BcryptHash(r.password), r.role, DefaultActive, now)
  }

  /** The registration reply's user: id, name, email, role and isActive. */
  function RegisteredView(id: UserId, u: User): (d: Document)
    ensures d.Keys == {"id", "name", "email", "role", "isActive"}
    ensures "passwordHash" !in d
  {
    map["id" := VId(id), "name" := VString(u.name), "email" := VString(u.email),
        "role" := VString(RoleName(u.role)), "isActive" := VBool(u.isActive)]
  }

  /** `signUp` and `register`: validate; 409 when the lower-cased email is
      already stored; otherwise store the new user under the id the database
      hands out and answer 201. */
  function Register(users: map<UserId, User>, body: Body, isEmail: EmailCheck, newId: UserId, now: int)
    : (o: Outcome<Document>)
    requires newId !in users
    ensures ParseRegister(body, isEmail).Err? ==>
      o == Outcome(HandleError(ZodError(ParseRegister(body, isEmail).error)), users)
    ensures ParseRegister(body, isEmail).Ok? && EmailTaken(users, ToLower(ParseRegister(body, isEmail).value.email)) ==>
      o == Outcome(Message(StatusConflict, EmailTakenMessage), users)
    ensures ParseRegister(body, isEmail).Ok? && !EmailTaken(users, ToLower(ParseRegister(body, isEmail).value.email)) ==>
      var u := NewUser(ParseRegister(body, isEmail).value, now);
      && o.users == users[newId := u]
      && o.reply == Send(StatusCreated, RegisteredMessage, RegisteredView(newId, u))
    ensures o.users == users || o.users.Keys == users.Keys + {newId}
    ensures ValidUsers(users) ==> ValidUsers(o.users)
  {
    var parsed := ParseRegister(body, isEmail);
    if parsed.Err? then Outcome(HandleError(ZodError(parsed.error)), users)
    else if EmailTaken(users, ToLower(parsed.value.email)) then Outcome(Message(StatusConflict, EmailTakenMessage), users)
    else
      var u := NewUser(parsed.value, now);
      ToLowerIdempotent(parsed.value.email);
      Outcome(Send(StatusCreated, RegisteredMessage, RegisteredView(newId, u)), users[newId := u])
  }

  // --- login --------------------------------------------------------------

  /** The login reply: the constant banner, the user and the signed token. */
  datatype LoginPayload = LoginPayload(role: string, user: Document, token: string)

  /** `login`: validate; 401 with one message for an unknown email, an
      inactive user and a wrong password alike; only then 400 for a
      password shorter than 8; otherwise 200 with a token for the user. */
  function Login(users: map<UserId, User>, body: Body, isEmail: EmailCheck, expiresIn: Option<string>, sign: TokenSigner)
    : (r: Reply<LoginPayload>)
    requires EmailsUnique(users)
    ensures ParseLogin(body, isEmail).Err? ==> r == HandleError(ZodError(ParseLogin(body, isEmail).error))
    ensures ParseLogin(body, isEmail).Ok? ==>
      var c := ParseLogin(body, isEmail).value;
      var found := FindByEmail(users, ToLower(c.email));
      && ((found.None? || !users[found.value].isActive || users[found.value].passwordHash != BcryptHash(c.password))
            <==> r == Message(StatusUnauthorized, InvalidCredentialsMessage))
      && (found.Some? && users[found.value].isActive && users[found.value].passwordHash == BcryptHash(c.password) ==>
            if |c.password| < MinPassword then r == Message(StatusBadRequest, LoginPasswordTooShort)
            else r.status == StatusOk && r.message == LoggedInMessage && r.data.Some?
                 && r.data.value.role == LoginBanner
                 && r.data.value.user == map["id" := VId(found.value), "name" := VString(users[found.value].name),
                                             "email" := VString(users[found.value].email),
                                             "role" := VString(RoleName(users[found.value].role))]
                 && r.data.value.token == sign(SignToken(found.value, users[found.value], expiresIn)))
  {
    match ParseLogin(body, isEmail)
    case Err(issues) => HandleError(ZodError(issues))
    case Ok(c) =>
      match FindByEmail(users, ToLower(c.email))
      case None => Message(StatusUnauthorized, InvalidCredentialsMessage)
      case Some(id) =>
        var u := users[id];
        if !u.isActive then Message(StatusUnauthorized, InvalidCredentialsMessage)
        else if u.passwordHash != BcryptHash(c.password) then Message(StatusUnauthorized, InvalidCredentialsMessage)
        else if |c.password| < MinPassword then Message(StatusBadRequest, LoginPasswordTooShort)
        else
          var view := map["id" := VId(id), "name" := VString(u.name), "email" := VString(u.email),
                          "role" := VString(RoleName(u.role))];
          Send(StatusOk, LoggedInMessage, LoginPayload(LoginBanner, view, sign(SignToken(id, u, expiresIn))))
  }

  // --- password change ------------------------------------------------------

  /** A body value that is absent or the empty string. */
  predicate Falsy(v: Option<string>) {
    v.None? || v.value == ""
  }

  /** `changePassword`, for the user the token names. The checks run in
      this order: a missing field, a new password shorter than 8, an
      unknown or inactive user (404), a wrong old password (401), a new
      password equal to the old one; on success only the hash changes. */
  function ChangePassword(users: map<UserId, User>, actor: ReqUser, oldPassword: Option<string>, newPassword: Option<string>)
    : (o: Outcome<()>)
    ensures Falsy(oldPassword) || Falsy(newPassword) ==>
      o == Outcome(Message(StatusBadRequest, PasswordsRequiredMessage), users)
    ensures !Falsy(oldPassword) && !Falsy(newPassword) && |newPassword.value| < MinPassword ==>
      o == Outcome(Message(StatusBadRequest, NewPasswordTooShort), users)
    ensures !Falsy(oldPassword) && !Falsy(newPassword) && |newPassword.value| >= MinPassword ==>
      var found := FindById(users, actor.id);
      && (found.None? || !found.value.isActive ==> o == Outcome(Message(StatusNotFound, UserNotFoundMessage), users))
      && (found.Some? && found.value.isActive && found.value.passwordHash != BcryptHash(oldPassword.value) ==>
            o == Outcome(Message(StatusUnauthorized, OldPasswordIncorrect), users))
      && (found.Some? && found.value.isActive && found.value.passwordHash == BcryptHash(oldPassword.value) ==>
            if newPassword == oldPassword then o == Outcome(Message(StatusBadRequest, PasswordUnchangedMessage), users)
            else o == Outcome(Message(StatusOk, PasswordChangedMessage),
                              users[actor.id.value := found.value.(passwordHash := BcryptHash(newPassword.value))]))
    ensures o.users.Keys == users.Keys
    ensures ValidUsers(users) ==> ValidUsers(o.users)
  {
    if Falsy(oldPassword) || Falsy(newPassword) then Outcome(Message(StatusBadRequest, PasswordsRequiredMessage), users)
    else if |newPassword.value| < MinPassword then Outcome(Message(StatusBadRequest, NewPasswordTooShort), users)
    else
      match FindById(users, actor.id)
      case None => Outcome(Message(StatusNotFound, UserNotFoundMessage), users)
      case Some(u) =>
        if !u.isActive then Outcome(Message(StatusNotFound, UserNotFoundMessage), users)
        else if u.passwordHash != BcryptHash(oldPassword.value) then
          Outcome(Message(StatusUnauthorized, OldPasswordIncorrect), users)
        else if u.passwordHash == BcryptHash(newPassword.value) then
          Outcome(Message(StatusBadRequest, PasswordUnchangedMessage), users)
        else
          Outcome(Message(StatusOk, PasswordChangedMessage),
                  users[actor.id.value := u.(passwordHash := BcryptHash(newPassword.value))])
  }

  // --- properties across handlers ----------------------------------------

  /** Right after a registration, the new user is the one found under the
      registered email, compared in lower case. */
  lemma {:induction false} RegisteredUserIsFound(users: map<UserId, User>, body: Body, isEmail: EmailCheck, newId: UserId,
                                                 now: int, email: string)
    requires ValidUsers(users) && newId !in users
    requires ParseRegister(body, isEmail).Ok?
    requires !EmailTaken(users, ToLower(ParseRegister(body, isEmail).value.email))
    requires ToLower(email) == ToLower(ParseRegister(body, isEmail).value.email)
    ensures var after := Register(users, body, isEmail, newId, now).users;
      && EmailsUnique(after)
      && FindByEmail(after, ToLower(email)) == Some(newId)
  {
    var after := Register(users, body, isEmail, newId, now).users;
    assert after[newId].email == ToLower(email);
    var found := FindByEmail(after, ToLower(email));
    assert found.Some?;
  }

  /** Registration accepts a password of 6 or 7 characters, but login
      refuses one shorter than 8 even when it is right: such a user can
      never log in. The right password gets 400, any other gets 401. */
  lemma {:induction false} ShortPasswordNeverLogsIn(users: map<UserId, User>, body: Body, isEmail: EmailCheck, newId: UserId,
                                                    now: int, loginBody: Body, expiresIn: Option<string>, sign: TokenSigner)
    requires ValidUsers(users) && newId !in users
    requires ParseRegister(body, isEmail).Ok? && |ParseRegister(body, isEmail).value.password| < MinPassword
    requires !EmailTaken(users, ToLower(ParseRegister(body, isEmail).value.email))
    requires ParseLogin(loginBody, isEmail).Ok?
    requires ToLower(ParseLogin(loginBody, isEmail).value.email) == ToLower(ParseRegister(body, isEmail).value.email)
    ensures var after := Register(users, body, isEmail, newId, now).users;
      var r := Login(after, loginBody, isEmail, expiresIn, sign);
      && r.status != StatusOk
      && (ParseLogin(loginBody, isEmail).value.password == ParseRegister(body, isEmail).value.password ==>
            r == Message(StatusBadRequest, LoginPasswordTooShort))
      && (ParseLogin(loginBody, isEmail).value.password != ParseRegister(body, isEmail).value.password ==>
            r == Message(StatusUnauthorized, InvalidCredentialsMessage))
  {
    RegisteredUserIsFound(users, body, isEmail, newId, now, ParseLogin(loginBody, isEmail).value.email);
  }

  /** A token from a successful login, presented as a bearer header to a
      verifier that reads back what the signer signed, authenticates the
      request as that user with that user's role. */
  lemma {:induction false} LoginTokenAuthenticates(users: map<UserId, User>, body: Body, isEmail: EmailCheck,
                                                   expiresIn: Option<string>, sign: TokenSigner, verify: TokenVerifier,
                                                   req: Request)
    requires EmailsUnique(users)
    requires forall t :: sign(t) != "" && ' ' !in sign(t)
    requires forall t :: verify(sign(t)) == Some(Claims(Some(t.payload.sub), Some(t.payload.role)))
    requires Login(users, body, isEmail, expiresIn, sign).status == StatusOk
    ensures ParseLogin(body, isEmail).Ok?
    ensures var id := FindByEmail(users, ToLower(ParseLogin(body, isEmail).value.email));
      var token := Login(users, body, isEmail, expiresIn, sign).data.value.token;
      && id.Some?
      && RequireAuth(req.(authorization := Some("Bearer " + token)), verify)
         == Ok(req.(authorization := Some("Bearer " + token), user := Some(ReqUser(id, Some(RoleName(users[id.value].role))))))
  {
    var c := ParseLogin(body, isEmail).value;
    var id := FindByEmail(users, ToLower(c.email)).value;
    var t := SignToken(id, users[id], expiresIn);
    var token := sign(t);
    BearerTokenOf(token, "");
    assert "Bearer " + token == BearerScheme + " " + token + "";
  }

  /** After a successful password change, the new password logs in and
      the old one no longer does. */
  lemma {:induction false} ChangedPasswordReplacesOld(users: map<UserId, User>, actor: ReqUser, oldPassword: Option<string>,
                                                      newPassword: Option<string>, loginBody: Body, isEmail: EmailCheck,
                                                      expiresIn: Option<string>, sign: TokenSigner)
    requires ValidUsers(users)
    requires ChangePassword(users, actor, oldPassword, newPassword).reply.status == StatusOk
    requires ParseLogin(loginBody, isEmail).Ok?
    requires actor.id.Some? && actor.id.value in users
    requires ToLower(ParseLogin(loginBody, isEmail).value.email) == users[actor.id.value].email
    ensures var after := ChangePassword(users, actor, oldPassword, newPassword).users;
      var r := Login(after, loginBody, isEmail, expiresIn, sign);
      && (ParseLogin(loginBody, isEmail).value.password == newPassword.value ==> r.status == StatusOk)
      && (ParseLogin(loginBody, isEmail).value.password == oldPassword.value ==>
            r == Message(StatusUnauthorized, InvalidCredentialsMessage))
  {
    var after := ChangePassword(users, actor, oldPassword, newPassword).users;
    var id := actor.id.value;
    var email := ParseLogin(loginBody, isEmail).value.email;
    assert after[id].email == ToLower(email);
    var found := FindByEmail(after, ToLower(email));
    assert found == Some(id);
  }

  // --- in place -------------------------------------------------------------

  /** The in-place sign-up: `User.create` inserts the new record. */
  method SignUp(store: UserStore, body: Body, isEmail: EmailCheck, newId: UserId, now: int)
    returns (reply: Reply<Document>)
    requires store.Valid() && newId !in store.users
    modifies store
    ensures store.Valid()
    ensures Outcome(reply, store.users) == Register(old(store.users), body, isEmail, newId, now)
  {
    var parsed := ParseRegister(body, isEmail);
    if parsed.Err? {
      reply := HandleError(ZodError(parsed.error));
      return;
    }
    var email := ToLower(parsed.value.email);
    if EmailTaken(store.users, email) {
      reply := Message(StatusConflict, EmailTakenMessage);
      return;
    }
    var user := NewUser(parsed.value, now);
    store.users := store.users[newId := user];
    reply := Send(StatusCreated, RegisteredMessage, RegisteredView(newId, user));
  }

  /** The in-place password change: the loaded record's hash is assigned
      and saved. */
  method ChangePasswordInPlace(store: UserStore, actor: ReqUser, oldPassword: Option<string>, newPassword: Option<string>)
    returns (reply: Reply<()>)
    requires store.Valid()
    modifies store
    ensures store.Valid()
    ensures Outcome(reply, store.users) == ChangePassword(old(store.users), actor, oldPassword, newPassword)
  {
    if Falsy(oldPassword) || Falsy(newPassword) {
      reply := Message(StatusBadRequest, PasswordsRequiredMessage);
      return;
    }
    if |newPassword.value| < MinPassword {
      reply := Message(StatusBadRequest, NewPasswordTooShort);
      return;
    }
    var found := FindById(store.users, actor.id);
    if found.None? || !found.value.isActive {
      reply := Message(StatusNotFound, UserNotFoundMessage);
      return;
    }
    var user := found.value;
    if user.passwordHash != BcryptHash(oldPassword.value) {
      reply := Message(StatusUnauthorized, OldPasswordIncorrect);
      return;
    }
    if user.passwordHash == BcryptHash(newPassword.value) {
      reply := Message(StatusBadRequest, PasswordUnchangedMessage);
      return;
    }
    user := user.(passwordHash := BcryptHash(newPassword.value));
    store.users := store.users[actor.id.value := user];
    reply := Message(StatusOk, PasswordChangedMessage);
  }
}
