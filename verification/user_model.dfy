/** The user collection as the controllers use it. The user schema itself
    (api/src/models/User.js) is not part of this model: its fields are the
    ones the controllers read and write, and its default for `isActive`
    is taken to be true. */
module UserModel {
  import opened Common
  import Text

  type UserId = string

  /** A stored user. The password is kept only as its hash. */
  datatype User = User(
    name: string,
    email: string,
    passwordHash: PasswordHash,
    role: Role,
    isActive: bool,
    createdAt: int)

  const DefaultActive := true

  /** Every stored email is in lower case. */
  predicate EmailsLowercase(users: map<UserId, User>) {
    forall id :: id in users ==> Text.ToLower(users[id].email) == users[id].email
  }

  /** No two users share an email. */
  predicate EmailsUnique(users: map<UserId, User>) {
    forall a, b :: a in users && b in users && users[a].email == users[b].email ==> a == b
  }

  /** What every write of the API keeps true of the collection, so that an
      email, compared in lower case, names at most one user. */
  predicate ValidUsers(users: map<UserId, User>) {
    EmailsLowercase(users) && EmailsUnique(users)
  }

  /** Replacing a record by one with the same email keeps the collection
      valid. */
  lemma SameEmailKeepsValid(users: map<UserId, User>, id: UserId, u: User)
    requires id in users && u.email == users[id].email
    ensures ValidUsers(users) ==> ValidUsers(users[id := u])
  {
    var after := users[id := u];
    if ValidUsers(users) {
      forall a, b | a in after && b in after && after[a].email == after[b].email
        ensures a == b
      {
        assert after[a].email == users[a].email && after[b].email == users[b].email;
      }
    }
  }

  /** What a write does: the reply it sends and the collection after it. */
  datatype Outcome<+T> = Outcome(reply: Reply<T>, users: map<UserId, User>)

  /** The user collection: records by id, updated in place. */
  class UserStore {
    var users: map<UserId, User>

    ghost predicate Valid()
      reads this
    {
      ValidUsers(users)
    }

    constructor ()
      ensures Valid() && users == map[]
    {
      users := map[];
    }
  }

  /** `findOne({ email })`: the user stored under exactly this email. */
  function FindByEmail(users: map<UserId, User>, email: string): (r: Option<UserId>)
    requires EmailsUnique(users)
    ensures r.Some? ==> r.value in users && users[r.value].email == email
    ensures r.None? ==> forall id :: id in users ==> users[id].email != email
  {
    if exists id :: id in users && users[id].email == email then
      var id :| id in users && users[id].email == email;
      Some(id)
    else None
  }

  /** `findById(id)` when the id may be missing from the request: nothing is
      found for a missing id. */
  function FindById(users: map<UserId, User>, id: Option<UserId>): (r: Option<User>)
    ensures r.Some? <==> id.Some? && id.value in users
    ensures r.Some? ==> r.value == users[id.value]
  {
    if id.Some? && id.value in users then Some(users[id.value]) else None
  }

  const StoredFields: set<string> := {"_id", "name", "email", "passwordHash", "role", "isActive", "createdAt", "__v"}

  /** The stored document of user `u`. */
  function ToDocument(id: UserId, u: User): (d: Document)
    ensures d.Keys == StoredFields
    ensures d["passwordHash"] == VHash(u.passwordHash)
  {
    map[
      "_id" := VId(id),
      "name" := VString(u.name),
      "email" := VString(u.email),
      "passwordHash" := VHash(u.passwordHash),
      "role" := VString(RoleName(u.role)),
      "isActive" := VBool(u.isActive),
      "createdAt" := VDate(u.createdAt),
      "__v" := VNum(0)]
  }

  /** An inclusive `.select(...)`: the listed fields the document has, and
      `_id`, which such a selection always keeps. */
  function Select(d: Document, fields: set<string>): (r: Document)
    ensures forall k :: k in r <==> k in d && (k in fields || k == "_id")
    ensures forall k :: k in r ==> r[k] == d[k]
  {
    map k | k in d && (k in fields || k == "_id") :: d[k]
  }

  /** `"_id name email role isActive createdAt"`, the selection every admin
      and profile read uses. */
  const PublicFields: set<string> := {"_id", "name", "email", "role", "isActive", "createdAt"}

  /** The public view of a user: exactly the six public fields, and never
      the password hash. */
  function PublicView(id: UserId, u: User): (d: Document)
    ensures d.Keys == PublicFields
    ensures "passwordHash" !in d
    ensures d["_id"] == VId(id) && d["email"] == VString(u.email) && d["role"] == VString(RoleName(u.role))
    ensures d["isActive"] == VBool(u.isActive)
  {
    map[
      "_id" := VId(id),
      "name" := VString(u.name),
      "email" := VString(u.email),
      "role" := VString(RoleName(u.role)),
      "isActive" := VBool(u.isActive),
      "createdAt" := VDate(u.createdAt)]
  }

  /** Selecting the six public fields of the stored document gives the
      public view: the selection keeps every field it names, with the
      stored value, and drops the hash and the version key. */
  lemma PublicSelectionIsPublicView(id: UserId, u: User)
    ensures Select(ToDocument(id, u), PublicFields) == PublicView(id, u)
  {
    var a := Select(ToDocument(id, u), PublicFields);
    assert a.Keys == PublicFields by {
      forall k ensures k in a <==> k in PublicFields {
        assert k in PublicFields ==> k in StoredFields;
      }
    }
  }
}
