/** The profile endpoint (api/src/controllers/user.controller.js). The
    router that mounts it is not part of this model; the handler is taken
    to run after `requireAuth`, which supplies `req.user`. */
module UserController {
  import opened Common
  import opened UserModel

  const UserNotFoundMessage := "User not found"

  /** `me`: the caller's own record in its public view, found by the id the
      token carried; 404 when the token had no subject or the record is
      gone. A deactivated user is still answered. The reply has no
      `message` key. */
  function Me(users: map<UserId, User>, actor: ReqUser): (r: Reply<Document>)
    ensures r.status == StatusOk <==> actor.id.Some? && actor.id.value in users
    ensures r.status != StatusOk ==> r == Message(StatusNotFound, UserNotFoundMessage)
    ensures r.status == StatusOk ==> r == Send(StatusOk, "", PublicView(actor.id.value, users[actor.id.value]))
  {
    match FindById(users, actor.id)
    case None => Message(StatusNotFound, UserNotFoundMessage)
    case Some(u) => Send(StatusOk, "", PublicView(actor.id.value, u))
  }

  /** What `me` sends never holds a password hash, and it reports the
      stored activity flag as it is. */
  lemma MeHidesPassword(users: map<UserId, User>, actor: ReqUser)
    requires actor.id.Some? && actor.id.value in users
    ensures Me(users, actor).data.Some?
    ensures "passwordHash" !in Me(users, actor).data.value
    ensures Me(users, actor).data.value["isActive"] == VBool(users[actor.id.value].isActive)
  {
  }
}
