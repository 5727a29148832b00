/** The task routes (api/src/routes/todo.routes.js): which middlewares run
    in front of each of the five task endpoints, and what each endpoint
    then answers. Only create asks for a token; update is the only route
    guarded against soft-deleted tasks; the listing marks its query first. */
module TodoRoutes {
  import opened Common
  import opened TodoModel
  import opened TodoValidator
  import opened AuthMiddleware
  import opened NotDeleted
  import opened GuardChain
  import opened TaskService

  datatype TaskRoute =
    | CreateRoute   // POST /create
    | ListRoute     // GET /getAll
    | FetchRoute    // GET /:id
    | UpdateRoute   // PUT /:id/update
    | DeleteRoute   // DELETE /:id/delete

  /** The route table's middleware chains. */
  function TaskChain(route: TaskRoute): (chain: seq<Guard>)
    ensures |chain| <= 1
    ensures Authenticate in chain <==> route == CreateRoute
    ensures TaskNotDeleted in chain <==> route == UpdateRoute
    ensures HideDeleted in chain <==> route == ListRoute
    ensures forall g :: g in chain ==> !g.RoleIn?
  {
    match route
    case CreateRoute => [Authenticate]
    case ListRoute => [HideDeleted]
    case FetchRoute => []
    case UpdateRoute => [TaskNotDeleted]
    case DeleteRoute => []
  }

  /** POST /create: 401 unless the header carries a token the verifier
      accepts; then the service, with the token's subject as the actor. */
  function ServeCreate(tasks: map<TaskId, Task>, req: Request, verify: TokenVerifier, newId: TaskId, now: int,
                       coerce: DateCoercion): (o: Outcome)
    requires newId !in tasks
    ensures BearerToken(req.authorization).None? ==>
      o == Outcome(Message(StatusUnauthorized, MissingHeaderMessage), tasks)
    ensures BearerToken(req.authorization).Some? && verify(BearerToken(req.authorization).value).None? ==>
      o == Outcome(Message(StatusUnauthorized, InvalidTokenMessage), tasks)
    ensures BearerToken(req.authorization).Some? && verify(BearerToken(req.authorization).value).Some? ==>
      o == Create(tasks, verify(BearerToken(req.authorization).value).value.sub, req.body, newId, now, coerce)
  {
    match RunChain(TaskChain(CreateRoute), req, tasks, verify)
    case Err(v) => Outcome(StopReply(v), tasks)
    case Ok(authed) => Create(tasks, authed.user.value.id, authed.body, newId, now, coerce)
  }

  /** GET /getAll: the chain always passes, and the mark it puts on the
      query has no effect: the listing depends on the collection alone. */
  function ServeList(tasks: map<TaskId, Task>, req: Request, verify: TokenVerifier): (r: Reply<TaskList>)
    ensures r.status == StatusOk
    ensures r.data == Some(TaskList(LiveTasks(tasks), |tasks|))
  {
    var passed := RunChain(TaskChain(ListRoute), req, tasks, verify);
    assert passed == Ok(HideDeletedTasks(req));
    GetAllTasks(tasks)
  }

  /** GET /:id: no middleware, no token; a soft-deleted task is as unknown
      as a missing one. */
  function ServeFetch(tasks: map<TaskId, Task>, req: Request): (r: Reply<Document>)
    ensures r.status == StatusOk <==> Phase(tasks, req.id) == Live
    ensures r.status != StatusOk ==> r == Message(StatusNotFound, TaskService.NotFoundMessage)
  {
    GetTaskById(tasks, req.id)
  }

  /** PUT /:id/update: the guard answers a soft-deleted task with 400 and
      crashes on a missing one (500), in both cases before the body is
      looked at and without touching the collection; a live task reaches
      the service. */
  function ServeUpdate(tasks: map<TaskId, Task>, req: Request, verify: TokenVerifier, now: int, coerce: DateCoercion)
    : (o: Outcome)
    ensures Phase(tasks, req.id) == SoftDeleted ==>
      o == Outcome(Message(StatusBadRequest, NotDeleted.AlreadyDeletedMessage), tasks)
    ensures Phase(tasks, req.id) == Absent ==> o == Outcome(Message(StatusInternal, MissingTaskCrash), tasks)
    ensures Phase(tasks, req.id) == Live ==> o == Update(tasks, req.id, req.body, now, coerce)
  {
    match RunChain(TaskChain(UpdateRoute), req, tasks, verify)
    case Err(v) => Outcome(StopReply(v), tasks)
    case Ok(next) => Update(tasks, next.id, next.body, now, coerce)
  }

  /** DELETE /:id/delete: no guard, so a soft-deleted task reaches the
      service, which answers with its own message. */
  function ServeDelete(tasks: map<TaskId, Task>, req: Request, now: int): (o: Outcome)
    ensures "soft_delete" !in req.query && !IsHardDelete(req.query) && Phase(tasks, req.id) == SoftDeleted ==>
      o == Outcome(Message(StatusBadRequest, TaskService.AlreadyDeletedMessage), tasks)
    ensures DeletionStep(Phase(tasks, req.id), Phase(o.tasks, req.id))
  {
    Delete(tasks, req.id, req.query, now)
  }

  /** Create needs a token: a request with no Authorization header is
      answered 401 and the collection stays as it was. */
  lemma CreateNeedsToken(tasks: map<TaskId, Task>, req: Request, verify: TokenVerifier, now: int,
                         coerce: DateCoercion, newId: TaskId)
    requires newId !in tasks
    requires req.authorization.None?
    ensures ServeCreate(tasks, req, verify, newId, now, coerce) == Outcome(Message(StatusUnauthorized, MissingHeaderMessage), tasks)
  {
    assert BearerToken(req.authorization).None?;
  }

  /** The other four routes do not need a token: they answer a request with
      no Authorization header exactly as they answer any other. */
  lemma OnlyCreateNeedsToken(tasks: map<TaskId, Task>, req: Request, verify: TokenVerifier, now: int,
                             coerce: DateCoercion)
    ensures var anon := req.(authorization := None, user := None);
      && ServeList(tasks, anon, verify) == ServeList(tasks, req, verify)
      && ServeFetch(tasks, anon) == ServeFetch(tasks, req)
      && ServeUpdate(tasks, anon, verify, now, coerce) == ServeUpdate(tasks, req, verify, now, coerce)
      && ServeDelete(tasks, anon, now) == ServeDelete(tasks, req, now)
  {
    var anon := req.(authorization := None, user := None);
    assert anon.id == req.id && anon.body == req.body && anon.query == req.query;
  }

  /** Update and delete disagree on a soft-deleted task: the update guard's
      message and the delete service's message are different 400s. */
  lemma SoftDeletedUpdateAndDeleteDiffer(tasks: map<TaskId, Task>, req: Request, verify: TokenVerifier, now: int,
                                         coerce: DateCoercion)
    requires Phase(tasks, req.id) == SoftDeleted
    requires "soft_delete" !in req.query && !IsHardDelete(req.query)
    ensures ServeUpdate(tasks, req, verify, now, coerce).reply.status == StatusBadRequest
    ensures ServeDelete(tasks, req, now).reply.status == StatusBadRequest
    ensures ServeUpdate(tasks, req, verify, now, coerce).reply.message != ServeDelete(tasks, req, now).reply.message
  {
  }
}
