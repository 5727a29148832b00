/** The task middlewares (api/src/middlewares/notDeleted.js): a guard that
    stops requests on soft-deleted tasks, and one that tries to mark the
    query of a listing as "not deleted". */
module NotDeleted {
  import opened Common
  import opened TodoModel

  const AlreadyDeletedMessage := "Task is already deleted not allowed to update or delete"
  /** The TypeError thrown when the lookup finds nothing and its result is
      dereferenced. */
  const MissingTaskCrash := "Cannot read properties of null (reading 'is_deleted')"

  /** `requireNotDelete`: reads the stored flag of the task and nothing else.
      A soft-deleted task is refused with 400, a live one passes, and a
      missing one is not handled at all: the lookup result is null and
      reading its flag throws. */
  function RequireNotDelete(tasks: map<TaskId, Task>, id: TaskId): (v: Verdict)
    ensures v == Pass <==> Phase(tasks, id) == Live
    ensures v.Halt? <==> Phase(tasks, id) == SoftDeleted
    ensures v.Halt? ==> v.status == StatusBadRequest && v.message == AlreadyDeletedMessage
    ensures v.Crash? <==> Phase(tasks, id) == Absent
  {
    if id !in tasks then Crash(MissingTaskCrash)
    else if tasks[id].is_deleted then Halt(StatusBadRequest, AlreadyDeletedMessage)
    else Pass
  }

  /** `hideDeletedTasks`: always passes on. It writes `is_deleted = false`
      into `req.query`, but under Express 5 `req.query` is a getter that
      parses the URL afresh on every read, so the write lands on a copy and
      the handler sees the query the client sent. */
  function HideDeletedTasks(req: Request): (r: Request)
    ensures r == req
  {
    req
  }
}
