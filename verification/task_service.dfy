/** The task service (api/src/services/task.service.js): create, list,
    fetch, update and delete tasks in the task collection. The listing and
    the fetch only read the collection and are functions of it; create,
    update and delete change the collection in place. */
module TaskService {
  import opened Common
  import opened ErrorHandler
  import opened TodoModel
  import opened TodoValidator

  const CreatedMessage := "Task created successfully"
  const ListedMessage := "Tasks fetched successfully"
  const FetchedMessage := "Task fetched successfully"
  const NotFoundMessage := "Task not found"
  const UpdatedMessage := "Task updated successfully"
  const SoftDeleteKeyMessage := "Invalid query param. Use hardDelete=true"
  const HardDeletedMessage := "Task permanently deleted"
  const AlreadyDeletedMessage := "Task already deleted"
  const DeletedMessage := "Task deleted successfully"
  /** The model validation error raised when the request carries no user id
      (the owner and creator are required fields of the task record). */
  const OwnerRequiredMessage :=
    "Todo validation failed: user: Path `user` is required., created_by: Path `created_by` is required."

  /** The record `Todo.create` stores: the actor is both owner and creator,
      every other value comes from the validated body, and the schema
      defaults leave the task undeleted. */
  function NewTask(actor: UserId, data: TaskData, now: int): (t: Task)
    ensures t.user == actor && t.created_by == actor
    ensures t.title == data.title && t.description == data.description
    ensures t.status == data.status && t.priority == data.priority && t.due_date == data.due_date
    ensures t.created_at == data.created_at.GetOr(now) && t.updated_at == data.updated_at.GetOr(now)
    ensures !t.is_deleted && t.deleted_at.None? && t.updated_by.None? && t.deleted_by.None?
    ensures MinText <= |data.title| <= MaxText && MinText <= |data.description| <= MaxText ==> WellFormed(t)
  {
    Task(data.title, data.description, data.status, data.priority, data.due_date,
         false, data.created_at.GetOr(now), data.updated_at.GetOr(now), None,
         actor, actor, None, None)
  }

  /** A validated create body always makes a well-formed record. */
  lemma CreatedTaskIsWellFormed(actor: UserId, body: Body, coerce: DateCoercion, now: int)
    requires ParseCreate(body, coerce).Ok?
    ensures WellFormed(NewTask(actor, ParseCreate(body, coerce).value, now))
  {
  }

  /** The soft-deleted version of a task: flag on, deletion time `now`,
      every other field as it was. */
  function SoftDelete(t: Task, now: int): (r: Task)
    ensures r.is_deleted && r.deleted_at == Some(now)
    ensures r.(is_deleted := t.is_deleted, deleted_at := t.deleted_at) == t
    ensures WellFormed(t) ==> WellFormed(r)
  {
    t.(is_deleted := true, deleted_at := Some(now))
  }

  /** `$set` with a validated update: the fields that were sent change,
      and nothing else does. */
  function ApplyPatch(t: Task, p: TaskPatch): (r: Task)
    ensures r.description == p.description.GetOr(t.description)
    ensures r.status == p.status.GetOr(t.status)
    ensures r.priority == p.priority.GetOr(t.priority)
    ensures r.due_date == p.due_date.GetOr(t.due_date)
    ensures r.(description := t.description, status := t.status, priority := t.priority, due_date := t.due_date) == t
    ensures WellFormed(t) && (p.description.Some? ==> MinText <= |p.description.value| <= MaxText) ==> WellFormed(r)
  {
    t.(description := p.description.GetOr(t.description),
       status := p.status.GetOr(t.status),
       priority := p.priority.GetOr(t.priority),
       due_date := p.due_date.GetOr(t.due_date))
  }

  /** The listing reply: the live tasks and a count of every stored task. */
  datatype TaskList = TaskList(data: map<TaskId, Document>, total_count: int)

  /** The JSON form of every task whose deletion flag is off. */
  function LiveTasks(tasks: map<TaskId, Task>): (live: map<TaskId, Document>)
    ensures forall id :: id in live <==> Phase(tasks, id) == Live
    ensures forall id :: id in live ==> id in tasks && live[id] == ToJson(id, tasks[id])
    ensures |live| <= |tasks|
  {
    var live := map id | id in tasks && !tasks[id].is_deleted :: ToJson(id, tasks[id]);
    assert live.Keys <= tasks.Keys;
    SubsetCardinality(live.Keys, tasks.Keys);
    live
  }

  /** `getAllTaskService`: the tasks whose flag is off, and a total that
      counts every stored task, soft-deleted ones included. */
  function GetAllTasks(tasks: map<TaskId, Task>): (r: Reply<TaskList>)
    ensures r.status == StatusOk && r.message == ListedMessage && r.data.Some? && r.errors.None?
    ensures r.data.value.data == LiveTasks(tasks)
    ensures r.data.value.total_count == |tasks|
    ensures |r.data.value.data| <= r.data.value.total_count
  {
    Send(StatusOk, ListedMessage, TaskList(LiveTasks(tasks), |tasks|))
  }

  /** `getTaskByIdService`: a live task, or 404 for a missing and for a
      soft-deleted one alike. */
  function GetTaskById(tasks: map<TaskId, Task>, id: TaskId): (r: Reply<Document>)
    ensures r.status == StatusOk <==> Phase(tasks, id) == Live
    ensures r.status == StatusOk ==> r.message == FetchedMessage && r.data == Some(ToJson(id, tasks[id]))
    ensures r.status != StatusOk ==> r.status == StatusNotFound && r.message == NotFoundMessage
  {
    if id in tasks && !tasks[id].is_deleted then Send(StatusOk, FetchedMessage, ToJson(id, tasks[id]))
    else Message(StatusNotFound, NotFoundMessage)
  }

  /** `hard_delete` selects the hard path only when it is exactly "true". */
  predicate IsHardDelete(query: Query)
    ensures IsHardDelete(query) ==> "hard_delete" in query && query["hard_delete"].QStr?
    ensures "hard_delete" in query && query["hard_delete"].QList? ==> !IsHardDelete(query)
    ensures "hard_delete" in query && query["hard_delete"] == QStr("True") ==> !IsHardDelete(query)
  {
    "hard_delete" in query && query["hard_delete"] == QStr("true")
  }

  /** What a write does: the reply it sends and the collection after it. */
  datatype Outcome = Outcome(reply: Reply<Document>, tasks: map<TaskId, Task>)

  /** `createTaskService`: validate, then store a new record under the id
      the database hands out. Without a user id on the request the record
      fails the model's required-field check and nothing is stored. */
  function Create(tasks: map<TaskId, Task>, actor: Option<UserId>, body: Body, newId: TaskId, now: int, coerce: DateCoercion)
    : (o: Outcome)
    requires newId !in tasks
    ensures ParseCreate(body, coerce).Err? ==>
      o == Outcome(HandleError(ZodError(ParseCreate(body, coerce).error)), tasks)
    ensures ParseCreate(body, coerce).Ok? && actor.None? ==>
      o.tasks == tasks && o.reply == Message(StatusInternal, OwnerRequiredMessage)
    ensures ParseCreate(body, coerce).Ok? && actor.Some? ==>
      var t := NewTask(actor.value, ParseCreate(body, coerce).value, now);
      && o.tasks == tasks[newId := t]
      && o.reply == Send(StatusCreated, CreatedMessage, ToJson(newId, t))
    ensures forall id :: id != newId ==> Phase(o.tasks, id) == Phase(tasks, id)
    ensures AllWellFormed(tasks) ==> AllWellFormed(o.tasks)
  {
    var parsed := ParseCreate(body, coerce);
    if parsed.Err? then Outcome(HandleError(ZodError(parsed.error)), tasks)
    else if actor.None? then Outcome(HandleError(OtherError(None, Some(OwnerRequiredMessage))), tasks)
    else
      var t := NewTask(actor.value, parsed.value, now);
      CreatedTaskIsWellFormed(actor.value, body, coerce, now);
      Outcome(Send(StatusCreated, CreatedMessage, ToJson(newId, t)), tasks[newId := t])
  }

  /** `updateTaskService`: the body is validated before the lookup, so a
      validation error wins over an unknown id. The service itself does not
      look at the deletion flag. */
  function Update(tasks: map<TaskId, Task>, id: TaskId, body: Body, now: int, coerce: DateCoercion): (o: Outcome)
    ensures ParseUpdate(body, coerce, now).Err? ==>
      o == Outcome(HandleError(ZodError(ParseUpdate(body, coerce, now).error)), tasks)
    ensures ParseUpdate(body, coerce, now).Ok? && id !in tasks ==>
      o == Outcome(Message(StatusNotFound, NotFoundMessage), tasks)
    ensures ParseUpdate(body, coerce, now).Ok? && id in tasks ==>
      var t := ApplyPatch(tasks[id], ParseUpdate(body, coerce, now).value);
      && o.tasks == tasks[id := t]
      && o.reply == Send(StatusOk, UpdatedMessage, ToJson(id, t))
    ensures forall other :: Phase(o.tasks, other) == Phase(tasks, other)
    ensures AllWellFormed(tasks) ==> AllWellFormed(o.tasks)
  {
    var parsed := ParseUpdate(body, coerce, now);
    if parsed.Err? then Outcome(HandleError(ZodError(parsed.error)), tasks)
    else if id !in tasks then Outcome(Message(StatusNotFound, NotFoundMessage), tasks)
    else
      var t := ApplyPatch(tasks[id], parsed.value);
      Outcome(Send(StatusOk, UpdatedMessage, ToJson(id, t)), tasks[id := t])
  }

  /** `deleteTaskService`. The checks run in this order: a `soft_delete`
      query key (any value) is refused before anything is looked up; an
      unknown id is 404; the hard path removes the record whatever its
      flag; the soft path refuses a task already soft-deleted and otherwise
      sets the flag and the deletion time. */
  function Delete(tasks: map<TaskId, Task>, id: TaskId, query: Query, now: int): (o: Outcome)
    ensures "soft_delete" in query ==> o == Outcome(Message(StatusBadRequest, SoftDeleteKeyMessage), tasks)
    ensures "soft_delete" !in query && id !in tasks ==> o == Outcome(Message(StatusNotFound, NotFoundMessage), tasks)
    ensures "soft_delete" !in query && id in tasks && IsHardDelete(query) ==>
      o == Outcome(Message(StatusOk, HardDeletedMessage), tasks - {id})
    ensures "soft_delete" !in query && id in tasks && !IsHardDelete(query) && tasks[id].is_deleted ==>
      o == Outcome(Message(StatusBadRequest, AlreadyDeletedMessage), tasks)
    ensures "soft_delete" !in query && id in tasks && !IsHardDelete(query) && !tasks[id].is_deleted ==>
      o == Outcome(Message(StatusOk, DeletedMessage), tasks[id := SoftDelete(tasks[id], now)])
    ensures DeletionStep(Phase(tasks, id), Phase(o.tasks, id))
    ensures forall other :: other != id ==> Phase(o.tasks, other) == Phase(tasks, other)
    ensures AllWellFormed(tasks) ==> AllWellFormed(o.tasks)
  {
    if "soft_delete" in query then Outcome(Message(StatusBadRequest, SoftDeleteKeyMessage), tasks)
    else if id !in tasks then Outcome(Message(StatusNotFound, NotFoundMessage), tasks)
    else if IsHardDelete(query) then Outcome(Message(StatusOk, HardDeletedMessage), tasks - {id})
    else if tasks[id].is_deleted then Outcome(Message(StatusBadRequest, AlreadyDeletedMessage), tasks)
    else Outcome(Message(StatusOk, DeletedMessage), tasks[id := SoftDelete(tasks[id], now)])
  }

  /** A hard delete is final: afterwards the id is unknown to every read. */
  lemma HardDeleteIsFinal(tasks: map<TaskId, Task>, id: TaskId, query: Query, now: int)
    requires "soft_delete" !in query && IsHardDelete(query) && id in tasks
    ensures var after := Delete(tasks, id, query, now).tasks;
      && Phase(after, id) == Absent
      && GetTaskById(after, id) == Message(StatusNotFound, NotFoundMessage)
      && id !in LiveTasks(after)
  {
  }

  /** A second soft delete of the same task is refused and changes nothing. */
  lemma SoftDeleteTwiceIsRefused(tasks: map<TaskId, Task>, id: TaskId, query: Query, now: int, later: int)
    requires "soft_delete" !in query && !IsHardDelete(query) && id in tasks
    ensures var first := Delete(tasks, id, query, now);
      var second := Delete(first.tasks, id, query, later);
      && second.tasks == first.tasks
      && second.reply == Message(StatusBadRequest, AlreadyDeletedMessage)
  {
  }

  /** After a soft delete the task is hidden from both reads, though it is
      still stored and still counted in the listing's total. */
  lemma SoftDeletedTaskIsHidden(tasks: map<TaskId, Task>, id: TaskId, query: Query, now: int)
    requires "soft_delete" !in query && !IsHardDelete(query) && id in tasks && !tasks[id].is_deleted
    ensures var after := Delete(tasks, id, query, now).tasks;
      && id in after
      && GetTaskById(after, id).status == StatusNotFound
      && id !in LiveTasks(after)
      && GetAllTasks(after).data.value.total_count == |tasks|
  {
  }

  /** The in-place create: `Todo.create` inserts the new record. */
  method CreateTask(store: TaskStore, actor: Option<UserId>, body: Body, newId: TaskId, now: int, coerce: DateCoercion)
    returns (reply: Reply<Document>)
    requires store.Valid() && newId !in store.tasks
    modifies store
    ensures store.Valid()
    ensures Outcome(reply, store.tasks) == Create(old(store.tasks), actor, body, newId, now, coerce)
  {
    var parsed := ParseCreate(body, coerce);
    if parsed.Err? {
      reply := HandleError(ZodError(parsed.error));
      return;
    }
    if actor.None? {
      reply := HandleError(OtherError(None, Some(OwnerRequiredMessage)));
      return;
    }
    var todo := NewTask(actor.value, parsed.value, now);
    store.tasks := store.tasks[newId := todo];
    reply := Send(StatusCreated, CreatedMessage, ToJson(newId, todo));
  }

  /** The in-place update: `findByIdAndUpdate` with `$set`. */
  method UpdateTask(store: TaskStore, id: TaskId, body: Body, now: int, coerce: DateCoercion)
    returns (reply: Reply<Document>)
    requires store.Valid()
    modifies store
    ensures store.Valid()
    ensures Outcome(reply, store.tasks) == Update(old(store.tasks), id, body, now, coerce)
  {
    var parsed := ParseUpdate(body, coerce, now);
    if parsed.Err? {
      reply := HandleError(ZodError(parsed.error));
      return;
    }
    if id !in store.tasks {
      reply := Message(StatusNotFound, NotFoundMessage);
      return;
    }
    var updated := ApplyPatch(store.tasks[id], parsed.value);
    store.tasks := store.tasks[id := updated];
    reply := Send(StatusOk, UpdatedMessage, ToJson(id, updated));
  }

  /** The in-place delete: `findByIdAndDelete` on the hard path; on the soft
      path the loaded record's flag and time are assigned and saved. */
  method DeleteTask(store: TaskStore, id: TaskId, query: Query, now: int) returns (reply: Reply<Document>)
    requires store.Valid()
    modifies store
    ensures store.Valid()
    ensures Outcome(reply, store.tasks) == Delete(old(store.tasks), id, query, now)
  {
    var hardDelete := IsHardDelete(query);
    if "soft_delete" in query {
      reply := Message(StatusBadRequest, SoftDeleteKeyMessage);
      return;
    }
    if id !in store.tasks {
      reply := Message(StatusNotFound, NotFoundMessage);
      return;
    }
    var todo := store.tasks[id];
    if hardDelete {
      store.tasks := store.tasks - {id};
      reply := Message(StatusOk, HardDeletedMessage);
      return;
    }
    if todo.is_deleted {
      reply := Message(StatusBadRequest, AlreadyDeletedMessage);
      return;
    }
    todo := SoftDelete(todo, now);
    store.tasks := store.tasks[id := todo];
    reply := Message(StatusOk, DeletedMessage);
  }
}
