/** The task record (api/src/models/todo.js): its enumerations, its fields
    and defaults, the collection that stores task records by id, and the
    JSON form a task is sent in. */
module TodoModel {
  import opened Common

  type TaskId = string
  type UserId = string

  datatype TaskStatus = Pending | InProgress | Completed
  datatype Priority = Low | Medium | High

  const StatusNames: seq<string> := ["pending", "in progress", "completed"]
  const PriorityNames: seq<string> := ["low", "medium", "high"]

  function StatusName(s: TaskStatus): string {
    match s
    case Pending => "pending"
    case InProgress => "in progress"
    case Completed => "completed"
  }

  function PriorityName(p: Priority): string {
    match p
    case Low => "low"
    case Medium => "medium"
    case High => "high"
  }

  /** The status enumeration of the schema: exactly the three names. */
  function ParseStatus(s: string): (r: Option<TaskStatus>)
    ensures r.Some? <==> s in StatusNames
    ensures r.Some? ==> StatusName(r.value) == s
  {
    if s == "pending" then Some(Pending)
    else if s == "in progress" then Some(InProgress)
    else if s == "completed" then Some(Completed)
    else None
  }

  /** The priority enumeration of the schema: exactly the three names. */
  function ParsePriority(s: string): (r: Option<Priority>)
    ensures r.Some? <==> s in PriorityNames
    ensures r.Some? ==> PriorityName(r.value) == s
  {
    if s == "low" then Some(Low)
    else if s == "medium" then Some(Medium)
    else if s == "high" then Some(High)
    else None
  }

  /** A stored task. The required fields (title, description, status,
      priority, due_date, user, created_by) are plain fields; the optional
      references updated_by and deleted_by and the nullable deleted_at are
      options. Dates are milliseconds since the epoch. */
  datatype Task = Task(
    title: string,
    description: string,
    status: TaskStatus,
    priority: Priority,
    due_date: int,
    is_deleted: bool,
    created_at: int,
    updated_at: int,
    deleted_at: Option<int>,
    user: UserId,
    created_by: UserId,
    updated_by: Option<UserId>,
    deleted_by: Option<UserId>)

  /** What every write of the API keeps true of a stored task: the deletion
      flag and the deletion time are set together, the owner is the
      creator, and the texts are within the validated bounds. */
  predicate WellFormed(t: Task) {
    && (t.is_deleted <==> t.deleted_at.Some?)
    && t.user == t.created_by
    && 4 <= |t.title| <= 255
    && 4 <= |t.description| <= 255
  }

  predicate AllWellFormed(tasks: map<TaskId, Task>) {
    forall id :: id in tasks ==> WellFormed(tasks[id])
  }

  /** The task collection: records by id, updated in place. */
  class TaskStore {
    var tasks: map<TaskId, Task>

    ghost predicate Valid()
      reads this
    {
      AllWellFormed(tasks)
    }

    constructor ()
      ensures Valid() && tasks == map[]
    {
      tasks := map[];
    }
  }

  /** Where a task id stands on the deletion axis. */
  datatype DeletionPhase = Live | SoftDeleted | Absent

  function Phase(tasks: map<TaskId, Task>, id: TaskId): DeletionPhase {
    if id !in tasks then Absent
    else if tasks[id].is_deleted then SoftDeleted
    else Live
  }

  /** The deletion axis as a state machine: live to soft-deleted, live or
      soft-deleted to removed, or no change. Nothing leads back to live. */
  predicate DeletionStep(before: DeletionPhase, after: DeletionPhase) {
    || before == after
    || (before == Live && after == SoftDeleted)
    || (before != Absent && after == Absent)
  }

  /** The fields of task `t` that both its stored and its JSON form carry:
      everything but the version key and deleted_at. The optional
      references are present only when set. */
  function SharedFields(id: TaskId, t: Task): (d: Document)
    ensures "__v" !in d && "deleted_at" !in d
  {
    var required := map[
      "_id" := VId(id),
      "title" := VString(t.title),
      "description" := VString(t.description),
      "status" := VString(StatusName(t.status)),
      "priority" := VString(PriorityName(t.priority)),
      "due_date" := VDate(t.due_date),
      "is_deleted" := VBool(t.is_deleted),
      "created_at" := VDate(t.created_at),
      "updated_at" := VDate(t.updated_at),
      "user" := VId(t.user),
      "created_by" := VId(t.created_by)];
    var withUpdater := if t.updated_by.Some? then required["updated_by" := VId(t.updated_by.value)] else required;
    if t.deleted_by.Some? then withUpdater["deleted_by" := VId(t.deleted_by.value)] else withUpdater
  }

  /** The stored document of task `t`, with its id and its version key;
      deleted_at is stored (as null while unset). */
  function ToDocument(id: TaskId, t: Task): (d: Document)
    ensures "__v" in d && "deleted_at" in d && "is_deleted" in d
    ensures t.deleted_at.Some? <==> d["deleted_at"] != VNull
    ensures ("updated_by" in d <==> t.updated_by.Some?) && ("deleted_by" in d <==> t.deleted_by.Some?)
  {
    SharedFields(id, t)["deleted_at" := if t.deleted_at.Some? then VDate(t.deleted_at.value) else VNull]["__v" := VNum(0)]
  }

  /** The toJSON transform: the stored document without its version key
      and without deleted_at. The deletion flag stays visible. */
  function ToJson(id: TaskId, t: Task): (j: Document)
    ensures "__v" !in j && "deleted_at" !in j
    ensures "is_deleted" in j && j["is_deleted"] == VBool(t.is_deleted)
    ensures forall k :: k in ToDocument(id, t) && k != "__v" && k != "deleted_at" ==> k in j
    ensures forall k :: k in j ==> k in ToDocument(id, t) && j[k] == ToDocument(id, t)[k]
  {
    ToDocument(id, t) - {"__v", "deleted_at"}
  }

  /** The JSON form cannot tell when a task was soft-deleted, only whether. */
  lemma JsonHidesDeletionTime(id: TaskId, t: Task, when: Option<int>)
    ensures ToJson(id, t) == ToJson(id, t.(deleted_at := when))
  {
    var u := t.(deleted_at := when);
    assert SharedFields(id, u) == SharedFields(id, t);
    DropHiddenFields(SharedFields(id, t), ToDocument(id, t)["deleted_at"]);
    DropHiddenFields(SharedFields(id, u), ToDocument(id, u)["deleted_at"]);
  }

  /** Adding deleted_at and the version key and then dropping both gives
      back the document they were added to. */
  lemma DropHiddenFields(shared: Document, deletedAt: Value)
    requires "__v" !in shared && "deleted_at" !in shared
    ensures shared["deleted_at" := deletedAt]["__v" := VNum(0)] - {"__v", "deleted_at"} == shared
  {
    var d := shared["deleted_at" := deletedAt]["__v" := VNum(0)] - {"__v", "deleted_at"};
    assert d.Keys == shared.Keys;
  }
}
