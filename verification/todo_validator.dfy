/** The request-body schemas for tasks (api/src/validators/todo.validator.js):
    the create schema, which drops unknown keys, and the strict update
    schema, in which every field is optional and unknown keys are refused.
    Each parser returns the parsed value or the list of issues, in the
    order of the schema's keys. */
module TodoValidator {
  import opened Common
  import opened ErrorHandler
  import opened TodoModel

  /** `z.coerce.date()`: `new Date(value)` in milliseconds, or None for an
      invalid date. The date library is not part of this model. */
  type DateCoercion = Json -> Option<int>

  const MinText := 4
  const MaxText := 255

  // Messages the schemas set themselves.
  const TitleTooShort := "Title is required"
  const TitleTooLong := "Title must be less than 255 characters"
  const DescriptionTooShort := "Description is required"
  const DescriptionTooLong := "Description must be less than 255 characters"
  const UpdateDescriptionTooShort := "Description must be at least 4 characters"
  const StatusInvalid := "Invalid Status: Use pending, in progress or completed"
  const PriorityInvalid := "Invalid Priority: Use low, medium or high"
  const DueDateInFuture := "Due date cannot be in the future"
  // Placeholders for messages worded by the schema library itself.
  const ExpectedDate := "Invalid input: expected date"
  const InvalidOption := "Invalid option"
  const UnrecognizedKeys := "Unrecognized key(s) in object"

  /** `key` holds a string of 4 to 255 characters. */
  predicate HasText(body: Body, key: string) {
    key in body && body[key].JStr? && MinText <= |body[key].s| <= MaxText
  }

  /** `key` holds one of `names`. */
  predicate HasOneOf(body: Body, key: string, names: seq<string>) {
    key in body && body[key].JStr? && body[key].s in names
  }

  /** A bounded-string field: at most one issue, and none exactly when the
      field holds a string of 4 to 255 characters. */
  function TextIssues(body: Body, key: string, tooShort: string, tooLong: string): (r: seq<Issue>)
    ensures |r| <= 1
    ensures r == [] <==> HasText(body, key)
    ensures r != [] ==> r[0].path == [key]
  {
    if key !in body || !body[key].JStr? then [Issue([key], ExpectedString)]
    else if |body[key].s| < MinText then [Issue([key], tooShort)]
    else if |body[key].s| > MaxText then [Issue([key], tooLong)]
    else []
  }

  /** An enumeration field. */
  function EnumIssues(body: Body, key: string, names: seq<string>, message: string): (r: seq<Issue>)
    ensures |r| <= 1
    ensures r == [] <==> HasOneOf(body, key, names)
    ensures r != [] ==> r[0] == Issue([key], message)
  {
    if HasOneOf(body, key, names) then [] else [Issue([key], message)]
  }

  /** A coerced date field; an absent optional field is fine. */
  function DateIssues(body: Body, key: string, coerce: DateCoercion, required: bool): (r: seq<Issue>)
    ensures |r| <= 1
    ensures r == [] <==> (key in body && coerce(body[key]).Some?) || (!required && key !in body)
    ensures r != [] ==> r[0] == Issue([key], ExpectedDate)
  {
    if key !in body then (if required then [Issue([key], ExpectedDate)] else [])
    else if coerce(body[key]).None? then [Issue([key], ExpectedDate)]
    else []
  }

  /** A create body after validation. Keys outside the schema have no
      place here: they are dropped. */
  datatype TaskData = TaskData(
    title: string,
    description: string,
    status: TaskStatus,
    priority: Priority,
    due_date: int,
    created_at: Option<int>,
    updated_at: Option<int>)

  const CreateKeys: set<string> :=
    {"title", "description", "status", "priority", "due_date", "created_at", "updated_at"}

  /** When the create schema accepts a body, stated field by field. There is
      no bound on due_date relative to the current time. */
  predicate ValidCreateBody(body: Body, coerce: DateCoercion) {
    && HasText(body, "title")
    && HasText(body, "description")
    && HasOneOf(body, "status", StatusNames)
    && HasOneOf(body, "priority", PriorityNames)
    && "due_date" in body && coerce(body["due_date"]).Some?
    && ("created_at" in body ==> coerce(body["created_at"]).Some?)
    && ("updated_at" in body ==> coerce(body["updated_at"]).Some?)
  }

  /** The issues of the seven create fields, in schema order. */
  function CreateIssues(body: Body, coerce: DateCoercion): (r: seq<Issue>)
    ensures |r| <= 7
    ensures r == [] <==> ValidCreateBody(body, coerce)
  {
    TextIssues(body, "title", TitleTooShort, TitleTooLong)
    + TextIssues(body, "description", DescriptionTooShort, DescriptionTooLong)
    + EnumIssues(body, "status", StatusNames, StatusInvalid)
    + EnumIssues(body, "priority", PriorityNames, PriorityInvalid)
    + DateIssues(body, "due_date", coerce, true)
    + DateIssues(body, "created_at", coerce, false)
    + DateIssues(body, "updated_at", coerce, false)
  }

  function OptionalDate(body: Body, key: string, coerce: DateCoercion): Option<int> {
    if key in body then coerce(body[key]) else None
  }

  /** `taskCreateSchema.parse`: the validated fields, or every issue found. */
  function ParseCreate(body: Body, coerce: DateCoercion): (r: Result<TaskData, seq<Issue>>)
    ensures r.Ok? <==> ValidCreateBody(body, coerce)
    ensures r.Err? ==> 1 <= |r.error| <= 7
    ensures r.Ok? ==> && body["title"] == JStr(r.value.title)
                      && body["description"] == JStr(r.value.description)
                      && body["status"] == JStr(StatusName(r.value.status))
                      && body["priority"] == JStr(PriorityName(r.value.priority))
                      && coerce(body["due_date"]) == Some(r.value.due_date)
                      && r.value.created_at == OptionalDate(body, "created_at", coerce)
                      && r.value.updated_at == OptionalDate(body, "updated_at", coerce)
  {
    var issues := CreateIssues(body, coerce);
    if issues != [] then Err(issues)
    else
      Ok(TaskData(
        body["title"].s,
        body["description"].s,
        ParseStatus(body["status"].s).value,
        ParsePriority(body["priority"].s).value,
        coerce(body["due_date"]).value,
        OptionalDate(body, "created_at", coerce),
        OptionalDate(body, "updated_at", coerce)))
  }

  /** Keys outside the create schema (an owner, a creator, a deletion flag)
      neither cause an issue nor reach the parsed value. */
  lemma ParseCreateIgnoresUnknownKeys(body: Body, key: string, v: Json, coerce: DateCoercion)
    requires key !in CreateKeys
    ensures ParseCreate(body[key := v], coerce) == ParseCreate(body, coerce)
  {
    var b := body[key := v];
    assert TextIssues(b, "title", TitleTooShort, TitleTooLong) == TextIssues(body, "title", TitleTooShort, TitleTooLong);
    assert TextIssues(b, "description", DescriptionTooShort, DescriptionTooLong)
        == TextIssues(body, "description", DescriptionTooShort, DescriptionTooLong);
    assert EnumIssues(b, "status", StatusNames, StatusInvalid) == EnumIssues(body, "status", StatusNames, StatusInvalid);
    assert EnumIssues(b, "priority", PriorityNames, PriorityInvalid)
        == EnumIssues(body, "priority", PriorityNames, PriorityInvalid);
    assert DateIssues(b, "due_date", coerce, true) == DateIssues(body, "due_date", coerce, true);
    assert DateIssues(b, "created_at", coerce, false) == DateIssues(body, "created_at", coerce, false);
    assert DateIssues(b, "updated_at", coerce, false) == DateIssues(body, "updated_at", coerce, false);
    assert CreateIssues(b, coerce) == CreateIssues(body, coerce);
  }

  /** An update body after validation: only the keys that were sent. */
  datatype TaskPatch = TaskPatch(
    description: Option<string>,
    status: Option<TaskStatus>,
    priority: Option<Priority>,
    due_date: Option<int>)

  const UpdateKeys: set<string> := {"description", "status", "priority", "due_date"}

  /** When the strict update schema accepts a body: no key outside the four,
      and each key that is sent is valid; a due date must not lie after
      `now`. */
  predicate ValidUpdateBody(body: Body, coerce: DateCoercion, now: int) {
    && body.Keys <= UpdateKeys
    && ("description" in body ==> HasText(body, "description"))
    && ("status" in body ==> HasOneOf(body, "status", StatusNames))
    && ("priority" in body ==> HasOneOf(body, "priority", PriorityNames))
    && ("due_date" in body ==> coerce(body["due_date"]).Some? && coerce(body["due_date"]).value <= now)
  }

  /** The optional, refined due date: absent is fine; a date after `now`
      is refused. */
  function DueDateIssues(body: Body, coerce: DateCoercion, now: int): (r: seq<Issue>)
    ensures |r| <= 1
    ensures r == [] <==> "due_date" !in body || (coerce(body["due_date"]).Some? && coerce(body["due_date"]).value <= now)
  {
    if "due_date" !in body then []
    else if coerce(body["due_date"]).None? then [Issue(["due_date"], ExpectedDate)]
    else if coerce(body["due_date"]).value <= now then []
    else [Issue(["due_date"], DueDateInFuture)]
  }

  /** The issues of the fields that were sent, then the unknown keys. */
  function UpdateIssues(body: Body, coerce: DateCoercion, now: int): (r: seq<Issue>)
    ensures |r| <= 5
    ensures r == [] <==> ValidUpdateBody(body, coerce, now)
  {
    (if "description" in body then TextIssues(body, "description", UpdateDescriptionTooShort, DescriptionTooLong) else [])
    + (if "status" in body then EnumIssues(body, "status", StatusNames, InvalidOption) else [])
    + (if "priority" in body then EnumIssues(body, "priority", PriorityNames, InvalidOption) else [])
    + DueDateIssues(body, coerce, now)
    + (if body.Keys <= UpdateKeys then [] else [Issue([], UnrecognizedKeys)])
  }

  /** `taskUpdateSchema.parse`: the fields that were sent, or every issue. */
  function ParseUpdate(body: Body, coerce: DateCoercion, now: int): (r: Result<TaskPatch, seq<Issue>>)
    ensures r.Ok? <==> ValidUpdateBody(body, coerce, now)
    ensures r.Err? ==> 1 <= |r.error| <= 5
    ensures r.Ok? ==> && (r.value.description.Some? <==> "description" in body)
                      && (r.value.status.Some? <==> "status" in body)
                      && (r.value.priority.Some? <==> "priority" in body)
                      && (r.value.due_date.Some? <==> "due_date" in body)
    ensures r.Ok? && r.value.description.Some? ==> body["description"] == JStr(r.value.description.value)
    ensures r.Ok? && r.value.status.Some? ==> body["status"] == JStr(StatusName(r.value.status.value))
    ensures r.Ok? && r.value.priority.Some? ==> body["priority"] == JStr(PriorityName(r.value.priority.value))
    ensures r.Ok? && r.value.due_date.Some? ==> coerce(body["due_date"]) == r.value.due_date
                                                && r.value.due_date.value <= now
  {
    var issues := UpdateIssues(body, coerce, now);
    if issues != [] then Err(issues)
    else
      Ok(TaskPatch(
        if "description" in body then Some(body["description"].s) else None,
        if "status" in body then ParseStatus(body["status"].s) else None,
        if "priority" in body then ParsePriority(body["priority"].s) else None,
        if "due_date" in body then coerce(body["due_date"]) else None))
  }

  /** Every field of the update schema is optional: an empty body is valid
      and changes nothing. */
  lemma EmptyUpdateIsValid(coerce: DateCoercion, now: int)
    ensures ParseUpdate(map[], coerce, now) == Ok(TaskPatch(None, None, None, None))
  {
  }

  /** The title is not in the update schema, so no update can carry it. */
  lemma UpdateRefusesTitle(body: Body, coerce: DateCoercion, now: int)
    requires "title" in body
    ensures ParseUpdate(body, coerce, now).Err?
  {
  }
}
