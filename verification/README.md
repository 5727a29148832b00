# Task and user API — a Dafny model

This project models the server side of a small Express/Mongoose task
manager: a task collection with soft and hard deletion, a user collection
with registration, login, password change and an admin console, and the
middlewares that stand in front of both (bearer-token authentication, role
checks, a soft-delete guard) together with the final error-handling
middleware.

Each collection is a map from id to record. Every handler that writes is
modelled twice:

- as a pure *outcome* function. It gives the reply (status code, `message`,
  payload, validation `errors`) and the collection after the request, and
  its contract lists every case in the order the handler checks them;
- as a method on the store class (`TodoModel.TaskStore`,
  `UserModel.UserStore`). It changes the map in place and is proved to do
  exactly what the outcome function says, while keeping the store's
  invariant.

Read-only handlers are pure functions of the map. Route tables are
sequences of guards run by `GuardChain.RunChain`, so properties such as
"401 comes before 403" or "update never reaches a soft-deleted task" are
proved through the same chain Express runs.

The external pieces are parameters:

- the clock is an integer `now` (milliseconds);
- Zod's date coercion is a function `Json -> Option<int>`;
- Zod's email-format check is a predicate `string -> bool`;
- `jwt.verify` is a function from token to optional claims;
- `jwt.sign` is a function from the signed payload and expiry to a token
  string;
- `bcrypt.hash` is the free constructor `BcryptHash(secret)`, so two hashes
  are equal exactly when their passwords are, and `bcrypt.compare` is that
  equality;
- new ids are parameters that the collection does not yet hold.
- the order in which `find` walks the user collection is a sequence `docs`
  of (id, record) pairs; `AdminController.Enumerates(docs, users)` says it
  holds every stored user exactly once and nothing else.

Files, one module each, in the order they import one another:

| file | module | models |
|---|---|---|
| common.dfy | Common | JSON bodies, queries, requests, replies, roles, stored documents |
| text.dfy | Text | `toLowerCase`, `trim`, `split`/`join`, substring search |
| error_handler.dfy | ErrorHandler | the error-handling middleware of `app.js` |
| todo_model.dfy | TodoModel | the task record, its enums, its JSON form, the task store |
| todo_validator.dfy | TodoValidator | the create and update schemas for tasks |
| not_deleted.dfy | NotDeleted | `requireNotDelete` and `hideDeletedTasks` |
| task_service.dfy | TaskService | the five task handlers |
| auth_middleware.dfy | AuthMiddleware | `requireAuth` and `requireRole` |
| guard_chain.dfy | GuardChain | running a route's middlewares in order |
| todo_routes.dfy | TodoRoutes | the five task routes |
| user_model.dfy | UserModel | the user record, the user store, projections |
| auth_validator.dfy | AuthValidator | the register and login schemas |
| auth_controller.dfy | AuthController | token signing, sign-up, login, password change |
| admin_controller.dfy | AdminController | listing, update, activation and deletion of users |
| user_controller.dfy | UserController | the profile endpoint `me` |
| admin_routes.dfy | AdminRoutes | the five admin routes |

The model follows the code, including three behaviours a reader might not
expect:

- `signUp`/`register` store the role from the validated body. They do not
  force it to "user".
- `deleteUser` removes the record before its self-delete and role checks.
  The 403 and 400 replies therefore come after the record is already gone.
- `login` compares the password with the stored hash before it checks the
  8-character minimum. A wrong short password gets 401, and only a correct
  short one gets 400.

## Model

| member | source | states |
|---|---|---|
| Common.ParseRole | api/src/validators/auth.validator.js:6-8 | a role name is accepted exactly when it is one of admin, manager, user |
| Common.ParseRoleName | api/src/controllers/admin.controller.js:46 | every role's name is parsed back to that role |
| Text.ToLower | api/src/controllers/auth.controller.js:22 | the same length as the input, with no ASCII capital left and every other character kept |
| Text.ToLowerIdempotent | api/src/controllers/auth.controller.js:31 | lower-casing an already lower-cased email changes nothing |
| Text.TrimStart | api/src/controllers/admin.controller.js:8 | the result is a suffix of the input that does not start with whitespace, and all that was cut off is whitespace |
| Text.TrimEnd | api/src/controllers/admin.controller.js:8 | the result is a prefix of the input that does not end with whitespace, and all that was cut off is whitespace |
| Text.Trim | api/src/controllers/admin.controller.js:8 | the trimmed query is no longer than the input and has no whitespace at either end |
| Text.TrimCutsOnlyWhitespace | api/src/controllers/admin.controller.js:8 | only whitespace is removed from either end |
| Text.TrimIsSlice | api/src/controllers/admin.controller.js:8 | the trimmed text is the input's slice starting after its leading whitespace |
| Text.Split | api/src/middlewares/auth.middleware.js:7 | splitting on a character yields at least one piece and no piece contains it |
| Text.Join | api/src/app.js:37 | no pieces join to the empty string; the join starts with the first piece, followed by the separator when there is a second |
| Text.JoinSplit | api/src/middlewares/auth.middleware.js:7 | joining the pieces of a split with the separator gives back the original |
| Text.SplitAfterPart | api/src/middlewares/auth.middleware.js:7 | a separator-free head followed by the separator splits off as the first piece |
| Text.SplitWithoutSeparator | api/src/middlewares/auth.middleware.js:7 | a string without the separator splits into itself alone |
| Text.SplitJoin | api/src/middlewares/auth.middleware.js:7 | splitting a join of separator-free pieces gives back the pieces |
| ErrorHandler.FieldErrors | api/src/app.js:37-40 | one entry per issue, in order, with the path joined by "." and the issue's message |
| ErrorHandler.HandleError | api/src/app.js:31-49 | a Zod error gives 400 "Validation error" with the field list; any other error gives its non-zero statusCode or else 500, and its non-empty message or else "Internal Server Error" |
| ErrorHandler.ValidationErrorsListEveryIssue | api/src/app.js:32-41 | the error list has one entry per issue; entry i carries issue i's message, and splitting its field on "." gives back the path when no path key contains a dot |
| TodoModel.ParseStatus | api/src/models/todo.js:12-16 | a status is accepted exactly when it is pending, in progress or completed, and parses to the value whose name it is |
| TodoModel.ParsePriority | api/src/models/todo.js:17-21 | a priority is accepted exactly when it is low, medium or high, and parses to the value whose name it is |
| TodoModel.TaskStore.constructor | api/src/models/todo.js:78 | a new task store is empty and valid |
| TodoModel.ToDocument | api/src/models/todo.js:3-60 | the stored document has `__v`, `deleted_at` and `is_deleted`; `deleted_at` is non-null exactly when a deletion time is set; `updated_by` and `deleted_by` appear exactly when set |
| TodoModel.ToJson | api/src/models/todo.js:67-74 | the serialized task lacks `__v` and `deleted_at` but keeps `is_deleted` and all other fields |
| TodoModel.JsonHidesDeletionTime | api/src/models/todo.js:67-74 | two tasks that differ only in deletion time serialize the same |
| TodoValidator.TextIssues | api/src/validators/todo.validator.js:4-5 | no issue exactly when the field is a string of length 4 to 255; otherwise one issue at that field |
| TodoValidator.EnumIssues | api/src/validators/todo.validator.js:6-15 | no issue exactly when the field is one of the enum's names; otherwise one issue with the schema's message |
| TodoValidator.DateIssues | api/src/validators/todo.validator.js:16-18 | no issue exactly when the date coerces, or it is optional and absent |
| TodoValidator.CreateIssues | api/src/validators/todo.validator.js:3-19 | no issue exactly when the body is valid for create, and never more than seven |
| TodoValidator.ParseCreate | api/src/validators/todo.validator.js:3-19 | parsing succeeds exactly when the body is valid; a success carries the body's values, and a failure lists one to seven issues |
| TodoValidator.ParseCreateIgnoresUnknownKeys | api/src/validators/todo.validator.js:3-19 | adding a key outside the schema (`user`, `created_by`, `is_deleted`, ...) does not change the result |
| TodoValidator.DueDateIssues | api/src/validators/todo.validator.js:36-43 | no issue exactly when due_date is absent, or coerces to a time no later than now |
| TodoValidator.UpdateIssues | api/src/validators/todo.validator.js:21-44 | no issue exactly when the body is valid for update, and never more than five |
| TodoValidator.ParseUpdate | api/src/validators/todo.validator.js:21-44 | parsing succeeds exactly when the body is valid; each patch field is present exactly when the body has it and carries its value |
| TodoValidator.EmptyUpdateIsValid | api/src/validators/todo.validator.js:21-44 | the empty body parses to the empty patch |
| TodoValidator.UpdateRefusesTitle | api/src/validators/todo.validator.js:44 | any body holding a title is refused, so a title is never updated |
| NotDeleted.RequireNotDelete | api/src/middlewares/notDeleted.js:4-12 | passes exactly for a live task, answers 400 exactly for a soft-deleted one, and throws for a missing one |
| NotDeleted.HideDeletedTasks | api/src/middlewares/notDeleted.js:14-17 | always passes the request on as it came: under Express 5 its write to `req.query` lands on a freshly parsed copy |
| TaskService.IsHardDelete | api/src/services/task.service.js:96 | only a single `hard_delete` string can select the hard path: a repeated key (a list) or "True" never does |
| TaskService.NewTask | api/src/services/task.service.js:10-17 | the actor is both owner and creator; every other field comes from the validated body; the task is live, and well formed when the text lengths are valid |
| TaskService.CreatedTaskIsWellFormed | api/src/services/task.service.js:10-17 | a task created from any body that passes validation is well formed |
| TaskService.SoftDelete | api/src/services/task.service.js:124-126 | sets the flag and the deletion time to now and changes nothing else |
| TaskService.ApplyPatch | api/src/services/task.service.js:142 | exactly the supplied fields change |
| TaskService.LiveTasks | api/src/services/task.service.js:31-34 | holds exactly the tasks not soft-deleted, each in its JSON form, and no more than the store holds |
| TaskService.GetAllTasks | api/src/services/task.service.js:29-46 | 200 with the live tasks; `total_count` counts every stored task, so it is never below the number listed |
| TaskService.GetTaskById | api/src/services/task.service.js:48-68 | 200 exactly for a live task; 404 "Task not found" both for an unknown id and for a soft-deleted task |
| TaskService.Create | api/src/services/task.service.js:8-27 | a validation failure gives the 400 field list; a missing owner gives the schema's 500; otherwise 201 with the new task; no other task changes |
| TaskService.Update | api/src/services/task.service.js:138-156 | validation comes before the lookup, so it wins over 404; on success only the supplied fields of that task change; no task changes its deletion phase |
| TaskService.Delete | api/src/services/task.service.js:93-134 | a `soft_delete` key gives 400 before any lookup; then 404, then hard delete only for `hard_delete` exactly "true", then 400 for a repeated soft delete, then a soft delete; each step is live to soft-deleted, live or soft-deleted to removed, or no change, and other tasks are untouched |
| TaskService.HardDeleteIsFinal | api/src/services/task.service.js:111-116 | after a hard delete the task is gone: fetching it gives 404 and it is not listed |
| TaskService.SoftDeleteTwiceIsRefused | api/src/services/task.service.js:118-122 | a second soft delete of the same task answers 400 and leaves the store as the first left it |
| TaskService.SoftDeletedTaskIsHidden | api/src/services/task.service.js:124-126 | after a soft delete the task is still stored and still counted in `total_count`, but is neither listed nor fetched |
| TaskService.CreateTask | api/src/services/task.service.js:8-27 | the in-place create sends the reply and leaves the store `Create` describes, keeping every task well formed |
| TaskService.UpdateTask | api/src/services/task.service.js:138-156 | the in-place update sends the reply and leaves the store `Update` describes, keeping every task well formed |
| TaskService.DeleteTask | api/src/services/task.service.js:93-134 | the in-place delete sends the reply and leaves the store `Delete` describes, keeping every task well formed |
| AuthMiddleware.BearerToken | api/src/middlewares/auth.middleware.js:6-11 | a token is found only in a present header, and is non-empty and without spaces |
| AuthMiddleware.BearerTokenOf | api/src/middlewares/auth.middleware.js:6-11 | "Bearer", a space, a token, and anything after a further space yield that token |
| AuthMiddleware.BearerTokenCharacterized | api/src/middlewares/auth.middleware.js:6-11 | a header yields a token exactly when it is "Bearer", one space, the token, and nothing or a space-led tail |
| AuthMiddleware.DoubleSpaceIsRefused | api/src/middlewares/auth.middleware.js:7-11 | "Bearer  x" has no token |
| AuthMiddleware.ExtraPieceIsIgnored | api/src/middlewares/auth.middleware.js:7-11 | "Bearer x y" yields the token "x" |
| AuthMiddleware.RequireAuth | api/src/middlewares/auth.middleware.js:3-24 | 401 for a bad header, 401 for a refused token, and otherwise the request with `user` set to the token's subject and role, without the email |
| AuthMiddleware.RequireRole | api/src/middlewares/auth.middleware.js:26-35 | passes exactly when the role is one of those listed; 401 exactly when there is no role; 403 exactly when the role is not listed |
| GuardChain.Step | api/src/routes/todo.routes.js:95-224 | each middleware either passes a request on or stops; role and not-deleted checks pass exactly when their own check does, and hideDeletedTasks always passes |
| GuardChain.RunChain | api/src/routes/todo.routes.js:95-224 | an empty chain passes the request unchanged; a one-middleware chain is that middleware; a stop at the first middleware decides the reply |
| GuardChain.RunChainAppend | api/src/routes/todo.routes.js:95-224 | running two chains in turn is running their concatenation: a stop in the first decides, otherwise the second runs on what the first passed on |
| GuardChain.FirstStopDecides | api/src/routes/todo.routes.js:95-224 | when the middlewares before position i pass, a stop at i is the chain's reply, and when all pass the handler gets the request the last one left |
| GuardChain.StopReply | api/src/app.js:31-49 | a middleware's own answer is sent as it is; a throw becomes a 500 with its message |
| TodoRoutes.TaskChain | api/src/routes/todo.routes.js:95-224 | only create authenticates, only update has the not-deleted guard, only the listing hides deleted tasks, and no task route checks roles |
| TodoRoutes.ServeCreate | api/src/routes/todo.routes.js:95 | 401 for a bad header or token, with the store unchanged; otherwise a create owned by the token's subject |
| TodoRoutes.ServeList | api/src/routes/todo.routes.js:122 | always 200 with the live tasks and the full count; the query mark has no effect |
| TodoRoutes.ServeFetch | api/src/routes/todo.routes.js:154 | without any token, 200 exactly for a live task and 404 otherwise |
| TodoRoutes.ServeUpdate | api/src/routes/todo.routes.js:194 | a soft-deleted task gives 400 and a missing one 500, both with the store unchanged; a live task reaches the update |
| TodoRoutes.ServeDelete | api/src/routes/todo.routes.js:224 | a soft-deleted task reaches the service, which refuses a second soft delete with its own 400 |
| TodoRoutes.CreateNeedsToken | api/src/routes/todo.routes.js:95 | create with no Authorization header answers 401 and leaves the store as it was |
| TodoRoutes.OnlyCreateNeedsToken | api/src/routes/todo.routes.js:122-224 | the list, fetch, update and delete routes answer a request without a header or user exactly as they answer it with one |
| TodoRoutes.SoftDeletedUpdateAndDeleteDiffer | api/src/routes/todo.routes.js:194-224 | on a soft-deleted task, update and soft delete both give 400, with different messages |
| UserModel.UserStore.constructor | api/src/controllers/auth.controller.js:3 | a new user store is empty and valid |
| UserModel.FindByEmail | api/src/controllers/auth.controller.js:22 | finds the user with exactly this email, or reports that no user has it |
| UserModel.FindById | api/src/controllers/user.controller.js:6 | finds a user exactly when the id is present and stored |
| UserModel.ToDocument | api/src/controllers/admin.controller.js:113 | the stored user document has every stored field, including the password hash |
| UserModel.Select | api/src/controllers/admin.controller.js:21 | keeps exactly the selected fields the document has, plus `_id`, with their values |
| UserModel.PublicView | api/src/controllers/admin.controller.js:21 | exactly `_id`, name, email, role, isActive and createdAt, never the password hash |
| UserModel.PublicSelectionIsPublicView | api/src/controllers/admin.controller.js:21 | selecting the six public fields of the stored document gives the public view |
| AuthValidator.MinLengthIssues | api/src/validators/auth.validator.js:3-15 | no issue exactly when the field is a string of at least the minimum length |
| AuthValidator.EmailIssues | api/src/validators/auth.validator.js:5-13 | no issue exactly when the field is a string passing the email check; otherwise the schema's message |
| AuthValidator.RoleIssues | api/src/validators/auth.validator.js:6-8 | no issue exactly when the role is admin, manager or user; otherwise the schema's message |
| AuthValidator.RegisterIssues | api/src/validators/auth.validator.js:3-10 | no issue exactly when the body is valid for sign-up, and never more than four |
| AuthValidator.ParseRegister | api/src/validators/auth.validator.js:3-10 | succeeds exactly for a valid body: a name of length at least 1, a checked email, a known role, and a password of at least 6 |
| AuthValidator.RegisterDropsIsActive | api/src/validators/auth.validator.js:3-10 | an `isActive` key in the body does not change the result |
| AuthValidator.ParseLogin | api/src/validators/auth.validator.js:12-15 | succeeds exactly for a checked email and a non-empty password |
| AuthController.SignToken | api/src/controllers/auth.controller.js:9-15 | the payload is subject id, role name and email; the expiry is the configured one, or "1h" |
| AuthController.EmailTaken | api/src/controllers/auth.controller.js:22-23 | under unique emails, an email is taken exactly when the lookup by email finds a user |
| AuthController.NewUser | api/src/controllers/auth.controller.js:29-35 | the stored email is lower-cased, the role is the validated one, the password is kept only as its hash |
| AuthController.RegisteredView | api/src/controllers/auth.controller.js:41 | the reply's user has id, name, email, role and isActive, and no password hash |
| AuthController.Register | api/src/controllers/auth.controller.js:17-78 | validation failure gives the 400 field list; a taken lower-cased email gives 409 with no record created; otherwise 201 with one new record; unique lower-case emails are kept |
| AuthController.Login | api/src/controllers/auth.controller.js:80-107 | 401 "invalid credentials" exactly for an unknown, inactive or wrongly-passworded user; a correct password shorter than 8 gives 400; otherwise 200 with exactly the found user's id, name, email and role and a token signed for them |
| AuthController.ChangePassword | api/src/controllers/auth.controller.js:111-157 | missing field 400, short new password 400, missing or inactive user 404, wrong old password 401, unchanged password 400, in that order; success replaces only the hash; unique lower-case emails are kept |
| AuthController.RegisteredUserIsFound | api/src/controllers/auth.controller.js:22-35 | after sign-up the new user is found under their email written in any case |
| AuthController.ShortPasswordNeverLogsIn | api/src/controllers/auth.controller.js:89-93 | a user registered with a password of 6 or 7 characters can never log in with the right password |
| AuthController.LoginTokenAuthenticates | api/src/controllers/auth.controller.js:96-102 | the token a successful login returns passes requireAuth as the user who logged in, with their role |
| AuthController.ChangedPasswordReplacesOld | api/src/controllers/auth.controller.js:145-153 | after a password change, login with the old password gives 401 and login with the new one succeeds |
| AuthController.SignUp | api/src/controllers/auth.controller.js:17-47 | the in-place sign-up sends the reply and leaves the store `Register` describes, keeping emails unique and lower-case |
| AuthController.ChangePasswordInPlace | api/src/controllers/auth.controller.js:111-157 | the in-place change sends the reply and leaves the store `ChangePassword` describes, keeping emails unique and lower-case |
| AdminController.PageNumber | api/src/controllers/admin.controller.js:6 | at least 1; the requested page when that is at least 1, and 1 otherwise |
| AdminController.PageSize | api/src/controllers/admin.controller.js:7 | between 1 and 50; 10 by default; a value below 1 gives 1 and above 50 gives 50 |
| AdminController.PageCount | api/src/controllers/admin.controller.js:32 | no more pages than matching users, and none exactly when there are none |
| AdminController.PageCountIsCeiling | api/src/controllers/admin.controller.js:32 | the page count is the ceiling of total over limit: its pages hold every matching user, the last one is not empty, and it is 0 exactly when there are none |
| AdminController.Matches | api/src/controllers/admin.controller.js:10-15 | the empty query matches every user, and a non-empty match needs a name or email at least as long as the query |
| AdminController.QueryCaseIgnored | api/src/controllers/admin.controller.js:12-13 | the match ignores the case of the query |
| AdminController.FilterUsers | api/src/controllers/admin.controller.js:10-15 | keeps exactly the users whose name or email contains the query, ignoring case, and adds nothing |
| AdminController.InsertByAge | api/src/controllers/admin.controller.js:23 | inserting into a newest-first sequence keeps it newest first and one longer |
| AdminController.InsertByAgePermutes | api/src/controllers/admin.controller.js:23 | the insertion adds just that user and loses none |
| AdminController.SortNewestFirst | api/src/controllers/admin.controller.js:23 | newest first, and a permutation of its input |
| AdminController.Window | api/src/controllers/admin.controller.js:24-25 | at most `limit` items, taken in order from position `skip`; empty past the end |
| AdminController.SkipCountsEarlierPages | api/src/controllers/admin.controller.js:18 | page 1 skips no one, and a later page skips at least one user per earlier page |
| AdminController.SkipShift | api/src/controllers/admin.controller.js:18 | each further page skips `limit` more users |
| AdminController.SkipMonotonic | api/src/controllers/admin.controller.js:18 | a later page never skips fewer users |
| AdminController.PublicViews | api/src/controllers/admin.controller.js:22 | the public view of every user, in the same order |
| AdminController.EmptyQueryKeepsEveryone | api/src/controllers/admin.controller.js:11 | the empty query filters nothing out |
| AdminController.BlankQueryListsEveryone | api/src/controllers/admin.controller.js:8-11 | a missing or blank query lists the whole store: as many users as are stored, each stored user exactly once |
| AdminController.EnumerationSize | api/src/controllers/admin.controller.js:20-26 | the collection as `find` walks it has one entry per stored user |
| AdminController.EnumerationCounts | api/src/controllers/admin.controller.js:20-26 | the collection as `find` walks it holds each stored user exactly once |
| AdminController.EnumerationTail | api/src/controllers/admin.controller.js:20-26 | without its first entry, the walk of the collection is a walk of the rest of the store |
| AdminController.PartOfEnumeration | api/src/controllers/admin.controller.js:20-26 | the entries of the walk that belong to a part of the store, none repeated more than in the walk, are a walk of that part |
| AdminController.MatchingSelectionCounts | api/src/controllers/admin.controller.js:10-27 | a selection of the matching entries of the walk has one entry per matching stored user, each once |
| AdminController.ListedCountsStoredMatches | api/src/controllers/admin.controller.js:10-27 | the listing, before paging, holds as many users as the store holds matching ones (what `countDocuments(filter)` counts), each matching stored user once |
| AdminController.Listed | api/src/controllers/admin.controller.js:8-23 | the matching users for the trimmed query, newest first, each drawn from the collection |
| AdminController.ListUsers | api/src/controllers/admin.controller.js:4-39 | over the walk `docs` of the collection: the clamped page and size, the number of listed users as total, the page count for that total, and as items the requested page of the matching users newest first, at most `limit` of them, none with a password hash |
| AdminController.PageItems | api/src/controllers/admin.controller.js:18-25 | the users after the earlier (page-1)*limit, in order and in public view: `limit` of them or all that remain, none past the end, and no password hash |
| AdminController.PageOfIndex | api/src/controllers/admin.controller.js:18 | page i div limit + 1 skips exactly i minus i mod limit users, so position i is offset i mod limit on it |
| AdminController.ItemOnPage | api/src/controllers/admin.controller.js:18-25 | offset k of a page shows the matching user at (page-1)*limit + k whenever there is one |
| AdminController.IndexOnItsPage | api/src/controllers/admin.controller.js:18-25 | the i-th matching user is item i mod limit of page i div limit + 1 |
| AdminController.EveryListedUserHasAPage | api/src/controllers/admin.controller.js:18-32 | the i-th matching user appears at offset i mod limit of page i div limit + 1, so paging loses no one |
| AdminController.RequestedPageItems | api/src/controllers/admin.controller.js:6-25 | a page and size within bounds are taken as requested: the listing's items are that page of the matching users |
| AdminController.PageIsEmptyPastTheLast | api/src/controllers/admin.controller.js:18-32 | a page beyond the page count is empty, and a page within it is not |
| AdminController.PageHasItems | api/src/controllers/admin.controller.js:18-32 | over any matching users, a page has items exactly when its number is at most the page count |
| AdminController.PageBeforeCount | api/src/controllers/admin.controller.js:18-32 | a page's first position is before the total exactly when the page is at most the page count |
| AdminController.CollectUpdate | api/src/controllers/admin.controller.js:44-60 | only a role can fail: from a non-staff actor 403, an unknown role 400; otherwise the patch takes the name as sent, the parsed role, and isActive coerced with `!!` |
| AdminController.ApplyUserPatch | api/src/controllers/admin.controller.js:62-66 | exactly the collected fields change; email, hash and creation time stay |
| AdminController.UpdateSelectionIsPublic | api/src/controllers/admin.controller.js:66 | the update's selection, which names `id` and not `_id`, still gives the public view |
| AdminController.UpdateUser | api/src/controllers/admin.controller.js:41-74 | the role checks win over 404 and leave the store unchanged; an unknown id gives 404; otherwise only the collected fields change and 200 "updated" carries the public view; unique lower-case emails are kept |
| AdminController.SetActive | api/src/controllers/admin.controller.js:76-108 | 404 for an unknown id; otherwise only isActive changes, to the requested value, and the reply is "deactivated" in both directions |
| AdminController.DeleteUser | api/src/controllers/admin.controller.js:110-123 | 404 with no change for an unknown id; otherwise the record is removed whatever follows, then 403 for self-delete, 400 for a non-staff actor, else 200 "deleted" |
| AdminController.SelfDeleteStillRemoves | api/src/controllers/admin.controller.js:113-117 | deleting yourself answers 403 and yet removes your record |
| AdminController.UpdateUserInPlace | api/src/controllers/admin.controller.js:41-74 | building the update field by field and writing it sends the reply and leaves the store `UpdateUser` describes |
| AdminController.SetActiveInPlace | api/src/controllers/admin.controller.js:76-108 | the in-place flag change sends the reply and leaves the store `SetActive` describes |
| AdminController.DeleteUserInPlace | api/src/controllers/admin.controller.js:110-123 | the in-place delete sends the reply and leaves the store `DeleteUser` describes |
| UserController.Me | api/src/controllers/user.controller.js:3-13 | 200 exactly when the caller's id is present and stored, with the public view of that record; 404 "User not found" otherwise; inactive users are returned too |
| UserController.MeHidesPassword | api/src/controllers/user.controller.js:6 | the profile reply has no password hash and reports the stored activity flag |
| AdminRoutes.TokenClaims | api/src/middlewares/auth.middleware.js:6-13 | claims exist exactly when the header yields a token the verifier accepts |
| AdminRoutes.AdminGate | api/src/routes/admin.routes.js:41-139 | 401 without valid claims or without a role, 403 for a role other than admin or manager, and otherwise the request with the token's user |
| AdminRoutes.ServeListUsers | api/src/routes/admin.routes.js:41 | refused with 401 or 403 and no data; otherwise the listing over a walk of the store, whose total is the number of stored users matching the query |
| AdminRoutes.ServeUpdateUser | api/src/routes/admin.routes.js:77 | refused with 401 or 403 and the store unchanged, or the update by the token's user |
| AdminRoutes.ServeSetActive | api/src/routes/admin.routes.js:97-117 | refused with 401 or 403 and the store unchanged, or the flag change |
| AdminRoutes.ServeDeleteUser | api/src/routes/admin.routes.js:139 | refused with 401 or 403 and the store unchanged, or the delete by the token's user |
| AdminRoutes.PlainUserIsForbidden | api/src/routes/admin.routes.js:41-139 | a valid token with role "user" gets 403 on all five routes and changes nothing |
| AdminRoutes.MissingTokenPrecedesRole | api/src/routes/admin.routes.js:41-139 | without a valid token the listing, update, activate/deactivate and delete routes all answer 401, whatever else the request holds |
| AdminRoutes.HandlerRoleChecksAreUnreachable | api/src/routes/admin.routes.js:77-139 | through the routes, updateUser's 403 and deleteUser's "Invalid role" 400 are never sent |

## Left out

- Mongoose ObjectId casting is not modelled. A malformed id is just an id that is not stored, where Mongoose would throw a CastError (a 500).
- `populate` of the owner and creator in the task listing is not modelled. Tasks list with their owner ids.
- The order of the task listing is not modelled. The listed tasks are a map from id to JSON.
- Mongoose's automatic `updated_at` timestamping is not modelled. `updated_at` changes only when a body supplies it.
- Zod's date coercion and email check are parameters. The library-worded Zod messages ("expected string" and the like) are placeholder constants.
- Body values are taken as JSON scalars. Name, email and password in the admin and password bodies are taken to be strings.
- The `$regex` in `listUsers` is taken as a literal case-insensitive substring match on name or email, with ASCII case folding only.
- Text.ToLower: folds ASCII letters only, and it also stands for `email.toLowerCase()` in sign-up and login. That is exact for the ASCII addresses Zod's email format accepts, but the email check is a parameter here, so a non-ASCII address would be folded less than JavaScript folds it.
- Text lengths count Dafny characters, not UTF-16 code units.
- `parseInt` is not modelled: the page and limit arrive as integers or absent, so a non-numeric value (NaN in the source) is not covered.
- Promise.all, concurrency and interleaving of requests are not modelled. Each request runs alone against one state.
- The user schema (api/src/models/User.js) is not part of this model. Its `isActive` default is taken to be true. Its validators (which `runValidators` would apply on update) and any JSON transform are unknown.
- AdminController.DeleteUser: the successful reply carries the whole stored document, password hash included, because the user schema's JSON transform is unknown.
- bcrypt is modelled without salt, cost factor or its 72-byte truncation: `compare` is equality of passwords.
- jwt signing and verification are parameters. Expiry, signature algorithm and the secret are not modelled.
- `requireAuth`'s sign-in/sign-up bypass indexes a property of a function. It is always false and is left out. An exception thrown by a later middleware inside `next()` would be caught there and become a 401; that is not modelled.
- The model assumes Express 5 throughout. It forwards the rejected promise of an async middleware to the error handler, and its `req.query` is a getter that parses the URL on every read.
- NotDeleted.RequireNotDelete: on a missing task the source dereferences null. This is modelled as a throw that the error handler turns into 500.
- A request without a JSON body is modelled as the empty body `{}`. Under Express 5 `req.body` is then undefined, so the update schema would refuse it with 400, and the destructuring in `updateUser` and `changePassword` would throw and give 500. Those replies are not modelled.
- TodoRoutes.ServeUpdate: its verifier parameter is unused, because the update route has no authentication.
- The profile router is not part of this model: `me` is taken to run after `requireAuth`.
- The mounting prefixes, Swagger setup, server start-up and database connection in `app.js`, `server.js` and `db.js` are left out.
- The one-line delegation in `todo.controller.js` is left out; the routes call the service.
- The web client is left out. Its self-delete and self-deactivate checks are advisory only.
