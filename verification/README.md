# Task API core: controller transitions and the authentication gate

This project models the core of a small Express/Mongoose to-do API. Clients
list, create, update, delete and bulk-clear task records. A JWT-checking
middleware stands in front of every route that changes the store.

- `js.dfy` (module `Js`): the JavaScript semantics the code relies on. It
  covers missing values (`undefined`/`null` as `None`), string truthiness,
  `??`, and `String.prototype.split` with a one-character separator. `Split`
  is characterised by its inverse `Join`.
- `task_model.dfy` (module `TaskModel`): the `Task` document (`id`, `name`,
  `isCompleted`) and the store as a sequence in natural order. It also holds
  the in-memory meaning of `findById` (`FindIndex`) and of
  `find({ isCompleted })` (`Select`).
- `task_controller.dfy` (module `TaskController`): `getList`, `getPartList`,
  `create`, `update`, `del` and `clear`. Each handler is a pure function from
  the store, the route parameter and the body to a `Step`: an `Outcome` plus
  the store afterwards. An `Outcome` is either a JSON `Reply` with a status, or
  an error `Forwarded` to `next`, together with any status already set on the
  response.
- `auth_middleware.dfy` (module `AuthMiddleware`): `authMiddleware`. It
  chooses the token source (cookie `token` first, otherwise the second
  space-separated piece of `Authorization`) and ends in 401 "denied", 401
  "not valid", or a single continuation carrying the decoded claims.
  `jwt.verify` is a function parameter, `(token, secret) -> Option<Claims>`.
- `task_routes.dfy` (module `TaskRoutes`): the route table under
  `/api/v1/task`, resolved in registration order, composed with the gate.
- `scenarios.dfy` (module `Scenarios`): multi-request behaviour seen through
  the list route.

Behaviour kept exactly as the code has it, where the code's own text shows a different intent:

- **Invalid filter.** For a filter other than `all`/`active`/`completed`,
  `getPartList` and `clear` build `new Error("Invalid ID provided")` and call
  `error.status(400)` on it (src/controllers/taskController.ts:35-36 and
  :154-155). The evident intent is a 400 carrying that error. But `status` is
  not a method of a plain `Error`, so the call throws a `TypeError`. The catch
  block forwards that `TypeError` to `next`. No 400 is set, the "Invalid ID
  provided" error is never forwarded, and the store is unchanged. The model
  follows the code (`TaskController.StatusNotAFunction`).
- **"Denied" case.** The gate logs "Authorization denied. No token provided."
  (src/middlewares/authMiddleware.ts:14), but it reaches that branch only when
  there is neither a cookie object nor an `Authorization` header. If a cookie
  object exists without a `token` and there is no header, the token is
  `undefined`. `jwt.verify` then rejects it, and the answer is "Token is not
  valid." rather than "denied". The model follows the code
  (`CookiesWithoutTokenIsNotValid`).
- **Name checks.** The schema's `require: true` is misspelt, so the controller's `!name`
  test is the only name check. It runs in `create` only. `update` uses `??`,
  so an explicit `""` overwrites the name (`UpdateOverwritesWithFalsyValues`).
- **`GET /new`.** `GET /:id` is registered right after `GET /`, so `GET /new` is a
  filter request that forwards the `TypeError` (`GetNewIsAFilter`).

The new document's id is a parameter (`newId`) standing for the id
generator. If it collides with a stored id, `save` fails with a duplicate-key
error. The model forwards that error and leaves the store unchanged, so it
needs no precondition. Distinct ids are not assumed by any handler. Each
handler's contract proves they are preserved.

## Model

| member | source | states |
|---|---|---|
| `Js.Split` | src/middlewares/authMiddleware.ts:23 | `split(" ")` always yields at least one piece, no piece contains the separator, and joining the pieces with it gives back the header |
| `Js.SplitWithoutSeparator` | src/middlewares/authMiddleware.ts:23 | a header without a space splits into itself alone, so there is no second piece |
| `Js.SplitTwoWords` | src/middlewares/authMiddleware.ts:23 | two space-free words joined by one space split back into exactly those two words |
| `Js.SplitFirstWord` | src/middlewares/authMiddleware.ts:23 | a space-free word before the first space is the first piece, and what follows splits on its own |
| `Js.SplitSecondPiece` | src/middlewares/authMiddleware.ts:23 | with two or more pieces, the second piece is exactly the text between the first space and the next space (or the end) |
| `TaskModel.FindIndex` | src/controllers/taskController.ts:83 | `findById` finds nothing exactly when no document has the id; otherwise it finds the first document carrying it |
| `TaskModel.Select` | src/controllers/taskController.ts:31-33 | `find({ isCompleted: c })` returns exactly the documents whose flag is `c`, and never more than the store holds |
| `TaskModel.SelectPartitions` | src/controllers/taskController.ts:31-33 | the active and completed selections together are the store as a multiset, and their sizes add up to the store's |
| `TaskModel.SelectKeepsDistinctIds` | src/controllers/taskController.ts:141-148 | selecting by status from a store with distinct ids gives a store with distinct ids |
| `TaskController.GetList` | src/controllers/taskController.ts:11-12 | lists every task with 200 and leaves the store unchanged |
| `TaskController.GetPartList` | src/controllers/taskController.ts:24-44 | `all` lists the whole store; `active` lists exactly the uncompleted tasks; `completed` lists exactly the completed ones, each with 200; any other parameter forwards the `TypeError` with no status; the store never changes |
| `TaskController.Create` | src/controllers/taskController.ts:52-65 | a falsy name forwards "Name is required." with 400 and the store unchanged; it succeeds exactly when the name is truthy and the id is free; on success it returns 201 and the task (given name, new id, `isCompleted` true only when the body says true), appended after the unchanged old tasks; on failure the store is unchanged; distinct ids stay distinct |
| `TaskController.Update` | src/controllers/taskController.ts:83-95 | an unknown id forwards "Task not found" with 404 and the store unchanged; a known id returns 200 with the updated task; only that task changes; each field is the body's value when supplied and the old value otherwise; ids and distinctness are preserved |
| `TaskController.RemoveAtKeepsOthers` | src/controllers/taskController.ts:110 | removing one document from a store with distinct ids keeps exactly the documents with another id, and their ids stay distinct |
| `TaskController.Del` | src/controllers/taskController.ts:110-118 | an unknown id forwards "Task not found" with 404 and the store unchanged; a known id returns 200 with "Task deleted successfully", and the store shrinks by one; the remaining tasks are exactly those with another id |
| `TaskController.Clear` | src/controllers/taskController.ts:133-156 | `all` empties the store; `active` leaves exactly the completed tasks; `completed` leaves exactly the active ones; each returns 200 with its own message; any other parameter forwards the `TypeError` and leaves the store unchanged |
| `TaskController.GetListIsFilterAll` | src/controllers/taskController.ts:11-12 | `getList` answers exactly as `getPartList("all")` |
| `TaskController.PartListsPartition` | src/controllers/taskController.ts:27-33 | the active and completed listings are disjoint and together are the full store |
| `TaskController.ClearRemovesWhatIsListed` | src/controllers/taskController.ts:133-152 | for each of the three filters, the tasks `getPartList` lists plus the tasks `clear` leaves are the store before the clear |
| `TaskController.UpdateCompletionKeepsName` | src/controllers/taskController.ts:90-91 | the body `{ isCompleted: true }` completes the task and keeps its name |
| `TaskController.UpdateOverwritesWithFalsyValues` | src/controllers/taskController.ts:90-91 | an explicit `""` name and `false` flag are not nullish, so they overwrite the stored values |
| `AuthMiddleware.HeaderToken` | src/middlewares/authMiddleware.ts:23 | `split(" ")[1]` exists exactly when the header contains a space; it is then the text between the first space and the next space (or the end), so it contains no space |
| `AuthMiddleware.ExtractToken` | src/middlewares/authMiddleware.ts:18-24 | a non-empty `token` cookie is the token whatever the header says; without one, a non-empty header gives its second space-separated piece; with neither, the token is `undefined` |
| `AuthMiddleware.Authenticate` | src/middlewares/authMiddleware.ts:10-33 | with no cookie object and no header it answers 401 "Authorization denied."; otherwise it continues exactly when the extracted token is non-empty and verifies, carrying the claims `verify` decoded, and answers 401 "Token is not valid." in every other case |
| `AuthMiddleware.DeniedWithoutVerifying` | src/middlewares/authMiddleware.ts:13-16 | the "denied" answer is the same for any `verify`, so `verify` is never consulted |
| `AuthMiddleware.CookieTakesPrecedence` | src/middlewares/authMiddleware.ts:20-21 | a non-empty `token` cookie is the token used, and the `Authorization` header cannot change the gate's answer |
| `AuthMiddleware.HeaderSecondWordIsToken` | src/middlewares/authMiddleware.ts:22-23 | without a token cookie, `<scheme> <token>` yields `<token>` whatever the scheme word is |
| `AuthMiddleware.HeaderWithoutSpaceIsNotValid` | src/middlewares/authMiddleware.ts:22-32 | a header without a space yields no token, and the request is refused as not valid whatever `verify` says |
| `AuthMiddleware.HeaderDoubleSpaceIsNotValid` | src/middlewares/authMiddleware.ts:22-32 | two spaces after the scheme word give an empty second piece, so the request is refused as not valid |
| `AuthMiddleware.HeaderExtraWordsIgnored` | src/middlewares/authMiddleware.ts:22-23 | `<scheme> <token> <more>` still yields `<token>`; later words are ignored |
| `AuthMiddleware.CookiesWithoutTokenIsNotValid` | src/middlewares/authMiddleware.ts:18-32 | a cookie object without a usable token and no header is refused as not valid, not as denied |
| `TaskRoutes.Resolve` | src/routes/taskRoutes.ts:37-173 | a request resolves only to a route whose method and path pattern it matches, and to no route only when no registered route matches it |
| `TaskRoutes.ResolveRoundTrip` | src/routes/taskRoutes.ts:37-173 | every registered route is reached by its own method and pattern; no earlier registration shadows it |
| `TaskRoutes.Handle` | src/routes/taskRoutes.ts:37-173 | a request matches a route exactly when the table resolves it; a public route, or a gated route whose gate continues, answers exactly as its controller handler; a gated route whose gate responds ends in that 401 with the store unchanged; the store changes only on a gated route whose token verified |
| `TaskRoutes.RejectedMutationLeavesStore` | src/routes/taskRoutes.ts:91-173 | a create, update, delete or clear request that the gate rejects gets a 401 and leaves the store untouched |
| `TaskRoutes.NoCredentialsIsDenied` | src/routes/taskRoutes.ts:91-173 | a mutating request without cookies or header gets 401 "Authorization denied." and the store is unchanged |
| `TaskRoutes.ReadsBypassGate` | src/routes/taskRoutes.ts:37-64 | `GET /` answers as `getList` and `GET /x` as `getPartList(x)`, whatever the credentials and `verify`, and neither changes the store |
| `TaskRoutes.GetNewIsAFilter` | src/routes/taskRoutes.ts:64 | `GET /new` reaches `getPartList("new")` and forwards the `TypeError` without creating anything |
| `Scenarios.CreatedTaskIsListed` | src/controllers/taskController.ts:61-65 | after a successful create, the next list shows the new task (not completed unless the body said true) and every old task |
| `Scenarios.DeletedTaskIsNotListed` | src/controllers/taskController.ts:110-118 | after deleting an existing id, no listed task carries it and every other task is still listed |
| `Scenarios.ClearAllThenListIsEmpty` | src/controllers/taskController.ts:133-137 | `clear("all")` followed by a list gives 200 with no tasks |
| `Scenarios.BuyMilkExample` | src/controllers/taskController.ts:55-118 | creating "Buy milk" answers 201 with an uncompleted task; `{ isCompleted: true }` answers 200 with the name kept; deleting an unknown id answers 404 |

## Left out

- Mongoose id casting: an `:id` that is not a valid ObjectId makes
  `findById`/`findByIdAndDelete` throw a `CastError`, which is forwarded. The
  model treats ids as plain strings, so such an id gets a 404 instead.
- TaskController.Create: treats an explicit `null` `isCompleted` like an
  absent one (default `false`). Mongoose stores the `null` rather than the
  default. Body fields are modelled as an optional string and an optional
  boolean, so values of other JSON types and Mongoose's coercion of them are
  not modelled.
- Document-store failures other than a duplicate id on `save` (lost
  connection, timeouts) are not modelled. In the code they reach the same
  catch-and-forward path.
- Where a forwarded error ends up: the error-handling middleware that picks the
  final status is not part of this model. Only the status already set on the
  response is recorded.
- Signature and expiry checking inside `jsonwebtoken`: cryptography, so it is
  kept as the `verify` parameter. An unset `JWT_SECRET` is not modelled; the
  secret is a string parameter.
- Cookie values that `cookie-parser` decodes into JSON objects (the `j:` prefix):
  cookies are modelled as a string map.
- Express path matching details: percent-decoding, trailing slashes,
  case-insensitivity, `HEAD` served by `GET` routes, and empty segments. The
  path arrives already split into segments.
- Logging (`logger.*`, `console.log`), JSON serialisation, `async`/`await`, and
  concurrent requests on the shared store.
- The Passport local strategy and user serialisation (`src/config/passport.ts`).
  They are foreign library calls and I/O on a User model that is not part of
  this model.
- API documentation generation (`src/config/swagger.ts` and the `@swagger`
  comments) and the test-runner configuration.
