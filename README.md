# Task store of the client-feedback inbox server

This project models the task store of the inbox server (`server/server.js`): the
three `/api/tasks` handlers that list tasks, create a task with its uploaded-file
metadata, and set a task's status. Each mutating request re-reads the JSON
collection file, changes it in memory, rewrites the whole file and broadcasts
`tasks_updated` to every socket client.

- `Wrappers` (`wrappers.dfy`): `Option` and `Result`.
- `Records` (`records.dfy`): the task record, its attachment entries, the form of a
  create request, and `NewTask`, the record a create request builds. `field || ""`
  keeps a text field that was sent, empty or not, and turns a missing one into `""`.
  `deadline || null` turns both a missing and an empty deadline into null.
- `StoredNames` (`stored_names.dfy`): the upload storage name
  `Date.now() + "-" + originalname`, with the clock reading as a parameter. The
  lemmas show that the name splits back into the clock reading and the client's
  file name, so two uploads collide only when both agree.
- `Store` (`store.dfy`): the collection file is the field `tasks` of class
  `TaskStore`. It is `None` while the document has no `tasks` array. The class also
  keeps an `effects` log of file writes and broadcasts, in order. `Listing`,
  `Created`, `FindIndex` and `Patch` are the pure specifications. The methods
  `List`, `Create` and `UpdateStatus` are the handlers, proved against those
  specifications. The invariant `Valid` says the log is a sequence of
  write-then-broadcast pairs.
- `Histories` (`histories.dfy`): lemmas about sequences of requests. N creates
  list N new tasks newest first. A status update is idempotent, and the last one
  wins. With duplicate ids, the newest task is updated. An unknown id stays
  not-found after any number of creates.

Ids are the caller-supplied clock reading. Nothing in the model assumes that ids
are unique, because the server does not guarantee it.

Where the code and the design description differ, the model follows the code:
- A status update on a document with no `tasks` array throws in `db.tasks.find`
  (line 81), which gives a 500 answer. It is not a "Not found" answer. The model
  returns `Failure(MissingCollection)`, writes nothing and broadcasts nothing.
- Any string is accepted as the new status. There is no fixed status set and no
  transition check (line 85).
- An empty deadline is stored as null, like a missing one (line 63).

## Model

| member | source | states |
|---|---|---|
| Records.TextOrEmpty | server/server.js:59-61 | a text field that was sent is kept verbatim (including ""); a missing one becomes "" |
| Records.DeadlineOrNull | server/server.js:63 | the deadline is kept exactly when it was sent and is not empty; otherwise it is null |
| Records.Attachments | server/server.js:65-69 | one attachment per upload, same length and order, each taking filename, original name and media type from its upload |
| Records.NewTask | server/server.js:57-70 | the new record has the clock reading as id, the given creation time, status "new", sent text fields verbatim and missing ones "", a deadline iff a non-empty one was sent, and one file entry per upload in order (none when the middleware reports no files) |
| StoredNames.ParseDecimalInverts | server/server.js:39 | the decimal digits written for the clock reading read back as that reading |
| StoredNames.StoredNameSplits | server/server.js:39 | a stored name splits at its first dash into the clock reading and the client's file name, even when that name contains dashes |
| StoredNames.StoredNameInjective | server/server.js:39 | two stored names are equal only if both the clock readings and the client's file names are equal |
| Store.Listing | server/server.js:50 | the listing is the stored collection unchanged, or empty when there is none |
| Store.Created | server/server.js:55-72 | after a create the collection is one longer, the new task is at index 0 and the earlier tasks follow in their original order (an absent collection counts as empty) |
| Store.FindIndex | server/server.js:81 | the result is the first position whose task has the id; none exactly when no task has it |
| Store.Patch | server/server.js:81-85 | no collection gives MissingCollection; an id no task has gives NotFound; otherwise the first task with the id gets exactly the given status, its other fields and all other tasks are unchanged, and length and order are kept |
| Store.PatchStatusCode | server/server.js:83-89 | answer 200 exactly on success, 404 exactly on NotFound, 500 exactly when the collection is missing |
| Store.PairedExtend | server/server.js:73-75 | appending one write followed by one broadcast keeps the effects log a sequence of write-then-broadcast pairs |
| Store.BroadcastFollowsWrite | server/server.js:86-88 | in a paired log every broadcast comes immediately after a file write |
| Store.TaskStore.constructor | server/server.js:28-30 | a fresh store holds the given document and an empty effects log |
| Store.TaskStore.List | server/server.js:48-51 | listing returns the stored collection, or empty when absent, and changes no state (no write, no broadcast) |
| Store.TaskStore.Create | server/server.js:53-77 | returns the record NewTask builds, stores the collection with it prepended, and logs exactly one write followed by one tasks_updated broadcast |
| Store.TaskStore.UpdateStatus | server/server.js:79-90 | on failure returns the error with collection and log unchanged; on success stores the patched collection, returns the changed task, and logs exactly one write followed by one broadcast |
| Histories.CreatesListNewestFirst | server/server.js:72 | after creating tasks one by one, the listing is those tasks in reverse creation order in front of the earlier listing |
| Histories.CreatesCountAndNewest | server/server.js:72 | after N creates the listing has N more tasks and the task created last is at index 0 |
| Histories.FindIndexByIds | server/server.js:81 | the lookup depends only on the ids, position by position |
| Histories.PatchKeepsLookup | server/server.js:81-85 | a status update changes no id, so every id is found at the same position afterwards |
| Histories.PatchIdempotent | server/server.js:85 | repeating a successful status update gives the same collection and answer |
| Histories.PatchLastWins | server/server.js:85 | of two updates of one id the second decides, whatever the first set; no transition is refused |
| Histories.PatchHitsNewestDuplicate | server/server.js:81-85 | when a new task shares its id with older ones, an update of that id changes the new task at index 0 and leaves the older ones alone |
| Histories.PatchUnknownAfterCreates | server/server.js:81-83 | an id that neither the earlier tasks nor any created task has gives NotFound after any number of creates |

## Left out

- HTTP wiring, CORS, JSON body parsing, static serving of uploads and the listening socket (lines 13-18, 26, 96-98): framework plumbing with no effect on the store.
- File-system persistence and bootstrap (lines 20-24, 28-34): the file is the field `tasks`; a failing read or write, or an unreadable empty file, is not represented.
- Multipart parsing and the 10 MiB upload limit (lines 36-46): done by the upload middleware; its file metadata is an input.
- Socket connections and their logging (lines 15, 92-94): a broadcast is an entry in the effects log, not a delivery to clients.
- Clocks (lines 39, 58, 64): the millisecond reading and the ISO creation time are parameters, so the model makes no claim that ids or stored names are unique.
- Interleaving of concurrent requests, and the lost updates it can cause: every request runs to completion in the model.
- Store.FindIndex: ids are integers compared exactly. JavaScript's loose `==` between the numeric id and the route's string parameter (line 81) is not modelled.
- Store.TaskStore.UpdateStatus: the new status is always a string; a request body without `status` would store `undefined`, which JSON then drops from the record, and that is not modelled.
- Records.NewTask: form fields are single strings; a field sent more than once (which the middleware turns into an array) is not modelled.
