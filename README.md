# Task tracker CLI: the in-memory task store and the database adapter

This project models the two core files of a personal task-tracking command-line tool:

- `task-manager.mjs`, an in-memory store. It holds a module-level list of task records and an id counter. It has a validator for descriptions (present and not blank after `trim()`) and one for ids (`^[0-9]+$`). Three operations change the list in place: `addTask` appends a task with the next id, the trimmed description and status `todo`; `updateTask` replaces the description of the first task with the given id and resets its status to `todo`; `deleteTask` splices that task out. Every rejected input or unknown id is logged and leaves the state as it was.
- `db.mjs`, the PostgreSQL adapter. It builds one parameterised statement per operation. For `updateById` it builds the SET list `key = $k` and the parameter list `[id, ...values]` in step, and it refuses an empty field map. Every failure raised as an error object becomes one fixed message per operation.

Files:

- `wrappers.dfy`: the `Option` and `Result` datatypes.
- `text.dfy`: `trim()` over a fixed whitespace set, digit strings, `parseInt` of a digit string, the decimal rendering of a number, and `join`.
- `task_manager.dfy`: the `Task` record and the `TaskStore` class. Its fields are `tasks: seq<Task>` and `nextId: nat`, and its methods `AddTask`, `UpdateTask` and `DeleteTask` state the whole new state. Its invariant `Valid()` says the counter is positive and above every stored id. Each method also keeps unique ids unique.
- `db.dfy`: the adapter. The pg client is a function parameter `db: Query -> QueryResult` that returns rows or fails. Each operation returns the queries it issued and either the rows or its error message.

Console output becomes values. On the store side, each `console.log`/`console.error` is an `Outcome` (`Created`, `Updated`, `Deleted`, `NotFound`, `InvalidDescription`, `InvalidId`). On the adapter side, each `throw new Error(...)` is `Err(message)`. Every reading of the clock (`new Date().toISOString()`) is a `Timestamp` parameter. A JavaScript `undefined` argument (a missing command-line word) is `None`.

## Model

| member | source | states |
|---|---|---|
| Text.Trim | task-manager.mjs:15 | `s.trim()`: the trailing trim of the leading trim; what it keeps and drops follows from the rows of `TrimStart` and `TrimEnd` and is stated by `TrimEmptyIff`, `TrimEnds` and `TrimIdempotent` |
| Text.TrimStart | task-manager.mjs:15 | the leading part of `trim()`: the result is a suffix of the input, everything dropped is whitespace, and the result does not start with whitespace |
| Text.TrimEnd | task-manager.mjs:15 | the trailing part of `trim()`: the result is a prefix of the input, everything dropped is whitespace, and the result does not end with whitespace |
| Text.TrimEmptyIff | task-manager.mjs:15 | `s.trim() === ''` exactly when every character of `s` is whitespace |
| Text.TrimEnds | task-manager.mjs:41 | the trimmed description has no whitespace at either end |
| Text.TrimIdempotent | task-manager.mjs:15 | a property of `trim()` as called at lines 15, 41 and 63: trimming a trimmed string changes nothing |
| Text.ParseDigits | task-manager.mjs:54 | `parseInt` of a digit string, most significant digit first; `ParseNatToString`, `NatToStringParse` and `ParseLeadingZero` state what it reads |
| Text.Join | db.mjs:82 | `fields.join(', ')`: the parts in order with the separator between neighbours and none at either end |
| Text.NatToString | db.mjs:74 | the rendering of a placeholder number is a non-empty digit string with no leading zero |
| Text.ParseNatToString | task-manager.mjs:54 | `parseInt` of the decimal rendering of n is n |
| Text.NatToStringParse | task-manager.mjs:54 | a digit string without a superfluous leading zero is the rendering of the number `parseInt` reads from it |
| Text.ParseLeadingZero | task-manager.mjs:54 | a leading `0` does not change the number `parseInt` reads |
| TaskManager.ValidDescription | task-manager.mjs:14-20 | `validateDescription`: the description is present and does not trim to the empty string; `ValidDescriptionIff` states which strings that accepts |
| TaskManager.ValidId | task-manager.mjs:23-30 | `validateId`: the id is present and matches `^[0-9]+$`; `undefined` fails, as its text `"undefined"` does not match |
| TaskManager.ParseId | task-manager.mjs:54 | `parseInt(id)` on an id that passed `validateId` (also line 71); `IdTextRoundTrip` and `LeadingZeroSameId` state what it reads |
| TaskManager.ValidDescriptionIff | task-manager.mjs:14-20 | `validateDescription` accepts exactly the present descriptions that hold at least one non-whitespace character |
| TaskManager.IdTextRoundTrip | task-manager.mjs:23-30 | `validateId` accepts the decimal text of every id, and `parseInt` of that text is the id again |
| TaskManager.LeadingZeroSameId | task-manager.mjs:54-56 | an id with an extra leading zero is still valid and looks up the same task |
| TaskManager.FindIndex | task-manager.mjs:72 | the lookup returns the first position whose task has the id, or reports that no task has it |
| TaskManager.InitialNextId | task-manager.mjs:11 | the counter starts at 1 for an empty list, otherwise at one more than the largest id: above every id and equal to one of them plus one |
| TaskManager.SeedIsWellFormed | task-manager.mjs:1-11 | the literal start list has unique ids and the counter starts at 2 |
| TaskManager.TaskStore.constructor | task-manager.mjs:1-11 | the store starts with the seed list and the counter from `InitialNextId`, and the counter invariant holds |
| TaskManager.TaskStore.GetTasks | task-manager.mjs:32-34 | returns the current list and changes nothing |
| TaskManager.TaskStore.AddTask | task-manager.mjs:36-49 | an invalid description changes neither the list nor the counter. A valid one appends exactly one task with the old counter as id, the trimmed description, status todo and the two clock readings, and the counter goes up by exactly 1. The counter invariant and id uniqueness are kept |
| TaskManager.TaskStore.UpdateTask | task-manager.mjs:51-67 | the id is checked before the description; an invalid input or an unknown id changes nothing. Otherwise only the first task with that id changes: its description becomes the trimmed text, its status becomes todo whatever it was, and `updatedAt` becomes the clock reading. Its id and `createdAt`, the list length and all other tasks stay the same. The counter is untouched |
| TaskManager.TaskStore.DeleteTask | task-manager.mjs:69-81 | an invalid or unknown id changes nothing. Otherwise exactly the first task with that id is removed, the others keep their order, and the counter is not decremented. With unique ids, no task with that id remains |
| TaskManager.DeleteThenAdd | task-manager.mjs:36-81 | a task added after a delete gets an id larger than the deleted one. Since `DeleteTask` leaves the deleted id below the counter and no operation lowers the counter, a deleted id is never reissued in a run |
| Db.Settle | db.mjs:32-39 | the try/catch around one query: exactly that query is issued, its rows come back unchanged when it succeeds, and any failure becomes the given message |
| Db.FindAll | db.mjs:31-40 | one select is issued; its rows are returned unchanged, and any failure becomes `Could not get tasks.` |
| Db.FindById | db.mjs:43-53 | one select is issued with `[id]` as parameters; its rows are returned unchanged, even when there are none, and any failure becomes `Could not get the task.` |
| Db.Create | db.mjs:56-66 | one insert is issued that binds the description and the fixed status `TODO`; any failure becomes `Could not create the task.` |
| Db.Assignment | db.mjs:74 | one SET entry `${key} = $${slot}`: the key, then ` = $`, then a digit string that reads back as the slot number |
| Db.AssignmentsFrom | db.mjs:73-76 | one SET entry per key, in key order; the i-th entry is `key = $(slot + i)` |
| Db.ValuesOf | db.mjs:73-76 | one value per key, in key order |
| Db.UpdateQuery | db.mjs:82-83 | the update statement: SET list the entries from `$2` on joined by `, `, parameters `[id, ...values]`; `SlotsBindValues` states how the two line up |
| Db.UpdateReply | db.mjs:69-89 | an empty field map issues no query and fails; a non-empty one issues exactly the update query; every failure, the empty map included, becomes `Could not update the task.` |
| Db.SlotsBindValues | db.mjs:73-83 | the parameters are `[id]` followed by the values. `$1` binds the id, and the i-th SET entry names the i-th key with a placeholder whose digits read back as i + 2, so no SET placeholder is `$1`. Parameter i + 2 is the i-th value |
| Db.UpdateById | db.mjs:69-89 | the loop that pushes entries and values produces exactly the reply `UpdateReply` describes |
| Db.DeleteById | db.mjs:92-106 | one delete is issued. It succeeds exactly when the query returns at least one row, and those rows are returned unchanged. Zero rows or a query failure become `Could not delete the task.` |
| Db.DiagnosticsAreDropped | db.mjs:31-106 | two clients that differ only in the error object a failed query raises give identical replies to every operation |

## Left out

- Console output (`console.log`, `console.error`) and the exact message texts of the store are replaced by `Outcome` values; the adapter's logged `error.stack` is dropped, and only the raised message is modelled.
- `connectDB` and `closeDB` (db.mjs:9-28), the pg `Client`, `dotenv` and the table and column names read from the environment and spliced into the SQL text. These are I/O and configuration. A statement is identified by its kind, and for an update by its SET list.
- Asynchrony: every adapter function is `async`. The model treats each call as one synchronous request to the client.
- `app.mjs`, the argument dispatch and printing front end. It imports a `markTaskStatus` that `task-manager.mjs` does not define, so no status-marking operation, status filter or `validateStatus` is modelled.
- Aliasing: `getTasks` returns the live module array, and the task objects in it are shared with callers. The model returns the list as a value, so a caller's mutation of the returned list is not captured.
- Text.Trim: uses the fixed ECMAScript WhiteSpace and LineTerminator set. It does not model any Unicode tables beyond it.
- Text.ParseDigits: reads an unbounded natural number. It does not model the loss of precision of `parseInt` on digit strings above 2^53.
- TaskManager.TaskStore.AddTask: ids and the counter are unbounded naturals, while JavaScript numbers are doubles. `newTaskId++` (task-manager.mjs:40) stops growing at 2^53, because 2^53 + 1 rounds back to 2^53, and from then on every add hands out id 2^53 again. The counter invariant `Valid()`, `nextId == old(nextId) + 1`, the preservation of unique ids and the claim that a deleted id is never reissued (`DeleteThenAdd`) describe the source only while the counter is below 2^53. One command-line run performs one command, so the counter never gets near that bound in practice.
- Text.NatToString: renders every number as plain digits. The template string `${n}` switches to exponent form (`1e+21`) at 10^21; an id that large could only come from a seed list other than the literal one.
- Db.Field: the field map of `updateById` is a sequence of key/value pairs given in the order `Object.keys` enumerates them. JavaScript's ordering rule (integer-like keys first) is not modelled.
- TaskManager.TaskStore.AddTask: takes two clock readings, because the source calls the clock twice. It does not promise `createdAt == updatedAt`, which holds only when both readings fall in the same millisecond.
- TaskManager.TaskStore.constructor: takes the seed list as a parameter. The source's seed is the one-task literal `SeedTasks`, and the source does not check that seed ids are unique, so uniqueness is stated as preserved (`UniqueIds(old(tasks)) ==> UniqueIds(tasks)`) rather than as part of `Valid()`.
- The test of the empty-map update (__tests__/db.test.mjs:118) expects `Error: No field is provided to update.`, and the test of a delete that matches no row (__tests__/db.test.mjs:138) expects `Error: Task is not exist.`. The code catches both errors and raises `Could not update the task.` and `Could not delete the task.` instead. The model follows the code.
- The tests call a `markTaskStatus` (__tests__/task-manager.test.mjs:105, 118, 127) that `task-manager.mjs` does not define, and `deleteTask` reports only the id, not the removed task. No status-marking operation, status filter or status validation is modelled; the model follows the code.
- Db.SlotsBindValues: the keys of the field map are spliced into the SQL text unescaped (db.mjs:74), like the environment names. A key such as `status = $1, description` puts a `$1` into the SET text, so the stated alignment is what the database sees only when every key is a plain column name. The model also accepts duplicate keys, which `Object.keys` never produces.
- Db.DiagnosticsAreDropped: every catch block first logs `error.stack` (db.mjs:37, 50, 63, 86, 103). A query that rejects with `undefined` or `null` makes that line throw a `TypeError`, which escapes instead of the fixed message. The model's `Failed(cause)` stands for a rejection with an error object, which is what pg raises, so that case is not modelled.
