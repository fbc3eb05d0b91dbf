# Task manager API: verified model of the task routes

The service keeps a list of tasks in one JSON document (`task.json`, key
`tasks`) and exposes it through an Express router: list all tasks (optionally
filtered by `completed` and sorted by date), list by priority level, get one
task by id, create, replace and delete. Every request loads the whole list,
works on it in memory, and (for mutations) writes the whole list back. A
task has an `id`, a `title`, a `description`, a `completed` flag, a
`priority` (`low`, `medium` or `high`) and a `createdAt` time stamp.

This project models that in-memory logic in Dafny:

- `types.dfy` (module `Types`): the task record, the request body (each key
  optional; `completed` is a general JSON scalar because the handlers check
  its type), the error payloads with their messages and status codes.
- `validation.dfy` (module `Validation`): the `validateTask` middleware that
  runs before POST and PUT.
- `collection.dfy` (module `Collection`): the collection invariant (unique
  positive ids, well-formed tasks), identifier assignment (`max + 1`), the
  first index holding an id, and removal of one index.
- `queries.dfy` (module `Queries`): `filter` over a task predicate, the GET
  handlers, the `findIndex` search as a loop, and the `date` sort as an
  insertion sort in place on an array.
- `store.dfy` (module `Store`): the task built by POST, the merge done by
  PUT, and the class `TaskStore`, whose `tasks` field is the persisted
  document and whose methods are the POST, PUT and DELETE handlers.

The read-only handlers take the collection as loaded. The mutating handlers
read the `tasks` field, change the loaded list and assign it back, which is
the load / modify / save sequence of one request.

## Model

| member | source | states |
|---|---|---|
| `Validation.Validate` | routes/tasks.js:21-52 | rules in order, first failure wins: missing or empty title or description gives "Title and description are required" whatever else is wrong; otherwise a present non-boolean `completed` gives "Completed must be a boolean value"; otherwise a non-empty priority outside low/medium/high gives "Priority must be low, medium, or high"; every failure is 400; success exactly when all rules hold |
| `Collection.MaxId` | routes/tasks.js:123 | the result is an id of the collection and no id exceeds it |
| `Collection.NextId` | routes/tasks.js:123 | 1 for an empty collection; otherwise above every id and exactly one more than some id (the maximum) |
| `Collection.NextIdKeepsIdsUnique` | routes/tasks.js:123 | appending a task that carries the next id keeps ids unique |
| `Collection.DeletingMaxAllowsReuse` | routes/tasks.js:123 | after deleting the task with the largest id, the next id is no larger than the deleted one (ids are not a monotonic counter) |
| `Collection.DeletingOtherKeepsNextId` | routes/tasks.js:123 | deleting a task whose id is below the maximum leaves the next id unchanged |
| `Collection.ReuseAfterDeletingMax` | routes/tasks.js:123 | with ids 1, 2, 3 the next id is 4, and after deleting 3 it is 3 again |
| `Collection.IndexOf` | routes/tasks.js:143 | -1 exactly when no task has the id; otherwise an index holding the id with no earlier index holding it |
| `Collection.RemoveAt` | routes/tasks.js:184 | length drops by one, elements before the index stay, elements after it shift down by one in order, and the multiset loses exactly the removed task |
| `Collection.RemoveKeepsValid` | routes/tasks.js:183-184 | removing one task keeps ids unique and tasks well formed |
| `Queries.Filter` | routes/tasks.js:62 | the result holds exactly the tasks of the input that match, and is no longer than the input |
| `Queries.FilterAppend` | routes/tasks.js:62 | filtering distributes over concatenation, so the input order is kept |
| `Queries.CompletedPartition` | routes/tasks.js:61-63 | the `completed=true` and `completed=false` results together hold every task exactly as often as the collection, and their lengths add up to its length |
| `Queries.PriorityPartition` | routes/tasks.js:90 | when every priority is a level, the low, medium and high listings together are the whole collection as a multiset |
| `Queries.Selected` | routes/tasks.js:60-63 | without a `completed` query the collection passes through unchanged; with one, the tasks whose flag equals (query is "true") |
| `Queries.SortById` | routes/tasks.js:66-68 | afterwards the array is ordered by non-decreasing id and is a permutation of its previous contents |
| `Queries.ListTasks` | routes/tasks.js:55-70 | with `sort=date` the result is ordered by id and a permutation of the filtered list; with any other or no sort it is the filtered list itself |
| `Queries.ListByPriority` | routes/tasks.js:77-91 | "Invalid priority level"/400 exactly when the level is not low, medium or high, whatever the collection; otherwise exactly the tasks with that priority, in collection order |
| `Queries.GetById` | routes/tasks.js:98-112 | "Task not found"/404 exactly when no task has the id; otherwise the first task holding the id |
| `Queries.FindIndex` | routes/tasks.js:143 | the loop returns the first index holding the id, or -1 when none does |
| `Store.NewTask` | routes/tasks.js:122-129 | id 1 on an empty collection and above every existing id; title and description from the body; `completed` true only for a supplied `true`; priority "medium" when absent or empty, the supplied level otherwise; the given time stamp; well formed when the collection is valid |
| `Store.CreateKeepsValid` | routes/tasks.js:122-131 | appending the new task to a valid collection keeps it valid |
| `Store.MergeAsWritten` | routes/tasks.js:154-158 | the spread as written: path id, body title and description, and every other body key that is present overwrites, `createdAt` and an empty `priority` included |
| `Store.AsWrittenStoresEmptyPriority` | routes/tasks.js:154-158 | an accepted body with `priority: ""` yields a task that is not well formed and that no priority listing returns |
| `Store.AsWrittenRewritesCreatedAt` | routes/tasks.js:154-158 | an accepted body carrying a different `createdAt` changes the task's creation time |
| `Store.Merge` | routes/tasks.js:154-158 | path id; body title and description; `completed` from the body when supplied, kept otherwise; priority from the body when non-empty, kept otherwise; creation time kept; a well-formed task stays well formed |
| `Store.ReplaceAsWrittenKeepsValid` | routes/tasks.js:154-160 | storing the task merged as written at the found index keeps the collection valid whenever the body does not carry an empty priority |
| `Store.ReplaceKeepsValid` | routes/tasks.js:154-160 | with the corrected merge, storing the merged task at the found index keeps the collection valid for every accepted body |
| `Store.DeleteThenGetNotFound` | routes/tasks.js:172-184 | with unique ids, after removing the task found for an id, looking that id up gives "Task not found"/404 |
| `Store.TaskStore.constructor` | routes/tasks.js:7-18 | the store holds the given persisted collection |
| `Store.TaskStore.Create` | routes/tasks.js:119-137 | a failing validation answers its error and leaves the collection alone; otherwise exactly the new task is appended after the unchanged old tasks and returned; a valid collection stays valid |
| `Store.TaskStore.Replace` | routes/tasks.js:140-166 | validation errors first, then "Task not found"/404 exactly when no task has the id, collection unchanged in both; otherwise only the found index changes, to the task merged as the code spreads it (`Store.MergeAsWritten`), which is returned; length and every id are unchanged; a valid collection stays valid unless the body carries an empty priority |
| `Store.TaskStore.Delete` | routes/tasks.js:169-190 | "Task not found"/404 exactly when no task has the id, collection unchanged; otherwise the task at the found index is returned with "Task deleted successfully" and the collection is the old one without that index, order kept; a valid collection stays valid and no longer holds the id |

## Findings

| source | as written | input that shows it | evidently intended | confidence | as-written member | corrected member |
|---|---|---|---|---|---|---|
| routes/tasks.js:154-158 | validation treats `priority: ""` as not supplied (it is falsy), but the spread copies it into the stored task | PUT `/1` with `{title: "A", description: "d", priority: ""}` on a task whose priority is "high": the stored priority becomes "", outside the three levels, and no priority listing returns the task | an empty priority counts as not supplied, as validation and POST already treat it: the task keeps "high" | medium, not executed | `Store.AsWrittenStoresEmptyPriority` | `Store.Merge` |
| routes/tasks.js:154-158 | the spread copies a body `createdAt` over the task's creation time, while the path id is forced back | PUT `/1` with `{title: "A", description: "d", createdAt: "1970-01-01T00:00:00.000Z"}`: the stored creation time becomes that value | the creation time is kept, as the id is | low, not executed | `Store.AsWrittenRewritesCreatedAt` | `Store.Merge` |

The `TaskStore.Replace` handler stores `Store.MergeAsWritten`, the merge
exactly as the code spreads it, so it keeps the collection invariant only for
bodies without an empty priority (`Store.ReplaceAsWrittenKeepsValid`).
`Store.Merge` is the corrected merge, under which replacement keeps the
invariant for every accepted body (`Store.ReplaceKeepsValid`).

## Left out

- Reading and writing `task.json` (routes/tasks.js:7-18), with `JSON.parse` and pretty-printed `JSON.stringify`: the `TaskStore.tasks` field stands for the document, so an unreadable or unparsable file and a failed write (passed to `next(error)`) are not modelled.
- Express routing, `res.status().json()`, middleware chaining and the success codes 200 and 201: handlers return the task or an `Error` value with its message and status.
- `new Date().toISOString()` (routes/tasks.js:128): the creation time is a parameter of `TaskStore.Create`.
- `parseInt` on the path id: handlers take an integer. A non-numeric id (NaN in the code) matches no task and answers 404, which is the model's answer for an id that no task holds.
- The `async` scheduling and the lost update between two overlapping load / save sequences: the model is sequential.
- Body keys other than the task's own fields, which the PUT spread would also copy into the task.
- Body values of other JSON types for `title`, `description`, `priority` and `createdAt` (numbers, booleans, null, objects): these keys are modelled as strings, although the PUT spread would copy a non-string `createdAt` too; `completed` is a JSON scalar, with numbers as integers.
- Query parameters given more than once (Express turns them into arrays): `completed` and `sort` are single optional strings.
- Ids are unbounded integers. In the code they are JavaScript numbers (doubles): once the largest id reaches 2^53, `Math.max(...) + 1` rounds back to that same value and repeats an id, which `Collection.NextId` and `Collection.NextIdKeepsIdsUnique` do not capture. The `RangeError` that spreading one argument per task into `Math.max` raises on a very large collection (POST then goes to `next(error)`) is not modelled either.
- Store.TaskStore.Replace: promises a valid collection afterwards only when the body does not carry `priority: ""`, because the code as written stores that empty priority (see Findings).
- Queries.SortById: states order and permutation but not stability (the JavaScript sort keeps tasks with equal ids in their order); in a valid collection ids are unique, so no two tasks compare equal.
- Queries.ListTasks: with `sort=date`, states order and permutation of the filtered list, not stability, for the same reason.
