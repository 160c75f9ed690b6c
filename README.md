# AppToDo core, modelled in Dafny

AppToDo is a todo-list manager. An Express server keeps todos in one SQLite
table and answers a small REST API. A React client keeps the list in memory
through the `useTodos` hook. Every todo is one record `{id, text, completed,
createdAt}`. This project models three parts of the system and proves what they
promise:

- **`todo.dfy`, module `TodoModel`**: the `Todo` record, the create and update
  payloads, and `Merge`, the `{...existing, ...dto}` partial update.
- **`js_text.dfy`, module `JsText`**: ECMAScript `String.prototype.trim`. It
  strips the WhiteSpace and LineTerminator characters from both ends. The
  client and the server both use it.
- **`todo_repository.dfy`, module `Repository`**: the class `TodoRepository`.
  Its `rows` field holds the `todos` table as a map from primary key to row,
  and `completed` is stored as 0/1. `FindAll`, `FindById`, `Create`, `Update`
  and `Delete` work on that field. Each method's contract is stated through
  `Contents()`, which is the table as the repository reads it back.
- **`todo_controller.dfy`, module `Controller`**: the request checks and status
  choices of the five handlers, as pure functions. The class `TodoController`
  runs its handlers against the repository it owns. A request is the `:id`
  parameter plus the body fields `text` and `completed`. Each field is missing,
  a string, a boolean or some other JSON value.
- **`use_todos.dfy`, module `UseTodos`**: the class `TodosState`, which holds
  the hook's `todos`, `loading` and `error`. The reply of each API call is an
  input to the method (`Ok(value)` or `Err(failure)`). The request the method
  issues is an output, and an operation that issues no request returns `None`.
  The results of `AddTodo`, `ToggleTodo` and `DeleteTodo` also say whether
  their promise resolves or is rejected, and a rejection carries the caught
  failure that was rethrown. `LoadTodos` always resolves, because `loadTodos`
  catches the failure and does not rethrow it (src/hooks/useTodos.ts:29-33).

`randomUUID()` and `Date.now()` are parameters of `Create`, and of
`TodoController.CreateTodo`, which calls it. An INSERT that repeats a stored id
fails SQLite's primary-key constraint (server/src/database/connection.ts:22).
`Create` models that failure as a thrown error, and the controller answers 500.
With a fresh id the insert succeeds.

Each hook operation waits for its API call. Only on success does it rewrite
the list: the new todo is put in front (src/hooks/useTodos.ts:43), the toggled
item is replaced by the server's copy (:57), or the deleted items are filtered
out (:68). A failure leaves the list as it was, records the message and
rethrows.

The handlers' checks keep one fact about the store: every stored text is
non-empty and already trimmed. `TodoController.Valid()` includes it, so every
handler keeps it.

The unit test at server/__tests__/unit/todoRepository.test.ts:27-35 expects
`findAll` to list two todos in creation order. The query orders by `createdAt`
descending, so that order holds only when both todos have the same timestamp.
The model promises newest-first order and nothing about ties.

## Model

| member | source | states |
|---|---|---|
| `TodoModel.Merge` | server/src/repositories/TodoRepository.ts:58-61 | the fields present in the update payload replace the stored ones; `id`, `createdAt` and every absent field keep their old values; an empty payload leaves the todo unchanged |
| `JsText.Trim` | server/src/controllers/TodoController.ts:40 | the trimmed text is what remains of the input once the white space at its start and at its end is cut away; it is empty exactly when the input is all white space; a non-empty result neither starts nor ends with white space |
| `JsText.TrimStart` | src/hooks/useTodos.ts:37 | the result is a suffix of the input; everything cut off before it is white space; a non-empty result does not start with white space |
| `JsText.TrimEnd` | src/hooks/useTodos.ts:37 | the result is a prefix of the input; everything cut off after it is white space; a non-empty result does not end with white space |
| `JsText.TrimUnchanged` | src/hooks/useTodos.ts:37 | a text with no white space at either end is its own trim |
| `JsText.TrimIdempotent` | server/src/controllers/TodoController.ts:45 | trimming again changes nothing, so the server's second trim of client-trimmed text is harmless |
| `Repository.EncodeCompleted` | server/src/repositories/TodoRepository.ts:49 | `completed` is written as 0 or 1, and reading it back with `=== 1` gives the original boolean |
| `Repository.DecodeEncode` | server/src/repositories/TodoRepository.ts:17 | a stored 0/1 value is reproduced when it is decoded and then encoded again |
| `Repository.DecodeCompleted` | server/src/repositories/TodoRepository.ts:17 | definition with no contract of its own: `completed === 1`; `EncodeCompleted` and `DecodeEncode` state its round trips |
| `Repository.ToTodo` | server/src/repositories/TodoRepository.ts:15-18 | the row read back as a todo keeps the id, text and timestamp columns as they are |
| `Repository.RowRoundTrip` | server/src/repositories/TodoRepository.ts:32-35 | a row whose `completed` column holds 0 or 1 is written back unchanged from the todo it reads as |
| `Repository.ToRow` | server/src/repositories/TodoRepository.ts:46-49 | an inserted row reads back as the todo that was inserted; the completed column holds 0 or 1 |
| `Repository.InsertByNewest` | server/src/repositories/TodoRepository.ts:7 | inserting into a newest-first list keeps it newest-first, and the result holds the old items plus exactly the new one |
| `Repository.TodoRepository.constructor` | server/src/database/connection.ts:19-28 | a new repository starts over an empty, well-formed table of its own (the source shares one table between all repositories; see "Left out") |
| `Repository.TodoRepository.FindAll` | server/src/repositories/TodoRepository.ts:6-19 | returns every stored todo once and nothing else, in non-increasing `createdAt` order; an empty store gives an empty list |
| `Repository.TodoRepository.FindById` | server/src/repositories/TodoRepository.ts:21-36 | returns null exactly when no record has the id; otherwise returns the stored todo, which carries that id |
| `Repository.TodoRepository.Create` | server/src/repositories/TodoRepository.ts:38-52 | with a fresh id: returns `{id, text: dto.text, completed: false, createdAt: now}` with the text untrimmed, and stores exactly that under the id, so a later lookup finds it; a repeated id throws and changes nothing |
| `Repository.TodoRepository.Update` | server/src/repositories/TodoRepository.ts:54-69 | an absent id returns null and changes nothing; otherwise the stored todo becomes the merge of the old one with the payload, the returned todo equals the stored one, and all other records are untouched |
| `Repository.TodoRepository.Delete` | server/src/repositories/TodoRepository.ts:71-75 | returns true exactly when a record with the id existed; afterwards that id is gone and every other record is untouched |
| `Controller.Falsy` | server/src/controllers/TodoController.ts:40 | `!text`: a falsy field is never a non-blank string, so this first test rejects nothing the later tests would accept |
| `Controller.CheckCreate` | server/src/controllers/TodoController.ts:38-45 | rejects with 400 and the fixed message exactly when `text` is missing, not a string, or all white space (the falsy test adds nothing); otherwise the payload is the non-empty trimmed text |
| `Controller.CheckCreateOfTrimmed` | server/src/controllers/TodoController.ts:40-45 | text the client has already trimmed passes the check and is stored exactly as sent |
| `Controller.CheckUpdate` | server/src/controllers/TodoController.ts:55-69 | a present `text` that is not a non-blank string gives 400 "Text must be a non-empty string", and this check comes first; otherwise a present non-boolean `completed` gives 400 "Completed must be a boolean"; otherwise the payload carries exactly the present fields, with the text trimmed |
| `Controller.TrimmedTextIsOwnTrim` | server/src/controllers/TodoController.ts:45 | a text is non-empty with no white space at either end exactly when it is non-empty and equal to its own trim |
| `Controller.TrimOfNonBlank` | server/src/controllers/TodoController.ts:40-45 | a text that is not all white space trims to a non-empty trimmed text |
| `Controller.CreateKeepsTextsTrimmed` | server/src/controllers/TodoController.ts:40-45 | storing the todo built from an accepted create body keeps every stored text non-empty and trimmed |
| `Controller.UpdateKeepsTextsTrimmed` | server/src/controllers/TodoController.ts:57-70 | merging an accepted update payload into a stored todo keeps every stored text non-empty and trimmed |
| `Controller.StoreTrimmed` | server/src/controllers/TodoController.ts:45 | storing a todo whose text is non-empty and trimmed keeps every stored text so |
| `Controller.ListResponse` | server/src/controllers/TodoController.ts:11-17 | 200 with the list, or 500 "Internal server error" exactly when the repository threw |
| `Controller.FoundResponse` | server/src/controllers/TodoController.ts:20-33 | 404 exactly when the repository found nothing; 200 with the todo when it found one; 500 with the fixed message exactly on an exception |
| `Controller.CreatedResponse` | server/src/controllers/TodoController.ts:45-49 | 201 with the created todo; 500 with the fixed message exactly on an exception |
| `Controller.DeletedResponse` | server/src/controllers/TodoController.ts:84-97 | 204 with no body exactly when a record was removed; 404 exactly when none was; 500 exactly on an exception |
| `Controller.TodoController.constructor` | server/src/controllers/TodoController.ts:7-9 | the controller owns a fresh repository, and the store starts empty |
| `Controller.TodoController.GetAllTodos` | server/src/controllers/TodoController.ts:11-18 | 200 with every stored todo, newest first |
| `Controller.TodoController.GetTodoById` | server/src/controllers/TodoController.ts:20-34 | 404 "Todo not found" for an absent id; 200 with the stored record otherwise |
| `Controller.TodoController.CreateTodo` | server/src/controllers/TodoController.ts:36-50 | invalid text gives 400 and leaves the store alone; valid text stores the trimmed text under the fresh id and answers 201 with the created todo; a repeated id answers 500 and leaves the store unchanged; every stored text stays non-empty and trimmed |
| `Controller.TodoController.UpdateTodo` | server/src/controllers/TodoController.ts:52-82 | a rejected body answers its 400 before any store access; an absent id answers 404 and changes nothing; otherwise the stored todo is merged with exactly the present, trimmed fields and returned with 200; every stored text stays non-empty and trimmed |
| `Controller.TodoController.DeleteTodo` | server/src/controllers/TodoController.ts:84-98 | 204 exactly when the id was stored, 404 otherwise; the record is gone afterwards and the others are untouched; every stored text stays non-empty and trimmed |
| `UseTodos.ErrorMessage` | src/hooks/useTodos.ts:30 | definition with no contract of its own: `err instanceof Error ? err.message : fallback`, used with each operation's fallback (lines 30, 45, 59, 70) |
| `UseTodos.FindFirst` | src/hooks/useTodos.ts:51 | finds nothing exactly when no item has the id; otherwise returns the first item with that id |
| `UseTodos.ReplaceById` | src/hooks/useTodos.ts:57 | same length and order; each item with the id becomes the server's todo, and every other item is unchanged |
| `UseTodos.RemoveId` | src/hooks/useTodos.ts:68 | keeps exactly the items whose id differs, in their original order and with their multiplicities; an absent id leaves the list unchanged |
| `UseTodos.TodosState.constructor` | src/hooks/useTodos.ts:15-17 | the hook starts with no todos, loading true and no error |
| `UseTodos.TodosState.LoadTodos` | src/hooks/useTodos.ts:23-34 | fetches the list; afterwards loading is false in both outcomes; on success the list is the fetched one and the error is cleared; on failure the list is unchanged and the error holds the message, or "Failed to load todos" for a thrown value that is not an `Error` |
| `UseTodos.TodosState.AddTodo` | src/hooks/useTodos.ts:36-48 | blank text returns at once with no request, and nothing changes; otherwise it sends the trimmed text; on success the server's todo is prepended, so the list grows by exactly one, and the error is cleared; on failure the list is unchanged, the error is set and the failure is rethrown |
| `UseTodos.TodosState.ToggleTodo` | src/hooks/useTodos.ts:50-62 | an id not in the list is a no-op with no request and no failure; otherwise it asks for the negation of the first match's `completed`; on success each item with the id is replaced by the server's todo and the length, order and other items are kept; on failure the list is unchanged, the error is set and the failure is rethrown |
| `UseTodos.TodosState.DeleteTodo` | src/hooks/useTodos.ts:64-73 | always sends the delete, with no existence check; on success it removes exactly the items with the id and keeps the rest in order; on failure the list is unchanged, the error is set and the failure is rethrown |

## Left out

- Network I/O: the `fetch` wrapper in src/api/todoApi.ts is not part of this model. Each hook method takes the settled result of its call as an input, including the error message that the wrapper builds from the status text.
- Concurrency: calls that interleave in flight and React's batched, closure-based state updates (`toggleTodo` reads `todos` from its render, line 51, but writes through `prev`, line 57) are not modelled. Hook operations run one after another, so the list a call reads is the list it rewrites.
- The mount effect (src/hooks/useTodos.ts:19-21) is not a method of its own: it is the constructor followed by `LoadTodos`.
- Database failures other than a repeated primary key (I/O errors, a closed or locked database) are not produced by the store model. The 500 answer for a thrown repository call is proved for every handler in the response functions, but only `CreateTodo` can reach it from the class.
- `Repository.TodoRepository.constructor`: in the source the table belongs to the module-level connection `db` (server/src/database/connection.ts:17). Every `TodoRepository` shares it, and constructing one empties nothing; the unit test clears the table itself after `new TodoRepository()` (server/__tests__/unit/todoRepository.test.ts:11-15). The model gives each instance its own `rows`, starting empty. Rows that an earlier repository or an earlier run left behind, and two repositories seeing each other's writes, are not modelled.
- SQL text, statement preparation and the `better-sqlite3` driver are not modelled. The table is a map keyed by id.
- The `completed` column of a row written outside the repository could hold an integer other than 0 or 1. The repository never writes one, and the table invariant excludes it.
- JSON values: null, numbers, arrays and objects are one `Other` case. Each of them fails the type checks, so their truthiness is not modelled.
- `createdAt` is an unbounded integer. JavaScript numbers are doubles, but epoch milliseconds stay far inside the range where doubles are exact.
- Strings are sequences of Unicode scalar values, not UTF-16 code units. All trimmed characters are in the Basic Multilingual Plane, so trimming agrees except on lone surrogates.
- The rest of the repository is not part of this model: the Firebase function wrapper (functions/src/index.ts, which repeats the controller's checks), routing and app setup (server/src/app.ts, server/src/routes/todoRoutes.ts, server/src/index.ts, including GET /health), toast notifications, rendering, and the localStorage-based hook tests.
