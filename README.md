# Kanban task manager — a verified model

The system is a small Kanban board. A Spring back end stores tasks. Each task has an
identifier, a title, an optional description, a status (`TODO`, `DOING`, `DONE`), a priority
(`LOW`, `MEDIUM`, `HIGH`), a due date and a creation time. A React front end shows the tasks in
three columns, one per status. Cards can be dragged between columns, and two modal forms create
and edit tasks.

This project models the rules of both halves and proves what they promise.

- **Back end**
  - The task service is a class whose repository is a map from identifier to stored row.
  - The entity is a class with one setter per field.
  - Also modelled: the create-request constraints, the entity-to-response mapper, and the
    exception advice that turns failures into error bodies.
- **Front end**
  - The board's per-status counts and its drag-end transition.
  - The column filter.
  - The two forms: validation, payloads, and state across a submission.
- **Integration**
  - The JSON between the two halves.
  - A few consequences that involve both, such as: a description emptied in the details form
    is never cleared in the store.

Modules, file by file:

| file | module | models |
|---|---|---|
| `wrappers.dfy` | `Wrappers` | `Option` |
| `text.dfy` | `Text` | Java's `String.trim` and JavaScript's `String.prototype.trim` |
| `entity.dfy` | `Entity` | enums, stored row, the `Task` entity class |
| `dto.dfy` | `Dto` | request and response records, create-request validation |
| `mapper.dfy` | `TaskMapper` | `toResponse` |
| `exceptions.dfy` | `Exceptions` | failure kinds, `ApiError`, the three handlers |
| `service.dfy` | `TaskService` | the service class over its repository |
| `cards.dfy` | `Cards` | a task as the front end holds it |
| `kanbancolumn.dfy` | `KanbanColumn` | the column filter and draggables |
| `board.dfy` | `Board` | `groupedCounts` and `handleDragEnd` |
| `taskmodal.dfy` | `TaskModal` | the create form |
| `taskdetailsmodal.dfy` | `TaskDetailsModal` | the details form |
| `integration.dfy` | `Integration` | JSON decoding and cross-layer properties |

Modelling choices:

- **Repository.** `save` writes the entity's row under its identifier. An entity without an
  identifier first gets the `freshId` parameter. `save` checks the column constraints of the
  `tasks` table: title, status, priority and due date not null, title at most 255 characters.
  - A violated constraint is a storage failure. It is reported as an internal failure (HTTP 500),
    and the transaction leaves the repository unchanged.
  - An overwrite keeps the stored creation time, because the column is not updatable.
- **Create requests.** `create` accepts any request, as the Java method does.
  - A null title is dereferenced by `trim()` and fails internally.
  - A null due date or priority fails at the column constraint.
  - That the controller validates the request before calling `create` is shown separately, by
    `ValidateCreate` and by the postcondition of `Create` for valid requests.
- **Two trims.** The back end trims with Java's rule: it drops code points up to U+0020. The
  front end trims with ECMAScript's WhiteSpace and LineTerminator characters. They are modelled
  separately because they disagree.
- **Parameters.** Generated identifiers, the current time, the user's answer to the delete
  confirmation and the outcome of each HTTP request are parameters.
- **Front-end cards.** A task on the front end is its JSON object: every field except the
  identifier may be null (`Option`). The counts key of a null status is the text `"null"`,
  which is how JavaScript turns `counts[null]` into a property name.

## Model

Source paths are relative to the repository root.

| member | source | states |
|---|---|---|
| Entity.Task.constructor | backend/src/main/java/com/example/taskmanager/entity/Task.java:27-39 | a new task has status TODO, priority MEDIUM, creation time "now", and every other field null |
| Entity.Task.Load | backend/src/main/java/com/example/taskmanager/entity/Task.java:17-39 | an entity loaded from a stored row holds exactly that row's columns |
| Entity.Task.AsRow | backend/src/main/java/com/example/taskmanager/entity/Task.java:21-39 | the row flushed for an entity carries each of its fields; it satisfies the column constraints exactly when the entity's title is at most 255 long |
| Entity.Task.SetId | backend/src/main/java/com/example/taskmanager/entity/Task.java:42 | changes only `id`, which then reads back as the value set |
| Entity.Task.SetTitle | backend/src/main/java/com/example/taskmanager/entity/Task.java:45 | changes only `title`, which then reads back as the value set |
| Entity.Task.SetDescription | backend/src/main/java/com/example/taskmanager/entity/Task.java:48 | changes only `description`, which then reads back as the value set |
| Entity.Task.SetStatus | backend/src/main/java/com/example/taskmanager/entity/Task.java:51 | changes only `status`, which then reads back as the value set |
| Entity.Task.SetPriority | backend/src/main/java/com/example/taskmanager/entity/Task.java:54 | changes only `priority`, which then reads back as the value set |
| Entity.Task.SetDueDate | backend/src/main/java/com/example/taskmanager/entity/Task.java:57 | changes only `dueDate`, which then reads back as the value set |
| Entity.Task.SetCreatedAt | backend/src/main/java/com/example/taskmanager/entity/Task.java:60 | changes only `createdAt`, which then reads back as the value set |
| Dto.Violations | backend/src/main/java/com/example/taskmanager/dto/TaskCreateRequest.java:13-25 | one error per failing check, each with its field's declared message, no field twice, and no error exactly when all checks pass |
| Dto.ValidateCreate | backend/src/main/java/com/example/taskmanager/dto/TaskCreateRequest.java:13-25 | a title error exactly when the title is null or blank after Java's trim; a due-date error exactly when it is null; a priority error exactly when it is null; the description carries no constraint; no errors exactly when the request is valid |
| Dto.ValidTitleSurvivesTrim | backend/src/main/java/com/example/taskmanager/dto/TaskCreateRequest.java:13-14 | a request without violations has a title that stays non-empty once trimmed, and trimming it again changes nothing |
| TaskMapper.ToResponse | backend/src/main/java/com/example/taskmanager/mapper/TaskMapper.java:9-19 | every field of the response is the entity's field, nulls included; an entity mirroring a row gives that row's response |
| TaskMapper.ResponseRow | backend/src/main/java/com/example/taskmanager/mapper/TaskMapper.java:9-19 | a response is read back as a row exactly when none of its non-nullable fields is null |
| TaskMapper.ResponseRoundTrip | backend/src/main/java/com/example/taskmanager/mapper/TaskMapper.java:9-19 | the response of a row reads back as that row, so two rows with the same response are equal |
| Exceptions.FieldsOfSnoc | backend/src/main/java/com/example/taskmanager/exception/GlobalExceptionHandler.java:25-28 | the failing fields of a list with one more error are the old ones plus that error's field |
| Exceptions.FieldErrorMap | backend/src/main/java/com/example/taskmanager/exception/GlobalExceptionHandler.java:25-28 | the keys of the field-error map are exactly the names of the failing fields |
| Exceptions.LastErrorWins | backend/src/main/java/com/example/taskmanager/exception/GlobalExceptionHandler.java:25-28 | for a field with several errors, the map holds the message of the last one |
| Exceptions.HandleValidation | backend/src/main/java/com/example/taskmanager/exception/GlobalExceptionHandler.java:23-32 | the `put` loop yields status 400, "Dados inválidos" and the field-error map of the errors in order |
| Exceptions.Handle | backend/src/main/java/com/example/taskmanager/exception/GlobalExceptionHandler.java:16-39 | 404 exactly for not-found, with the exception's message and no field errors; 400 exactly for validation, with "Dados inválidos" and the failing fields as keys; 500 exactly for anything else, with the fixed message and no field errors, so no internal detail appears |
| TaskService.CreatedRow | backend/src/main/java/com/example/taskmanager/service/TaskService.java:26-34 | the row `create` stores: status TODO whatever was asked, the title trimmed, description, due date and priority as supplied, the fresh id and the current time |
| TaskService.ApplyUpdate | backend/src/main/java/com/example/taskmanager/service/TaskService.java:52-59 | the title is replaced only by a non-null title that is non-blank after trimming, and then trimmed; description, status, priority and due date are overwritten exactly when supplied; id and creation time never change |
| TaskService.UpdateIdempotent | backend/src/main/java/com/example/taskmanager/service/TaskService.java:49-62 | applying an update a second time changes nothing |
| TaskService.StatusPatchIsStatusOnlyUpdate | backend/src/main/java/com/example/taskmanager/service/TaskService.java:65-69 | the status patch is the same as a full update that carries only the status |
| TaskService.EmptyUpdateChangesNothing | backend/src/main/java/com/example/taskmanager/service/TaskService.java:52-59 | an update whose fields are all null leaves the row as it is |
| TaskService.UpdateKeepsTitleNonBlank | backend/src/main/java/com/example/taskmanager/service/TaskService.java:52-55 | an update never makes a non-blank title blank |
| TaskService.PutKeepsNoBlankTitles | backend/src/main/java/com/example/taskmanager/service/TaskService.java:33 | storing a row with a non-blank title keeps every stored title non-blank |
| TaskService.TaskService.constructor | backend/src/main/java/com/example/taskmanager/service/TaskService.java:21-23 | the service works over the injected repository as it is: any persisted rows, each stored under its own id and within the column constraints |
| TaskService.TaskService.Save | backend/src/main/java/com/example/taskmanager/entity/Task.java:17-39 | a task without id gets the fresh one; the save succeeds exactly when the column constraints hold, and then writes the entity's row under its id, keeping a stored creation time; on failure nothing changes |
| TaskService.TaskService.NewTask | backend/src/main/java/com/example/taskmanager/service/TaskService.java:27-32 | the new entity has no id, the current creation time, the trimmed title, status TODO, and the other fields of the request |
| TaskService.TaskService.ApplySetters | backend/src/main/java/com/example/taskmanager/service/TaskService.java:52-59 | the setter calls turn an entity mirroring a row into one mirroring the updated row |
| TaskService.TaskService.Create | backend/src/main/java/com/example/taskmanager/service/TaskService.java:26-34 | it succeeds exactly when title, due date and priority are present and the trimmed title fits; it then stores exactly one new row under the fresh id, leaves every other entry unchanged, and returns an entity mirroring it; otherwise it fails internally with no change; a valid request keeps every stored title non-blank |
| TaskService.TaskService.FindAll | backend/src/main/java/com/example/taskmanager/service/TaskService.java:37-39 | no filter lists every stored task; a status lists exactly the stored tasks with that status |
| TaskService.TaskService.FindAllPartition | backend/src/main/java/com/example/taskmanager/service/TaskService.java:37-39 | the three status listings are pairwise disjoint and together make up the unfiltered listing |
| TaskService.TaskService.FindAllAgreesWithFind | backend/src/main/java/com/example/taskmanager/service/TaskService.java:37-46 | every listed task is the row stored under its own identifier |
| TaskService.TaskService.FindById | backend/src/main/java/com/example/taskmanager/service/TaskService.java:42-46 | a missing id fails with NotFound and the message "Task não encontrada: " plus the id; otherwise a new entity holds the stored row |
| TaskService.TaskService.Update | backend/src/main/java/com/example/taskmanager/service/TaskService.java:49-62 | a missing id fails with NotFound and no change; otherwise only that entry becomes the updated row, or, when the row would break a column constraint, it fails internally with no change; titles stay non-blank |
| TaskService.TaskService.UpdateStatus | backend/src/main/java/com/example/taskmanager/service/TaskService.java:65-69 | a missing id fails with NotFound and no change; otherwise only the status of that entry changes, and a null status fails internally with no change |
| TaskService.TaskService.Delete | backend/src/main/java/com/example/taskmanager/service/TaskService.java:72-75 | a missing id fails with NotFound and no change; otherwise exactly that entry is removed |
| TaskService.CreateThenFind | backend/src/main/java/com/example/taskmanager/service/TaskService.java:26-46 | fetching a task right after creating it gives the same response as the created task |
| TaskService.DeleteThenFind | backend/src/main/java/com/example/taskmanager/service/TaskService.java:72-75 | after a successful delete, fetching the same id fails with NotFound |
| Text.DropLeadingSuffix | backend/src/main/java/com/example/taskmanager/service/TaskService.java:53 | dropping leading spaces keeps a suffix that starts with a non-space, and only spaces are dropped |
| Text.DropTrailingPrefix | backend/src/main/java/com/example/taskmanager/service/TaskService.java:53 | dropping trailing spaces keeps a prefix that ends with a non-space, and only spaces are dropped |
| Text.StripEnds | backend/src/main/java/com/example/taskmanager/service/TaskService.java:53 | neither end of a trimmed string is a space |
| Text.StripCutsOnlySpace | backend/src/main/java/com/example/taskmanager/service/TaskService.java:53 | a trimmed string is a contiguous part of the input with only spaces on either side |
| Text.StripEmptyIff | backend/src/main/java/com/example/taskmanager/service/TaskService.java:53-54 | a string trims to nothing exactly when all its characters are spaces |
| Text.DropLeadingAllSpace | backend/src/main/java/com/example/taskmanager/service/TaskService.java:53 | a string of spaces only loses every character |
| Text.StripIdempotent | backend/src/main/java/com/example/taskmanager/service/TaskService.java:28 | trimming twice is trimming once |
| Text.JavaBlankIff | backend/src/main/java/com/example/taskmanager/service/TaskService.java:53-54 | `trim().isEmpty()` holds exactly when every character is at most U+0020 |
| Text.JsBlankIff | frontend/src/components/TaskModal.jsx:32 | `!s.trim()` holds exactly when every character is ECMAScript white space or a line terminator |
| KanbanColumn.ColumnTasks | frontend/src/components/KanbanColumn.jsx:5 | a column holds exactly the cards whose status is the column's, and no more cards than the board |
| KanbanColumn.ColumnOfConcat | frontend/src/components/KanbanColumn.jsx:5 | filtering distributes over concatenation, so the board's relative order is kept |
| KanbanColumn.Draggables | frontend/src/components/KanbanColumn.jsx:11-22 | the header count is the number of draggables; the i-th draggable has index i, is the i-th card of the column, and has the card's id as drag id |
| KanbanColumn.ColumnKeepsDistinctIds | frontend/src/components/KanbanColumn.jsx:21-22 | a column of a board with distinct ids has distinct drag ids |
| KanbanColumn.ColumnsPartition | frontend/src/components/KanbanColumn.jsx:5 | a card with one of the three statuses is in exactly the column of its status |
| Board.GroupedCounts | frontend/src/pages/Board.jsx:16-20 | the counts have the three column statuses and every status that occurs as keys, and each key's count is the number of cards with that status |
| Board.InitialCounts | frontend/src/pages/Board.jsx:17 | the initial counts, zero for each column, are the counts of no cards |
| Board.CountStep | frontend/src/pages/Board.jsx:18 | one increment gives the counts of the cards with one more card appended |
| Board.CountKeySnoc | frontend/src/pages/Board.jsx:18 | appending a card adds one to the count of its status and nothing to the others |
| Board.StatusKeysSnoc | frontend/src/pages/Board.jsx:18 | appending a card adds its status to the occurring statuses |
| Board.AbsentKeyCountsZero | frontend/src/pages/Board.jsx:17-18 | a status that does not occur counts zero |
| Board.SumCountsSingle | frontend/src/pages/Board.jsx:16-20 | one card adds one to the sum over distinct keys exactly when its status is among them |
| Board.SumCountsSnoc | frontend/src/pages/Board.jsx:16-20 | the sum of counts over a list of keys is additive in the cards |
| Board.SumCountsZero | frontend/src/pages/Board.jsx:17 | no cards sum to zero |
| Board.TotalCount | frontend/src/pages/Board.jsx:16-20 | over distinct keys covering every card's status, the counts add up to the number of cards |
| Board.HeaderMatchesCount | frontend/src/components/KanbanColumn.jsx:11 | the column header's `columnTasks.length` agrees with the board's grouped count for that status (the grouped counts themselves are not rendered) |
| Board.FindIndex | frontend/src/pages/Board.jsx:57 | the index of the first card with the dragged id, or -1 when no card has it |
| Board.HandleDragEnd | frontend/src/pages/Board.jsx:44-66 | no destination, or the same column and index, changes nothing and sends nothing; otherwise the list becomes the one with the first matching card moved; a status request for the dragged id and the destination column is sent exactly when the columns differ |
| Board.MovedChangesOnlyOneStatus | frontend/src/pages/Board.jsx:55-61 | the move keeps the length, the order and every id; only the first matching card changes, and only its status, which becomes the destination; with no match nothing changes |
| Board.CountAfterReplace | frontend/src/pages/Board.jsx:59 | replacing one card moves one unit of count from its old status to its new one |
| Board.MoveShiftsCounts | frontend/src/pages/Board.jsx:55-61 | after a move, the old column counts one less, the new one counts one more, and every other count is unchanged |
| Board.DraggedCardIsFound | frontend/src/pages/Board.jsx:57 | with distinct ids, the drag id of a column's i-th card leads back to that same card on the board |
| TaskModal.Errors | frontend/src/components/TaskModal.jsx:30-35 | a title entry exactly when the trimmed title is empty, a due-date entry exactly when the date is empty, each with its message, and no other key |
| TaskModal.IsValid | frontend/src/components/TaskModal.jsx:37 | valid exactly when `errors` has no key, which is when the trimmed title and the date are both non-empty |
| TaskModal.OrNull | frontend/src/components/TaskModal.jsx:50 | `s \|\| null` is null exactly for the empty string and otherwise `s` |
| TaskModal.Payload | frontend/src/components/TaskModal.jsx:48-53 | the title is trimmed; the description is trimmed, or null when that is empty; date and priority are as chosen |
| TaskModal.ErrorMessage | frontend/src/components/TaskModal.jsx:57-62 | the first non-empty one of the response's `message`, the response's `error` and the error's own message, else the fallback; never empty when the fallback is not |
| TaskModal.TaskModalForm.constructor | frontend/src/components/TaskModal.jsx:9-16 | the initial state: empty fields, priority MEDIUM, nothing touched, not submitting, no message |
| TaskModal.TaskModalForm.OpenChanged | frontend/src/components/TaskModal.jsx:18-28 | opening resets title, description and date to empty, priority to MEDIUM and the form state; closing changes nothing |
| TaskModal.TaskModalForm.SubmitDisabled | frontend/src/components/TaskModal.jsx:145 | the submit button is disabled exactly while submitting or while the trimmed title or the date is empty |
| TaskModal.TaskModalForm.Submit | frontend/src/components/TaskModal.jsx:39-53 | both fields become touched and the message is cleared; a create request is sent exactly when the form is valid, with the payload of the current fields, and then the submit button is disabled, so no second request can start |
| TaskModal.TaskModalForm.Settle | frontend/src/components/TaskModal.jsx:54-65 | submitting ends, so the submit button is again disabled exactly when the form is invalid; a failure shows its message and keeps the form open; success closes it |
| TaskDetailsModal.SavePayload | frontend/src/components/TaskDetailsModal.jsx:51-57 | the trimmed title, the description trimmed or null, and the date, priority and status as edited |
| TaskDetailsModal.TaskDetailsForm.constructor | frontend/src/components/TaskDetailsModal.jsx:9-18 | the initial state: empty fields, priority MEDIUM, status TODO, not submitting or deleting, no message |
| TaskDetailsModal.TaskDetailsForm.Load | frontend/src/components/TaskDetailsModal.jsx:20-31 | with the modal open on a task, each field is loaded from it, title, description and date defaulting to empty, priority to MEDIUM and status to TODO, and the form state is reset; otherwise nothing changes |
| TaskDetailsModal.TaskDetailsForm.SaveDisabled | frontend/src/components/TaskDetailsModal.jsx:197 | the save button is disabled exactly while saving or deleting, or while the trimmed title or the date is empty |
| TaskDetailsModal.TaskDetailsForm.DeleteDisabled | frontend/src/components/TaskDetailsModal.jsx:179-190 | the delete and cancel buttons are disabled exactly while a save or delete request is in flight, and then save is disabled too |
| TaskDetailsModal.TaskDetailsForm.Save | frontend/src/components/TaskDetailsModal.jsx:42-57 | both fields become touched and the message is cleared; an update is sent exactly when the task has an id and the form is valid, for that id and with the payload of the current fields; once sent, save and delete are disabled |
| TaskDetailsModal.TaskDetailsForm.Delete | frontend/src/components/TaskDetailsModal.jsx:72-79 | a delete of the task's id is sent exactly when it has one and the user confirmed; once sent, save and delete are disabled |
| TaskDetailsModal.TaskDetailsForm.SettleSave | frontend/src/components/TaskDetailsModal.jsx:58-69 | submitting ends; a failure shows its message; success closes the form |
| TaskDetailsModal.TaskDetailsForm.SettleDelete | frontend/src/components/TaskDetailsModal.jsx:80-91 | deleting ends; a failure shows its message; success closes the form |
| Integration.DecodeStatus | frontend/src/components/TaskDetailsModal.jsx:159-163 | of the names the front end sends, a status is readable exactly when it is one of the three column statuses |
| Integration.DecodePriority | frontend/src/components/TaskDetailsModal.jsx:148-152 | of the names the front end sends, a priority is readable exactly when it is LOW, MEDIUM or HIGH |
| Integration.NamesRoundTrip | backend/src/main/java/com/example/taskmanager/mapper/TaskMapper.java:14-15 | each enum constant's name reads back as that constant, and of the names the model's decoder reads, only its name does |
| Integration.DecodeCreate | frontend/src/components/TaskModal.jsx:48-53 | the create form's payload is readable exactly when its priority is, and then carries the payload's fields |
| Integration.DecodeUpdate | frontend/src/components/TaskDetailsModal.jsx:51-57 | the details form's payload is readable exactly when its status and priority are, and then carries the payload's fields |
| Integration.DecodeStatusPatch | frontend/src/pages/Board.jsx:64-66 | a drag's status request is readable exactly when its status is a column status, and then names that status |
| Integration.CardOf | backend/src/main/java/com/example/taskmanager/mapper/TaskMapper.java:9-19 | the card for a response keeps its id, title, description and date, and a non-null status reads back as the response's |
| Integration.BoardCards | frontend/src/pages/Board.jsx:26-27 | the board receives one card per stored row, in order |
| Integration.BoardColumnsPartitionRows | frontend/src/pages/Board.jsx:104-106 | every stored task appears in exactly the column of its status, and the three counts add up to the number of tasks |
| Integration.ClearedDescriptionIsKept | frontend/src/components/TaskDetailsModal.jsx:53 | saving with an emptied description sends null, and the back end then keeps the stored description |
| Integration.SavedDescription | backend/src/main/java/com/example/taskmanager/service/TaskService.java:56 | a save from the details form leaves the description as it was or sets it to a non-empty text, so a stored description never becomes null |
| Integration.ControlCharTrims | backend/src/main/java/com/example/taskmanager/service/TaskService.java:28 | U+0001 is removed by Java's trim but not by JavaScript's |
| Integration.ControlCharTitleRejected | frontend/src/components/TaskModal.jsx:30-53 | a title of U+0001 passes the create form but fails the back end's title check, and the form then shows "Dados inválidos" |
| Integration.ApiRequestError | frontend/src/components/TaskModal.jsx:57-60 | the front end sees an error body's message as `response.data.message` and no `error` field |
| Integration.ShownMessageIsApiMessage | frontend/src/components/TaskModal.jsx:57-62 | every back-end failure shows its error body's message, never the fallback; an internal failure shows only the fixed 500 message |
| Integration.NotFoundMessageShown | backend/src/main/java/com/example/taskmanager/service/TaskService.java:43-45 | a not-found failure shows "Task não encontrada: " followed by the id |
| Integration.DragRequestReadable | frontend/src/pages/Board.jsx:64-66 | a drop onto one of the board's columns sends a status patch the back end can read, naming the destination column |

## Left out

- The controller (`TaskController.java`) is not part of this model: routing, the `@Valid`
  trigger, CORS and the 201/200/204 wrapping are framework plumbing. Validation of the create
  request is modelled by `ValidateCreate` and the 400 body by `HandleValidation`; validation of
  the status patch is not (see the `UpdateStatus` line below).
- The order of `findAll`'s result is unspecified by the repository, so the model returns a set.
- The SQL schema and JPA internals are not modelled. Only the column constraints are kept, and
  they become the check in `Save`.
- A failed flush is modelled as an all-or-nothing rollback. Database truncation modes are not modelled.
- UUID generation and `LocalDateTime.now()` are parameters; `LocalDate` parsing and formatting are
  not modelled, and a due date is its `YYYY-MM-DD` text.
- Java's `length` counts UTF-16 code units; the model counts Dafny characters. The two differ
  only for characters outside the Basic Multilingual Plane.
- The order in which Bean Validation reports field errors is unspecified. `ValidateCreate` uses
  declaration order. `HandleValidation` takes any order.
- `@Transactional` isolation and concurrent requests are not modelled; every operation runs atomically
  and in sequence.
- Getters are modelled as field reads.
- TaskService.TaskService.UpdateStatus: the `@NotNull` on the status patch's `status` and the controller's `@Valid` are not modelled, so a null status, which the program rejects with 400 "Dados inválidos" and the field error "Status é obrigatório", appears in the model only as the service's internal failure (500).
- Entity.Task.SetCreatedAt: takes a time, not null, although the Java setter accepts null; nothing in the service passes null.
- CreateThenFind: timestamps are stored exactly; the rounding of `createdAt` to the precision of the timestamp column is not modelled, so in the program the two responses may differ in the fractional seconds of `createdAt`.
- DecodeStatus, DecodePriority: Jackson by default also reads an enum from its index (`1` or `"1"` as DOING); the model reads names only, which is all the front end sends.
- DecodeStatusPatch: like `DecodeStatus`, it does not model index strings, so a patch body of `"1"` is unreadable in the model but stored as DOING by the program.
- React scheduling is not modelled. This covers `useState`, `useEffect`, `useMemo`, asynchronous
  awaits and re-rendering. Each handler is split into the part before the request and a
  settle step after it.
- The drag-and-drop library, `window.confirm` and the axios client are not modelled. Their
  outcomes are parameters.
- Board's error banner and its reload after a failed status request are not modelled: network
  retry behaviour.
- Board's `loadTasks` error message is not modelled, beyond the shared message rule in `ErrorMessage`.
- JavaScript property names such as `__proto__` in the counts object are not modelled, and
  neither is insertion order in the `LinkedHashMap` or the counts object.
- `TaskCard.jsx`, `OpenApiConfig.java` and the test files are not part of this model.
