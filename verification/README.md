# aisen-flow, modelled in Dafny

aisen-flow is an Eisenhower-matrix task dashboard. Each task (`Tarefa`) carries
two flags, urgent and important, and these place it in one of four quadrants:
1 do now, 2 schedule, 3 delegate, 4 eliminate.

The backend is an Express application over one PostgreSQL table,
`tarefas_eisenhower`. Its task controller provides:

- two listings, both newest first: all tasks, or the tasks of one quadrant, each with an optional status filter;
- a lookup by id;
- create, which computes the quadrant from the two flags;
- update, a partial update that COALESCEs with the stored row;
- a "conclude" transition and a hard delete;
- a statistics endpoint.

An Express router mounted at `/api/tarefas` picks the handler for each request.

The React frontend has five parts:

- an API client that builds the requests and turns error responses into thrown `Error`s;
- the dashboard (`App`), which holds the four quadrant lists, the statistics, the per-column filters, the two dialogs and the toast;
- one column component per quadrant, with a status filter and an open-task badge;
- the task form dialog, which trims and checks the title and previews the quadrant;
- the shared types.

The model has one module per core file:

| module | file | models |
|---|---|---|
| `TarefaTypes` | `tarefa_types.dfy` | the task, statistics and form shapes, and the status names |
| `Text` | `text.dfy` | decimal printing and parsing, ECMAScript `trim`, `split` and the query-string cut |
| `Lists` | `lists.dfy` | `Array.prototype.filter` and the counting facts about it |
| `TarefasController` | `tarefas_controller.dfy` | the quadrant classifier and the rows INSERT and UPDATE produce; the table as a class whose handler methods change its rows |
| `TarefasQueries` | `tarefas_queries.dfy` | the read handlers: listings, lookup, counters and the per-(quadrant, status) grouping |
| `Routes` | `tarefas_routes.dfy` | the router's eight registrations, first-match dispatch and the mount point |
| `Api` | `api.dfy` | the client's requests and response handling, and the proof that each request reaches its handler |
| `ModalTarefa` | `modal_tarefa.dfy` | the task form dialog as a class |
| `QuadranteView` | `quadrante_view.dfy` | what a column derives from its list |
| `AppState` | `app_state.dfy` | the dashboard as a class with one method per handler |
| `EndToEnd` | `end_to_end.dfy` | lemmas that relate the frontend's view to the backend's table |

The table is a map from id to row whose keys are the rows' ids. Time is an
abstract `Instant`. The database clock (`NOW()`) and the São Paulo calendar
day of an instant are parameters (`now`, `localDay`). A request that the
frontend awaits is split at the await. Its settled outcome (`Outcome`:
resolved with a value, or rejected with an error message) is a parameter.

Two behaviours of the update handler are easy to miss:

- Update recomputes the quadrant only when the body carries both `urgente`
  and `importante`. A body carrying one flag does not complete it from the
  stored row: it leaves the stored quadrant as it was, which can then be
  inconsistent with the flags (`OneFlagLeavesQuadranteStale`).
- On update, an empty title, description or justification keeps the stored
  value rather than clearing it. `responsavel` and `data_lembrete` are
  always overwritten: an omitted or empty value stores NULL.

## Model

| member | source | states |
|---|---|---|
| TarefaTypes.ParseStatus | frontend/src/types/tarefa.ts:10 | reading a status text gives the status with that name, and every status name is read back as its status |
| Text.NatToString | backend/src/controllers/tarefasController.js:213-215 | a count prints as a non-empty string of digits with no leading zero |
| Text.ParseNatToString | frontend/src/types/tarefa.ts:25 | parsing a printed count gives the count back |
| Text.NatToStringInjective | frontend/src/types/tarefa.ts:25 | two different counts never print the same text |
| Text.IntToString | frontend/src/services/api.ts:31 | an integer interpolated into a URL is non-empty text of digits and a minus sign |
| Text.IntToStringDenotes | frontend/src/services/api.ts:31 | the interpolated text is the integer's decimal numeral: digits that parse back to it, after a '-' exactly when it is negative |
| Text.IntToStringInjective | frontend/src/services/api.ts:31 | two different ids never produce the same URL text |
| Text.TrimStart | frontend/src/components/ModalTarefa.tsx:50 | the result is a suffix of the input and does not start with ECMAScript white space |
| Text.TrimStartDropsSpaces | frontend/src/components/ModalTarefa.tsx:50 | every character dropped is white space |
| Text.TrimStartEmptyIffAllSpace | frontend/src/components/ModalTarefa.tsx:50 | the result is empty exactly when the whole input is white space |
| Text.TrimEnd | frontend/src/components/ModalTarefa.tsx:50 | the result is a prefix of the input; what is dropped is white space; the result does not end in white space; it is empty exactly when the input is all white space |
| Text.Trim | frontend/src/components/ModalTarefa.tsx:50 | the trimmed title is no longer than the input and neither starts nor ends with ECMAScript white space |
| Text.TrimKeepsInnerStretch | frontend/src/components/ModalTarefa.tsx:50 | what `trim()` keeps is one contiguous stretch of the input with only white space before and after it |
| Text.TrimStartPrefixIsSpace | frontend/src/components/ModalTarefa.tsx:50 | what `trimStart()` drops is white space |
| Text.TrimEmptyIffAllSpace | frontend/src/components/ModalTarefa.tsx:50 | `trim()` yields the empty string exactly when every character is white space |
| Lists.Filter | frontend/src/components/Quadrante.tsx:70 | the result keeps exactly the elements satisfying the predicate and is no longer than the input |
| Lists.FilterCountDistinct | backend/src/controllers/tarefasController.js:204 | over a list without repeats, the filter's length is the number of distinct elements that match |
| TarefasController.Classify | backend/src/controllers/tarefasController.js:84-88 | quadrant 1, 2, 3 or 4 exactly for urgent and important, important only, urgent only, neither |
| TarefasController.ClassifyRoundTrip | backend/src/controllers/tarefasController.js:84-88 | the flags can be read back from the quadrant, and every quadrant is the image of its own flags |
| TarefasController.NewRow | backend/src/controllers/tarefasController.js:84-96 | the inserted row has the given title and flags, a quadrant consistent with them, status pending, no completion time, origin defaulting to "manual", description, justification, assignee and reminder as sent, and both timestamps at now |
| TarefasController.OrNull | backend/src/controllers/tarefasController.js:141 | `x \|\| null`: a value survives exactly when it is present and non-empty |
| TarefasController.QuadranteParam | backend/src/controllers/tarefasController.js:119-125 | a quadrant is computed exactly when both flags are in the body, and then the flags can be read back from it |
| TarefasController.Merge | backend/src/controllers/tarefasController.js:127-141 | field by field: COALESCE keeps omitted or empty values; assignee and reminder are overwritten; the quadrant is consistent when both flags are sent and unchanged otherwise; updatedAt is now; id, origin, createdAt and completedAt are untouched |
| TarefasController.MergeConsistentIff | backend/src/controllers/tarefasController.js:119-141 | starting from a consistent row, an update leaves it consistent exactly when both flags are sent or neither flag changes |
| TarefasController.AtualizarKeepsConsistency | backend/src/controllers/tarefasController.js:119-133 | an update carrying both flags keeps every row of a consistent table consistent |
| TarefasController.OneFlagLeavesQuadranteStale | backend/src/controllers/tarefasController.js:119-125 | sending only `importante: true` to an urgent, unimportant task in quadrant 3 leaves it in quadrant 3 although its flags now select quadrant 1 |
| TarefasController.MergeIdempotent | backend/src/controllers/tarefasController.js:127-141 | repeating the same update at the same instant changes nothing more |
| TarefasController.Concluded | backend/src/controllers/tarefasController.js:159-167 | the concluded row has status concluida, completion time and update time now, and every other field as before |
| TarefasController.ConcludedRestamps | backend/src/controllers/tarefasController.js:159-167 | concluding twice is concluding once at the later instant |
| TarefasController.OtherWritesKeepConsistency | backend/src/controllers/tarefasController.js:84-96 | insert, conclude and delete keep a consistent table consistent |
| TarefasController.TarefasStore.constructor | backend/src/controllers/tarefasController.js:1-3 | the handlers start on an empty table whose serial id starts at 1 |
| TarefasController.TarefasStore.Criar | backend/src/controllers/tarefasController.js:67-103 | a missing or empty title answers 400 and changes nothing; otherwise the row is stored under the next serial id and returned with 201 |
| TarefasController.TarefasStore.Atualizar | backend/src/controllers/tarefasController.js:105-153 | an unknown id answers 404 and changes nothing; otherwise the row becomes its merge with the body and is returned |
| TarefasController.TarefasStore.Concluir | backend/src/controllers/tarefasController.js:155-178 | an unknown id answers 404; otherwise the row is concluded at now and returned |
| TarefasController.TarefasStore.Excluir | backend/src/controllers/tarefasController.js:180-198 | an unknown id answers 404; otherwise the row is removed and returned with the success message |
| TarefasQueries.Rows | backend/src/controllers/tarefasController.js:7 | the table scan yields each stored row once and nothing else |
| TarefasQueries.CountRows | backend/src/controllers/tarefasController.js:204 | counting the scan's rows that satisfy a condition counts the table's rows that satisfy it |
| TarefasQueries.CountWhere | backend/src/controllers/tarefasController.js:204 | `COUNT(*) ... WHERE` is the number of stored rows satisfying the condition |
| TarefasQueries.SortByCreated | backend/src/controllers/tarefasController.js:15 | `ORDER BY created_at DESC`: a permutation of the input, newest first |
| TarefasQueries.SortKeepsCount | backend/src/controllers/tarefasController.js:15 | sorting does not change how many rows satisfy any condition |
| TarefasQueries.SortKeepsDistinct | backend/src/controllers/tarefasController.js:15 | sorting rows with distinct ids keeps the ids distinct |
| TarefasQueries.HeadIsNewest | backend/src/controllers/tarefasController.js:15 | the first row of a sorted listing is at least as new as every other row |
| TarefasQueries.Select | backend/src/controllers/tarefasController.js:7-15 | exactly the stored rows meeting the quadrant and status conditions, each once, newest first |
| TarefasQueries.ListarTodas | backend/src/controllers/tarefasController.js:4-23 | exactly the stored rows whose status is the given one (all rows when none is given), each once, newest first |
| TarefasQueries.ListarPorQuadrante | backend/src/controllers/tarefasController.js:25-46 | exactly the stored rows of the quadrant whose status is the given one (any status when none is given), each once, newest first |
| TarefasQueries.BuscarPorId | backend/src/controllers/tarefasController.js:48-65 | 200 with the stored row exactly when the id is stored, otherwise 404 with "Tarefa não encontrada" |
| TarefasQueries.Tallies | backend/src/controllers/tarefasController.js:213-215 | `GROUP BY quadrante, status`: groups with distinct keys and positive counts whose totals add up to the rows counted |
| TarefasQueries.TalliesCount | backend/src/controllers/tarefasController.js:213-215 | each group's count is the number of rows with that quadrant and status |
| TarefasQueries.Estatisticas | backend/src/controllers/tarefasController.js:200-229 | urgentes and agendadas count the open rows of quadrants 1 and 2; concluidasHoje counts rows concluded on the local day of now; each group reports the number of rows with its quadrant and status, as decimal text; groups are distinct; every row has a group |
| TarefasQueries.GroupsDescribeTable | backend/src/controllers/tarefasController.js:212-223 | the grouping's rows are correct, pairwise distinct and cover every stored row |
| TarefasQueries.GroupTotalsAddUp | backend/src/controllers/tarefasController.js:213-215 | the group totals, parsed back, add up to the number of stored tasks |
| Routes.Bind | backend/src/routes/tarefas.js:11 | the parameters bound are exactly the pattern's parameter names, each holding its segment of the path |
| Routes.FirstMatch | backend/src/routes/tarefas.js:5-19 | the index found is a route that matches, and no earlier route does; -1 when none does |
| Routes.Dispatch | backend/src/routes/tarefas.js:5-19 | no handler exactly when no route matches; otherwise the first matching route's handler with its bound parameters |
| Routes.DispatchAt | backend/src/routes/tarefas.js:5-19 | a route that matches with no earlier match is the one dispatched |
| Routes.Unmount | backend/src/server.js:25 | the router sees a path only below `/api/tarefas`, and sees what follows that prefix |
| Routes.Resolve | backend/src/server.js:25 | a URL outside `/api/tarefas` reaches no handler; a handler reached is that of a route registered for the request's method |
| Routes.TarefasRoutes | backend/src/routes/tarefas.js:5-19 | eight registrations, one per controller action; every GET route that begins with a literal segment comes before GET `/:id` |
| Routes.Router.constructor | backend/src/routes/tarefas.js:2 | `express.Router()` starts with no registrations |
| Routes.Router.Register | backend/src/routes/tarefas.js:5-19 | a registration is appended after the earlier ones, which stay in order |
| Routes.BuildTarefasRouter | backend/src/routes/tarefas.js:1-21 | the module body leaves a fresh router holding the eight registrations in order |
| Routes.StatsShadowsId | backend/src/routes/tarefas.js:5-11 | GET /stats also matches `/:id`, but reaches the statistics handler because it is registered first |
| Routes.CollectionPath | backend/src/routes/tarefas.js:7-13 | GET on the collection lists all tasks; POST on it creates one |
| Routes.SingleSegmentIsId | backend/src/routes/tarefas.js:11-19 | any other single non-empty segment is an id for GET, PUT and DELETE |
| Routes.QuadrantePath | backend/src/routes/tarefas.js:9 | GET /quadrante/q reaches the quadrant listing with q bound |
| Routes.ConcluirPath | backend/src/routes/tarefas.js:17 | PATCH /:id/concluir reaches the conclude handler with the id bound |
| Routes.CollectionRejectsOtherMethods | backend/src/routes/tarefas.js:7-13 | PUT, PATCH and DELETE on the collection match no route |
| Routes.PostOnlyOnCollection | backend/src/routes/tarefas.js:13 | POST on any path below the collection matches no route |
| Api.StatusQuery | frontend/src/services/api.ts:15-17 | a query string appears exactly when a non-empty status is passed, and it is `?status=` followed by the status |
| Api.ListarTodasRequest | frontend/src/services/api.ts:14-20 | GET `/api/tarefas` followed by the status query, without a body |
| Api.ListarPorQuadranteRequest | frontend/src/services/api.ts:22-28 | GET `/api/tarefas/quadrante/` and the quadrant's decimal text, followed by the status query, without a body |
| Api.BuscarPorIdRequest | frontend/src/services/api.ts:30-33 | GET `/api/tarefas/` and the id's decimal text, without a body |
| Api.CriarRequest | frontend/src/services/api.ts:35-42 | POST `/api/tarefas` with the form as the body |
| Api.AtualizarRequest | frontend/src/services/api.ts:44-51 | PUT `/api/tarefas/` and the id's decimal text, with the form as the body |
| Api.ConcluirRequest | frontend/src/services/api.ts:53-58 | PATCH `/api/tarefas/`, the id's decimal text and `/concluir`, without a body |
| Api.ExcluirRequest | frontend/src/services/api.ts:60-65 | DELETE `/api/tarefas/` and the id's decimal text, without a body |
| Api.EstatisticasRequest | frontend/src/services/api.ts:67-70 | GET `/api/tarefas/stats`, without a body |
| Api.CreateBodyOf | frontend/src/services/api.ts:39 | the JSON body carries every form field and no reminder or origin |
| Api.UpdateBodyOf | frontend/src/services/api.ts:48 | the JSON body carries every form field, both flags included, and no status or reminder |
| Api.FailureMessage | frontend/src/services/api.ts:6-8 | the thrown message is the body's non-empty `error`, "Erro na requisição" when it has none, "Erro desconhecido" when the body is not JSON; never empty |
| Api.HandleResponse | frontend/src/services/api.ts:5-11 | resolves with the body exactly when the response is ok, otherwise rejects with the failure message |
| Api.Receive | frontend/src/services/api.ts:5-11 | a controller reply resolves exactly when it is a success, with its value; an error reply rejects with its message, or "Erro na requisição" when that is empty |
| Api.ControllerErrorsReachCaller | frontend/src/services/api.ts:5-11 | a controller's error reply reaches the caller as an Error with the controller's own message |
| Api.IntTextIsSegment | frontend/src/services/api.ts:31 | an interpolated id is one non-empty path segment without '/' or '?', and never "stats" |
| Api.ListarTodasReachesHandler | frontend/src/services/api.ts:14-20 | the listing URL, with or without a status query, reaches the all-tasks handler |
| Api.ListarPorQuadranteReachesHandler | frontend/src/services/api.ts:22-28 | the quadrant listing URL reaches the quadrant handler with the quadrant's text bound |
| Api.BuscarPorIdReachesHandler | frontend/src/services/api.ts:30-33 | GET /tarefas/id reaches the lookup handler with the id bound |
| Api.CriarReachesHandler | frontend/src/services/api.ts:35-42 | POST /tarefas reaches the create handler |
| Api.AtualizarReachesHandler | frontend/src/services/api.ts:44-51 | PUT /tarefas/id reaches the update handler with the id bound |
| Api.ConcluirReachesHandler | frontend/src/services/api.ts:53-58 | PATCH /tarefas/id/concluir reaches the conclude handler with the id bound |
| Api.ExcluirReachesHandler | frontend/src/services/api.ts:60-65 | DELETE /tarefas/id reaches the delete handler with the id bound, not the conclude one |
| Api.EstatisticasReachesHandler | frontend/src/services/api.ts:67-70 | GET /tarefas/stats reaches the statistics handler, not the lookup by id |
| ModalTarefa.QuadranteLabel | frontend/src/components/ModalTarefa.tsx:69-72 | each badge label starts with "Q", the quadrant's digit and " - " |
| ModalTarefa.ModalState.constructor | frontend/src/components/ModalTarefa.tsx:13-22 | the form starts empty, not urgent, important, not loading and without an error |
| ModalTarefa.ModalState.Sync | frontend/src/components/ModalTarefa.tsx:24-45 | opening the dialog fills the form from the task (null texts as "") or empties it, and clears the error |
| ModalTarefa.ModalState.BeginSubmit | frontend/src/components/ModalTarefa.tsx:47-59 | a title that trims to nothing sets the error and sends nothing; otherwise the dialog starts loading, clears the error and hands over the form |
| ModalTarefa.ModalState.FinishSubmit | frontend/src/components/ModalTarefa.tsx:58-65 | success asks to close; failure shows the Error's message or the generic one; loading ends either way |
| ModalTarefa.ModalState.GetQuadrante | frontend/src/components/ModalTarefa.tsx:68-73 | the preview shows the quadrant the classifier computes, with its label |
| QuadranteView.TarefasFiltradas | frontend/src/components/Quadrante.tsx:69-71 | no filter shows the whole list; a filter shows exactly its tasks whose status is the filter, in list order |
| QuadranteView.PendentesCount | frontend/src/components/Quadrante.tsx:73 | the badge is the number of the column's open tasks; zero exactly when no task is open, and the list's length exactly when every task is |
| QuadranteView.FiltroOpcoesAreStatuses | frontend/src/components/Quadrante.tsx:92 | the options are "all" and three status names; cancelled has no option |
| QuadranteView.PendingPlusClosed | frontend/src/components/Quadrante.tsx:73 | open, concluded and cancelled tasks add up to the column's list |
| AppState.FindByIdMeaning | frontend/src/App.tsx:152 | `find` returns the first task of the list with the id, and nothing exactly when no task has it |
| AppState.FindFromMeaning | frontend/src/App.tsx:151-154 | the scan from a quadrant on finds a task with the id in one of those quadrants, and nothing exactly when none has it |
| AppState.FindFromEarliest | frontend/src/App.tsx:151-154 | the scan from a quadrant on answers what `find` answers in the earliest quadrant holding the id |
| AppState.TarefaExcluindoMeaning | frontend/src/App.tsx:149-156 | no selection or id 0 names no task; otherwise the task named has the selected id and is in some column, and nothing is named only when no column has it |
| AppState.TarefaExcluindoEarliest | frontend/src/App.tsx:149-156 | the dialog names the first task with the id in the lowest-numbered quadrant holding it |
| AppState.Dashboard.constructor | frontend/src/App.tsx:17-41 | four empty lists and filters, loading, no statistics, both dialogs closed, nothing selected, no toast |
| AppState.Dashboard.CarregarTarefas | frontend/src/App.tsx:47-62 | sends GET `/api/tarefas/quadrante/k` without a status for k = 1 to 4; all four answers replace the lists, each under its quadrant, or one failure keeps them and shows the error toast; loading ends either way |
| AppState.Dashboard.CarregarStats | frontend/src/App.tsx:64-73 | sends GET `/api/tarefas/stats`; the statistics are replaced on success and kept on failure; their loading ends either way |
| AppState.Dashboard.HandleConcluir | frontend/src/App.tsx:87-97 | sends PATCH for the id; success shows the success toast and reloads, failure shows the error toast |
| AppState.Dashboard.HandleExcluir | frontend/src/App.tsx:99-102 | selects the id and opens the confirmation dialog |
| AppState.Dashboard.BeginConfirmarExclusao | frontend/src/App.tsx:104-109 | with no selection or id 0 nothing is sent; otherwise DELETE for the selected id is sent and the dialog shows loading |
| AppState.Dashboard.FinishConfirmarExclusao | frontend/src/App.tsx:109-120 | success closes the dialog, clears the selection, shows the toast and reloads; failure keeps the dialog and shows the error toast; loading ends either way |
| AppState.Dashboard.HandleEditar | frontend/src/App.tsx:123-126 | opens the form dialog on the task |
| AppState.Dashboard.HandleNovaTarefa | frontend/src/App.tsx:128-131 | opens the form dialog on no task |
| AppState.Dashboard.CloseModalTarefa | frontend/src/App.tsx:190-193 | closes the form dialog and forgets the task being edited |
| AppState.Dashboard.HandleSalvarTarefa | frontend/src/App.tsx:133-143 | sends PUT for the task being edited or POST for a new one; success shows the matching toast and asks for both reloads; failure is rethrown to the dialog without a toast or reload |
| AppState.Dashboard.HandleFiltroChange | frontend/src/App.tsx:145-147 | sets one column's filter and leaves the others as they were |
| AppState.Dashboard.GetTarefaExcluindo | frontend/src/App.tsx:149-156 | the nested scan over the columns returns what TarefaExcluindo specifies |
| EndToEnd.CreateThenConcludeCounts | backend/src/controllers/tarefasController.js:204-210 | creating an urgent and important task adds one open task to quadrant 1; concluding it instead leaves that count as before and adds one task concluded on that day |
| EndToEnd.CreateRaisesUrgentes | backend/src/controllers/tarefasController.js:204 | creating an urgent and important task raises urgentes by one |
| EndToEnd.ConcludeRestoresUrgentes | backend/src/controllers/tarefasController.js:159-167 | creating then concluding such a task leaves urgentes as before and raises concluidasHoje by one |
| EndToEnd.CreatedRowIsListed | backend/src/controllers/tarefasController.js:30-31 | the created task is in quadrant 1's listing |
| EndToEnd.ConcludedRowLeavesPendingListing | backend/src/controllers/tarefasController.js:30-36 | once concluded, the task leaves quadrant 1's pending listing but stays in its unfiltered listing |
| EndToEnd.BadgeCountsOpenRows | frontend/src/components/Quadrante.tsx:73 | a column's badge over its listing counts the table's open rows of that quadrant |
| EndToEnd.PendingBadgeMatchesStats | backend/src/controllers/tarefasController.js:204-208 | the badges of columns 1 and 2 equal urgentes and agendadas |
| EndToEnd.ClientFilterMatchesServerFilter | frontend/src/components/Quadrante.tsx:69-71 | filtering a column in the browser shows the rows the server's status filter returns |
| EndToEnd.ListingMembers | backend/src/controllers/tarefasController.js:30-36 | a row is in a quadrant listing exactly when it is stored, in that quadrant and of the requested status |
| EndToEnd.FormTitleImpliesServerTitle | frontend/src/components/ModalTarefa.tsx:50-53 | a title the form accepts is one the create handler accepts |
| EndToEnd.SpacesTitlePassesServerOnly | backend/src/controllers/tarefasController.js:80-82 | a title of spaces passes the handler's check but not the form's |
| EndToEnd.PreviewMatchesServer | frontend/src/components/ModalTarefa.tsx:68-73 | the form's badge is the quadrant the server stores, on create and on update |
| EndToEnd.EditingUnchangedFormClearsReminder | backend/src/controllers/tarefasController.js:135-137 | saving an unchanged edit form keeps every field it shows but clears the reminder and turns an empty assignee into NULL |
| EndToEnd.ListingShows | frontend/src/App.tsx:164-168 | an unfiltered quadrant listing holds the stored rows of that quadrant as stored |
| EndToEnd.ConfirmationNamesTheRow | frontend/src/App.tsx:149-156 | when the columns show the table, the dialog names the stored row for any stored non-zero id |
| EndToEnd.ControllerMessagesReachCaller | backend/src/controllers/tarefasController.js:57 | a lookup of a missing id rejects in the client with "Tarefa não encontrada" and of a stored id resolves with its row; the create handler's 400 rejects with "Título é obrigatório"; a 404 from delete rejects with "Tarefa não encontrada" |

## Left out

- The PostgreSQL pool and every 500 answer. A failing query is not modelled, so no handler answers 500. The `details` field of the update's 500 body is left out too.
- The conversion of `:id` and `:quadrante` from text to integer, which PostgreSQL performs. The handlers take integers, and a non-numeric id, which fails the query, is not modelled.
- The time zone. `NOW()` is the parameter `now`, and the America/Sao_Paulo calendar day of an instant is the parameter `localDay`.
- The 30-second polling in App.tsx (lines 75-85) and any interleaving of concurrent requests. Each handler runs to its await, and its outcome arrives as a parameter.
- `fetch`, JSON encoding and parsing, CORS and the `Content-Type` header. A request is a value: method, URL and form.
- Rendering: JSX, CSS classes other than the badge colours, icons, the health endpoint and the static files served in production.
- The components Header, TarefaCard, Toast, Loading and ModalConfirmacao, which only display state the model holds. The database configuration file is not part of this model either.
- JavaScript truthiness of non-boolean flags. `urgente` and `importante` are booleans. An omitted flag in a create body is modelled as `false`, and what the INSERT would then store depends on a schema that is not part of this model.
- Status strings outside the four statuses. A stored status is one of the four, and a status filter is compared as text.
- Express's case-insensitive matching, percent-decoding of path segments and repeated slashes. Paths are matched segment by segment as written.
- Query-string parsing beyond cutting at the first '?'. The status filter reaches the handlers as an already parsed value.
- TarefasQueries.ListarTodas: rows with equal `created_at` come in ascending id order in the model. PostgreSQL leaves their order unspecified, so the contract promises only newest first.
- TarefasQueries.Estatisticas: the order of the grouping's rows is not specified, as in SQL. The contract states their content, not their order.
- `console.error` logging.
- An explicit JSON `null` in a request body. `None` is an omitted key. The update handler tests `urgente !== undefined` (tarefasController.js:120), so an explicit `null` flag would recompute the quadrant from a falsy flag. The create handler's `origem = 'manual'` default (line 77) applies only to an omitted key, so an explicit `null` origin would be stored as NULL. Neither case is modelled.
- The production fallback `app.get('*')` (server.js:30), which answers a request no route matches with the frontend's `index.html`. A request that reaches no handler is modelled as reaching none (`Routes.Resolve` returns `None`).
