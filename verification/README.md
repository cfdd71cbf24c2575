# Todo API request logic, modelled in Dafny

This project models the request-decision logic of a small Express + SQLite
todo API (`app.js`). The SQLite table becomes an immutable `map<Id, Todo>`.
Each route handler becomes a pure function from the request and the table to
the response it sends and the table afterwards.

- `values.dfy` (module `Values`): the three enumerations and their validators
  (`isValidPriority`, `isValidStatus`, `isValidCategory`), the request fields,
  the 400 messages, and the first-failing-check rule.
- `rows.dfy` (module `Rows`): the row, the table, the JSON row shape
  (`outPutResult`, which renames `due_date` to `dueDate`), the `WHERE` clauses
  the handlers issue, `SELECT` as a set of response objects, and responses.
- `list_todos.dfy` (module `ListRoute`): `GET /todos/`. A non-empty `search_q`
  wins. Otherwise the first applicable combination in the order
  priority+status, category+status, category+priority, priority, status,
  category, none is used. That combination validates only its own
  parameters, in its own order. The handler's `switch (true)` chain is proved
  equal to an independent rule-list statement of the same dispatch.
- `records.dfy` (module `ReadRoutes`): `GET /todos/:todoId/` and `GET /agenda/`.
- `create_todo.dfy` (module `CreateRoute`): `POST /todos/`. Checks run in the
  order priority, status, category, due date, and the first failure answers
  400. On success one row is inserted, with its due date normalised.
- `update_todo.dfy` (module `UpdateRoute`): `PUT /todos/:todoId/`. Omitted
  fields default to the stored row. The first field present, in the order
  status, priority, todo, category, due date, picks the branch. Only that
  field is checked, but every column is rewritten.
- `delete_todo.dfy` (module `DeleteRoute`): `DELETE /todos/:todoId/`.
- `api.dfy` (module `Api`): all routes behind one `Handle`, with the
  properties that hold across them. A rejected or unanswered request changes
  nothing, read-only routes never change the table, and a write changes only
  the row it names.

The calendar-date functions of date-fns (`isValid(new Date(s))` and
`format(new Date(s), "yyyy-MM-dd")`) are not modelled. Neither is SQL `LIKE`.
All three are passed to the handlers as the fields `validDate`, `normalize`
and `matches` of an `Env` value. Every property is proved for every choice of
these three functions.

The create handler validates every enumeration field and the due date
before inserting (app.js:165-168), so a create never stores an invalid
priority, status or category (`CreateKeepsRowsConforming`). Its due date is
stored as `normalize` gives it, and `normalize` is not constrained here. The
update handler does not validate every field. It checks only the field that
picks the branch and writes the other body fields as given. Those can be an
unchecked enumeration value, or a due date that is neither validated nor
normalised. `UnselectedFieldsUnchecked` and `UpdateCanBreakConformance` show
this.

## Model

| member | source | states |
|---|---|---|
| Values.IsValidPriority | app.js:50-51 | a string is accepted exactly when it is the name of one of the three priorities HIGH, MEDIUM, LOW |
| Values.IsValidStatus | app.js:52-53 | a string is accepted exactly when it is the name of one of the three statuses TO DO, IN PROGRESS, DONE |
| Values.IsValidCategory | app.js:54-55 | a string is accepted exactly when it is the name of one of the three categories WORK, HOME, LEARNING |
| Values.NamesAreInjective | app.js:50-55 | the three names in each list are distinct, so each validator accepts exactly three strings |
| Values.Accepts | app.js:165-168 | the todo text is never rejected; an enumeration field is accepted exactly when it is present and the name of a value of its enumeration; a due date exactly when it is present and parses |
| Values.FirstRejected | app.js:165-196 | the field reported is the first in check order whose value fails its check, every earlier one passes, and none is reported exactly when all pass |
| Rows.OutPutResult | app.js:57-64 | the response object keeps the id and all five columns, with `due_date` under the name `dueDate`, so the row can be recovered from it |
| Rows.OutPutResultRoundTrip | app.js:57-64 | every response object is the image of the row it names, so mapping a row is a bijection |
| Rows.Holds | app.js:72-154 | the search clause is `LIKE` on the todo text; every other clause holds exactly when each column it names equals the value it gives |
| Rows.Select | app.js:115-117 | a query returns one object for exactly those stored rows that satisfy its `WHERE` clause, each equal to that row |
| Rows.SelectCount | app.js:136-138 | the response holds as many objects as there are matching rows |
| ListRoute.ListPlan | app.js:69-139 | a non-empty `search_q` selects the text search with no enumeration check; a rejection names an enumeration field and only happens without a search |
| ListRoute.ListTodos | app.js:66-140 | the list route answers 400 with the decision's message exactly when a check fails, and otherwise answers 200 with exactly the stored rows that satisfy the chosen clause |
| ListRoute.ListTodosFollowsRules | app.js:66-140 | the list route answers 400 with the message of the first failed check of the first applicable combination, and otherwise 200 with exactly the stored rows satisfying that combination's clause (or the search) |
| ListRoute.Searching | app.js:69-71 | the search branch runs exactly when `search_q` is given and non-empty |
| ListRoute.FirstApplicable | app.js:77-139 | the combination picked applies, every combination before it in the precedence does not, and none is picked only when none applies |
| ListRoute.AppliesAsTested | app.js:31-48 | each combination applies exactly when the matching `has*` test holds (`HasPriorityAndStatusProperties`, `HasCategoryAndStatus`, `HasCategoryAndPriority`, `HasPriorityProperty`, `HasStatusProperty`, `HasCategoryProperty`), and the unfiltered one always applies |
| ListRoute.ChosenBranchIsFirstApplicable | app.js:77-139 | the `switch (true)` cases pick the first combination of the precedence order that applies |
| ListRoute.ListPlanFollowsPrecedence | app.js:69-139 | the handler's decision equals the rule list: search first, then the first applicable combination, its own fields checked in its order, its clause run when all pass |
| ListRoute.EmptySearchFallsThrough | app.js:69-75 | an empty `search_q` is handled as if it were not given and never runs the search |
| ListRoute.CategoryIgnoredWithPriorityAndStatus | app.js:77-87 | with priority and status given, any category value, valid or not, leaves the decision unchanged |
| ListRoute.PriorityAndStatusFilter | app.js:78-87 | an invalid priority is reported before an invalid status; with both valid the response holds exactly the rows with that priority and that status |
| ReadRoutes.GetTodo | app.js:142-147 | reading an existing id answers 200 with that row's object |
| ReadRoutes.Agenda | app.js:149-160 | a missing or unparseable date answers 400 "Invalid Due Date"; otherwise exactly the rows whose due date equals the normalised date |
| CreateRoute.CreateTodo | app.js:162-197 | a rejected or unanswered create leaves the table unchanged; a create that changes the table was for a new id, answers "Todo Successfully Added", adds exactly that id and leaves every existing row as it was |
| CreateRoute.CreateFirstFailureWins | app.js:165-196 | the first failing check in the order priority, status, category, due date answers 400 with that field's message, and nothing is inserted |
| CreateRoute.CreateInsertsOneRow | app.js:168-184 | when every check passes and the id is new, the table grows by exactly one row holding the sent todo, priority, status and category and the normalised due date; an id already present gets no answer and no change |
| CreateRoute.CreateChecksVerdict | app.js:165-196 | the checks run in the order priority, status, category, due date |
| CreateRoute.PriorityCheckedFirst | app.js:165-196 | an invalid or missing priority is reported whatever the other fields hold, and the table is unchanged |
| CreateRoute.CreateKeepsRowsConforming | app.js:165-184 | a create never stores an invalid priority, status or category |
| UpdateRoute.WithDefaults | app.js:203-212 | each column takes the body's value when the body has the field and the stored value otherwise; the stored row is needed only when the body omits a field |
| UpdateRoute.CompleteBodyIgnoresStoredRow | app.js:206-212 | with all five fields in the body, the row written does not depend on the stored row, or on whether there is one |
| UpdateRoute.FirstPresent | app.js:216-298 | the field picked is present in the body, every field before it in the order is absent, and none is picked only when the body has none |
| UpdateRoute.UpdateOrderVerdict | app.js:216-298 | the branch is chosen by the first present field in the order status, priority, todo, category, due date |
| UpdateRoute.UpdateTodo | app.js:199-299 | an update keeps the set of ids and every other row; for an id with no row it changes nothing; when it sends no answer nothing changes, and it changes the table only with a 200 answer |
| UpdateRoute.MissingRowCompleteBody | app.js:199-229 | a complete body for an id with no row takes the status branch, answers "Status Updated" or "Invalid Todo Status" by the status alone, and changes nothing |
| UpdateRoute.Store | app.js:219-228 | the `UPDATE ... WHERE id = ?` keeps the set of ids, puts the new row at that id when it is stored, changes nothing when it is not, and leaves every other row as it was |
| UpdateRoute.UpdateChecksOnlyChosenField | app.js:216-298 | only the first present field in the order status, priority, todo, category, due date is checked; if it fails, 400 with its message and no change; if it passes, the answer names that field and the rewritten row is stored when the id has a row; a body with no known field gets no answer and no change |
| UpdateRoute.Rewritten | app.js:206-293 | the stored row keeps every column the body omits, takes every other body field as given, and normalises the due date only in the due-date branch |
| UpdateRoute.StatusOnlyUpdate | app.js:216-229 | a body with only a valid status changes that row's status and nothing else, answering "Status Updated" |
| UpdateRoute.UnselectedFieldsUnchecked | app.js:216-229 | with a valid status, an invalid priority and an unparseable due date in the same body are stored as given |
| UpdateRoute.UpdateCanBreakConformance | app.js:250-262 | for every behaviour of the date library and `LIKE`, a todo-text update stores an invalid category, turning a table of valid rows into one with an invalid row |
| DeleteRoute.DeleteTodo | app.js:301-306 | delete always answers "Todo Deleted", removes the id if present and leaves every other row unchanged |
| DeleteRoute.DeleteIdempotent | app.js:301-306 | deleting the same id twice has the effect of deleting it once |
| Api.Handle | app.js:66-306 | across all routes: a 400 or no answer leaves the table unchanged, reads never change it, a write changes or adds only the row at the id it names, and only a delete removes a row, the one it names |
| Api.CreateThenGet | app.js:142-184 | after a successful create, reading its id returns the sent fields with the due date normalised |
| Api.DeleteUndoesCreate | app.js:301-306 | deleting the id a create inserted at restores the table the create started from |
| Api.DeleteThenGet | app.js:301-306 | after a delete, there is no row to read at that id |

## Left out

- Server plumbing is not modelled: Express routing, `app.listen`, opening the SQLite file and exiting on failure (app.js:1-29). None of it holds decision logic.
- Date handling is modelled only through `Env.validDate` and `Env.normalize`. The parsing rules of `new Date` and the `yyyy-MM-dd` output format belong to the JavaScript engine and date-fns.
- The search branch's `LIKE '%q%'` is modelled only through `Env.matches`. Its case-insensitivity, its unescaped `%` and `_` wildcards and its string interpolation (open to injection) are not modelled.
- List responses are sets. The queries have no `ORDER BY`, so row order is unspecified. Ids are unique, so the set has one object per row (`Rows.SelectCount`).
- Request values are strings or absent. JSON `null`, numbers, arrays and repeated query parameters are not modelled. Neither is the string-to-integer coercion between the path's `todoId` and the stored id; `Id` is an integer throughout.
- ReadRoutes.GetTodo: requires the id to be in the table. For a missing id the source calls `outPutResult(undefined)`, which throws and sends no response.
- UpdateRoute.UpdateTodo: requires the id to be in the table or the body to carry all five fields. For a missing id the source evaluates the default of an omitted field, `previousTodo.todo` and so on, on `undefined`, which throws and sends no response.
- CreateRoute.CreateTodo: the body always carries `id` and `todo`. Inserting a missing one as `NULL` depends on the table's schema, which is not part of this model.
- CreateRoute.CreateTodo: inserting an id already in the table is modelled as a rejected `INSERT`, so no response is sent and the table is unchanged. This assumes `id` is the table's unique key; the schema is not part of this model. Other database errors are not modelled.
- An update body with no recognised field sends no response, so no response is invented; the table is unchanged.
- `hasSearchProperty` (app.js:45) is never called by the source and is not modelled.
- Interleaving of asynchronous handlers on the shared connection is not modelled; each request is one atomic transition.
