/** `PUT /todos/:todoId/`: a partial update. Fields missing from the body
    default to the stored row; the first field present, in the order status,
    priority, todo, category, due date, chooses the branch, and only that
    field is checked although every column is rewritten. */
module UpdateRoute {
  import opened Values
  import opened Rows

  /** The request body: any subset of the fields. */
  datatype Changes = Changes(
    todo: Option<string>, priority: Option<string>, status: Option<string>,
    category: Option<string>, dueDate: Option<string>)

  function ChangeOf(c: Changes, f: Field): Option<string> {
    match f
    case TodoField => c.todo
    case PriorityField => c.priority
    case StatusField => c.status
    case CategoryField => c.category
    case DueDateField => c.dueDate
  }

  /** A body that carries all five fields. */
  predicate Complete(c: Changes) {
    c.todo.Some? && c.priority.Some? && c.status.Some? && c.category.Some? && c.dueDate.Some?
  }

  /** The destructuring with defaults: each field the body leaves out takes
      the stored row's value. A default is evaluated only for a missing
      field, so the stored row (`None` when the id has no row) is read only
      when the body is incomplete; reading a column of a missing row throws. */
  function WithDefaults(prev: Option<Todo>, c: Changes): (row: Todo)
    requires prev.Some? || Complete(c)
    ensures forall f :: ChangeOf(c, f).Some? ==> ColumnOf(row, f) == ChangeOf(c, f).value
    ensures prev.Some? ==> forall f :: ChangeOf(c, f).None? ==> ColumnOf(row, f) == ColumnOf(prev.value, f)
  {
    Todo(
      if c.todo.Some? then c.todo.value else prev.value.todo,
      if c.priority.Some? then c.priority.value else prev.value.priority,
      if c.status.Some? then c.status.value else prev.value.status,
      if c.category.Some? then c.category.value else prev.value.category,
      if c.dueDate.Some? then c.dueDate.value else prev.value.due_date)
  }

  /** A complete body makes the stored row irrelevant. */
  lemma CompleteBodyIgnoresStoredRow(prev: Option<Todo>, prev': Option<Todo>, c: Changes)
    requires Complete(c)
    ensures WithDefaults(prev, c) == WithDefaults(prev', c)
  {
  }

  /** The order in which the handler looks for a field in the body. */
  const UpdateOrder: seq<Field> := [StatusField, PriorityField, TodoField, CategoryField, DueDateField]

  /** The first field of `order` the body supplies. */
  function FirstPresent(order: seq<Field>, c: Changes): (r: Option<Field>)
    ensures r.None? <==> forall i :: 0 <= i < |order| ==> ChangeOf(c, order[i]).None?
    ensures r.Some? ==> ChangeOf(c, r.value).Some?
    ensures r.Some? ==> exists i :: 0 <= i < |order| && order[i] == r.value
                          && forall j :: 0 <= j < i ==> ChangeOf(c, order[j]).None?
  {
    if |order| == 0 then None
    else if ChangeOf(c, order[0]).Some? then Some(order[0])
    else
      var rest := FirstPresent(order[1..], c);
      if rest.Some? then
        ghost var i :| 0 <= i < |order[1..]| && order[1..][i] == rest.value
                      && forall j :: 0 <= j < i ==> ChangeOf(c, order[1..][j]).None?;
        assert order[i + 1] == rest.value;
        rest
      else rest
  }

  /** The row an accepted update stores: the body over the stored row, with
      the due date normalised only when the due-date branch runs. */
  function Rewritten(env: Env, prev: Todo, c: Changes, chosen: Field): (row: Todo)
    requires ChangeOf(c, chosen).Some?
    ensures forall f :: ChangeOf(c, f).None? ==> ColumnOf(row, f) == ColumnOf(prev, f)
    ensures forall f :: f != DueDateField && ChangeOf(c, f).Some? ==> ColumnOf(row, f) == ChangeOf(c, f).value
    ensures c.dueDate.Some? ==>
      row.due_date == if chosen == DueDateField then env.normalize(c.dueDate.value) else c.dueDate.value
  {
    var row := WithDefaults(Some(prev), c);
    if chosen == DueDateField then row.(due_date := env.normalize(row.due_date)) else row
  }

  /** The success message naming the branch's field. */
  function UpdatedMessage(f: Field): string {
    match f
    case StatusField => "Status Updated"
    case PriorityField => "Priority Updated"
    case TodoField => "Todo Updated"
    case CategoryField => "Category Updated"
    case DueDateField => "Due Date Updated"
  }

  /** The handler. It reads the stored row first and has no not-found case:
      for an id with no row it throws while filling in a missing field, so
      the id must be stored unless the body is complete. With a complete
      body and no stored row the `UPDATE` matches nothing. */
  function UpdateTodo(env: Env, id: Id, c: Changes, t: Table): (r: Outcome)
    requires id in t || Complete(c)
    ensures r.table.Keys == t.Keys
    ensures forall k :: k in t && k != id ==> r.table[k] == t[k]
    ensures id !in t ==> r.table == t
    ensures r.response.None? ==> r.table == t
    ensures r.table != t ==> r.response.Some? && r.response.value.status == 200
  {
    var row := WithDefaults(if id in t then Some(t[id]) else None, c);
    if c.status.Some? then
      if IsValidStatus(row.status) then Outcome(Some(Ok(Message("Status Updated"))), Store(t, id, row))
      else Outcome(Some(BadRequest(InvalidStatus)), t)
    else if c.priority.Some? then
      if IsValidPriority(row.priority) then Outcome(Some(Ok(Message("Priority Updated"))), Store(t, id, row))
      else Outcome(Some(BadRequest(InvalidPriority)), t)
    else if c.todo.Some? then
      Outcome(Some(Ok(Message("Todo Updated"))), Store(t, id, row))
    else if c.category.Some? then
      if IsValidCategory(row.category) then Outcome(Some(Ok(Message("Category Updated"))), Store(t, id, row))
      else Outcome(Some(BadRequest(InvalidCategory)), t)
    else if c.dueDate.Some? then
      if env.validDate(row.due_date) then
        Outcome(Some(Ok(Message("Due Date Updated"))), Store(t, id, row.(due_date := env.normalize(row.due_date))))
      else Outcome(Some(BadRequest(InvalidDueDate)), t)
    else
      Outcome(None, t)
  }

  /** `UPDATE todo SET ... WHERE id = ?`: rewrites the row with that id, and
      changes nothing when there is none. */
  function Store(t: Table, id: Id, row: Todo): (t': Table)
    ensures t'.Keys == t.Keys
    ensures id in t ==> t'[id] == row
    ensures id !in t ==> t' == t
    ensures forall k :: k in t && k != id ==> t'[k] == t[k]
  {
    if id in t then t[id := row] else t
  }

  /** The branch is chosen by the first field present in `UpdateOrder`, and
      only that field is checked: when it fails, 400 with its message and no
      change; when it passes, the rewritten row is stored and the answer names
      the field; a body with no known field gets no answer. */
  lemma {:induction false} UpdateChecksOnlyChosenField(env: Env, id: Id, c: Changes, t: Table)
    requires id in t || Complete(c)
    ensures var r := UpdateTodo(env, id, c, t);
      FirstPresent(UpdateOrder, c).None? ==> r == Outcome(None, t)
    ensures var r, chosen := UpdateTodo(env, id, c, t), FirstPresent(UpdateOrder, c);
      chosen.Some? && !Accepts(env, chosen.value, ChangeOf(c, chosen.value)) ==>
        r == Outcome(Some(BadRequest(InvalidMessage(chosen.value))), t)
    ensures var r, chosen := UpdateTodo(env, id, c, t), FirstPresent(UpdateOrder, c);
      chosen.Some? && Accepts(env, chosen.value, ChangeOf(c, chosen.value)) ==>
        && r.response == Some(Ok(Message(UpdatedMessage(chosen.value))))
        && (id in t ==> r.table[id] == Rewritten(env, t[id], c, chosen.value))
        && (id !in t ==> r.table == t)
  {
    UpdateOrderVerdict(c);
  }

  /** The field the handler's `if`/`else if` chain selects, spelled out. */
  lemma UpdateOrderVerdict(c: Changes)
    ensures FirstPresent(UpdateOrder, c) ==
      if c.status.Some? then Some(StatusField)
      else if c.priority.Some? then Some(PriorityField)
      else if c.todo.Some? then Some(TodoField)
      else if c.category.Some? then Some(CategoryField)
      else if c.dueDate.Some? then Some(DueDateField)
      else None
  {
    var o := UpdateOrder;
    var o1 := [PriorityField, TodoField, CategoryField, DueDateField];
    var o2 := [TodoField, CategoryField, DueDateField];
    var o3 := [CategoryField, DueDateField];
    var o4 := [DueDateField];
    assert o[1..] == o1 && o1[1..] == o2 && o2[1..] == o3 && o3[1..] == o4 && o4[1..] == [];
    assert FirstPresent(o4, c) == if c.dueDate.Some? then Some(DueDateField) else None;
    assert FirstPresent(o3, c) == if c.category.Some? then Some(CategoryField) else FirstPresent(o4, c);
    assert FirstPresent(o2, c) == if c.todo.Some? then Some(TodoField) else FirstPresent(o3, c);
    assert FirstPresent(o1, c) == if c.priority.Some? then Some(PriorityField) else FirstPresent(o2, c);
  }

  /** A complete body for an id with no row takes the status branch: it is
      answered as if the row existed, and the table is unchanged. */
  lemma MissingRowCompleteBody(env: Env, id: Id, c: Changes, t: Table)
    requires id !in t && Complete(c)
    ensures UpdateTodo(env, id, c, t) ==
      if IsValidStatus(c.status.value) then Outcome(Some(Ok(Message("Status Updated"))), t)
      else Outcome(Some(BadRequest(InvalidStatus)), t)
  {
  }

  /** A body holding only a valid status changes the status and nothing else. */
  lemma StatusOnlyUpdate(env: Env, id: Id, t: Table, status: string)
    requires id in t && IsValidStatus(status)
    ensures UpdateTodo(env, id, Changes(None, None, Some(status), None, None), t)
         == Outcome(Some(Ok(Message("Status Updated"))), t[id := t[id].(status := status)])
  {
  }

  /** Only the selected field is checked: a valid status carries an invalid
      priority and an unparsed due date into the table unchanged. */
  lemma UnselectedFieldsUnchecked(env: Env, id: Id, t: Table, status: string, priority: string, dueDate: string)
    requires id in t && IsValidStatus(status) && !IsValidPriority(priority) && !env.validDate(dueDate)
    ensures var r := UpdateTodo(env, id, Changes(None, Some(priority), Some(status), None, Some(dueDate)), t);
      && r.response == Some(Ok(Message("Status Updated")))
      && r.table[id].priority == priority
      && r.table[id].due_date == dueDate
      && !Conforms(r.table[id])
  {
  }

  /** Hence an update can turn a table whose rows all have valid enumeration
      columns into one that has a row without. */
  lemma UpdateCanBreakConformance(env: Env)
    ensures var t := map[1 := Todo("Learn Dafny", "HIGH", "TO DO", "LEARNING", "2021-02-22")];
      var r := UpdateTodo(env, 1, Changes(Some("Learn Dafny"), None, None, Some("GARDEN"), None), t);
      && AllConform(t)
      && r.response == Some(Ok(Message("Todo Updated")))
      && !AllConform(r.table)
  {
  }
}
