/** `POST /todos/`: nested validation of priority, status, category and due
    date, then one `INSERT`. */
module CreateRoute {
  import opened Values
  import opened Rows

  /** The request body; the enumeration fields and the due date may be absent. */
  datatype NewTodo = NewTodo(
    id: Id, todo: string,
    priority: Option<string>, status: Option<string>, category: Option<string>, dueDate: Option<string>)

  /** The body's fields in the order the handler checks them. */
  function CreateChecks(b: NewTodo): seq<Check> {
    [(PriorityField, b.priority), (StatusField, b.status), (CategoryField, b.category), (DueDateField, b.dueDate)]
  }

  const TodoAdded := "Todo Successfully Added"

  /** The handler. The first failed check answers 400 with its own message
      and inserts nothing. When every check passes the row is inserted with
      its due date normalised; an id already in the table makes the `INSERT`
      fail, and the handler then sends nothing and the table is unchanged. */
  function CreateTodo(env: Env, b: NewTodo, t: Table): (r: Outcome)
    ensures r.response.None? || r.response.value.status == 400 ==> r.table == t
    ensures r.table != t ==>
      && b.id !in t
      && r.response == Some(Ok(Message(TodoAdded)))
      && r.table.Keys == t.Keys + {b.id}
      && (forall id :: id in t ==> r.table[id] == t[id])
  {
    if b.priority.Some? && IsValidPriority(b.priority.value) then
      if b.status.Some? && IsValidStatus(b.status.value) then
        if b.category.Some? && IsValidCategory(b.category.value) then
          if b.dueDate.Some? && env.validDate(b.dueDate.value) then
            var row := Todo(b.todo, b.priority.value, b.status.value, b.category.value, env.normalize(b.dueDate.value));
            if b.id in t then Outcome(None, t)
            else Outcome(Some(Ok(Message(TodoAdded))), t[b.id := row])
          else Outcome(Some(BadRequest(InvalidDueDate)), t)
        else Outcome(Some(BadRequest(InvalidCategory)), t)
      else Outcome(Some(BadRequest(InvalidStatus)), t)
    else Outcome(Some(BadRequest(InvalidPriority)), t)
  }

  /** The first failing check, in the order priority, status, category,
      due date, answers 400 with its own message and inserts nothing. */
  lemma {:induction false} CreateFirstFailureWins(env: Env, b: NewTodo, t: Table)
    ensures var rejected := FirstRejected(env, CreateChecks(b));
      rejected.Some? ==> CreateTodo(env, b, t) == Outcome(Some(BadRequest(InvalidMessage(rejected.value))), t)
  {
    CreateChecksVerdict(env, b);
  }

  /** When every check passes and the id is new, exactly one row is added:
      the body's fields with the due date normalised. An id already present
      gets no answer and no change. */
  lemma {:induction false} CreateInsertsOneRow(env: Env, b: NewTodo, t: Table)
    requires FirstRejected(env, CreateChecks(b)).None?
    ensures b.id in t ==> CreateTodo(env, b, t) == Outcome(None, t)
    ensures b.id !in t ==>
      var r := CreateTodo(env, b, t);
      && r.response == Some(Ok(Message(TodoAdded)))
      && |r.table| == |t| + 1
      && r.table == t[b.id := Todo(b.todo, b.priority.value, b.status.value, b.category.value, env.normalize(b.dueDate.value))]
  {
    CreateChecksVerdict(env, b);
  }

  /** The first failing check of a create request, spelled out. */
  lemma CreateChecksVerdict(env: Env, b: NewTodo)
    ensures FirstRejected(env, CreateChecks(b)) ==
      if !Accepts(env, PriorityField, b.priority) then Some(PriorityField)
      else if !Accepts(env, StatusField, b.status) then Some(StatusField)
      else if !Accepts(env, CategoryField, b.category) then Some(CategoryField)
      else if !Accepts(env, DueDateField, b.dueDate) then Some(DueDateField)
      else None
  {
    var cs := CreateChecks(b);
    assert cs[1..] == [cs[1], cs[2], cs[3]] && cs[2..] == [cs[2], cs[3]] && cs[3..] == [cs[3]];
    assert cs[1..][1..] == cs[2..] && cs[2..][1..] == cs[3..] && cs[3..][1..] == [];
    assert FirstRejected(env, cs[3..]) == if !Accepts(env, DueDateField, b.dueDate) then Some(DueDateField) else None;
    assert FirstRejected(env, cs[2..]) == if !Accepts(env, CategoryField, b.category) then Some(CategoryField) else FirstRejected(env, cs[3..]);
    assert FirstRejected(env, cs[1..]) == if !Accepts(env, StatusField, b.status) then Some(StatusField) else FirstRejected(env, cs[2..]);
  }

  /** An invalid priority is reported even when every other field is invalid
      too, and nothing is inserted. */
  lemma PriorityCheckedFirst(env: Env, b: NewTodo, t: Table)
    requires b.priority.None? || !IsValidPriority(b.priority.value)
    ensures CreateTodo(env, b, t) == Outcome(Some(BadRequest(InvalidPriority)), t)
  {
  }

  /** A row inserted by a create has valid enumeration columns, so a table
      whose rows all do keeps that property. */
  lemma CreateKeepsRowsConforming(env: Env, b: NewTodo, t: Table)
    requires AllConform(t)
    ensures AllConform(CreateTodo(env, b, t).table)
  {
  }
}
