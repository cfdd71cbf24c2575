/** The six routes together, each a transition from a request and the table
    to the response sent and the table afterwards. */
module Api {
  import opened Values
  import opened Rows
  import opened ListRoute
  import opened ReadRoutes
  import opened CreateRoute
  import opened UpdateRoute
  import opened DeleteRoute

  datatype Request =
    | ListRequest(query: ListQuery)
    | GetRequest(id: Id)
    | AgendaRequest(date: Option<string>)
    | CreateRequest(body: NewTodo)
    | UpdateRequest(id: Id, changes: Changes)
    | DeleteRequest(id: Id)

  /** Reading a row that does not exist makes the handler throw, and so
      does updating one with a body that omits a field; those requests are
      outside the model. */
  predicate Answerable(req: Request, t: Table) {
    match req
    case GetRequest(id) => id in t
    case UpdateRequest(id, c) => id in t || Complete(c)
    case _ => true
  }

  /** Route a request to its handler. A request answered 400, or not
      answered at all, leaves the table as it was; only create, update and
      delete change it, and only at the id they name. */
  function Handle(env: Env, req: Request, t: Table): (r: Outcome)
    requires Answerable(req, t)
    ensures r.response.Some? ==> r.response.value.status == 200 || r.response.value.status == 400
    ensures r.response.Some? && r.response.value.status == 400 ==> r.table == t
    ensures r.response.None? ==> r.table == t
    ensures req.ListRequest? || req.GetRequest? || req.AgendaRequest? ==> r.response.Some? && r.table == t
    ensures req.CreateRequest? ==> r.table.Keys <= t.Keys + {req.body.id}
    ensures !req.CreateRequest? ==> r.table.Keys <= t.Keys
    ensures forall k :: k in t && k !in r.table ==> req.DeleteRequest? && k == req.id
    ensures forall k :: k in t && k in r.table && r.table[k] != t[k] ==> req.UpdateRequest? && k == req.id
  {
    match req
    case ListRequest(q) => Outcome(Some(ListTodos(env, q, t)), t)
    case GetRequest(id) => Outcome(Some(GetTodo(id, t)), t)
    case AgendaRequest(date) => Outcome(Some(Agenda(env, date, t)), t)
    case CreateRequest(b) => CreateTodo(env, b, t)
    case UpdateRequest(id, c) => UpdateTodo(env, id, c, t)
    case DeleteRequest(id) => DeleteTodo(id, t)
  }

  /** A create that passes every check, followed by a read of its id, returns
      the fields sent with the due date normalised. */
  lemma CreateThenGet(env: Env, b: NewTodo, t: Table)
    requires FirstRejected(env, CreateChecks(b)).None? && b.id !in t
    ensures var t' := Handle(env, CreateRequest(b), t).table;
      && b.id in t'
      && Handle(env, GetRequest(b.id), t').response == Some(Ok(Record(TodoJson(
           b.id, b.todo, b.priority.value, b.category.value, b.status.value, env.normalize(b.dueDate.value)))))
  {
    CreateInsertsOneRow(env, b, t);
  }

  /** Deleting the row a create inserted gives back the table as it was. */
  lemma DeleteUndoesCreate(env: Env, b: NewTodo, t: Table)
    requires b.id !in t
    ensures DeleteTodo(b.id, CreateTodo(env, b, t).table).table == t
  {
  }

  /** After a delete, the row is gone and nothing can be read at its id. */
  lemma DeleteThenGet(env: Env, id: Id, t: Table)
    ensures !Answerable(GetRequest(id), Handle(env, DeleteRequest(id), t).table)
  {
  }
}
