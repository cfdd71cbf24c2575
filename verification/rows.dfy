/** The `todo` table, the JSON shape a row is sent in, the `WHERE` clauses
    the handlers issue, and the responses they send. */
module Rows {
  import opened Values

  /** Row ids are supplied by the client. */
  type Id = int

  /** A stored row, keyed by its id in the table. Enumeration columns hold
      strings, because some update requests write them without validation. */
  datatype Todo = Todo(todo: string, priority: string, status: string, category: string, due_date: string)

  type Table = map<Id, Todo>

  /** A row as it appears in a response body: `due_date` is renamed `dueDate`. */
  datatype TodoJson = TodoJson(id: Id, todo: string, priority: string, category: string, status: string, dueDate: string)

  /** The row a response object was produced from. */
  function RowOf(j: TodoJson): (Id, Todo) {
    (j.id, Todo(j.todo, j.priority, j.status, j.category, j.dueDate))
  }

  /** The response object for a row; it loses nothing, so distinct rows give
      distinct objects. */
  function OutPutResult(id: Id, row: Todo): (j: TodoJson)
    ensures RowOf(j) == (id, row)
  {
    TodoJson(id, row.todo, row.priority, row.category, row.status, row.due_date)
  }

  lemma OutPutResultRoundTrip(j: TodoJson)
    ensures OutPutResult(RowOf(j).0, RowOf(j).1) == j
  {
  }

  /** The value a row holds for a request field. */
  function ColumnOf(row: Todo, f: Field): string {
    match f
    case TodoField => row.todo
    case PriorityField => row.priority
    case StatusField => row.status
    case CategoryField => row.category
    case DueDateField => row.due_date
  }

  /** A row whose enumeration columns hold valid values. */
  predicate Conforms(row: Todo) {
    IsValidPriority(row.priority) && IsValidStatus(row.status) && IsValidCategory(row.category)
  }

  predicate AllConform(t: Table) {
    forall id :: id in t ==> Conforms(t[id])
  }

  /** The `WHERE` clauses the handlers issue. */
  datatype Where =
    | TodoLike(q: string)
    | StatusAndPriority(status: string, priority: string)
    | CategoryAndStatus(category: string, status: string)
    | CategoryAndPriority(category: string, priority: string)
    | PriorityIs(priority: string)
    | StatusIs(status: string)
    | CategoryIs(category: string)
    | DueDateIs(dueDate: string)
    | Everything

  /** The column tests of a clause other than the text search, as
      `column = value` pairs. */
  function Equalities(w: Where): map<Field, string> {
    match w
    case TodoLike(_) => map[]
    case StatusAndPriority(s, p) => map[StatusField := s, PriorityField := p]
    case CategoryAndStatus(c, s) => map[CategoryField := c, StatusField := s]
    case CategoryAndPriority(c, p) => map[CategoryField := c, PriorityField := p]
    case PriorityIs(p) => map[PriorityField := p]
    case StatusIs(s) => map[StatusField := s]
    case CategoryIs(c) => map[CategoryField := c]
    case DueDateIs(d) => map[DueDateField := d]
    case Everything => map[]
  }

  /** Whether a row satisfies a clause: the search is `LIKE` on the todo
      text, and every other clause is a conjunction of column equalities. */
  function Holds(env: Env, w: Where, row: Todo): (b: bool)
    ensures w.TodoLike? ==> (b <==> env.matches(row.todo, w.q))
    ensures !w.TodoLike? ==> (b <==> forall f :: f in Equalities(w) ==> ColumnOf(row, f) == Equalities(w)[f])
  {
    match w
    case TodoLike(q) => env.matches(row.todo, q)
    case StatusAndPriority(s, p) =>
      assert Equalities(w).Keys == {StatusField, PriorityField};
      row.status == s && row.priority == p
    case CategoryAndStatus(c, s) =>
      assert Equalities(w).Keys == {CategoryField, StatusField};
      row.category == c && row.status == s
    case CategoryAndPriority(c, p) =>
      assert Equalities(w).Keys == {CategoryField, PriorityField};
      row.category == c && row.priority == p
    case PriorityIs(p) =>
      assert Equalities(w).Keys == {PriorityField};
      row.priority == p
    case StatusIs(s) =>
      assert Equalities(w).Keys == {StatusField};
      row.status == s
    case CategoryIs(c) =>
      assert Equalities(w).Keys == {CategoryField};
      row.category == c
    case DueDateIs(d) =>
      assert Equalities(w).Keys == {DueDateField};
      row.due_date == d
    case Everything => true
  }

  /** The ids of the rows a `WHERE` clause selects. */
  function MatchingIds(env: Env, t: Table, w: Where): set<Id> {
    set id | id in t && Holds(env, w, t[id])
  }

  /** `SELECT * FROM todo WHERE w`, each row mapped through `OutPutResult`.
      The source issues no `ORDER BY`, so the rows form a set. */
  function Select(env: Env, t: Table, w: Where): (rows: set<TodoJson>)
    ensures forall j :: j in rows <==> j.id in t && Holds(env, w, t[j.id]) && RowOf(j).1 == t[j.id]
  {
    set id | id in MatchingIds(env, t, w) :: OutPutResult(id, t[id])
  }

  /** One response object per selected row. */
  lemma {:induction false} SelectCount(env: Env, t: Table, w: Where)
    ensures |Select(env, t, w)| == |MatchingIds(env, t, w)|
  {
    ImageSize(MatchingIds(env, t, w), t);
  }

  lemma {:induction false} ImageSize(ids: set<Id>, t: Table)
    requires ids <= t.Keys
    ensures |set id | id in ids :: OutPutResult(id, t[id])| == |ids|
  {
    if ids != {} {
      // Gives the verifier a witness for the `:|` below.
      if forall k :: k !in ids {
        assert false;
      }
      var k :| k in ids;
      var rest := ids - {k};
      ImageSize(rest, t);
      var restImage := set id | id in rest :: OutPutResult(id, t[id]);
      assert forall j :: j in restImage ==> j.id in rest;
      assert (set id | id in ids :: OutPutResult(id, t[id])) == restImage + {OutPutResult(k, t[k])};
    }
  }

  /** The body of a response: a plain-text message, a list of rows, or one row. */
  datatype Payload = Message(text: string) | Rows(rows: set<TodoJson>) | Record(row: TodoJson)

  datatype Response = Response(status: int, payload: Payload)

  /** `response.send(p)`: Express answers 200 unless told otherwise. */
  function Ok(p: Payload): Response {
    Response(200, p)
  }

  /** `response.status(400).send(msg)`. */
  function BadRequest(msg: string): Response {
    Response(400, Message(msg))
  }

  /** What a handler leaves behind: the response it sent, if it sent one, and
      the table afterwards. */
  datatype Outcome = Outcome(response: Option<Response>, table: Table)
}
