/** `GET /todos/:todoId/` and `GET /agenda/`: reading one row by id, and the
    rows due on a date. */
module ReadRoutes {
  import opened Values
  import opened Rows

  /** The row with the given id. The handler has no not-found case (it
      dereferences the missing row), so the id must be in the table. */
  function GetTodo(id: Id, t: Table): (r: Response)
    requires id in t
    ensures r.status == 200 && r.payload.Record?
    ensures RowOf(r.payload.row) == (id, t[id])
  {
    Ok(Record(OutPutResult(id, t[id])))
  }

  /** The rows whose stored due date equals the normalised form of `date`;
      a date the library cannot parse (or no date at all) is a 400. */
  function Agenda(env: Env, date: Option<string>, t: Table): (r: Response)
    ensures !Accepts(env, DueDateField, date) ==> r == BadRequest(InvalidDueDate)
    ensures Accepts(env, DueDateField, date) ==>
      && r.status == 200 && r.payload.Rows?
      && forall j :: j in r.payload.rows <==>
           j.id in t && t[j.id].due_date == env.normalize(date.value) && RowOf(j).1 == t[j.id]
  {
    if date.Some? && env.validDate(date.value) then
      Ok(Rows(Select(env, t, DueDateIs(env.normalize(date.value)))))
    else
      BadRequest(InvalidDueDate)
  }
}
