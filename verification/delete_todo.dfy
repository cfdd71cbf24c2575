/** `DELETE /todos/:todoId/`: removing a row, with no existence check. */
module DeleteRoute {
  import opened Values
  import opened Rows

  const TodoDeleted := "Todo Deleted"

  /** The handler always answers "Todo Deleted"; the row with that id is gone
      afterwards, if there was one, and every other row is untouched. */
  function DeleteTodo(id: Id, t: Table): (r: Outcome)
    ensures r.response == Some(Ok(Message(TodoDeleted)))
    ensures r.table.Keys == t.Keys - {id}
    ensures forall k :: k in r.table ==> r.table[k] == t[k]
    ensures id in t ==> |r.table| == |t| - 1
    ensures id !in t ==> r.table == t
  {
    Outcome(Some(Ok(Message(TodoDeleted))), t - {id})
  }

  /** Deleting twice is deleting once. */
  lemma DeleteIdempotent(id: Id, t: Table)
    ensures DeleteTodo(id, DeleteTodo(id, t).table) == DeleteTodo(id, t)
  {
  }
}
