/** The entity-to-response conversion. */
module TaskMapper {
  import opened Wrappers
  import opened Entity
  import opened Dto

  /** `toResponse`: one response field per entity field, each copied as it is, nulls included. */
  function ToResponse(t: Task): (r: TaskResponse)
    reads t
    ensures r.id == t.id && r.createdAt == t.createdAt
    ensures r.title == t.title && r.description == t.description
    ensures r.status == t.status && r.priority == t.priority && r.dueDate == t.dueDate
    ensures forall row :: t.Mirrors(row) ==> r == RowResponse(row)
  {
    TaskResponse(t.id, t.title, t.description, t.status, t.priority, t.dueDate, t.createdAt)
  }

  /** The response of an entity that holds exactly the columns of `row`. */
  function RowResponse(row: TaskRow): TaskResponse {
    TaskResponse(Some(row.id), Some(row.title), row.description, Some(row.status),
                 Some(row.priority), Some(row.dueDate), row.createdAt)
  }

  /** Reads a response back as a row; fails when a non-nullable column is null. */
  function ResponseRow(r: TaskResponse): (row: Option<TaskRow>)
    ensures row.Some? <==> r.id.Some? && r.title.Some? && r.status.Some? && r.priority.Some? && r.dueDate.Some?
  {
    if r.id.Some? && r.title.Some? && r.status.Some? && r.priority.Some? && r.dueDate.Some? then
      Some(TaskRow(r.id.value, r.title.value, r.description, r.status.value, r.priority.value,
                   r.dueDate.value, r.createdAt))
    else
      None
  }

  /** The response loses nothing: the row can be read back from it, so equal responses mean equal rows. */
  lemma ResponseRoundTrip(row: TaskRow)
    ensures ResponseRow(RowResponse(row)) == Some(row)
    ensures forall other :: RowResponse(other) == RowResponse(row) ==> other == row
  {
    forall other | RowResponse(other) == RowResponse(row)
      ensures other == row
    {
      assert ResponseRow(RowResponse(other)) == Some(other);
    }
  }
}
