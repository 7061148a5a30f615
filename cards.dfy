/** A task as the front end holds it: the JSON of a task response, with null fields as `None`. */
module Cards {
  import opened Wrappers

  datatype Card = Card(
    id: string,
    title: Option<string>,
    description: Option<string>,
    status: Option<string>,
    priority: Option<string>,
    dueDate: Option<string>)

  /** The statuses of the three board columns, in display order. */
  const Statuses: seq<string> := ["TODO", "DOING", "DONE"]

  /** No two cards share an identifier. */
  predicate DistinctIds(tasks: seq<Card>) {
    forall i, j :: 0 <= i < j < |tasks| ==> tasks[i].id != tasks[j].id
  }
}
