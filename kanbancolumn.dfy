/** One board column: the cards of one status, in board order, each draggable by its identifier. */
module KanbanColumn {
  import opened Wrappers
  import opened Cards

  /** `columnTasks`: the cards whose status is `status`, keeping their relative order. */
  function ColumnTasks(tasks: seq<Card>, status: string): (col: seq<Card>)
    ensures |col| <= |tasks|
    ensures forall c :: c in col <==> c in tasks && c.status == Some(status)
  {
    if tasks == [] then []
    else
      var init, last := tasks[..|tasks| - 1], tasks[|tasks| - 1];
      assert tasks == init + [last];
      ColumnTasks(init, status) + (if last.status == Some(status) then [last] else [])
  }

  /** The number in the column header. */
  function HeaderCount(tasks: seq<Card>, status: string): nat {
    |ColumnTasks(tasks, status)|
  }

  /** What each card in the column is rendered with: its drag identifier and drag index. */
  datatype DraggableCard = DraggableCard(draggableId: string, index: nat, card: Card)

  /** The cards of the column, numbered by their position in it and identified by `String(task.id)`. */
  function Draggables(tasks: seq<Card>, status: string): (ds: seq<DraggableCard>)
    ensures |ds| == HeaderCount(tasks, status)
    ensures forall i :: 0 <= i < |ds| ==>
              ds[i].index == i && ds[i].card == ColumnTasks(tasks, status)[i]
              && ds[i].draggableId == ds[i].card.id
  {
    var col := ColumnTasks(tasks, status);
    seq(|col|, i requires 0 <= i < |col| => DraggableCard(col[i].id, i, col[i]))
  }

  /** Filtering distributes over concatenation, so it keeps the board's order. */
  lemma {:induction false} ColumnOfConcat(a: seq<Card>, b: seq<Card>, status: string)
    ensures ColumnTasks(a + b, status) == ColumnTasks(a, status) + ColumnTasks(b, status)
  {
    if b == [] {
      assert a + b == a;
    } else {
      var init, last := b[..|b| - 1], b[|b| - 1];
      var tail := if last.status == Some(status) then [last] else [];
      assert (a + b)[..|a + b| - 1] == a + init && (a + b)[|a + b| - 1] == last;
      assert ColumnTasks(a + b, status) == ColumnTasks(a + init, status) + tail;
      assert ColumnTasks(b, status) == ColumnTasks(init, status) + tail;
      ColumnOfConcat(a, init, status);
    }
  }

  /** A column of cards with distinct identifiers has distinct drag identifiers. */
  lemma {:induction false} ColumnKeepsDistinctIds(tasks: seq<Card>, status: string)
    requires DistinctIds(tasks)
    ensures DistinctIds(ColumnTasks(tasks, status))
  {
    if tasks != [] {
      var init, last := tasks[..|tasks| - 1], tasks[|tasks| - 1];
      ColumnKeepsDistinctIds(init, status);
      var c := ColumnTasks(init, status);
      forall x | x in c ensures x.id != last.id {
        var i :| 0 <= i < |init| && init[i] == x;
        assert tasks[i] == x;
      }
    }
  }

  /** Across the three columns, a card with one of their statuses is in exactly the column of its status. */
  lemma ColumnsPartition(tasks: seq<Card>, c: Card)
    requires c in tasks && c.status.Some? && c.status.value in Statuses
    ensures forall s :: s in Statuses ==> (c in ColumnTasks(tasks, s) <==> s == c.status.value)
  {
  }
}
