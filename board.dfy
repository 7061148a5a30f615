/** The board page: per-status counts and the optimistic state change when a card is dropped. */
module Board {
  import opened Wrappers
  import opened Cards
  import opened KanbanColumn

  /** The property name `counts[t.status]` writes: the status text, or "null" for a null status. */
  function StatusKey(c: Card): string {
    c.status.GetOr("null")
  }

  /** How many cards have `key` as their status key. */
  function CountKey(tasks: seq<Card>, key: string): nat {
    if tasks == [] then 0
    else CountKey(tasks[..|tasks| - 1], key) + (if StatusKey(tasks[|tasks| - 1]) == key then 1 else 0)
  }

  function StatusKeys(tasks: seq<Card>): set<string> {
    set c | c in tasks :: StatusKey(c)
  }

  /**
   * `groupedCounts`: one entry per column status, starting at zero, plus one per other status
   * that occurs, and every entry counts the cards with that status.
   */
  method GroupedCounts(tasks: seq<Card>) returns (counts: map<string, nat>)
    ensures counts.Keys == ColumnKeys + StatusKeys(tasks)
    ensures forall k :: k in counts ==> counts[k] == CountKey(tasks, k)
  {
    counts := map["TODO" := 0, "DOING" := 0, "DONE" := 0];
    InitialCounts();
    for i := 0 to |tasks|
      invariant CountsOf(counts, tasks[..i])
    {
      var key := StatusKey(tasks[i]);
      CountStep(counts, tasks[..i], tasks[i]);
      counts := counts[key := (if key in counts then counts[key] else 0) + 1];
      assert tasks[..i + 1] == tasks[..i] + [tasks[i]];
    }
    assert tasks[..|tasks|] == tasks;
  }

  /** The statuses of the three columns, whose counts always exist. */
  const ColumnKeys: set<string> := {"TODO", "DOING", "DONE"}

  /** `counts` is the result of `groupedCounts` on `tasks`. */
  ghost predicate CountsOf(counts: map<string, nat>, tasks: seq<Card>) {
    && counts.Keys == ColumnKeys + StatusKeys(tasks)
    && forall k :: k in counts ==> counts[k] == CountKey(tasks, k)
  }

  /** The initial counts, zero for each column, are the counts of no cards. */
  lemma InitialCounts()
    ensures CountsOf(map["TODO" := 0, "DOING" := 0, "DONE" := 0], [])
  {
    assert StatusKeys([]) == {};
  }

  /** One iteration of `groupedCounts`: incrementing the card's entry gives the counts with the card appended. */
  lemma CountStep(counts: map<string, nat>, prev: seq<Card>, c: Card)
    requires CountsOf(counts, prev)
    ensures var key := StatusKey(c);
            CountsOf(counts[key := (if key in counts then counts[key] else 0) + 1], prev + [c])
  {
    var key := StatusKey(c);
    StatusKeysSnoc(prev, c);
    if key !in counts {
      AbsentKeyCountsZero(prev, key);
    }
    var next := counts[key := (if key in counts then counts[key] else 0) + 1];
    forall k | k in next ensures next[k] == CountKey(prev + [c], k) {
      CountKeySnoc(prev, c, k);
    }
  }

  lemma CountKeySnoc(tasks: seq<Card>, c: Card, key: string)
    ensures CountKey(tasks + [c], key) == CountKey(tasks, key) + (if StatusKey(c) == key then 1 else 0)
  {
    assert (tasks + [c])[..|tasks|] == tasks;
  }

  lemma StatusKeysSnoc(tasks: seq<Card>, c: Card)
    ensures StatusKeys(tasks + [c]) == StatusKeys(tasks) + {StatusKey(c)}
  {
    assert c in tasks + [c];
    assert forall x :: x in tasks + [c] <==> x in tasks || x == c;
  }

  lemma {:induction false} AbsentKeyCountsZero(tasks: seq<Card>, key: string)
    requires key !in StatusKeys(tasks)
    ensures CountKey(tasks, key) == 0
  {
    if tasks != [] {
      var init := tasks[..|tasks| - 1];
      assert StatusKeys(init) <= StatusKeys(tasks) by {
        forall c | c in init ensures c in tasks { }
      }
      assert tasks[|tasks| - 1] in tasks;
      AbsentKeyCountsZero(init, key);
    }
  }

  /** The sum of the counts of `keys`. */
  function SumCounts(tasks: seq<Card>, keys: seq<string>): nat {
    if keys == [] then 0 else CountKey(tasks, keys[0]) + SumCounts(tasks, keys[1..])
  }

  /** A single card counts once, under its own key. */
  lemma {:induction false} SumCountsSingle(c: Card, keys: seq<string>)
    requires forall i, j :: 0 <= i < j < |keys| ==> keys[i] != keys[j]
    ensures SumCounts([c], keys) == if StatusKey(c) in keys then 1 else 0
  {
    if keys != [] {
      assert [c][..0] == [];
      assert CountKey([c], keys[0]) == if StatusKey(c) == keys[0] then 1 else 0;
      SumCountsSingle(c, keys[1..]);
      assert StatusKey(c) in keys <==> StatusKey(c) == keys[0] || StatusKey(c) in keys[1..];
      assert StatusKey(c) == keys[0] ==> StatusKey(c) !in keys[1..];
    }
  }

  lemma {:induction false} SumCountsSnoc(tasks: seq<Card>, c: Card, keys: seq<string>)
    ensures SumCounts(tasks + [c], keys) == SumCounts(tasks, keys) + SumCounts([c], keys)
  {
    if keys != [] {
      assert (tasks + [c])[..|tasks|] == tasks;
      assert [c][..0] == [];
      assert CountKey(tasks + [c], keys[0]) == CountKey(tasks, keys[0]) + CountKey([c], keys[0]);
      SumCountsSnoc(tasks, c, keys[1..]);
    }
  }

  /** Summed over any list of distinct keys that covers every status, the counts add up to the number of cards. */
  lemma {:induction false} TotalCount(tasks: seq<Card>, keys: seq<string>)
    requires forall i, j :: 0 <= i < j < |keys| ==> keys[i] != keys[j]
    requires forall c :: c in tasks ==> StatusKey(c) in keys
    ensures SumCounts(tasks, keys) == |tasks|
  {
    if tasks == [] {
      SumCountsZero(keys);
    } else {
      var init, last := tasks[..|tasks| - 1], tasks[|tasks| - 1];
      assert tasks == init + [last];
      TotalCount(init, keys);
      SumCountsSnoc(init, last, keys);
      SumCountsSingle(last, keys);
    }
  }

  lemma {:induction false} SumCountsZero(keys: seq<string>)
    ensures SumCounts([], keys) == 0
  {
    if keys != [] {
      SumCountsZero(keys[1..]);
    }
  }

  /**
   * The two computations of a column's size agree: the header's `columnTasks.length` equals the
   * board's grouped count for that status (which the board itself does not render).
   */
  lemma {:induction false} HeaderMatchesCount(tasks: seq<Card>, status: string)
    requires status != "null"
    ensures HeaderCount(tasks, status) == CountKey(tasks, status)
  {
    if tasks != [] {
      HeaderMatchesCount(tasks[..|tasks| - 1], status);
    }
  }

  // -- drag and drop

  datatype Location = Location(droppableId: string, index: int)
  datatype DropResult = DropResult(destination: Option<Location>, source: Location, draggableId: string)
  /** The status patch sent to the back end. */
  datatype StatusRequest = StatusRequest(id: string, status: string)

  /** The drop changes nothing: there is no destination, or it is the card's own place. */
  predicate NoRealMove(r: DropResult) {
    || r.destination.None?
    || (r.source.droppableId == r.destination.value.droppableId && r.destination.value.index == r.source.index)
  }

  /** `findIndex` by identifier: the first position holding `id`, or -1. */
  function FindIndex(tasks: seq<Card>, id: string): (k: int)
    ensures -1 <= k < |tasks|
    ensures k >= 0 ==> tasks[k].id == id && forall j :: 0 <= j < k ==> tasks[j].id != id
    ensures k == -1 ==> forall j :: 0 <= j < |tasks| ==> tasks[j].id != id
  {
    if tasks == [] then -1
    else if tasks[0].id == id then 0
    else
      var k := FindIndex(tasks[1..], id);
      if k == -1 then -1 else k + 1
  }

  /** The list after the first card with identifier `id` gets status `to`; unchanged if there is none. */
  function Moved(tasks: seq<Card>, id: string, to: string): seq<Card> {
    var k := FindIndex(tasks, id);
    if k == -1 then tasks else tasks[k := tasks[k].(status := Some(to))]
  }

  /**
   * `handleDragEnd` up to the network call: the new card list, and the status patch to send,
   * if any. The list is copied, the dragged card found and replaced with its new status.
   */
  method HandleDragEnd(tasks: seq<Card>, result: DropResult) returns (next: seq<Card>, request: Option<StatusRequest>)
    ensures NoRealMove(result) ==> next == tasks && request.None?
    ensures !NoRealMove(result) ==> next == Moved(tasks, result.draggableId, result.destination.value.droppableId)
    ensures request.Some? <==> !NoRealMove(result) && result.source.droppableId != result.destination.value.droppableId
    ensures request.Some? ==> request.value == StatusRequest(result.draggableId, result.destination.value.droppableId)
  {
    if NoRealMove(result) {
      return tasks, None;
    }
    var from, to := result.source.droppableId, result.destination.value.droppableId;
    var copy := new Card[|tasks|](i requires 0 <= i < |tasks| => tasks[i]);
    var idx := 0;
    while idx < copy.Length && copy[idx].id != result.draggableId
      invariant 0 <= idx <= copy.Length
      invariant copy[..] == tasks
      invariant forall j :: 0 <= j < idx ==> tasks[j].id != result.draggableId
    {
      idx := idx + 1;
    }
    if idx == copy.Length {
      next := tasks;
    } else {
      copy[idx] := copy[idx].(status := Some(to));
      next := copy[..];
    }
    request := if from != to then Some(StatusRequest(result.draggableId, to)) else None;
  }

  /** A move keeps the list's length and order, and changes at most one card, and only its status. */
  lemma MovedChangesOnlyOneStatus(tasks: seq<Card>, id: string, to: string)
    ensures |Moved(tasks, id, to)| == |tasks|
    ensures forall i :: 0 <= i < |tasks| ==> Moved(tasks, id, to)[i].id == tasks[i].id
    ensures forall i :: 0 <= i < |tasks| && i != FindIndex(tasks, id) ==> Moved(tasks, id, to)[i] == tasks[i]
    ensures FindIndex(tasks, id) >= 0 ==>
              Moved(tasks, id, to)[FindIndex(tasks, id)] == tasks[FindIndex(tasks, id)].(status := Some(to))
    ensures FindIndex(tasks, id) == -1 ==> Moved(tasks, id, to) == tasks
  {
  }

  /** Replacing one card moves one unit of count from its old key to its new one. */
  lemma {:induction false} CountAfterReplace(tasks: seq<Card>, k: nat, c: Card, key: string)
    requires k < |tasks|
    ensures CountKey(tasks[k := c], key) + (if StatusKey(tasks[k]) == key then 1 else 0)
            == CountKey(tasks, key) + (if StatusKey(c) == key then 1 else 0)
  {
    var n := |tasks|;
    var init := tasks[..n - 1];
    if k == n - 1 {
      assert tasks[k := c][..n - 1] == init;
    } else {
      assert tasks[k := c][..n - 1] == init[k := c];
      CountAfterReplace(init, k, c, key);
    }
  }

  /** After a move to another column, that column counts one card more and the card's old one one less. */
  lemma MoveShiftsCounts(tasks: seq<Card>, id: string, to: string, key: string)
    requires FindIndex(tasks, id) >= 0
    ensures var old_ := StatusKey(tasks[FindIndex(tasks, id)]);
            CountKey(Moved(tasks, id, to), key) + (if old_ == key then 1 else 0)
            == CountKey(tasks, key) + (if to == key then 1 else 0)
  {
    var k := FindIndex(tasks, id);
    CountAfterReplace(tasks, k, tasks[k].(status := Some(to)), key);
  }

  /** With distinct identifiers, the drag identifier a column renders leads back to the very card it shows. */
  lemma DraggedCardIsFound(tasks: seq<Card>, status: string, i: nat)
    requires DistinctIds(tasks) && i < HeaderCount(tasks, status)
    ensures var d := Draggables(tasks, status)[i];
            FindIndex(tasks, d.draggableId) >= 0 && tasks[FindIndex(tasks, d.draggableId)] == d.card
  {
    var d := Draggables(tasks, status)[i];
    assert d.card in ColumnTasks(tasks, status);
    var j :| 0 <= j < |tasks| && tasks[j] == d.card;
    var k := FindIndex(tasks, d.draggableId);
    assert k >= 0;
    assert k == j;
  }
}
