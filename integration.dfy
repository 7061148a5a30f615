/**
 * The front end and the back end together: the JSON that connects them, and what follows for
 * a task that travels from the forms to the store and back to the board.
 */
module Integration {
  import opened Wrappers
  import opened Text
  import opened Entity
  import opened Dto
  import opened Exceptions
  import opened TaskMapper
  import opened TaskService
  import opened Cards
  import opened KanbanColumn
  import opened Board
  import opened TaskModal
  import opened TaskDetailsModal

  // -- enum names as they appear in JSON

  function StatusName(s: TaskStatus): string {
    match s
    case TODO => "TODO"
    case DOING => "DOING"
    case DONE => "DONE"
  }

  /**
   * Jackson's reading of a status name, for the names the front end sends: each constant's name
   * reads as that constant, and any other text is unreadable (ordinal strings excepted, see README).
   */
  function DecodeStatus(n: string): (s: Option<TaskStatus>)
    ensures s.Some? <==> n in Statuses
  {
    if n == "TODO" then Some(TODO) else if n == "DOING" then Some(DOING)
    else if n == "DONE" then Some(DONE) else None
  }

  function PriorityName(p: TaskPriority): string {
    match p
    case LOW => "LOW"
    case MEDIUM => "MEDIUM"
    case HIGH => "HIGH"
  }

  /** Jackson's reading of a priority name, for the names the front end sends (ordinal strings excepted, see README). */
  function DecodePriority(n: string): (p: Option<TaskPriority>)
    ensures p.Some? <==> n in ["LOW", "MEDIUM", "HIGH"]
  {
    if n == "LOW" then Some(LOW) else if n == "MEDIUM" then Some(MEDIUM)
    else if n == "HIGH" then Some(HIGH) else None
  }

  /** A name is read back as the constant it names, and among names only that constant's name reads as it. */
  lemma NamesRoundTrip(s: TaskStatus, p: TaskPriority, n: string)
    ensures DecodeStatus(StatusName(s)) == Some(s)
    ensures DecodeStatus(n) == Some(s) ==> n == StatusName(s)
    ensures DecodePriority(PriorityName(p)) == Some(p)
    ensures DecodePriority(n) == Some(p) ==> n == PriorityName(p)
  {
  }

  // -- request bodies as the back end reads them

  /** The create request the back end reads from the form's payload; None when the body is unreadable. */
  function DecodeCreate(p: CreatePayload): (r: Option<TaskCreateRequest>)
    ensures r.Some? <==> DecodePriority(p.priority).Some?
    ensures r.Some? ==> r.value == TaskCreateRequest(Some(p.title), p.description, Some(p.dueDate), DecodePriority(p.priority))
  {
    var prio := DecodePriority(p.priority);
    if prio.None? then None
    else Some(TaskCreateRequest(Some(p.title), p.description, Some(p.dueDate), prio))
  }

  /** The update request the back end reads from the details form's payload. */
  function DecodeUpdate(p: UpdatePayload): (r: Option<TaskUpdateRequest>)
    ensures r.Some? <==> DecodeStatus(p.status).Some? && DecodePriority(p.priority).Some?
    ensures r.Some? ==> r.value == TaskUpdateRequest(Some(p.title), p.description, DecodeStatus(p.status),
                                                     DecodePriority(p.priority), Some(p.dueDate))
  {
    var s, prio := DecodeStatus(p.status), DecodePriority(p.priority);
    if s.None? || prio.None? then None
    else Some(TaskUpdateRequest(Some(p.title), p.description, s, prio, Some(p.dueDate)))
  }

  /** The status patch the back end reads from a drag's status request. */
  function DecodeStatusPatch(req: StatusRequest): (r: Option<TaskStatusUpdateRequest>)
    ensures r.Some? <==> req.status in Statuses
    ensures r.Some? ==> r.value.status.Some? && StatusName(r.value.status.value) == req.status
  {
    var s := DecodeStatus(req.status);
    if s.None? then None else Some(TaskStatusUpdateRequest(s))
  }

  // -- response bodies as the front end reads them

  /** The card the front end holds for a task response. */
  function CardOf(r: TaskResponse): (c: Card)
    ensures c.id == r.id.GetOr("") && c.title == r.title && c.description == r.description && c.dueDate == r.dueDate
    ensures c.status.Some? <==> r.status.Some?
    ensures r.status.Some? ==> DecodeStatus(c.status.value) == r.status
  {
    Card(r.id.GetOr(""), r.title, r.description,
         if r.status.Some? then Some(StatusName(r.status.value)) else None,
         if r.priority.Some? then Some(PriorityName(r.priority.value)) else None,
         r.dueDate)
  }

  /** The cards the board receives for a list of stored rows. */
  function BoardCards(rows: seq<TaskRow>): (cards: seq<Card>)
    ensures |cards| == |rows|
    ensures forall i :: 0 <= i < |rows| ==> cards[i] == CardOf(RowResponse(rows[i]))
  {
    seq(|rows|, i requires 0 <= i < |rows| => CardOf(RowResponse(rows[i])))
  }

  /**
   * Every stored task reaches the board in exactly the column of its status, and the three
   * column counts add up to the number of tasks.
   */
  lemma BoardColumnsPartitionRows(rows: seq<TaskRow>)
    ensures var cards := BoardCards(rows);
            && (forall i, s :: 0 <= i < |rows| && s in Statuses ==>
                  (cards[i] in ColumnTasks(cards, s) <==> s == StatusName(rows[i].status)))
            && SumCounts(cards, Statuses) == |cards|
  {
    var cards := BoardCards(rows);
    forall i, s | 0 <= i < |rows| && s in Statuses
      ensures cards[i] in ColumnTasks(cards, s) <==> s == StatusName(rows[i].status)
    {
      ColumnsPartition(cards, cards[i]);
    }
    TotalCount(cards, Statuses);
  }

  // -- the description cannot be cleared

  /**
   * Saving the details form with an emptied description keeps the stored description: the
   * form sends null, and the back end reads a null description as "leave unchanged".
   */
  lemma ClearedDescriptionIsKept(row: TaskRow, title: string, description: string, dueDate: string,
                                 priority: string, status: string)
    requires JsTrim(description) == []
    ensures var dto := DecodeUpdate(SavePayload(title, description, dueDate, priority, status));
            dto.Some? ==> ApplyUpdate(row, dto.value).description == row.description
  {
  }

  /**
   * Whatever is typed into the details form, a save leaves the description either as it was or
   * set to a non-empty text; in particular a stored description never becomes null.
   */
  lemma SavedDescription(row: TaskRow, title: string, description: string, dueDate: string,
                         priority: string, status: string)
    ensures var dto := DecodeUpdate(SavePayload(title, description, dueDate, priority, status));
            dto.Some? ==> var d := ApplyUpdate(row, dto.value).description;
                          || d == row.description
                          || (d == Some(JsTrim(description)) && JsTrim(description) != [])
    ensures var dto := DecodeUpdate(SavePayload(title, description, dueDate, priority, status));
            dto.Some? && row.description.Some? ==> ApplyUpdate(row, dto.value).description.Some?
  {
  }

  // -- the two blank tests disagree

  /**
   * A title made of the control character U+0001 passes the create form, which trims with
   * JavaScript's rules, but the back end trims it to nothing and rejects the request; the form
   * then shows the 400 body's message.
   */
  lemma ControlCharTitleRejected(dueDate: string, axiosMessage: Option<string>, now: Timestamp)
    requires dueDate != ""
    ensures IsValid("\U{1}", dueDate)
    ensures var dto := DecodeCreate(Payload("\U{1}", "", dueDate, "MEDIUM"));
            && dto.Some?
            && !CreateRequestValid(dto.value)
            && ValidateCreate(dto.value) == [FieldError("title", TitleRequired)]
            && var shown := ErrorMessage(ApiRequestError(Handle(Invalid(ValidateCreate(dto.value)), now), axiosMessage),
                                          CreateFallback);
               shown == InvalidMessage
  {
    ControlCharTrims();
    var dto := TaskCreateRequest(Some("\U{1}"), None, Some(dueDate), Some(MEDIUM));
    assert Payload("\U{1}", "", dueDate, "MEDIUM").title == "\U{1}";
    assert JsTrim("") == [] by { JsBlankIff(""); }
    assert DecodeCreate(Payload("\U{1}", "", dueDate, "MEDIUM")) == Some(dto);
    assert !NotBlank(dto.title);
    var errs := ValidateCreate(dto);
    assert errs == [FieldError("title", TitleRequired)];
  }

  /** U+0001 is space to Java's `trim` but not to JavaScript's. */
  lemma ControlCharTrims()
    ensures JsTrim("\U{1}") == "\U{1}"
    ensures JavaTrim("\U{1}") == []
  {
    var t := "\U{1}";
    assert !IsJsSpace(t[0]);
    assert DropLeading(t, IsJsSpace) == t;
    assert DropTrailing(t, IsJsSpace) == t;
    JavaBlankIff(t);
  }

  // -- the back end's error bodies as the forms show them

  /** The rejected request the front end sees for a response carrying `e`, with axios's own message. */
  function ApiRequestError(e: ApiError, axiosMessage: Option<string>): (err: RequestError)
    ensures err.response.Some? && err.response.value.data.Some?
    ensures DataMessage(err) == Some(e.message) && DataError(err).None?
    ensures err.message == axiosMessage
  {
    RequestError(Some(HttpResponse(Some(ErrorData(Some(e.message), None)))), axiosMessage)
  }

  /**
   * Every failure of the back end reaches the user as the message of its error body, never as
   * the fallback nor axios's message; an internal failure shows only the fixed 500 message.
   */
  lemma ShownMessageIsApiMessage(f: Failure, now: Timestamp, axiosMessage: Option<string>, fallback: string)
    requires f.NotFound? ==> f.message != ""
    ensures var e := Handle(f, now);
            ErrorMessage(ApiRequestError(e, axiosMessage), fallback) == e.message
    ensures f.Internal? ==> ErrorMessage(ApiRequestError(Handle(f, now), axiosMessage), fallback) == InternalMessage
  {
  }

  /** The not-found messages the service raises are never empty, so they are always shown. */
  lemma NotFoundMessageShown(key: TaskId, now: Timestamp, axiosMessage: Option<string>, fallback: string)
    ensures ErrorMessage(ApiRequestError(Handle(NotFound(NotFoundMessage(key)), now), axiosMessage), fallback)
            == NotFoundMessage(key)
  {
    ShownMessageIsApiMessage(NotFound(NotFoundMessage(key)), now, axiosMessage, fallback);
  }

  // -- a drag reaches the store

  /** A drop onto one of the board's columns sends a status patch the back end can read. */
  lemma DragRequestReadable(tasks: seq<Card>, result: DropResult, req: StatusRequest)
    requires result.destination.Some? && result.destination.value.droppableId in Statuses
    requires req == StatusRequest(result.draggableId, result.destination.value.droppableId)
    ensures DecodeStatusPatch(req).Some?
    ensures StatusName(DecodeStatusPatch(req).value.status.value) == result.destination.value.droppableId
  {
  }
}
