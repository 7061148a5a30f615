/** The request and response records of the HTTP interface, and the declarative checks on a create request. */
module Dto {
  import opened Wrappers
  import opened Text
  import opened Entity

  /** Body of a create request; any field may be null or missing. */
  datatype TaskCreateRequest = TaskCreateRequest(
    title: Option<string>,
    description: Option<string>,
    dueDate: Option<Date>,
    priority: Option<TaskPriority>)

  /** Body of a full update; every field is optional. */
  datatype TaskUpdateRequest = TaskUpdateRequest(
    title: Option<string>,
    description: Option<string>,
    status: Option<TaskStatus>,
    priority: Option<TaskPriority>,
    dueDate: Option<Date>)

  /** Body of a status-only patch. */
  datatype TaskStatusUpdateRequest = TaskStatusUpdateRequest(status: Option<TaskStatus>)

  /** The response representation of a task: one field per entity field, nullable where the entity's is. */
  datatype TaskResponse = TaskResponse(
    id: Option<TaskId>,
    title: Option<string>,
    description: Option<string>,
    status: Option<TaskStatus>,
    priority: Option<TaskPriority>,
    dueDate: Option<Date>,
    createdAt: Timestamp)

  /** One failed constraint: the offending field's name and the constraint's message. */
  datatype FieldError = FieldError(field: string, message: string)

  const TitleRequired := "Título é obrigatório"
  const DueDateRequired := "Data limite é obrigatória"
  const PriorityRequired := "Prioridade é obrigatória"

  /** Bean Validation's `@NotBlank`: not null, and not empty once trimmed. */
  predicate NotBlank(s: Option<string>) {
    s.Some? && JavaTrim(s.value) != []
  }

  /** Every constraint of a create request holds; `description` carries none. */
  predicate CreateRequestValid(dto: TaskCreateRequest) {
    NotBlank(dto.title) && dto.dueDate.Some? && dto.priority.Some?
  }

  /** Whether `errs` holds an error for `field`. */
  predicate HasErrorFor(errs: seq<FieldError>, field: string) {
    exists e :: e in errs && e.field == field
  }

  /**
   * The violations for the outcomes of the three checks, in declaration order: one error per
   * failing field, carrying that field's declared message, and nothing for a field that passes.
   */
  function Violations(titleOk: bool, dueDateOk: bool, priorityOk: bool): (errs: seq<FieldError>)
    ensures HasErrorFor(errs, "title") <==> !titleOk
    ensures HasErrorFor(errs, "dueDate") <==> !dueDateOk
    ensures HasErrorFor(errs, "priority") <==> !priorityOk
    ensures forall e :: e in errs ==>
              || e == FieldError("title", TitleRequired)
              || e == FieldError("dueDate", DueDateRequired)
              || e == FieldError("priority", PriorityRequired)
    ensures forall i, j :: 0 <= i < j < |errs| ==> errs[i].field != errs[j].field
    ensures errs == [] <==> titleOk && dueDateOk && priorityOk
  {
    var te, de, pe := FieldError("title", TitleRequired), FieldError("dueDate", DueDateRequired),
                      FieldError("priority", PriorityRequired);
    assert "title"[0] != "dueDate"[0] && "title"[0] != "priority"[0] && "dueDate"[0] != "priority"[0];
    match (titleOk, dueDateOk, priorityOk)
    case (true, true, true) => []
    case (true, true, false) => [pe]
    case (true, false, true) => [de]
    case (true, false, false) => [de, pe]
    case (false, true, true) => [te]
    case (false, true, false) => [te, pe]
    case (false, false, true) => [te, de]
    case (false, false, false) => [te, de, pe]
  }

  /** The violations of a create request: `@NotBlank` on the title, `@NotNull` on the due date and priority. */
  function ValidateCreate(dto: TaskCreateRequest): (errs: seq<FieldError>)
    ensures HasErrorFor(errs, "title") <==> !NotBlank(dto.title)
    ensures HasErrorFor(errs, "dueDate") <==> dto.dueDate.None?
    ensures HasErrorFor(errs, "priority") <==> dto.priority.None?
    ensures errs == [] <==> CreateRequestValid(dto)
  {
    Violations(NotBlank(dto.title), dto.dueDate.Some?, dto.priority.Some?)
  }

  /** A request that passes validation has a title that stays non-empty after trimming. */
  lemma ValidTitleSurvivesTrim(dto: TaskCreateRequest)
    requires ValidateCreate(dto) == []
    ensures dto.title.Some? && JavaTrim(dto.title.value) != []
    ensures JavaTrim(JavaTrim(dto.title.value)) == JavaTrim(dto.title.value)
  {
    StripIdempotent(dto.title.value, IsJavaSpace);
  }
}
