/** The "new task" form: its validation, the create payload it sends, and its state across a submission. */
module TaskModal {
  import opened Wrappers
  import opened Text

  const TitleError := "Título é obrigatório."
  const DueDateError := "Data limite é obrigatória."
  const CreateFallback := "Não foi possível criar a tarefa."

  /** `errors`: a title entry when the trimmed title is empty, a due-date entry when no date is chosen. */
  function Errors(title: string, dueDate: string): (e: map<string, string>)
    ensures "title" in e <==> JsTrim(title) == []
    ensures "dueDate" in e <==> dueDate == ""
    ensures e.Keys <= {"title", "dueDate"}
    ensures "title" in e ==> e["title"] == TitleError
    ensures "dueDate" in e ==> e["dueDate"] == DueDateError
  {
    var blank, missing := JsTrim(title) == [], dueDate == "";
    assert "title" != "dueDate" by { assert "title"[0] != "dueDate"[0]; }
    if blank && missing then map["title" := TitleError, "dueDate" := DueDateError]
    else if blank then map["title" := TitleError]
    else if missing then map["dueDate" := DueDateError]
    else map[]
  }

  /** `isValid`: `errors` has no key, which is to say both required fields are filled in. */
  function IsValid(title: string, dueDate: string): (ok: bool)
    ensures ok <==> JsTrim(title) != [] && dueDate != ""
  {
    var e := Errors(title, dueDate);
    assert e.Keys == {} ==> e == map[];
    assert "title" in e ==> |e| > 0;
    assert "dueDate" in e ==> |e| > 0;
    |e| == 0
  }

  /** `s || null` for a string: null when it is empty. */
  function OrNull(s: string): (r: Option<string>)
    ensures r.None? <==> s == ""
    ensures r.Some? ==> r.value == s
  {
    if s == "" then None else Some(s)
  }

  /** The body sent to create a task. */
  datatype CreatePayload = CreatePayload(title: string, description: Option<string>, dueDate: string, priority: string)

  /** The payload of `handleSubmit`: trimmed title, trimmed description or null, date and priority as chosen. */
  function Payload(title: string, description: string, dueDate: string, priority: string): (p: CreatePayload)
    ensures p.title == JsTrim(title) && p.dueDate == dueDate && p.priority == priority
    ensures p.description.None? <==> JsTrim(description) == []
    ensures p.description.Some? ==> p.description.value == JsTrim(description)
  {
    CreatePayload(JsTrim(title), OrNull(JsTrim(description)), dueDate, priority)
  }

  // -- failure messages

  /** The body of a failed response, as far as the form looks at it. */
  datatype ErrorData = ErrorData(message: Option<string>, error: Option<string>)
  datatype HttpResponse = HttpResponse(data: Option<ErrorData>)
  /** A rejected request: the response, if one arrived, and the error's own message. */
  datatype RequestError = RequestError(response: Option<HttpResponse>, message: Option<string>)

  /** A string that `||` keeps: present and non-empty. */
  predicate Truthy(s: Option<string>) {
    s.Some? && s.value != ""
  }

  function DataMessage(err: RequestError): Option<string> {
    if err.response.Some? && err.response.value.data.Some? then err.response.value.data.value.message else None
  }

  function DataError(err: RequestError): Option<string> {
    if err.response.Some? && err.response.value.data.Some? then err.response.value.data.value.error else None
  }

  /**
   * The message shown for a failed request: the first non-empty one of the response's
   * `message`, the response's `error` and the error's own message, else `fallback`.
   */
  function ErrorMessage(err: RequestError, fallback: string): (m: string)
    ensures Truthy(DataMessage(err)) ==> m == DataMessage(err).value
    ensures !Truthy(DataMessage(err)) && Truthy(DataError(err)) ==> m == DataError(err).value
    ensures !Truthy(DataMessage(err)) && !Truthy(DataError(err)) && Truthy(err.message) ==> m == err.message.value
    ensures !Truthy(DataMessage(err)) && !Truthy(DataError(err)) && !Truthy(err.message) ==> m == fallback
    ensures fallback != "" ==> m != ""
  {
    if Truthy(DataMessage(err)) then DataMessage(err).value
    else if Truthy(DataError(err)) then DataError(err).value
    else if Truthy(err.message) then err.message.value
    else fallback
  }

  datatype Touched = Touched(title: bool, dueDate: bool)

  /** The component's state. */
  class TaskModalForm {
    var title: string
    var description: string
    var dueDate: string
    var priority: string
    var touched: Touched
    var submitting: bool
    var errorMsg: string

    /** The initial `useState` values. */
    constructor ()
      ensures title == "" && description == "" && dueDate == "" && priority == "MEDIUM"
      ensures touched == Touched(false, false) && !submitting && errorMsg == ""
    {
      title, description, dueDate, priority := "", "", "", "MEDIUM";
      touched, submitting, errorMsg := Touched(false, false), false, "";
    }

    /** The effect on `open`: opening resets every field; closing changes nothing. */
    method OpenChanged(open: bool)
      modifies this
      ensures !open ==> unchanged(this)
      ensures open ==> && title == "" && description == "" && dueDate == "" && priority == "MEDIUM"
                       && touched == Touched(false, false) && !submitting && errorMsg == ""
    {
      if !open {
        return;
      }
      title, description, dueDate, priority := "", "", "", "MEDIUM";
      touched, submitting, errorMsg := Touched(false, false), false, "";
    }

    /** Whether the submit button is disabled: while a request is in flight, or while a required field is missing. */
    function SubmitDisabled(): (d: bool)
      reads this
      ensures d <==> submitting || JsTrim(title) == [] || dueDate == ""
    {
      submitting || !IsValid(title, dueDate)
    }

    /**
     * `handleSubmit` up to the network call: both fields become touched and the message is
     * cleared; an invalid form sends nothing, a valid one starts submitting and sends its payload.
     */
    method Submit() returns (request: Option<CreatePayload>)
      modifies this
      ensures touched == Touched(true, true) && errorMsg == ""
      ensures title == old(title) && description == old(description)
      ensures dueDate == old(dueDate) && priority == old(priority)
      ensures request.Some? <==> IsValid(title, dueDate)
      ensures request.Some? ==> request.value == Payload(title, description, dueDate, priority) && submitting
      ensures request.None? ==> submitting == old(submitting)
      ensures request.Some? ==> SubmitDisabled()
    {
      touched := Touched(true, true);
      errorMsg := "";
      if !IsValid(title, dueDate) {
        return None;
      }
      submitting := true;
      request := Some(Payload(title, description, dueDate, priority));
    }

    /**
     * The end of `handleSubmit`: on failure the message is shown and the form stays open; in
     * every case submitting ends. Returns whether the form asks to be closed.
     */
    method Settle(failure: Option<RequestError>) returns (close: bool)
      modifies this`submitting, this`errorMsg
      ensures !submitting
      ensures close <==> failure.None?
      ensures failure.Some? ==> errorMsg == ErrorMessage(failure.value, CreateFallback)
      ensures failure.None? ==> errorMsg == old(errorMsg)
      ensures SubmitDisabled() <==> !IsValid(title, dueDate)
    {
      if failure.Some? {
        errorMsg := ErrorMessage(failure.value, CreateFallback);
      }
      submitting := false;
      close := failure.None?;
    }
  }
}
