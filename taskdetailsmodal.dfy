/** The task details form: loading a card into its fields, editing, saving and deleting. */
module TaskDetailsModal {
  import opened Wrappers
  import opened Text
  import opened Cards
  import opened TaskModal

  const SaveFallback := "Não foi possível salvar a tarefa."
  const DeleteFallback := "Não foi possível excluir a tarefa."

  /** The body sent to update a task. */
  datatype UpdatePayload = UpdatePayload(
    title: string,
    description: Option<string>,
    dueDate: string,
    priority: string,
    status: string)

  /** `task?.id` is truthy: a task is open and its identifier is non-empty. */
  predicate HasId(task: Option<Card>) {
    task.Some? && task.value.id != ""
  }

  /** The payload of `handleSave`: trimmed title, trimmed description or null, and the other fields as edited. */
  function SavePayload(title: string, description: string, dueDate: string, priority: string, status: string): (p: UpdatePayload)
    ensures p.title == JsTrim(title) && p.dueDate == dueDate && p.priority == priority && p.status == status
    ensures p.description.None? <==> JsTrim(description) == []
    ensures p.description.Some? ==> p.description.value == JsTrim(description)
  {
    UpdatePayload(JsTrim(title), OrNull(JsTrim(description)), dueDate, priority, status)
  }

  /** The component's state. */
  class TaskDetailsForm {
    var title: string
    var description: string
    var dueDate: string
    var priority: string
    var status: string
    var touched: Touched
    var submitting: bool
    var deleting: bool
    var errorMsg: string

    /** The initial `useState` values. */
    constructor ()
      ensures title == "" && description == "" && dueDate == "" && priority == "MEDIUM" && status == "TODO"
      ensures touched == Touched(false, false) && !submitting && !deleting && errorMsg == ""
    {
      title, description, dueDate, priority, status := "", "", "", "MEDIUM", "TODO";
      touched, submitting, deleting, errorMsg := Touched(false, false), false, false, "";
    }

    /**
     * The effect on `open` and `task`: with the modal open on a task, every field is loaded
     * from it, a missing one taking its default, and the form state is reset; otherwise nothing changes.
     */
    method Load(open: bool, task: Option<Card>)
      modifies this
      ensures !open || task.None? ==> unchanged(this)
      ensures open && task.Some? ==>
                && title == task.value.title.GetOr("")
                && description == task.value.description.GetOr("")
                && dueDate == task.value.dueDate.GetOr("")
                && priority == task.value.priority.GetOr("MEDIUM")
                && status == task.value.status.GetOr("TODO")
                && touched == Touched(false, false) && !submitting && !deleting && errorMsg == ""
    {
      if !open || task.None? {
        return;
      }
      var t := task.value;
      title := t.title.GetOr("");
      description := t.description.GetOr("");
      dueDate := t.dueDate.GetOr("");
      priority := t.priority.GetOr("MEDIUM");
      status := t.status.GetOr("TODO");
      touched := Touched(false, false);
      submitting := false;
      deleting := false;
      errorMsg := "";
    }

    /** Whether the save button is disabled: while either request is in flight, or while a required field is missing. */
    function SaveDisabled(): (d: bool)
      reads this
      ensures d <==> submitting || deleting || JsTrim(title) == [] || dueDate == ""
    {
      submitting || deleting || !IsValid(title, dueDate)
    }

    /**
     * Whether the delete button (and the cancel button, by the same rule) is disabled: while
     * either request is in flight, and then the save button is disabled too.
     */
    function DeleteDisabled(): (d: bool)
      reads this
      ensures d <==> submitting || deleting
      ensures d ==> SaveDisabled()
    {
      deleting || submitting
    }

    /**
     * `handleSave` up to the network call: both fields become touched and the message is
     * cleared; nothing is sent without a task identifier or with an invalid form; otherwise
     * submitting starts and the update for that identifier is sent.
     */
    method Save(task: Option<Card>) returns (request: Option<(string, UpdatePayload)>)
      modifies this
      ensures touched == Touched(true, true) && errorMsg == ""
      ensures title == old(title) && description == old(description) && dueDate == old(dueDate)
      ensures priority == old(priority) && status == old(status) && deleting == old(deleting)
      ensures request.Some? <==> HasId(task) && IsValid(title, dueDate)
      ensures request.Some? ==> && request.value.0 == task.value.id
                                && request.value.1 == SavePayload(title, description, dueDate, priority, status)
                                && submitting
      ensures request.None? ==> submitting == old(submitting)
      ensures request.Some? ==> SaveDisabled() && DeleteDisabled()
    {
      touched := Touched(true, true);
      errorMsg := "";
      if !HasId(task) {
        return None;
      }
      if !IsValid(title, dueDate) {
        return None;
      }
      submitting := true;
      request := Some((task.value.id, SavePayload(title, description, dueDate, priority, status)));
    }

    /**
     * `handleDelete` up to the network call, with the user's answer to the confirmation as
     * `confirmed`: a delete of the task's identifier is sent only when it has one and the user
     * confirmed, and then deleting starts.
     */
    method Delete(task: Option<Card>, confirmed: bool) returns (request: Option<string>)
      modifies this`deleting
      ensures request.Some? <==> HasId(task) && confirmed
      ensures request.Some? ==> request.value == task.value.id && deleting
      ensures request.None? ==> deleting == old(deleting)
      ensures request.Some? ==> SaveDisabled() && DeleteDisabled()
    {
      if !HasId(task) {
        return None;
      }
      if !confirmed {
        return None;
      }
      deleting := true;
      request := Some(task.value.id);
    }

    /** The end of `handleSave`: a failure's message is shown; submitting ends; success closes. */
    method SettleSave(failure: Option<RequestError>) returns (close: bool)
      modifies this`submitting, this`errorMsg
      ensures !submitting
      ensures close <==> failure.None?
      ensures failure.Some? ==> errorMsg == ErrorMessage(failure.value, SaveFallback)
      ensures failure.None? ==> errorMsg == old(errorMsg)
    {
      if failure.Some? {
        errorMsg := ErrorMessage(failure.value, SaveFallback);
      }
      submitting := false;
      close := failure.None?;
    }

    /** The end of `handleDelete`: a failure's message is shown; deleting ends; success closes. */
    method SettleDelete(failure: Option<RequestError>) returns (close: bool)
      modifies this`deleting, this`errorMsg
      ensures !deleting
      ensures close <==> failure.None?
      ensures failure.Some? ==> errorMsg == ErrorMessage(failure.value, DeleteFallback)
      ensures failure.None? ==> errorMsg == old(errorMsg)
    {
      if failure.Some? {
        errorMsg := ErrorMessage(failure.value, DeleteFallback);
      }
      deleting := false;
      close := failure.None?;
    }
  }
}
