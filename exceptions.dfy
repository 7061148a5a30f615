/** The failure kinds of the service and their translation into the error body of the HTTP interface. */
module Exceptions {
  import opened Wrappers
  import opened Entity
  import opened Dto

  /**
   * What can go wrong: a missing task (the not-found exception and its message), a request
   * that fails its declared constraints (the binding result's field errors), or anything else
   * (a null dereference, a storage error), whose internal detail is kept here only to show it
   * never reaches the caller.
   */
  datatype Failure =
    | NotFound(message: string)
    | Invalid(errors: seq<FieldError>)
    | Internal(detail: string)

  /** The error body: status code, message, timestamp and an optional field-to-message map. */
  datatype ApiError = ApiError(
    status: int,
    message: string,
    timestamp: Timestamp,
    fieldErrors: Option<map<string, string>>)

  const InvalidMessage := "Dados inválidos"
  const InternalMessage := "Erro interno do servidor"

  function FieldsOf(errs: seq<FieldError>): set<string> {
    set e | e in errs :: e.field
  }

  lemma FieldsOfSnoc(init: seq<FieldError>, last: FieldError)
    ensures FieldsOf(init + [last]) == FieldsOf(init) + {last.field}
  {
    var all := init + [last];
    forall f | f in FieldsOf(all) ensures f in FieldsOf(init) + {last.field} {
      var e :| e in all && e.field == f;
      if e != last { assert e in init; }
    }
    forall f | f in FieldsOf(init) ensures f in FieldsOf(all) {
      var e :| e in init && e.field == f;
      assert e in all;
    }
    assert last in all;
  }

  /** No error after position `i` names the same field. */
  predicate IsLastFor(errs: seq<FieldError>, i: int)
    requires 0 <= i < |errs|
  {
    forall j :: i < j < |errs| ==> errs[j].field != errs[i].field
  }

  /** The map built by putting every error's field and message in order; its keys are exactly the failing fields. */
  function FieldErrorMap(errs: seq<FieldError>): (m: map<string, string>)
    ensures m.Keys == FieldsOf(errs)
  {
    if errs == [] then map[]
    else
      var init, last := errs[..|errs| - 1], errs[|errs| - 1];
      assert errs == init + [last];
      FieldsOfSnoc(init, last);
      FieldErrorMap(init)[last.field := last.message]
  }

  /** When a field failed several times, the map holds the message of its last error. */
  lemma {:induction false} LastErrorWins(errs: seq<FieldError>, i: int)
    requires 0 <= i < |errs| && IsLastFor(errs, i)
    ensures errs[i].field in FieldErrorMap(errs)
    ensures FieldErrorMap(errs)[errs[i].field] == errs[i].message
  {
    var init, last := errs[..|errs| - 1], errs[|errs| - 1];
    if i < |init| {
      assert errs[i] == init[i] && errs[i].field != last.field;
      assert IsLastFor(init, i) by {
        forall j | i < j < |init| ensures init[j].field != init[i].field {
          assert init[j] == errs[j];
        }
      }
      LastErrorWins(init, i);
    }
  }

  /** `handleValidation`: the field errors are collected by a loop of `put`s. */
  method HandleValidation(errors: seq<FieldError>, now: Timestamp) returns (e: ApiError)
    ensures e == ApiError(400, InvalidMessage, now, Some(FieldErrorMap(errors)))
  {
    var fieldErrors: map<string, string> := map[];
    var i := 0;
    while i < |errors|
      invariant 0 <= i <= |errors|
      invariant fieldErrors == FieldErrorMap(errors[..i])
    {
      assert errors[..i + 1][..i] == errors[..i];
      fieldErrors := fieldErrors[errors[i].field := errors[i].message];
      i := i + 1;
    }
    assert errors[..i] == errors;
    e := ApiError(400, InvalidMessage, now, Some(fieldErrors));
  }

  /**
   * The advice's dispatch from failure kind to error body: not-found is 404 with the
   * exception's message, a validation failure is 400 with its field errors, and anything else
   * is 500 with a fixed message, so no detail of an internal failure is disclosed.
   */
  function Handle(f: Failure, now: Timestamp): (e: ApiError)
    ensures e.timestamp == now
    ensures e.status == 404 <==> f.NotFound?
    ensures e.status == 400 <==> f.Invalid?
    ensures e.status == 500 <==> f.Internal?
    ensures f.NotFound? ==> e.message == f.message && e.fieldErrors.None?
    ensures f.Invalid? ==> e.message == InvalidMessage && e.fieldErrors.Some?
                           && e.fieldErrors.value.Keys == FieldsOf(f.errors)
    ensures f.Internal? ==> e == ApiError(500, InternalMessage, now, None)
  {
    match f
    case NotFound(message) => ApiError(404, message, now, None)
    case Invalid(errors) => ApiError(400, InvalidMessage, now, Some(FieldErrorMap(errors)))
    case Internal(_) => ApiError(500, InternalMessage, now, None)
  }
}
