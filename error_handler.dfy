/**
 * The frontend's error helpers: the message shown for an API error, the
 * field-error map built for forms, the error-code tests, and the notification
 * object handed to UI components.
 *
 * JavaScript values are modelled as follows: an absent (`undefined`/`null`)
 * value is `None`; a string is truthy exactly when it is non-empty.
 */
module ErrorHandler {
  import opened Common

  const UnknownErrorMessage: string := "An unknown error occurred"

  /** One entry of an API error's `errors` array. */
  datatype FieldErrorEntry = FieldErrorEntry(field: Option<string>, message: Option<string>)

  /** The error object the API layer produces. */
  datatype ApiError = ApiError(
    message: Option<string>,
    detailedMessage: Option<string>,
    hasDetails: bool,
    errors: Option<seq<FieldErrorEntry>>,
    fieldErrors: Option<map<string, string>>,
    generalErrors: Option<seq<string>>,
    errorCodes: Option<seq<string>>)

  /** The `details` part of a notification. */
  datatype Details = Details(
    fieldErrors: Option<map<string, string>>,
    generalErrors: Option<seq<string>>,
    errorCodes: Option<seq<string>>)

  /** The notification object, without its wall-clock `timestamp`. */
  datatype Notification = Notification(kind: string, title: string, message: Option<string>, details: Option<Details>)

  /** Evaluating the expression throws (here: reading a property of `undefined`). */
  datatype JsError = TypeError

  predicate Truthy(s: Option<string>) {
    s.Some? && s.value != ""
  }

  /**
   * `formatErrorMessage(error, showDetails)`: the fixed text for a missing
   * error; the detailed message when details are asked for, present and
   * non-empty; the plain message otherwise (which may itself be missing).
   */
  function FormatErrorMessage(error: Option<ApiError>, showDetails: bool): (r: Option<string>)
    ensures error.None? ==> r == Some(UnknownErrorMessage)
    ensures error.Some? && showDetails && error.value.hasDetails && Truthy(error.value.detailedMessage) ==>
      r == error.value.detailedMessage
    ensures error.Some? && !(showDetails && error.value.hasDetails && Truthy(error.value.detailedMessage)) ==>
      r == error.value.message
  {
    match error
    case None => Some(UnknownErrorMessage)
    case Some(e) =>
      if showDetails && e.hasDetails then
        (if Truthy(e.detailedMessage) then e.detailedMessage else e.message)
      else e.message
  }

  /**
   * `createErrorNotification(error)`: always of kind 'error' titled 'Error',
   * with the message of `formatErrorMessage(error)` and details exactly when
   * the error has them. A missing error throws, because `error.hasDetails` is
   * read from it.
   */
  function CreateErrorNotification(error: Option<ApiError>): (r: Result<Notification, JsError>)
    ensures error.None? ==> r == Failure(TypeError)
    ensures error.Some? ==> r.Success?
    ensures r.Success? ==>
      && r.value.kind == "error" && r.value.title == "Error"
      && r.value.message == FormatErrorMessage(error, false)
      && r.value.message == error.value.message
      && (r.value.details.None? <==> !error.value.hasDetails)
    ensures r.Success? && r.value.details.Some? ==>
      r.value.details.value == Details(error.value.fieldErrors, error.value.generalErrors, error.value.errorCodes)
  {
    var message := FormatErrorMessage(error, false);
    match error
    case None => Failure(TypeError)
    case Some(e) =>
      var details := if e.hasDetails then Some(Details(e.fieldErrors, e.generalErrors, e.errorCodes)) else None;
      Success(Notification("error", "Error", message, details))
  }

  /**
   * A field name that becomes an own key of a plain object on assignment;
   * assigning to `__proto__` changes the prototype (or does nothing) instead.
   */
  predicate IsOwnKey(field: Option<string>) {
    Truthy(field) && field.value != "__proto__"
  }

  /** Some entry carries `f` as a usable field name. */
  predicate NamesField(entries: seq<FieldErrorEntry>, f: string) {
    exists i :: 0 <= i < |entries| && entries[i].field == Some(f) && IsOwnKey(entries[i].field)
  }

  /** No entry after position `i` carries the same field. */
  predicate LastForItsField(entries: seq<FieldErrorEntry>, i: int)
    requires 0 <= i < |entries|
  {
    forall j :: i < j < |entries| ==> entries[j].field != entries[i].field
  }

  /** The field map after processing `entries` in order: a later entry for the same field overwrites an earlier one. */
  function FieldErrorsOf(entries: seq<FieldErrorEntry>): (r: map<string, Option<string>>)
    ensures forall f :: f in r <==> NamesField(entries, f)
    ensures forall i :: 0 <= i < |entries| && IsOwnKey(entries[i].field) && LastForItsField(entries, i) ==>
      entries[i].field.value in r && r[entries[i].field.value] == entries[i].message
    decreases |entries|
  {
    if entries == [] then map[]
    else
      var init := entries[..|entries| - 1];
      var last := entries[|entries| - 1];
      assert entries == init + [last];
      FieldErrorsStep(init, last, FieldErrorsOf(init));
      AddEntry(FieldErrorsOf(init), last)
  }

  /** One step of the `forEach`: a usable field name sets that field's message. */
  function AddEntry(m: map<string, Option<string>>, e: FieldErrorEntry): map<string, Option<string>> {
    if IsOwnKey(e.field) then m[e.field.value := e.message] else m
  }

  /** Processing one more entry after `init` gives the field map of the longer list. */
  lemma FieldErrorsStep(init: seq<FieldErrorEntry>, last: FieldErrorEntry, m: map<string, Option<string>>)
    requires forall f :: f in m <==> NamesField(init, f)
    requires forall i :: 0 <= i < |init| && IsOwnKey(init[i].field) && LastForItsField(init, i) ==>
      init[i].field.value in m && m[init[i].field.value] == init[i].message
    ensures var entries := init + [last];
      && (forall f :: f in AddEntry(m, last) <==> NamesField(entries, f))
      && (forall i :: 0 <= i < |entries| && IsOwnKey(entries[i].field) && LastForItsField(entries, i) ==>
            entries[i].field.value in AddEntry(m, last)
            && AddEntry(m, last)[entries[i].field.value] == entries[i].message)
  {
    var entries := init + [last];
    var m' := AddEntry(m, last);
    assert forall i :: 0 <= i < |init| ==> entries[i] == init[i];
    assert entries[|init|] == last;
    forall f
      ensures f in m' <==> NamesField(entries, f)
    {
      if NamesField(entries, f) {
        var i :| 0 <= i < |entries| && entries[i].field == Some(f) && IsOwnKey(entries[i].field);
        if i < |init| {
          assert NamesField(init, f);
        }
      }
      if NamesField(init, f) {
        var i :| 0 <= i < |init| && init[i].field == Some(f) && IsOwnKey(init[i].field);
        assert entries[i].field == Some(f);
      }
    }
    forall i | 0 <= i < |entries| && IsOwnKey(entries[i].field) && LastForItsField(entries, i)
      ensures entries[i].field.value in m' && m'[entries[i].field.value] == entries[i].message
    {
      if i < |init| {
        assert entries[|init|].field != entries[i].field;
        assert LastForItsField(init, i);
      }
    }
  }

  /**
   * `extractFieldErrors(error)`: `{}` when there is no `errors` array;
   * otherwise each entry with a usable field name sets that field's message.
   */
  method ExtractFieldErrors(error: Option<ApiError>) returns (fieldErrors: map<string, Option<string>>)
    ensures error.None? || error.value.errors.None? ==> fieldErrors == map[]
    ensures error.Some? && error.value.errors.Some? ==> fieldErrors == FieldErrorsOf(error.value.errors.value)
  {
    if error.None? || error.value.errors.None? {
      return map[];
    }
    var errors := error.value.errors.value;
    fieldErrors := map[];
    var i := 0;
    while i < |errors|
      invariant 0 <= i <= |errors|
      invariant fieldErrors == FieldErrorsOf(errors[..i])
    {
      var err := errors[i];
      assert errors[..i + 1][..i] == errors[..i];
      if Truthy(err.field) && err.field.value != "__proto__" {
        fieldErrors := fieldErrors[err.field.value := err.message];
      }
      i := i + 1;
    }
    assert errors[..i] == errors;
  }

  /** `isErrorType(error, code)`: the error's codes include `code`; false when the error or its codes are absent. */
  function IsErrorType(error: Option<ApiError>, errorCode: string): (r: bool)
    ensures error.None? || error.value.errorCodes.None? ==> !r
    ensures error.Some? && error.value.errorCodes.Some? ==> (r <==> errorCode in error.value.errorCodes.value)
  {
    match error
    case None => false
    case Some(e) =>
      match e.errorCodes
      case None => false
      case Some(codes) => errorCode in codes
  }

  predicate IsValidationError(error: Option<ApiError>) { IsErrorType(error, "VALIDATION_ERROR") }

  predicate IsNotFoundError(error: Option<ApiError>) { IsErrorType(error, "NOT_FOUND") }

  predicate IsUnauthorizedError(error: Option<ApiError>) {
    IsErrorType(error, "UNAUTHORIZED") || IsErrorType(error, "AUTHENTICATION_FAILED")
  }

  predicate IsDuplicateError(error: Option<ApiError>) { IsErrorType(error, "DUPLICATE_ENTRY") }

  predicate IsInsufficientStockError(error: Option<ApiError>) { IsErrorType(error, "INSUFFICIENT_STOCK") }

  /** `isAuthenticationError`: every authentication error is also an unauthorized error. */
  function IsAuthenticationError(error: Option<ApiError>): (r: bool)
    ensures r ==> IsUnauthorizedError(error)
    ensures r <==> error.Some? && error.value.errorCodes.Some? && "AUTHENTICATION_FAILED" in error.value.errorCodes.value
  {
    IsErrorType(error, "AUTHENTICATION_FAILED")
  }

  /** Each derived test holds exactly when the error's codes include its code. */
  lemma DerivedErrorTests(error: Option<ApiError>)
    ensures var codes := if error.Some? && error.value.errorCodes.Some? then error.value.errorCodes.value else [];
      && (IsValidationError(error) <==> "VALIDATION_ERROR" in codes)
      && (IsNotFoundError(error) <==> "NOT_FOUND" in codes)
      && (IsUnauthorizedError(error) <==> "UNAUTHORIZED" in codes || "AUTHENTICATION_FAILED" in codes)
      && (IsDuplicateError(error) <==> "DUPLICATE_ENTRY" in codes)
      && (IsInsufficientStockError(error) <==> "INSUFFICIENT_STOCK" in codes)
  {
  }
}
