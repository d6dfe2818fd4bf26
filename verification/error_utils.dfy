/**
 * Reading Laravel validation errors out of failed requests (lib/errorUtils.ts)
 * and turning a failed request into the error the caller sees.
 */
module ErrorUtils {
  import opened Wrappers
  import opened JsText

  /** One field of a validation map with its messages; fields appear in the map's own order. */
  datatype FieldErrors = FieldErrors(field: string, messages: seq<string>)

  type ValidationErrors = seq<FieldErrors>

  datatype ResponseData = ResponseData(message: Option<string>, errors: Option<ValidationErrors>)

  datatype Response = Response(status: int, data: Option<ResponseData>)

  /** The `response` property: missing, present but `undefined`, or a response. */
  datatype ResponseField = NoResponseKey | UndefinedResponse | HasResponse(response: Response)

  /**
   * A thrown value: anything that is not an object (`null`, strings, numbers…),
   * or an object; `isError` is `instanceof Error`, and `stored` holds the map of
   * a `ValidationError` instance.
   */
  datatype Thrown =
    | NonObject
    | ObjectValue(response: ResponseField, isError: bool, message: string, stored: Option<ValidationErrors>)

  /** `extractValidationErrors` */
  function ExtractValidationErrors(e: Thrown): (r: Option<ValidationErrors>)
    ensures e.NonObject? ==> r.None?
    ensures e.ObjectValue? && e.response.HasResponse? && e.response.response.status == 422
            && e.response.response.data.Some? && e.response.response.data.value.errors.Some?
            ==> r == e.response.response.data.value.errors
    ensures e.ObjectValue? && !(e.response.HasResponse? && e.response.response.status == 422
            && e.response.response.data.Some? && e.response.response.data.value.errors.Some?)
            ==> r == e.stored
    ensures r.Some? ==> (e.ObjectValue? && (r == e.stored || (e.response.HasResponse? && e.response.response.status == 422)))
    ensures e.ObjectValue? && e.stored.None? && !(e.response.HasResponse? && e.response.response.status == 422) ==> r.None?
  {
    match e
    case NonObject => None
    case ObjectValue(response, _, _, stored) =>
      if response.HasResponse? && response.response.status == 422
         && response.response.data.Some? && response.response.data.value.errors.Some?
      then response.response.data.value.errors
      else stored
  }

  /** `isValidationError` */
  predicate IsValidationError(e: Thrown)
  {
    ExtractValidationErrors(e).Some?
  }

  /** `errors[field]`: the messages of the field, `undefined` when it is missing. */
  function Lookup(errors: ValidationErrors, field: string): (r: Option<seq<string>>)
    ensures r.None? <==> forall i :: 0 <= i < |errors| ==> errors[i].field != field
    ensures r.Some? ==> exists i :: 0 <= i < |errors| && errors[i] == FieldErrors(field, r.value)
  {
    if |errors| == 0 then None
    else if errors[0].field == field then Some(errors[0].messages)
    else
      var r := Lookup(errors[1..], field);
      assert r.Some? ==> exists i :: 0 <= i < |errors[1..]| && errors[1..][i] == FieldErrors(field, r.value);
      assert forall i :: 0 < i < |errors| ==> errors[i] == errors[1..][i - 1];
      r
  }

  /** `getFirstError`: the field's first message, if any. */
  function GetFirstError(errors: Option<ValidationErrors>, field: string): (r: Option<string>)
    ensures errors.None? ==> r.None?
    ensures errors.Some? && Lookup(errors.value, field).None? ==> r.None?
    ensures errors.Some? && Lookup(errors.value, field) == Some([]) ==> r.None?
  {
    if errors.None? then None
    else
      match Lookup(errors.value, field)
      case None => None
      case Some(messages) => if |messages| == 0 then None else Some(messages[0])
  }

  /** `getFieldErrors`: the field's messages, `[]` when there are none. */
  function GetFieldErrors(errors: Option<ValidationErrors>, field: string): (r: seq<string>)
    ensures errors.None? ==> r == []
    ensures errors.Some? && Lookup(errors.value, field).None? ==> r == []
    ensures errors.Some? && Lookup(errors.value, field).Some? ==> r == Lookup(errors.value, field).value
  {
    if errors.None? then []
    else
      match Lookup(errors.value, field)
      case None => []
      case Some(messages) => messages
  }

  /** The two readers agree: the first error is the head of the field's list, and exists exactly when the list is non-empty. */
  lemma FirstErrorIsHeadOfFieldErrors(errors: Option<ValidationErrors>, field: string)
    ensures GetFirstError(errors, field).Some? <==> |GetFieldErrors(errors, field)| > 0
    ensures |GetFieldErrors(errors, field)| > 0 ==> GetFirstError(errors, field) == Some(GetFieldErrors(errors, field)[0])
  {
  }

  /** Every message, fields in map order and messages in list order. */
  function AllMessages(errors: ValidationErrors): seq<string>
  {
    if |errors| == 0 then [] else AllMessages(errors[..|errors| - 1]) + errors[|errors| - 1].messages
  }

  /** A message is listed exactly when some field carries it. */
  lemma {:induction false} AllMessagesMembers(errors: ValidationErrors, m: string)
    ensures m in AllMessages(errors) <==> exists i :: 0 <= i < |errors| && m in errors[i].messages
    decreases |errors|
  {
    if |errors| > 0 {
      var init := errors[..|errors| - 1];
      AllMessagesMembers(init, m);
      assert forall i :: 0 <= i < |init| ==> init[i] == errors[i];
    }
  }

  const ValidationFailed := "Validation failed"

  /** What `formatValidationErrors` returns. */
  function FormatSpec(errors: Option<ValidationErrors>): string
  {
    if errors.None? then ValidationFailed else Join(AllMessages(errors.value), " ")
  }

  /** `formatValidationErrors`: the nested loops pushing every message, then a space-join. */
  method FormatValidationErrors(errors: Option<ValidationErrors>) returns (r: string)
    ensures r == FormatSpec(errors)
    ensures errors.None? ==> r == ValidationFailed
  {
    if errors.None? {
      return ValidationFailed;
    }
    var fields := errors.value;
    var messages: seq<string> := [];
    var i := 0;
    while i < |fields|
      invariant 0 <= i <= |fields|
      invariant messages == AllMessages(fields[..i])
    {
      var fieldErrors := fields[i].messages;
      var j := 0;
      while j < |fieldErrors|
        invariant 0 <= j <= |fieldErrors|
        invariant messages == AllMessages(fields[..i]) + fieldErrors[..j]
      {
        messages := messages + [fieldErrors[j]];
        j := j + 1;
      }
      assert fieldErrors[..j] == fieldErrors;
      assert fields[..i + 1][..i] == fields[..i];
      i := i + 1;
    }
    assert fields[..|fields|] == fields;
    r := Join(messages, " ");
  }

  /** What `handleApiError` throws. */
  datatype Raised =
    | RaisedValidation(message: string, errors: ValidationErrors)
    | RaisedError(message: string)
    | Rethrown(original: Thrown)

  /** `response?.data?.message || fallback` */
  function ResponseMessage(response: ResponseField, fallback: string): string
  {
    if response.HasResponse? && response.response.data.Some? && response.response.data.value.message.Some?
       && response.response.data.value.message.value != ""
    then response.response.data.value.message.value
    else fallback
  }

  /** `handleApiError`: it never returns; this is the error it throws. */
  function HandleApiError(e: Thrown, defaultMessage: string): (r: Raised)
    ensures r.RaisedValidation? <==> IsValidationError(e)
    ensures r.RaisedValidation? ==> Some(r.errors) == ExtractValidationErrors(e) && r.message != ""
    ensures r.RaisedValidation? && e.ObjectValue? ==> r.message == ResponseMessage(e.response, ValidationFailed)
    ensures !IsValidationError(e) && e.ObjectValue? && !e.response.NoResponseKey? ==>
      r == RaisedError(ResponseMessage(e.response, defaultMessage))
    ensures r.Rethrown? ==> r.original == e && e.ObjectValue? && e.isError && e.response.NoResponseKey?
    ensures !IsValidationError(e) && (e.NonObject? || (e.response.NoResponseKey? && !e.isError)) ==>
      r == RaisedError(defaultMessage)
  {
    match ExtractValidationErrors(e)
    case Some(errors) =>
      var message := if e.ObjectValue? then ResponseMessage(e.response, ValidationFailed) else ValidationFailed;
      RaisedValidation(message, errors)
    case None =>
      if e.ObjectValue? && !e.response.NoResponseKey? then RaisedError(ResponseMessage(e.response, defaultMessage))
      else if e.ObjectValue? && e.isError then Rethrown(e)
      else RaisedError(defaultMessage)
  }

  /** A rethrown validation error is recognised again with the same map. */
  lemma RaisedValidationRoundTrip(e: Thrown, defaultMessage: string)
    requires IsValidationError(e)
    ensures var r := HandleApiError(e, defaultMessage);
      ExtractValidationErrors(ObjectValue(NoResponseKey, true, r.message, Some(r.errors))) == ExtractValidationErrors(e)
  {
  }
}
