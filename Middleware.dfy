/** ErrorMiddleware: an exception that escapes the request pipeline becomes a
    JSON error response whose status is chosen by an ordered type switch. */
module Middleware {
  import opened Common
  import UploadValidation

  /** ErrorResponse: the message, the list of errors and the status code. */
  datatype ErrorResponse = ErrorResponse(message: string, errors: seq<string>, statusCode: int)

  const BadRequest: int := 400
  const NotFound: int := 404
  const InternalServerError: int := 500

  const JsonContentType := "application/json"

  /** The arms of the `exception switch`, in source order. */
  datatype Arm = ValidationArm | FileNotFoundArm | ArgumentArm | DefaultArm

  const Arms: seq<Arm> := [ValidationArm, FileNotFoundArm, ArgumentArm, DefaultArm]

  /** The type pattern of each arm. The first three patterns are disjoint:
      ValidationException derives from Exception, not from ArgumentException. */
  predicate Matches(arm: Arm, e: Exception) {
    match arm
    case ValidationArm => e.Validation?
    case FileNotFoundArm => e.FileNotFound?
    case ArgumentArm => IsArgumentException(e)
    case DefaultArm => true
  }

  /** The response each arm builds. */
  function ArmResponse(arm: Arm, e: Exception): ErrorResponse {
    match arm
    case ValidationArm =>
      ErrorResponse("Validation failed", if e.Validation? then e.errors else [], BadRequest)
    case FileNotFoundArm => ErrorResponse("Resource not found", [e.Message()], NotFound)
    case ArgumentArm => ErrorResponse("Invalid argument", [e.Message()], BadRequest)
    case DefaultArm =>
      ErrorResponse("An error occurred while processing your request", [e.Message()], InternalServerError)
  }

  /** The index of the first arm, from `from` on, whose pattern matches. */
  function FirstMatch(e: Exception, from: nat): (r: nat)
    requires from < |Arms|
    ensures from <= r < |Arms| && Matches(Arms[r], e)
    ensures forall k :: from <= k < r ==> !Matches(Arms[k], e)
    decreases |Arms| - from
  {
    if Matches(Arms[from], e) || from == |Arms| - 1 then from
    else FirstMatch(e, from + 1)
  }

  /** The switch expression: the response of the first matching arm. */
  function Classify(e: Exception): (r: ErrorResponse)
    ensures r.statusCode == BadRequest <==> e.Validation? || IsArgumentException(e)
    ensures r.statusCode == NotFound <==> e.FileNotFound?
    ensures r.statusCode == InternalServerError <==>
      !e.Validation? && !IsArgumentException(e) && !e.FileNotFound?
    ensures e.Validation? ==> r.errors == e.errors
    ensures !e.Validation? ==> r.errors == [e.Message()]
  {
    ArmResponse(Arms[FirstMatch(e, 0)], e)
  }

  /** A validation failure is matched by its own arm and by no other typed
      arm, so the response lists the validation messages rather than the
      exception's own message. */
  lemma ValidationArmWins(errors: seq<string>)
    ensures Matches(ValidationArm, Validation(errors))
    ensures !Matches(FileNotFoundArm, Validation(errors)) && !Matches(ArgumentArm, Validation(errors))
    ensures Classify(Validation(errors)) == ErrorResponse("Validation failed", errors, BadRequest)
  {
  }

  /** The four outcomes of the switch, one per kind of exception. */
  lemma ClassifyCases(m: string, errors: seq<string>)
    ensures Classify(FileNotFound(m)) == ErrorResponse("Resource not found", [m], NotFound)
    ensures Classify(Argument(m)) == ErrorResponse("Invalid argument", [m], BadRequest)
    ensures Classify(Other(m)) == ErrorResponse("An error occurred while processing your request", [m], InternalServerError)
    ensures Classify(Validation(errors)).message == "Validation failed"
  {
    assert FirstMatch(FileNotFound(m), 0) == 1;
    assert FirstMatch(Argument(m), 0) == 2;
    assert FirstMatch(Other(m), 0) == 3;
  }

  /** An upload rejected by the validator is reported as a 400 whose errors
      are the validator's messages, in the order the rules produced them. */
  lemma RejectedUploadResponse(files: seq<UploadValidation.UploadFile>)
    requires UploadValidation.Validate(files) != []
    ensures var r := Classify(Validation(UploadValidation.Messages(UploadValidation.Validate(files))));
      r.statusCode == BadRequest && r.errors == UploadValidation.Messages(UploadValidation.Validate(files))
    ensures files == [] ==>
      Classify(Validation(UploadValidation.Messages(UploadValidation.Validate(files))))
        == ErrorResponse("Validation failed", [UploadValidation.NoFilesMessage], BadRequest)
  {
    if files == [] {
      UploadValidation.EmptyCollection(files);
    }
    ValidationArmWins(UploadValidation.Messages(UploadValidation.Validate(files)));
  }

  /** The parts of HttpContext.Response that the middleware sets. */
  class HttpResponse {
    var contentType: string
    var statusCode: int

    constructor ()
      ensures contentType == "" && statusCode == 200
    {
      contentType, statusCode := "", 200;
    }
  }

  /** HandleExceptionAsync: the content type becomes JSON and the status code
      that of the chosen response, which is returned as the body to write. */
  method HandleException(response: HttpResponse, e: Exception) returns (body: ErrorResponse)
    modifies response
    ensures body == Classify(e)
    ensures response.contentType == JsonContentType
    ensures response.statusCode == body.statusCode
  {
    response.contentType := JsonContentType;
    body := ArmResponse(Arms[FirstMatch(e, 0)], e);
    response.statusCode := body.statusCode;
  }

  /** InvokeAsync: the rest of the pipeline runs; an exception it throws is
      handled here, and a normal completion leaves the response untouched. */
  method Invoke(response: HttpResponse, thrown: Option<Exception>) returns (body: Option<ErrorResponse>)
    modifies response
    ensures thrown.None? ==> body.None? && unchanged(response)
    ensures thrown.Some? ==> body == Some(Classify(thrown.value))
    ensures thrown.Some? ==> response.contentType == JsonContentType && response.statusCode == body.value.statusCode
  {
    if thrown.Some? {
      var r := HandleException(response, thrown.value);
      body := Some(r);
    } else {
      body := None;
    }
  }
}
