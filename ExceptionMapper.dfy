/** The two exception handlers of exception/ExceptionMapper.java and the exception and body
    types they use. */
module ExceptionMapper {
  import opened Wrappers

  /** The domain exception. `getMessage()` returns the text given to `super(errorMessage)`,
      which every constructor also stores as `errorMessage`, so one field stands for both. */
  datatype UserException = UserException(code: Option<string>, message: Option<string>)

  /** The error body. A fresh instance has `success == false` and both strings null. */
  datatype ErrorResponse = ErrorResponse(success: bool, errorCode: Option<string>, message: Option<string>)

  /** What a handler can throw: the domain exception, or any other exception, of which only
      its (discarded) message is kept. */
  datatype Failure = Domain(ex: UserException) | Generic(message: Option<string>)

  /** `ResponseEntity<ErrorResponse>`: the body and the HTTP status. */
  datatype ErrorEntity = ErrorEntity(body: ErrorResponse, status: int)

  const NOT_FOUND: nat := 404
  const BAD_REQUEST: nat := 400
  const MALFORMED_SYNTAX: string := "The request could not be understood by the server due to malformed syntax."

  /** `new UserException(code, errorMessage)`. */
  function NewUserException(code: string, errorMessage: string): (e: UserException)
    ensures e.code == Some(code) && e.message == Some(errorMessage)
  {
    UserException(Some(code), Some(errorMessage))
  }

  /** `new ErrorResponse()`: Java's default field values. */
  function NewErrorResponse(): (e: ErrorResponse)
    ensures !e.success && e.errorCode.None? && e.message.None?
  {
    ErrorResponse(false, None, None)
  }

  /** The number a string of decimal digits denotes, most significant digit first. */
  function DigitsValue(s: string): nat
    requires forall i :: 0 <= i < |s| ==> '0' <= s[i] <= '9'
  {
    if s == [] then 0 else 10 * DigitsValue(s[..|s| - 1]) + (s[|s| - 1] - '0') as nat
  }

  /** `String.valueOf(n)` for a non-negative int: its decimal representation, without
      leading zeros. */
  function DecimalString(n: nat): (s: string)
    ensures |s| > 0
    ensures forall i :: 0 <= i < |s| ==> '0' <= s[i] <= '9'
    ensures DigitsValue(s) == n
    ensures |s| > 1 ==> s[0] != '0'
  {
    var d := ['0' + (n % 10) as char];
    if n < 10 then d else DecimalString(n / 10) + d
  }

  /** `exceptionUserHandler`: echoes the exception's code and message, with success false and
      status 404 whatever the code is. */
  function ExceptionUserHandler(ex: UserException): (r: ErrorEntity)
    ensures r.status == NOT_FOUND
    ensures !r.body.success && r.body.errorCode == ex.code && r.body.message == ex.message
  {
    var error := NewErrorResponse().(success := false);
    var error := error.(errorCode := ex.code);
    var error := error.(message := ex.message);
    ErrorEntity(error, NOT_FOUND)
  }

  /** `exceptionHandler`: a fixed body with code "400" and the fixed malformed-syntax text,
      status 400; `success` is never set and keeps its default. */
  function ExceptionHandler(message: Option<string>): (r: ErrorEntity)
    ensures r.status == BAD_REQUEST
    ensures !r.body.success
    ensures r.body.errorCode == Some(DecimalString(BAD_REQUEST))
    ensures r.body.message == Some(MALFORMED_SYNTAX)
  {
    var error := NewErrorResponse().(errorCode := Some(DecimalString(BAD_REQUEST)));
    var error := error.(message := Some(MALFORMED_SYNTAX));
    ErrorEntity(error, BAD_REQUEST)
  }

  /** The framework's choice of handler: the most specific one, so a `UserException` goes to
      `exceptionUserHandler` and everything else to `exceptionHandler`. */
  function HandleFailure(f: Failure): (r: ErrorEntity)
    ensures !r.body.success
    ensures r.status == NOT_FOUND <==> f.Domain?
    ensures r.status == BAD_REQUEST <==> f.Generic?
    ensures f.Domain? ==> r == ExceptionUserHandler(f.ex)
    ensures f.Generic? ==> r == ExceptionHandler(f.message)
  {
    match f
    case Domain(ex) => ExceptionUserHandler(ex)
    case Generic(m) => ExceptionHandler(m)
  }

  /** The generic error code is the text "400". */
  lemma BadRequestCode()
    ensures DecimalString(BAD_REQUEST) == "400"
  {
  }

  /** The generic handler discards the original message: any two such exceptions give the same
      response. */
  lemma GenericDiscardsMessage(m1: Option<string>, m2: Option<string>)
    ensures HandleFailure(Generic(m1)) == HandleFailure(Generic(m2))
  {
  }

  /** A domain exception built with a code and a message comes back with exactly that code and
      message. */
  lemma DomainEchoesException(code: string, errorMessage: string)
    ensures HandleFailure(Domain(NewUserException(code, errorMessage))) ==
      ErrorEntity(ErrorResponse(false, Some(code), Some(errorMessage)), NOT_FOUND)
  {
  }
}
