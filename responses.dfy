/**
 * The error responses of the API: for each helper, the status code, message,
 * details and error it packs into an ErrorPackage, and the header it sets.
 * Serialising the package and writing it out are not modelled.
 */
module Responses {
  import opened Base
  import opened Text
  import opened GoErrors
  import opened Validation
  import Tokens

  /** The `Details any` field: absent, a text, or the validator's field errors. */
  datatype Details = NoDetails | TextDetails(text: string) | FieldErrors(errors: map<string, Shown>)

  /** data.ErrorPackage. */
  datatype ErrorPackage = ErrorPackage(
    error: Option<Error>,
    message: string,
    logMessage: string,
    details: Details,
    statusCode: int)

  /** A header line the helper sets on the response before writing it. */
  datatype Header = Header(name: string, value: string)

  /** What a helper hands to errorResponse: the headers it set, then the package. */
  datatype Response = Response(headers: seq<Header>, pkg: ErrorPackage)

  const StatusOK := 200
  const StatusBadRequest := 400
  const StatusUnauthorized := 401
  const StatusForbidden := 403
  const StatusNotFound := 404
  const StatusMethodNotAllowed := 405
  const StatusConflict := 409
  const StatusUnprocessableEntity := 422
  const StatusTooManyRequests := 429
  const StatusInternalServerError := 500

  /** A package with only a status and a message. */
  function Plain(status: int, message: string): ErrorPackage {
    ErrorPackage(None, message, "", NoDetails, status)
  }

  /** serverErrorResponse: 500, the first message passed or the default one. */
  function ServerErrorResponse(err: Error, message: seq<string>): (ep: ErrorPackage)
    ensures ep.statusCode == StatusInternalServerError && ep.error == Some(err)
    ensures |message| > 0 ==> ep.message == message[0]
    ensures |message| == 0 ==> ep.message == "There was an error processing your request"
  {
    var msg := if |message| > 0 then message[0] else "There was an error processing your request";
    ErrorPackage(Some(err), msg, "", NoDetails, StatusInternalServerError)
  }

  /** badIdResponse: 400 with the parse error's text as details. */
  function BadIdResponse(err: Error): (ep: ErrorPackage)
    ensures ep.statusCode == StatusBadRequest && ep.details == TextDetails(GoErrors.Text(err)) && ep.error == Some(err)
    ensures ep.message == "Invalid ID provided"
  {
    ErrorPackage(Some(err), "Invalid ID provided", "", TextDetails(GoErrors.Text(err)), StatusBadRequest)
  }

  function DuplicateKeyResponse(): (ep: ErrorPackage)
    ensures ep.statusCode == StatusBadRequest && ep.message == "Duplicate key provided"
    ensures ep.error.None? && ep.details == NoDetails
  {
    Plain(StatusBadRequest, "Duplicate key provided")
  }

  /**
   * notFoundResponse: 404; the details name the first lookup key when one is
   * passed (keys are ids here) and are the empty string otherwise.
   */
  function NotFoundResponse(lookupKey: seq<int>): (ep: ErrorPackage)
    ensures ep.statusCode == StatusNotFound && ep.message == "Could not find the record you requested"
    ensures |lookupKey| == 0 <==> ep.details == TextDetails("")
    ensures |lookupKey| > 0 ==> ep.details == TextDetails("No match for key " + IntToString(lookupKey[0]))
  {
    var details := if |lookupKey| > 0 then "No match for key " + IntToString(lookupKey[0]) else "";
    ErrorPackage(None, "Could not find the record you requested", "", TextDetails(details), StatusNotFound)
  }

  function RouteNotFoundResponse(): (ep: ErrorPackage)
    ensures ep.statusCode == StatusNotFound && ep.message == "Could not find the route you requested"
    ensures ep.error.None? && ep.details == NoDetails
  {
    Plain(StatusNotFound, "Could not find the route you requested")
  }

  function NotAllowedResponse(): (ep: ErrorPackage)
    ensures ep.statusCode == StatusMethodNotAllowed && ep.message == "The requested method is not allowed for this resource"
    ensures ep.error.None? && ep.details == NoDetails
  {
    Plain(StatusMethodNotAllowed, "The requested method is not allowed for this resource")
  }

  function BadRequestResponse(err: Error): (ep: ErrorPackage)
    ensures ep.statusCode == StatusBadRequest && ep.details == TextDetails(GoErrors.Text(err))
    ensures ep.message == "Invalid request payload" && ep.error == Some(err)
  {
    ErrorPackage(Some(err), "Invalid request payload", "", TextDetails(GoErrors.Text(err)), StatusBadRequest)
  }

  /**
   * failedValidationResponse: 422 with the field errors as details; the error is a
   * new one whose text is their JSON encoding, `encoded`.
   */
  function FailedValidationResponse(errors: map<string, Shown>, encoded: string): (ep: ErrorPackage)
    ensures ep.statusCode == StatusUnprocessableEntity && ep.details == FieldErrors(errors)
    ensures ep.message == "Invalid request payload"
    ensures ep.error.Some? && GoErrors.Text(ep.error.value) == encoded
  {
    ErrorPackage(Some(Leaf("fmt.Errorf", encoded)), "Invalid request payload", "", FieldErrors(errors), StatusUnprocessableEntity)
  }

  function EditConflictResponse(): (ep: ErrorPackage)
    ensures ep.statusCode == StatusConflict && ep.message == "Unable to update the record due to an edit conflict. Please try again"
    ensures ep.error.None? && ep.details == NoDetails
  {
    Plain(StatusConflict, "Unable to update the record due to an edit conflict. Please try again")
  }

  function RateLimitExceededResponse(): (ep: ErrorPackage)
    ensures ep.statusCode == StatusTooManyRequests && ep.message == "Rate limit exceeded"
    ensures ep.error.None? && ep.details == NoDetails
  {
    Plain(StatusTooManyRequests, "Rate limit exceeded")
  }

  function UserNotActivatedResponse(): (ep: ErrorPackage)
    ensures ep.statusCode == StatusUnauthorized && ep.message == "User is not activated yet. Please check your email for the activation link"
    ensures ep.error.None? && ep.details == NoDetails
  {
    Plain(StatusUnauthorized, "User is not activated yet. Please check your email for the activation link")
  }

  function UnauthorizedResponse(): (ep: ErrorPackage)
    ensures ep.statusCode == StatusUnauthorized && ep.message == "Unauthorized. Please try logging in again"
    ensures ep.error.None? && ep.details == NoDetails
  {
    Plain(StatusUnauthorized, "Unauthorized. Please try logging in again")
  }

  function ForbiddenResponse(): (ep: ErrorPackage)
    ensures ep.statusCode == StatusForbidden && ep.message == "Forbidden. Please check your permissions"
    ensures ep.error.None? && ep.details == NoDetails
  {
    Plain(StatusForbidden, "Forbidden. Please check your permissions")
  }

  /**
   * invalidTokenResponse: always 401 naming the scope; the `WWW-Authenticate: Bearer`
   * challenge of section 3 of RFC 6750 is set only for the authentication scope.
   */
  function InvalidTokenResponse(scope: string): (resp: Response)
    ensures resp.pkg.statusCode == StatusUnauthorized
    ensures resp.pkg.message == "Invalid token; please request new " + scope + " token"
    ensures Header("WWW-Authenticate", "Bearer") in resp.headers <==> scope == Tokens.ScopeAuthentication
    ensures |resp.headers| <= 1
  {
    var headers := if scope == Tokens.ScopeAuthentication then [Header("WWW-Authenticate", "Bearer")] else [];
    Response(headers, Plain(StatusUnauthorized, "Invalid token; please request new " + scope + " token"))
  }

  /** A response from a helper that sets no header. */
  function Bare(ep: ErrorPackage): Response {
    Response([], ep)
  }
}
