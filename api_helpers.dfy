/**
 * Request helpers of the API: reading the `id` route parameter and choosing
 * the message an error is logged with.
 */
module ApiHelpers {
  import opened Base
  import opened Text
  import Responses

  /** parseIdParam's two results: the id and an error message, `None` for a nil error. */
  datatype Parsed = Parsed(id: int, err: Option<string>)

  /**
   * parseIdParam on the text of the `id` parameter: strconv.ParseInt in base 10
   * and 64 bits, then a sign check. Every error comes with id 0.
   */
  function ParseIdParam(param: string): (p: Parsed)
    ensures p.err.None? <==> (ParseInt64(param).Some? && ParseInt64(param).value > 0)
    ensures p.err.None? ==> p.id == ParseInt64(param).value && 0 < p.id <= MaxInt64
    ensures p.err.Some? ==> p.id == 0
    ensures ParseInt64(param).None? ==> p.err == Some("Int is required")
    ensures ParseInt64(param).Some? && ParseInt64(param).value < 0 ==> p.err == Some("Negative ids are not allowed")
    ensures ParseInt64(param) == Some(0) ==> p.err == Some("0 is not allowed")
  {
    match ParseInt64(param)
    case None => Parsed(0, Some("Int is required"))
    case Some(id) =>
      if id < 0 then Parsed(0, Some("Negative ids are not allowed"))
      else if id == 0 then Parsed(0, Some("0 is not allowed"))
      else Parsed(id, None)
  }

  /** The `%d` text of every positive int64 is accepted as that id; zero and negatives are refused. */
  lemma {:induction false} ParseIdRoundTrip(n: int)
    requires MinInt64 <= n <= MaxInt64
    ensures n > 0 ==> ParseIdParam(IntToString(n)) == Parsed(n, None)
    ensures n < 0 ==> ParseIdParam(IntToString(n)) == Parsed(0, Some("Negative ids are not allowed"))
    ensures n == 0 ==> ParseIdParam(IntToString(n)) == Parsed(0, Some("0 is not allowed"))
  {
    ParseIntToString(n);
  }

  /** Text that is not a signed run of digits is not an id. */
  lemma {:induction false} NonNumericId(param: string)
    requires param == "" || (param[0] != '-' && param[0] != '+' && !IsDigit(param[0]))
    ensures ParseIdParam(param) == Parsed(0, Some("Int is required"))
  {
  }

  /** logError's message: the package's LogMessage, or "Error encountered: " and its Message. */
  function LogMessage(ep: Responses.ErrorPackage): (msg: string)
    ensures ep.logMessage != "" ==> msg == ep.logMessage
    ensures ep.logMessage == "" ==> msg == "Error encountered: " + ep.message
    ensures msg != ""
  {
    if ep.logMessage == "" then "Error encountered: " + ep.message else ep.logMessage
  }
}
