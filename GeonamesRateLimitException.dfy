/** The credit-limit error: a GeoNames exception that also records whether
    the daily, hourly or weekly credit was used up. */
module GeonamesRateLimitException {
  import opened Common
  import GeonamesException

  datatype RateLimitError = RateLimitError(code: int, scope: string, message: string)

  /** The constructor: the parent's message, then the assertion that the
      code is a credit-limit code, then the scope from the table. */
  function NewRateLimitError(code: int): (r: Result<RateLimitError>)
    ensures r.Ok? <==> GeonamesException.IsRateLimitErrorCode(code)
    ensures r.Raised? ==> r == Raised("AssertionError", "")
    ensures r.Ok? ==> r.value.code == code && r.value.message == GeonamesException.Message(code)
    ensures r.Ok? ==> r.value.scope == GeonamesException.RateLimitScope(code).value
  {
    var message := GeonamesException.Message(code);
    if !GeonamesException.IsRateLimitErrorCode(code) then Raised("AssertionError", "")
    else Ok(RateLimitError(code, GeonamesException.RateLimitScope(code).value, message))
  }

  predicate IsDaily(e: RateLimitError) { e.scope == "daily" }
  predicate IsHourly(e: RateLimitError) { e.scope == "hourly" }
  predicate IsWeekly(e: RateLimitError) { e.scope == "weekly" }

  /** A constructed error is exactly one of daily (code 18), hourly (19) and weekly (20). */
  lemma ExactlyOneScope(code: int)
    requires NewRateLimitError(code).Ok?
    ensures var e := NewRateLimitError(code).value;
            && (IsDaily(e) <==> code == 18) && (IsHourly(e) <==> code == 19) && (IsWeekly(e) <==> code == 20)
            && (IsDaily(e) || IsHourly(e) || IsWeekly(e))
            && !(IsDaily(e) && IsHourly(e)) && !(IsDaily(e) && IsWeekly(e)) && !(IsHourly(e) && IsWeekly(e))
  {
    GeonamesException.CodeRanges(code);
  }
}
