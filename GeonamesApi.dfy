/** Interpretation of a decoded GeoNames `searchJSON` response: an error
    status becomes an exception, an empty result becomes None, otherwise the
    first place is the answer. The HTTP request itself is not modelled. */
module GeonamesApi {
  import opened Common
  import GeonamesException
  import GeonamesRateLimitException

  /** `str(x)` of the status value, where the model gives it. */
  function StatusText(v: Json): string
  {
    match v
    case JInt(i) => IntString(i)
    case JStr(s) => s
    case JNull => "None"
    case JBool(b) => if b then "True" else "False"
    case _ => ""
  }

  /** `raise GeonamesRateLimitException(code)` or `raise GeonamesException(code)`
      for the value of the response's status. */
  function StatusError(v: Json): (r: Result<Option<Json>>)
    ensures r.Raised?
    ensures v.JList? || v.JObj? ==> r == Raised("TypeError", "unhashable type")
    ensures v.JInt? ==> r.exception == (if GeonamesException.IsRateLimitErrorCode(v.i) then "GeonamesRateLimitException" else "GeonamesException")
    ensures v.JInt? ==> r.message == GeonamesException.Message(v.i)
    ensures v.JStr? || v.JNull? || v.JBool? ==>
              r == Raised("GeonamesException", GeonamesException.Undefined + StatusText(v))
  {
    match v
    case JList(_) => Raised("TypeError", "unhashable type")
    case JObj(_) => Raised("TypeError", "unhashable type")
    case JInt(code) =>
      if GeonamesException.IsRateLimitErrorCode(code) then
        Raised("GeonamesRateLimitException", GeonamesRateLimitException.NewRateLimitError(code).value.message)
      else Raised("GeonamesException", GeonamesException.Message(code))
    case JReal(x) =>
      if x == 18.0 || x == 19.0 || x == 20.0 then Raised("GeonamesRateLimitException", "")
      else Raised("GeonamesException", "")
    case _ => Raised("GeonamesException", GeonamesException.Undefined + StatusText(v))
  }

  /** `count <= 0` for the decoded `totalResultsCount`; comparing anything
      but a number with 0 raises TypeError. */
  function AtMostZero(count: Json): (r: Result<bool>)
    ensures r.Ok? <==> count.JInt? || count.JBool? || count.JReal?
    ensures count.JInt? ==> r == Ok(count.i <= 0)
    ensures count.JBool? ==> r == Ok(!count.b)
    ensures count.JReal? ==> r == Ok(count.r <= 0.0)
    ensures r.Raised? ==> r.exception == "TypeError"
  {
    match count
    case JInt(i) => Ok(i <= 0)
    case JBool(b) => Ok(!b)
    case JReal(x) => Ok(x <= 0.0)
    case _ => Raised("TypeError", "'<=' not supported")
  }

  /** `x[0]` on a decoded value. */
  function First(x: Json): (r: Result<Json>)
    ensures x.JList? && |x.items| > 0 ==> r == Ok(x.items[0])
    ensures x.JList? && |x.items| == 0 ==> r == Raised("IndexError", "list index out of range")
    ensures x.JStr? && |x.s| > 0 ==> r == Ok(JStr([x.s[0]]))
    ensures x.JStr? && |x.s| == 0 ==> r == Raised("IndexError", "string index out of range")
    ensures x.JObj? ==> r == Raised("KeyError", "0")
    ensures !x.JList? && !x.JStr? && !x.JObj? ==> r.Raised? && r.exception == "TypeError"
  {
    match x
    case JList(items) => if |items| > 0 then Ok(items[0]) else Raised("IndexError", "list index out of range")
    case JStr(s) => if |s| > 0 then Ok(JStr([s[0]])) else Raised("IndexError", "string index out of range")
    case JObj(_) => Raised("KeyError", "0")
    case _ => Raised("TypeError", "object is not subscriptable")
  }

  /** The response handling of `search(query)`: Ok(None) for no match,
      Ok(Some(place)) for the first place. */
  function Search(response: Doc): Result<Option<Json>>
  {
    if "status" in response then
      match Subscript(response["status"], "value")
      case Raised(e, m) => Raised(e, m)
      case Ok(code) => StatusError(code)
    else
      match Lookup(response, "totalResultsCount")
      case Raised(e, m) => Raised(e, m)
      case Ok(count) =>
        match AtMostZero(count)
        case Raised(e, m) => Raised(e, m)
        case Ok(none) =>
          if none then Ok(None)
          else
            match Lookup(response, "geonames")
            case Raised(e, m) => Raised(e, m)
            case Ok(places) =>
              match First(places)
              case Raised(e, m) => Raised(e, m)
              case Ok(p) => Ok(Some(p))
  }

  /** An integer status raises the credit-limit exception for 18, 19 and 20,
      carrying the scope of the code, and the plain GeoNames exception for any
      other code; both carry the message of the code. */
  lemma StatusRaises(response: Doc, code: int)
    requires "status" in response && Subscript(response["status"], "value") == Ok(JInt(code))
    ensures code == 18 || code == 19 || code == 20 ==>
              && Search(response) == Raised("GeonamesRateLimitException", GeonamesException.Message(code))
              && GeonamesRateLimitException.NewRateLimitError(code).Ok?
    ensures !(code == 18 || code == 19 || code == 20) ==>
              Search(response) == Raised("GeonamesException", GeonamesException.Message(code))
  {
    GeonamesException.CodeRanges(code);
  }

  /** Once the response has a status, nothing else in it matters: the status
      check comes before the result count and the places. */
  lemma StatusTakesPrecedence(response: Doc, key: string, v: Json)
    requires "status" in response && key != "status"
    ensures Search(response).Raised?
    ensures Search(response[key := v]) == Search(response)
  {
    assert response[key := v]["status"] == response["status"];
  }

  /** A successful search had no status; it found nothing exactly when the
      count is a number at most 0, and otherwise returns the first place. */
  lemma SearchOk(response: Doc)
    requires Search(response).Ok?
    ensures "status" !in response && "totalResultsCount" in response
    ensures Search(response).value.None? <==> AtMostZero(response["totalResultsCount"]) == Ok(true)
    ensures Search(response).value.Some? ==>
              "geonames" in response && First(response["geonames"]) == Ok(Search(response).value.value)
  {
  }

  /** The usual answers: a count of at most 0 gives None, a positive count
      with a non-empty list of places gives its first place. */
  lemma SearchAnswers(response: Doc, n: int, places: seq<Json>)
    requires "status" !in response && "totalResultsCount" in response && response["totalResultsCount"] == JInt(n)
    ensures n <= 0 ==> Search(response) == Ok(None)
    ensures n > 0 && "geonames" in response && response["geonames"] == JList(places) ==>
              Search(response) == (if |places| > 0 then Ok(Some(places[0])) else Raised("IndexError", "list index out of range"))
  {
  }
}
