/** GeoNames web-service errors: the table of status codes the service
    documents, the three credit-limit codes, and the exception message. */
module GeonamesException {
  import opened Common

  /** `rate_limit_error_codes`: the scope of each credit-limit code. */
  function RateLimitScope(code: int): Option<string>
  {
    match code
    case 18 => Some("daily")
    case 19 => Some("hourly")
    case 20 => Some("weekly")
    case _ => None
  }

  /** `_error_codes`: the description of every status code the service documents. */
  function ErrorDescription(code: int): Option<string>
  {
    match code
    case 10 => Some("Authorization Exception")
    case 11 => Some("record does not exist")
    case 12 => Some("other error")
    case 13 => Some("database timeout")
    case 14 => Some("invalid parameter")
    case 15 => Some("no result found")
    case 16 => Some("duplicate exception")
    case 17 => Some("postal code not found")
    case 18 => Some("daily limit of credits exceeded")
    case 19 => Some("hourly limit of credits exceeded")
    case 20 => Some("weekly limit of credits exceeded")
    case 21 => Some("invalid input")
    case 22 => Some("server overloaded exception")
    case 23 => Some("service not implemented")
    case 24 => Some("radius too large")
    case 25 => Some("maxRows too large")
    case _ => None
  }

  const Prefix := "Geonames Exception: "
  const Undefined := "Geonames Exception: undefined error code "
  const CreditSuffix := " limit of credits exceeded"

  /** `is_rate_limit_error_code`. */
  predicate IsRateLimitErrorCode(code: int)
  {
    RateLimitScope(code).Some?
  }

  /** The credit-limit codes are exactly 18, 19 and 20, and the documented
      codes exactly 10 to 25. */
  lemma CodeRanges(code: int)
    ensures IsRateLimitErrorCode(code) <==> code == 18 || code == 19 || code == 20
    ensures ErrorDescription(code).Some? <==> 10 <= code <= 25
  {
  }

  /** Every credit-limit code is a documented code, whose description names its scope. */
  lemma RateLimitCodesDescribed(code: int)
    requires IsRateLimitErrorCode(code)
    ensures ErrorDescription(code) == Some(RateLimitScope(code).value + CreditSuffix)
  {
    if code == 18 { DailyDescribed(); } else if code == 19 { HourlyDescribed(); } else { WeeklyDescribed(); }
  }

  lemma DailyDescribed()
    ensures ErrorDescription(18) == Some("daily" + CreditSuffix)
  {
    LiteralConcat("daily", CreditSuffix, "daily limit of credits exceeded");
  }

  lemma HourlyDescribed()
    ensures ErrorDescription(19) == Some("hourly" + CreditSuffix)
  {
    LiteralConcat("hourly", CreditSuffix, "hourly limit of credits exceeded");
  }

  lemma WeeklyDescribed()
    ensures ErrorDescription(20) == Some("weekly" + CreditSuffix)
  {
    LiteralConcat("weekly", CreditSuffix, "weekly limit of credits exceeded");
  }

  lemma LiteralConcat(a: string, b: string, c: string)
    requires |a| + |b| == |c|
    requires forall i | 0 <= i < |a| :: a[i] == c[i]
    requires forall i | 0 <= i < |b| :: b[i] == c[|a| + i]
    ensures a + b == c
  {
  }

  /** The message the constructor passes to `Exception`. */
  function Message(code: int): (m: string)
    ensures StartsWith(m, Prefix)
    ensures ErrorDescription(code).None? ==> StartsWith(m, Undefined)
  {
    if ErrorDescription(code).Some? then Prefix + ErrorDescription(code).value + " (code " + IntString(code) + ")"
    else Undefined + IntString(code)
  }

  /** The longest suffix of `s` made of digits. */
  function TrailingDigits(s: string): (d: string)
    ensures |d| <= |s| && d == s[|s| - |d|..] && AllDigits(d)
  {
    if |s| == 0 || !IsDigit(s[|s| - 1]) then ""
    else TrailingDigits(s[..|s| - 1]) + [s[|s| - 1]]
  }

  lemma {:induction false} TrailingDigitsOf(x: string, d: string)
    requires |x| > 0 && !IsDigit(x[|x| - 1]) && AllDigits(d)
    ensures TrailingDigits(x + d) == d
  {
    if |d| == 0 {
      assert x + d == x;
    } else {
      assert (x + d)[..|x + d| - 1] == x + d[..|d| - 1];
      TrailingDigitsOf(x, d[..|d| - 1]);
      assert d == d[..|d| - 1] + [d[|d| - 1]];
    }
  }

  /** Reads the status code back from an exception message. */
  function CodeOfMessage(m: string): Option<int>
  {
    if StartsWith(m, Undefined) then ParseInt(m[|Undefined|..])
    else if |m| > 0 && m[|m| - 1] == ')' then
      var d := TrailingDigits(m[..|m| - 1]);
      if |d| > 0 then Some(DigitsValue(d)) else None
    else None
  }

  /** Every message names its code: the code can be read back from it, so
      different codes never share a message. */
  lemma MessageRoundTrip(code: int)
    ensures CodeOfMessage(Message(code)) == Some(code)
  {
    var m := Message(code);
    if ErrorDescription(code).Some? {
      KnownMessageRoundTrip(code, ErrorDescription(code).value);
    } else {
      assert m[|Undefined|..] == IntString(code);
      ParseIntString(code);
    }
  }

  /** No description starts like "undefined error code". */
  lemma DescriptionInitial(code: int)
    requires ErrorDescription(code).Some?
    ensures |ErrorDescription(code).value| > 0 && ErrorDescription(code).value[0] != 'u'
  {
  }

  lemma KnownMessageRoundTrip(code: int, desc: string)
    requires ErrorDescription(code) == Some(desc)
    ensures CodeOfMessage(Message(code)) == Some(code)
  {
    var m := Message(code);
    CodeRanges(code);
    DescriptionInitial(code);
    assert m == Prefix + desc + " (code " + Decimal(code) + ")";
    assert m[|Prefix|] == desc[0];
    assert !StartsWith(m, Undefined) by {
      assert Undefined[|Prefix|] == 'u';
    }
    var x := Prefix + desc + " (code ";
    assert m[..|m| - 1] == x + Decimal(code);
    TrailingDigitsOf(x, Decimal(code));
    DigitsValueDecimal(code);
  }

  lemma MessageInjective(c1: int, c2: int)
    requires Message(c1) == Message(c2)
    ensures c1 == c2
  {
    MessageRoundTrip(c1);
    MessageRoundTrip(c2);
  }
}
