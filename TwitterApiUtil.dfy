/** `twitter_api_util`: reading the Twitter rate-limit status report. The
    report (what `rate_limit_status()` returns) and the clock reading
    `int(time.time())` are parameters. */
module TwitterApiUtil {
  import opened Common

  // --------------------------------------------------------- minutes left

  /** `math.ceil(a / 60)` for a whole number of seconds. */
  function CeilMinutes(a: int): (m: int)
    ensures 60 * (m - 1) < a <= 60 * m
  {
    -((-a) / 60)
  }

  /** `math.ceil(x / 60)` for a real number of seconds. */
  function CeilMinutesReal(x: real): (m: int)
    ensures 60.0 * (m as real - 1.0) < x <= 60.0 * m as real
  {
    -((-x / 60.0).Floor)
  }

  /** The minutes are at most zero exactly when the reset time has passed. */
  lemma CeilMinutesSign(a: int)
    ensures CeilMinutes(a) <= 0 <==> a <= 0
    ensures CeilMinutes(a) == 0 <==> -60 < a <= 0
  {
  }

  /** Whole minutes are reported exactly. */
  lemma CeilMinutesExact(m: int)
    ensures CeilMinutes(60 * m) == m
  {
  }

  // ------------------------------------------------------ _parse_rate_limit

  /** `rl_node["reset"] - int(time.time())` then the ceiling of the minutes:
      an int or a float reset is accepted, anything else cannot be
      subtracted from. */
  function ResetInMinutes(reset: Json, now: int): (r: Result<int>)
    ensures reset.JInt? ==> r == Ok(CeilMinutes(reset.i - now))
    ensures reset.JReal? ==> r == Ok(CeilMinutesReal(reset.r - now as real))
    ensures !reset.JInt? && !reset.JReal? ==> r.Raised? && r.exception == "TypeError"
  {
    match reset
    case JInt(i) => Ok(CeilMinutes(i - now))
    case JReal(x) => Ok(CeilMinutesReal(x - now as real))
    case _ => Raised("TypeError", "unsupported operand type(s) for -")
  }

  /** `_parse_rate_limit`: `limit`, `remaining` and `reset` read in that
      order, the first missing one raising. */
  function ParseRateLimit(node: Json, now: int): Result<Doc>
  {
    match Subscript(node, "limit")
    case Raised(e, m) => Raised(e, m)
    case Ok(limit) =>
      match Subscript(node, "remaining")
      case Raised(e, m) => Raised(e, m)
      case Ok(remaining) =>
        match Subscript(node, "reset")
        case Raised(e, m) => Raised(e, m)
        case Ok(reset) =>
          match ResetInMinutes(reset, now)
          case Raised(e, m) => Raised(e, m)
          case Ok(minutes) => Ok(map["limit" := limit, "remaining" := remaining, "reset_in_minutes" := JInt(minutes)])
  }

  /** The report has the three keys: `limit` and `remaining` copied, and
      the minutes until the window resets, rounded up. */
  lemma ParseRateLimitShape(node: Json, now: int)
    requires node.JObj? && "limit" in node.fields && "remaining" in node.fields && "reset" in node.fields
    requires node.fields["reset"].JInt?
    ensures var r := ParseRateLimit(node, now);
            && r.Ok? && r.value.Keys == {"limit", "remaining", "reset_in_minutes"}
            && r.value["limit"] == node.fields["limit"] && r.value["remaining"] == node.fields["remaining"]
            && r.value["reset_in_minutes"].JInt?
            && var a := node.fields["reset"].i - now;
               60 * (r.value["reset_in_minutes"].i - 1) < a <= 60 * r.value["reset_in_minutes"].i
  {
  }

  /** Parsing fails exactly when the node is not a dict, lacks a field, or
      its reset is not a number. */
  lemma ParseRateLimitFails(node: Json, now: int)
    ensures ParseRateLimit(node, now).Ok? <==>
              && node.JObj? && "limit" in node.fields && "remaining" in node.fields && "reset" in node.fields
              && (node.fields["reset"].JInt? || node.fields["reset"].JReal?)
    ensures node.JObj? && "limit" !in node.fields ==> ParseRateLimit(node, now) == Raised("KeyError", "limit")
  {
  }

  // ---------------------------------------------- get_relevant_rate_limits

  /** `get_relevant_rate_limits`: the three endpoints the crawler watches. */
  function RelevantRateLimits(status: Json, now: int): Result<Doc>
  {
    match Endpoint(status, "search", "/search/tweets", now)
    case Raised(e, m) => Raised(e, m)
    case Ok(search) =>
      match Endpoint(status, "users", "/users/show/:id", now)
      case Raised(e, m) => Raised(e, m)
      case Ok(showUser) =>
        match Endpoint(status, "application", "/application/rate_limit_status", now)
        case Raised(e, m) => Raised(e, m)
        case Ok(rateLimitStatus) =>
          Ok(map["search" := JObj(search), "show_user" := JObj(showUser), "rate_limit_status" := JObj(rateLimitStatus)])
  }

  /** `status["resources"][package][path]`, parsed. */
  function Endpoint(status: Json, package: string, path: string, now: int): Result<Doc>
  {
    match Subscript(status, "resources")
    case Raised(e, m) => Raised(e, m)
    case Ok(resources) =>
      match Subscript(resources, package)
      case Raised(e, m) => Raised(e, m)
      case Ok(group) =>
        match Subscript(group, path)
        case Raised(e, m) => Raised(e, m)
        case Ok(node) => ParseRateLimit(node, now)
  }

  // --------------------------------------------------- get_rate_limit_info

  /** `endpoint_path.split("/")[1]`. */
  function Package(path: string): string
    requires |path| > 0 && path[0] == '/'
  {
    SplitFirstPart(path, '/', 0);
    Split(path, '/')[1]
  }

  /** The package is the segment between the first and the second `/`
      (or the end of the path). */
  lemma PackageSegment(pkg: string, rest: string)
    requires '/' !in pkg
    ensures Package("/" + pkg) == pkg
    ensures Package("/" + pkg + "/" + rest) == pkg
  {
    var p := "/" + pkg;
    SplitFirstPart(p, '/', 0);
    assert p[1..] == pkg;
    SplitWithoutSeparator(pkg, '/');
    var q := "/" + pkg + "/" + rest;
    SplitFirstPart(q, '/', 0);
    assert q[1..] == pkg + "/" + rest;
    assert q[1..][..|pkg|] == pkg;
    SplitFirstPart(q[1..], '/', |pkg|);
  }

  /** `get_rate_limit_info`: the path is stripped and must start with `/`
      (an empty path fails on indexing, another fails the assertion); its
      package and the path itself select the node of the report. */
  function RateLimitInfo(status: Json, endpointPath: string, now: int): (r: Result<Doc>)
    ensures |Strip(endpointPath)| == 0 ==> r == Raised("IndexError", "string index out of range")
    ensures |Strip(endpointPath)| > 0 && Strip(endpointPath)[0] != '/' ==> r == Raised("AssertionError", "")
    ensures |Strip(endpointPath)| > 0 && Strip(endpointPath)[0] == '/' ==>
              r == Endpoint(status, Package(Strip(endpointPath)), Strip(endpointPath), now)
  {
    var path := Strip(endpointPath);
    if |path| == 0 then Raised("IndexError", "string index out of range")
    else if path[0] != '/' then Raised("AssertionError", "")
    else Endpoint(status, Package(path), path, now)
  }

  /** Surrounding whitespace does not change which endpoint is read. */
  lemma RateLimitInfoStrips(status: Json, pkg: string, rest: string, pad: string, now: int)
    requires '/' !in pkg && |rest| > 0 && !IsSpace(rest[|rest| - 1])
    requires forall k :: 0 <= k < |pad| ==> IsSpace(pad[k])
    ensures RateLimitInfo(status, pad + "/" + pkg + "/" + rest + pad, now)
              == Endpoint(status, pkg, "/" + pkg + "/" + rest, now)
  {
    var path := "/" + pkg + "/" + rest;
    StripPadded(path, pad);
    assert pad + "/" + pkg + "/" + rest + pad == pad + path + pad;
    PackageSegment(pkg, rest);
  }

  lemma {:induction false} StripPadded(t: string, pad: string)
    requires |t| > 0 && !IsSpace(t[0]) && !IsSpace(t[|t| - 1])
    requires forall k :: 0 <= k < |pad| ==> IsSpace(pad[k])
    ensures Strip(pad + t + pad) == t
  {
    assert pad + t + pad == pad + (t + pad);
    LStripPadded(t + pad, pad);
    RStripPadded(t, pad);
  }

  lemma {:induction false} LStripPadded(t: string, pad: string)
    requires |t| > 0 && !IsSpace(t[0])
    requires forall k :: 0 <= k < |pad| ==> IsSpace(pad[k])
    ensures LStrip(pad + t) == t
  {
    if |pad| > 0 {
      assert (pad + t)[1..] == pad[1..] + t;
      LStripPadded(t, pad[1..]);
    } else {
      assert pad + t == t;
    }
  }

  lemma {:induction false} RStripPadded(t: string, pad: string)
    requires |t| > 0 && !IsSpace(t[|t| - 1])
    requires forall k :: 0 <= k < |pad| ==> IsSpace(pad[k])
    ensures RStrip(t + pad) == t
  {
    if |pad| > 0 {
      assert (t + pad)[..|t + pad| - 1] == t + pad[..|pad| - 1];
      RStripPadded(t, pad[..|pad| - 1]);
    } else {
      assert t + pad == t;
    }
  }

  /** Each of the relevant rate limits is the parsed node of its endpoint
      (which is what `get_rate_limit_info` reports for it, by `SearchPath`,
      `ShowUserPath` and `RateLimitStatusPath`); the first one missing
      fails the whole report. */
  lemma RelevantRateLimitsAreEndpoints(status: Json, now: int)
    ensures var r := RelevantRateLimits(status, now);
            var search := Endpoint(status, "search", "/search/tweets", now);
            var showUser := Endpoint(status, "users", "/users/show/:id", now);
            var rateLimitStatus := Endpoint(status, "application", "/application/rate_limit_status", now);
            && (r.Ok? <==> search.Ok? && showUser.Ok? && rateLimitStatus.Ok?)
            && (search.Raised? ==> r == Raised(search.exception, search.message))
            && (r.Ok? ==> && r.value.Keys == {"search", "show_user", "rate_limit_status"}
                          && r.value["search"] == JObj(search.value)
                          && r.value["show_user"] == JObj(showUser.value)
                          && r.value["rate_limit_status"] == JObj(rateLimitStatus.value))
  {
  }

  /** `get_rate_limit_info` reads the search endpoint from the search group. */
  lemma SearchPath(status: Json, now: int)
    ensures RateLimitInfo(status, "/search/tweets", now) == Endpoint(status, "search", "/search/tweets", now)
  {
    EndpointPath(status, "/search/tweets", "search", "tweets", now);
  }

  /** `get_rate_limit_info` reads the user lookup endpoint from the users group. */
  lemma ShowUserPath(status: Json, now: int)
    ensures RateLimitInfo(status, "/users/show/:id", now) == Endpoint(status, "users", "/users/show/:id", now)
  {
    EndpointPath(status, "/users/show/:id", "users", "show/:id", now);
  }

  /** `get_rate_limit_info` reads the rate-limit endpoint from the application group. */
  lemma RateLimitStatusPath(status: Json, now: int)
    ensures RateLimitInfo(status, "/application/rate_limit_status", now)
              == Endpoint(status, "application", "/application/rate_limit_status", now)
  {
    EndpointPath(status, "/application/rate_limit_status", "application", "rate_limit_status", now);
  }

  lemma EndpointPath(status: Json, path: string, pkg: string, rest: string, now: int)
    requires path == "/" + pkg + "/" + rest
    requires '/' !in pkg && |rest| > 0 && !IsSpace(rest[|rest| - 1])
    ensures RateLimitInfo(status, path, now) == Endpoint(status, pkg, path, now)
  {
    RateLimitInfoStrips(status, pkg, rest, "", now);
    assert "" + "/" + pkg + "/" + rest + "" == path;
  }

  /** `get_rate_limit_reset`: the `reset_in_minutes` of the endpoint's info. */
  function RateLimitReset(status: Json, endpointPath: string, now: int): Result<Json>
  {
    match RateLimitInfo(status, endpointPath, now)
    case Raised(e, m) => Raised(e, m)
    case Ok(info) => Lookup(info, "reset_in_minutes")
  }

  /** The reset is exactly the info's minutes, and fails exactly when the
      info does. */
  lemma RateLimitResetIsInfo(status: Json, endpointPath: string, now: int)
    ensures var info := RateLimitInfo(status, endpointPath, now);
            && (RateLimitReset(status, endpointPath, now).Ok? <==> info.Ok?)
            && (info.Ok? ==> "reset_in_minutes" in info.value
                             && RateLimitReset(status, endpointPath, now) == Ok(info.value["reset_in_minutes"]))
            && (info.Raised? ==> RateLimitReset(status, endpointPath, now) == Raised(info.exception, info.message))
  {
    var info := RateLimitInfo(status, endpointPath, now);
    if info.Ok? {
      var path := Strip(endpointPath);
      var node := Subscript(Subscript(Subscript(status, "resources").value, Package(path)).value, path).value;
      assert info == ParseRateLimit(node, now);
    }
  }
}
