/** The click-tracking endpoint (src/app/api/track-click/route.ts): from the
    request body and headers to the database call it makes, if any, and the
    response it sends. */
module TrackClick {
  import opened Types
  import opened Store

  /** A JSON value as the body's `linkId` field can hold it (`Missing` when
      the field is absent); `Compound` stands for arrays and objects. */
  datatype JsonValue = Missing | JsonNull | JsonBool(b: bool) | JsonNumber(n: int) | JsonString(s: string) | Compound

  /** JavaScript truthiness of a value. */
  predicate Truthy(v: JsonValue) {
    match v
    case Missing => false
    case JsonNull => false
    case JsonBool(b) => b
    case JsonNumber(n) => n != 0
    case JsonString(s) => s != ""
    case Compound => true
  }

  /** The body as `request.json()` reads it: not JSON at all, or JSON whose
      `linkId` field is the given value. */
  datatype Body = Unparsable | Json(linkId: JsonValue)

  /** The arguments of `rpc('increment_link_clicks', ...)`. */
  datatype ClickCall = ClickCall(linkId: JsonValue, ip: string, userAgent: string, referrer: string)

  datatype Response = Response(status: int, error: Option<string>)

  /** The route's answer and the call it made on the way. */
  datatype Outcome = Outcome(call: Option<ClickCall>, response: Response)

  const LinkIdRequired: string := "Link ID is required"
  const TrackFailed: string := "Failed to track click"
  const InternalError: string := "Internal server error"

  /** `headers.get(name) || fallback`: `headers` maps lower-case header
      names to their values. */
  function Header(headers: map<string, string>, name: string, fallback: string): (r: string)
    ensures name in headers && headers[name] != "" ==> r == headers[name]
    ensures name !in headers || headers[name] == "" ==> r == fallback
  {
    if name in headers && headers[name] != "" then headers[name] else fallback
  }

  /** The client address: `x-forwarded-for` as it is (a whole list when a
      proxy chain sent one), else `x-real-ip`, else `unknown`. */
  function ClientIp(headers: map<string, string>): (ip: string)
    ensures ip != ""
    ensures ip == "unknown" || ("x-forwarded-for" in headers && ip == headers["x-forwarded-for"])
      || ("x-real-ip" in headers && ip == headers["x-real-ip"])
  {
    Header(headers, "x-forwarded-for", Header(headers, "x-real-ip", "unknown"))
  }

  /** `POST`: `rpc` is what the database call returned. */
  function Post(body: Body, headers: map<string, string>, rpc: Status): (r: Outcome)
    ensures body.Unparsable? ==> r == Outcome(None, Response(500, Some(InternalError)))
    ensures body.Json? && !Truthy(body.linkId) ==> r == Outcome(None, Response(400, Some(LinkIdRequired)))
    ensures body.Json? && Truthy(body.linkId) ==>
      r.call == Some(ClickCall(body.linkId, ClientIp(headers), Header(headers, "user-agent", ""), Header(headers, "referer", "")))
  {
    match body
    case Unparsable => Outcome(None, Response(500, Some(InternalError)))
    case Json(linkId) =>
      if !Truthy(linkId) then Outcome(None, Response(400, Some(LinkIdRequired)))
      else
        var call := ClickCall(linkId, ClientIp(headers), Header(headers, "user-agent", ""), Header(headers, "referer", ""));
        match rpc
        case Ok => Outcome(Some(call), Response(200, None))
        case Error(_) => Outcome(Some(call), Response(500, Some(TrackFailed)))
        case Exception => Outcome(Some(call), Response(500, Some(InternalError)))
  }

  /** The response is a success exactly when a call was made and it
      succeeded; a call is made only for a truthy `linkId`; every failure
      carries one of the three error texts, with 400 only for a missing
      `linkId`. */
  lemma PostSpec(body: Body, headers: map<string, string>, rpc: Status)
    ensures var r := Post(body, headers, rpc);
      (r.response.status == 200 <==> r.call.Some? && rpc == Ok)
      && (r.response.status == 200 <==> r.response.error.None?)
      && (r.call.Some? <==> body.Json? && Truthy(body.linkId))
      && (r.call.Some? ==> r.call.value.linkId == body.linkId && r.call.value.ip != "")
      && r.response.status in {200, 400, 500}
      && (r.response.status == 400 <==> r.response.error == Some(LinkIdRequired))
      && (r.response.error.Some? ==> r.response.error.value in {LinkIdRequired, TrackFailed, InternalError})
  {
  }

  /** The headers matter only to the call's arguments: the response does
      not depend on them. */
  lemma ResponseIgnoresHeaders(body: Body, h1: map<string, string>, h2: map<string, string>, rpc: Status)
    ensures Post(body, h1, rpc).response == Post(body, h2, rpc).response
  {
  }

  /** Falsy ids that are not strings are refused as well: `0`, `false` and
      `null`. */
  lemma FalsyIdsRefused(headers: map<string, string>, rpc: Status)
    ensures Post(Json(JsonNumber(0)), headers, rpc).response.status == 400
    ensures Post(Json(JsonBool(false)), headers, rpc).response.status == 400
    ensures Post(Json(JsonNull), headers, rpc).response.status == 400
    ensures Post(Json(JsonString("")), headers, rpc).response.status == 400
  {
  }

  /** A forwarded-for header wins over the real-ip one; an empty one is
      skipped. */
  lemma ClientIpPrecedence(forwarded: string, realIp: string)
    ensures forwarded != "" ==> ClientIp(map["x-forwarded-for" := forwarded, "x-real-ip" := realIp]) == forwarded
    ensures realIp != "" ==> ClientIp(map["x-forwarded-for" := "", "x-real-ip" := realIp]) == realIp
    ensures ClientIp(map[]) == "unknown"
  {
  }
}
