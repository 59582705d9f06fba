/**
 * The client of src/lib.rs with the network, JSON decoding and the HTTP library's tables
 * passed in as parameters: construction checks, the per-operation query parameters, the
 * classification of one exchange into a single result, and the rate-limit headers.
 */
module Client {
  import opened Wrappers
  import opened Numerals
  import opened Headers
  import opened Model

  const DefaultBaseUrl := "https://api.apilayer.com/checkiday/"

  const InvalidApiKeyMessage :=
    "Please provide a valid API key. Get one at https://apilayer.com/marketplace/checkiday-api#pricing."
  const ClientBuildMessage := "Error instantiating client."
  const InvalidBaseUrlMessage := "Invalid base_url."
  const EventIdRequiredMessage := "Event id is required."
  const SearchQueryRequiredMessage := "Search query is required."
  const TransportPrefix := "Can't process request: "
  const ParsePrefix := "Can't parse response: "

  const LimitMonthHeader := "x-ratelimit-limit-month"
  const RemainingMonthHeader := "x-ratelimit-remaining-month"

  /** A constructed client: the key sent in the `apikey` header of every request and the parsed base URL. */
  datatype ApiClient = ApiClient(apiKey: string, baseUrl: string)

  // ---------------------------------------------------------------- construction

  /**
   * `new_internal`. `headerValueOk` says whether `HeaderValue::try_from` accepts a string,
   * `clientBuilds` whether the HTTP client builder succeeds, `parseUrl` is `Url::parse`
   * (the normalised URL, or None). The key is checked first, then the builder, then the URL.
   */
  function NewInternal(apiKey: string, baseUrl: string, headerValueOk: string -> bool, clientBuilds: bool,
                       parseUrl: string -> Option<string>): (r: Result<ApiClient, string>)
    ensures r == Failure(InvalidApiKeyMessage) <==> apiKey == "" || !headerValueOk(apiKey)
    ensures r == Failure(ClientBuildMessage) <==> apiKey != "" && headerValueOk(apiKey) && !clientBuilds
    ensures r == Failure(InvalidBaseUrlMessage) <==>
      apiKey != "" && headerValueOk(apiKey) && clientBuilds && parseUrl(baseUrl).None?
    ensures r.Success? <==> apiKey != "" && headerValueOk(apiKey) && clientBuilds && parseUrl(baseUrl).Some?
    ensures r.Success? ==> r.value == ApiClient(apiKey, parseUrl(baseUrl).value)
  {
    if apiKey == "" || !headerValueOk(apiKey) then Failure(InvalidApiKeyMessage)
    else if !clientBuilds then Failure(ClientBuildMessage)
    else match parseUrl(baseUrl)
      case None => Failure(InvalidBaseUrlMessage)
      case Some(url) => Success(ApiClient(apiKey, url))
  }

  /** `new`: construction against the public API's base URL. */
  function New(apiKey: string, headerValueOk: string -> bool, clientBuilds: bool,
               parseUrl: string -> Option<string>): (r: Result<ApiClient, string>)
    ensures apiKey == "" || !headerValueOk(apiKey) ==> r == Failure(InvalidApiKeyMessage)
    ensures r.Success? <==> apiKey != "" && headerValueOk(apiKey) && clientBuilds && parseUrl(DefaultBaseUrl).Some?
    ensures r.Success? ==> r.value.apiKey == apiKey && Some(r.value.baseUrl) == parseUrl(DefaultBaseUrl)
  {
    NewInternal(apiKey, DefaultBaseUrl, headerValueOk, clientBuilds, parseUrl)
  }

  /** An empty or unacceptable key is reported whatever the base URL (and even if that URL is invalid). */
  lemma KeyCheckedBeforeBaseUrl(apiKey: string, url1: string, url2: string, headerValueOk: string -> bool,
                                clientBuilds: bool, parseUrl: string -> Option<string>)
    requires apiKey == "" || !headerValueOk(apiKey)
    ensures NewInternal(apiKey, url1, headerValueOk, clientBuilds, parseUrl)
         == NewInternal(apiKey, url2, headerValueOk, clientBuilds, parseUrl)
         == Failure(InvalidApiKeyMessage)
  {
  }

  // ---------------------------------------------------------------- query parameters

  /** `bool`'s `to_string`: "true" or "false", so the text tells the flag back. */
  function BoolToString(b: bool): (t: string)
    ensures t == "true" || t == "false"
    ensures t == "true" <==> b
  {
    if b then "true" else "false"
  }

  /** The query of the events operation: `adult` always, `timezone` and `date` exactly when given. */
  function EventsQuery(req: GetEventsRequest): (q: map<string, string>)
    ensures "adult" in q && q["adult"] == BoolToString(req.adult.GetOr(false))
    ensures req.adult.None? ==> q["adult"] == "false"
    ensures "timezone" in q <==> req.timezone.Some?
    ensures req.timezone.Some? ==> q["timezone"] == req.timezone.value
    ensures "date" in q <==> req.date.Some?
    ensures req.date.Some? ==> q["date"] == req.date.value
    ensures q.Keys <= {"adult", "timezone", "date"}
  {
    map["adult" := BoolToString(req.adult.GetOr(false))]
    + (if req.timezone.Some? then map["timezone" := req.timezone.value] else map[])
    + (if req.date.Some? then map["date" := req.date.value] else map[])
  }

  /** Building the events query by successive inserts, as `get_events` does. */
  method EventsParams(req: GetEventsRequest) returns (params: map<string, string>)
    ensures params == EventsQuery(req)
  {
    params := map["adult" := BoolToString(req.adult.GetOr(false))];
    if req.timezone.Some? {
      params := params["timezone" := req.timezone.value];
    }
    if req.date.Some? {
      params := params["date" := req.date.value];
    }
  }

  /** Two events requests produce the same query exactly when they agree once `adult` takes its default. */
  lemma EventsQueryDeterminesRequest(a: GetEventsRequest, b: GetEventsRequest)
    ensures EventsQuery(a) == EventsQuery(b) <==>
      a.adult.GetOr(false) == b.adult.GetOr(false) && a.timezone == b.timezone && a.date == b.date
  {
    var qa, qb := EventsQuery(a), EventsQuery(b);
    if qa == qb {
      assert qa["adult"] == qb["adult"];
      if a.timezone.Some? { assert qb["timezone"] == a.timezone.value; }
      if a.date.Some? { assert qb["date"] == a.date.value; }
    }
    if a.adult.GetOr(false) == b.adult.GetOr(false) && a.timezone == b.timezone && a.date == b.date {
      assert qa.Keys == qb.Keys;
    }
  }

  /** The query of the event-info operation: `id` always, `start` and `end` in decimal exactly when given. */
  function EventInfoQuery(req: GetEventInfoRequest): (q: map<string, string>)
    ensures "id" in q && q["id"] == req.id
    ensures "start" in q <==> req.start.Some?
    ensures req.start.Some? ==> q["start"] == IntToString(req.start.value)
    ensures "end" in q <==> req.end.Some?
    ensures req.end.Some? ==> q["end"] == IntToString(req.end.value)
    ensures q.Keys <= {"id", "start", "end"}
  {
    map["id" := req.id]
    + (if req.start.Some? then map["start" := IntToString(req.start.value)] else map[])
    + (if req.end.Some? then map["end" := IntToString(req.end.value)] else map[])
  }

  /** Building the event-info query by successive inserts, as `get_event_info` does. */
  method EventInfoParams(req: GetEventInfoRequest) returns (params: map<string, string>)
    ensures params == EventInfoQuery(req)
  {
    params := map["id" := req.id];
    if req.start.Some? {
      params := params["start" := IntToString(req.start.value)];
    }
    if req.end.Some? {
      params := params["end" := IntToString(req.end.value)];
    }
  }

  /** Reading `start` and `end` back as `i32` text gives exactly the bounds that were requested. */
  lemma EventInfoQueryRoundTrip(req: GetEventInfoRequest)
    ensures var q := EventInfoQuery(req);
      (if "start" in q then ParseI32(q["start"]) else None) == req.start &&
      (if "end" in q then ParseI32(q["end"]) else None) == req.end
  {
    if req.start.Some? { ParseI32OfIntToString(req.start.value); }
    if req.end.Some? { ParseI32OfIntToString(req.end.value); }
  }

  /** The query of the search operation: exactly `query` and `adult`, `adult` defaulting to "false". */
  function SearchQuery(req: SearchRequest): (q: map<string, string>)
    ensures q.Keys == {"query", "adult"}
    ensures q["query"] == req.query
    ensures q["adult"] == (if req.adult == Some(true) then "true" else "false")
  {
    map["query" := req.query, "adult" := BoolToString(req.adult.GetOr(false))]
  }

  // ---------------------------------------------------------------- one exchange

  /** The status codes the HTTP library can represent. */
  type StatusCode = s: int | 100 <= s <= 999 witness 200

  /** `StatusCode::is_success`: the status belongs to the 2xx class. */
  function IsSuccessStatus(s: StatusCode): (ok: bool)
    ensures ok <==> s / 100 == 2
  {
    200 <= s <= 299
  }

  /** A received response: status, headers in wire order, body text. */
  datatype HttpResponse = HttpResponse(status: StatusCode, headers: seq<Header>, body: string)

  /** What is sent: the client (base URL and key), the operation's path and its query parameters. */
  datatype OutboundRequest = OutboundRequest(client: ApiClient, path: string, query: map<string, string>)

  /** A decoded response together with its filled rate-limit slot. */
  datatype RateLimitedResponse<T> = RateLimitedResponse(response: T, rateLimit: RateLimit)

  /**
   * The rate limit carried by the response headers: each count is the `i32` its header
   * holds, or 0 when the header is missing or does not parse.
   */
  function RateLimitOf(headers: seq<Header>): (r: RateLimit)
    ensures Get(headers, LimitMonthHeader).None? ==> r.limitMonth == 0
    ensures Get(headers, LimitMonthHeader).Some? ==>
      r.limitMonth == ParseI32(Get(headers, LimitMonthHeader).value).GetOr(0)
    ensures Get(headers, RemainingMonthHeader).None? ==> r.remainingMonth == 0
    ensures Get(headers, RemainingMonthHeader).Some? ==>
      r.remainingMonth == ParseI32(Get(headers, RemainingMonthHeader).value).GetOr(0)
  {
    RateLimit(HeaderInt(headers, LimitMonthHeader), HeaderInt(headers, RemainingMonthHeader))
  }

  /**
   * Error text of a non-success status: the API's `error` field when the body parsed as a
   * string map and that field is non-empty; else the canonical reason phrase; else the code.
   */
  function HttpErrorMessage(status: StatusCode, reason: StatusCode -> Option<string>,
                            errorMap: Option<map<string, string>>): (e: string)
    ensures errorMap.Some? && "error" in errorMap.value && errorMap.value["error"] != "" ==>
      e == errorMap.value["error"]
    ensures !(errorMap.Some? && "error" in errorMap.value && errorMap.value["error"] != "") ==>
      e == (if reason(status).Some? then reason(status).value else NatToString(status))
  {
    if errorMap.None? || Lookup(errorMap.value, "error").GetOr("") == "" then
      reason(status).GetOr(NatToString(status))
    else
      errorMap.value["error"]
  }

  /** Without an API message or a reason phrase, the error is the three-digit decimal text of the status. */
  lemma StatusFallbackIsCode(status: StatusCode, reason: StatusCode -> Option<string>,
                             errorMap: Option<map<string, string>>)
    requires errorMap.None? || "error" !in errorMap.value || errorMap.value["error"] == ""
    requires reason(status).None?
    ensures var e := HttpErrorMessage(status, reason, errorMap);
      |e| == 3 && AllDigits(e) && DigitsValue(e) == status
  {
    DigitsValueOfNatToString(status);
    assert NatToString(status) == NatToString(status / 10) + [DigitChar(status % 10)];
    assert NatToString(status / 10) == NatToString(status / 100) + [DigitChar(status / 10 % 10)];
  }

  /**
   * The body of `request` once the exchange is over. `sent` is the transport's outcome,
   * `reason` is `canonical_reason`, `parseErrorMap` parses a body as a string map, `decode`
   * parses it as the operation's response type (with its diagnostic on failure).
   */
  function Classify<T>(sent: Result<HttpResponse, string>, reason: StatusCode -> Option<string>,
                       parseErrorMap: string -> Option<map<string, string>>,
                       decode: string -> Result<T, string>): (r: Result<RateLimitedResponse<T>, string>)
    ensures r.Success? <==>
      sent.Success? && IsSuccessStatus(sent.value.status) && decode(sent.value.body).Success?
    ensures r.Success? ==>
      r.value == RateLimitedResponse(decode(sent.value.body).value, RateLimitOf(sent.value.headers))
    ensures sent.Failure? ==> r == Failure(TransportPrefix + sent.error)
  {
    match sent
    case Failure(e) => Failure(TransportPrefix + e)
    case Success(res) =>
      if !IsSuccessStatus(res.status) then
        Failure(HttpErrorMessage(res.status, reason, parseErrorMap(res.body)))
      else
        match decode(res.body)
        case Failure(e) => Failure(ParsePrefix + e)
        case Success(v) => Success(RateLimitedResponse(v, RateLimitOf(res.headers)))
  }

  /** A non-success status always fails with the HTTP error text, and never consults the body decoder. */
  lemma NonSuccessNeverDecodes<T>(res: HttpResponse, reason: StatusCode -> Option<string>,
                                  parseErrorMap: string -> Option<map<string, string>>,
                                  decode1: string -> Result<T, string>, decode2: string -> Result<T, string>)
    requires !IsSuccessStatus(res.status)
    ensures Classify(Success(res), reason, parseErrorMap, decode1)
         == Classify(Success(res), reason, parseErrorMap, decode2)
         == Failure(HttpErrorMessage(res.status, reason, parseErrorMap(res.body)))
  {
  }

  /** A success status whose body does not decode fails with the parse prefix and the decoder's diagnostic. */
  lemma UndecodableBodyIsParseError<T>(res: HttpResponse, reason: StatusCode -> Option<string>,
                                       parseErrorMap: string -> Option<map<string, string>>,
                                       decode: string -> Result<T, string>)
    requires IsSuccessStatus(res.status) && decode(res.body).Failure?
    ensures Classify(Success(res), reason, parseErrorMap, decode) == Failure(ParsePrefix + decode(res.body).error)
  {
  }

  /** The rate-limit headers never decide between success and failure: only their values differ. */
  lemma HeadersNeverCauseErrors<T>(res: HttpResponse, other: seq<Header>, reason: StatusCode -> Option<string>,
                                   parseErrorMap: string -> Option<map<string, string>>,
                                   decode: string -> Result<T, string>)
    ensures var r1 := Classify(Success(res), reason, parseErrorMap, decode);
      var r2 := Classify(Success(res.(headers := other)), reason, parseErrorMap, decode);
      r1.Success? == r2.Success? && (r1.Failure? ==> r1 == r2) &&
      (r1.Success? ==> r1.value.response == r2.value.response && r2.value.rateLimit == RateLimitOf(other))
  {
  }

  /**
   * Transport errors, parse errors and the bare-code fallback have different shapes: the first
   * two differ from each other at the eighth character, and neither is a string of digits.
   */
  lemma ErrorKindsDistinct(transport: string, diagnostic: string, status: StatusCode)
    ensures TransportPrefix + transport != ParsePrefix + diagnostic
    ensures NatToString(status) != TransportPrefix + transport
    ensures NatToString(status) != ParsePrefix + diagnostic
  {
    assert (TransportPrefix + transport)[7] == 'r';
    assert (ParsePrefix + diagnostic)[7] == 'a';
    assert (TransportPrefix + transport)[0] == 'C' && (ParsePrefix + diagnostic)[0] == 'C';
    assert IsDigit(NatToString(status)[0]);
  }

  /** Headers that carry printed `i32` counts, in any name case, are reported as exactly those counts. */
  lemma RateLimitFromHeaders(headers: seq<Header>, limit: Int32, remaining: Int32)
    requires Get(headers, LimitMonthHeader) == Some(IntToString(limit))
    requires Get(headers, RemainingMonthHeader) == Some(IntToString(remaining))
    ensures RateLimitOf(headers) == RateLimit(limit, remaining)
  {
    HeaderIntReadsPrinted(headers, LimitMonthHeader, limit);
    HeaderIntReadsPrinted(headers, RemainingMonthHeader, remaining);
  }

  /** Without either header the rate limit is the default zero value. */
  lemma RateLimitDefaultsToZero(headers: seq<Header>)
    requires forall i :: 0 <= i < |headers| ==>
      !SameName(headers[i].name, LimitMonthHeader) && !SameName(headers[i].name, RemainingMonthHeader)
    ensures RateLimitOf(headers) == DefaultRateLimit
  {
  }

  // ---------------------------------------------------------------- operations

  /**
   * `get_events`: the query is built, one request is sent through `exchange`, and on success
   * a fresh response object is decoded and its rate-limit slot set from the headers.
   */
  method GetEvents(client: ApiClient, req: GetEventsRequest, exchange: OutboundRequest -> Result<HttpResponse, string>,
                   reason: StatusCode -> Option<string>, parseErrorMap: string -> Option<map<string, string>>,
                   decode: string -> Result<EventsBody, string>)
    returns (r: Result<GetEventsResponse, string>, issued: OutboundRequest)
    ensures issued == OutboundRequest(client, "events", EventsQuery(req))
    ensures var c := Classify(exchange(issued), reason, parseErrorMap, decode);
      r.Success? == c.Success? && (c.Failure? ==> r.error == c.error) &&
      (c.Success? ==>
         fresh(r.value) &&
         r.value.View() == EventsResponseValue(c.value.response.adult, c.value.response.date,
                                               c.value.response.timezone, c.value.rateLimit))
  {
    var params := EventsParams(req);
    issued := OutboundRequest(client, "events", params);
    var c := Classify(exchange(issued), reason, parseErrorMap, decode);
    if c.Failure? {
      r := Failure(c.error);
    } else {
      var result := new GetEventsResponse.FromBody(c.value.response);
      result.SetRateLimit(c.value.rateLimit);
      r := Success(result);
    }
  }

  /** `get_event_info`: an empty id fails before anything is sent; otherwise one request is sent. */
  method GetEventInfo<T>(client: ApiClient, req: GetEventInfoRequest,
                         exchange: OutboundRequest -> Result<HttpResponse, string>,
                         reason: StatusCode -> Option<string>, parseErrorMap: string -> Option<map<string, string>>,
                         decode: string -> Result<T, string>)
    returns (r: Result<RateLimitedResponse<T>, string>, issued: Option<OutboundRequest>)
    ensures issued.None? <==> req.id == ""
    ensures req.id == "" ==> r == Failure(EventIdRequiredMessage)
    ensures req.id != "" ==>
      issued == Some(OutboundRequest(client, "event", EventInfoQuery(req))) &&
      r == Classify(exchange(issued.value), reason, parseErrorMap, decode)
  {
    if req.id == "" {
      return Failure(EventIdRequiredMessage), None;
    }
    var params := EventInfoParams(req);
    var sent := OutboundRequest(client, "event", params);
    issued := Some(sent);
    r := Classify(exchange(sent), reason, parseErrorMap, decode);
  }

  /** `search`: an empty query fails before anything is sent; otherwise one request is sent. */
  method Search<T>(client: ApiClient, req: SearchRequest, exchange: OutboundRequest -> Result<HttpResponse, string>,
                   reason: StatusCode -> Option<string>, parseErrorMap: string -> Option<map<string, string>>,
                   decode: string -> Result<T, string>)
    returns (r: Result<RateLimitedResponse<T>, string>, issued: Option<OutboundRequest>)
    ensures issued.None? <==> req.query == ""
    ensures req.query == "" ==> r == Failure(SearchQueryRequiredMessage)
    ensures req.query != "" ==>
      issued == Some(OutboundRequest(client, "search", SearchQuery(req))) &&
      r == Classify(exchange(issued.value), reason, parseErrorMap, decode)
  {
    if req.query == "" {
      return Failure(SearchQueryRequiredMessage), None;
    }
    var sent := OutboundRequest(client, "search", SearchQuery(req));
    issued := Some(sent);
    r := Classify(exchange(sent), reason, parseErrorMap, decode);
  }
}
