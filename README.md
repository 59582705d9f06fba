# Checkiday API client — request/response core in Dafny

This project models the decision logic of the Rust client for the Checkiday holiday/event
web API (`HolidayEventApi` in `src/lib.rs`, and the records and `RateLimited` trait in
`src/model.rs`). It covers four pieces:

- **Construction** (`new`/`new_internal`). The API key is checked first: it must be non-empty
  and acceptable as a header value. Next the HTTP client must build. Last, the base URL must
  parse. Each failure has its own fixed message.
- **Query parameters** of the three operations:
  - `get_events`: `adult` is always present and defaults to `"false"`. `timezone` and `date`
    are present only when the caller gave them.
  - `get_event_info`: `id` is required. `start`/`end` are sent as decimal text.
  - `search`: `query` is required, and `adult` is always present.

  An empty `id` or `query` fails before any request is sent. The query is a
  `map<string, string>`, as the source's `HashMap` is.
- **Classifying one exchange** (the body of `request`). A transport failure gets the
  `"Can't process request: "` prefix. A non-2xx status gives one of three texts, in this order:
  the API's non-empty `error` field; otherwise the status's canonical reason phrase; otherwise
  the status code in decimal. A 2xx body that does not decode gets the `"Can't parse response: "`
  prefix. Otherwise the decoded value comes back with its rate limit attached.
- **Rate limits.** The `x-ratelimit-limit-month` and `x-ratelimit-remaining-month` headers are
  looked up without regard to case. Each is read as an `i32`, and a missing or unreadable header
  reads as 0. `GetEventsResponse` is a class, and its `SetRateLimit` overwrites the
  rate-limit slot in place and nothing else.

Modules: `Wrappers` (Option/Result), `Numerals` (Rust's integer `to_string` and
`str::parse::<i32>`), `Headers` (header lookup with ASCII case folding, `HeaderValue::to_str`,
header-to-int defaulting), `Model` (`src/model.rs`), `Client` (`src/lib.rs`),
`ClientExamples` (concrete outcomes of the model, most of them the ones the repository's unit
tests assert).

The HTTP library and JSON decoding are not available to the model. They become parameters of
the functions that use them:
- `HeaderValue::try_from` acceptance is `headerValueOk: string -> bool`.
- Whether the client builder succeeds is `clientBuilds: bool`.
- `Url::parse` is `parseUrl: string -> Option<string>`.
- `StatusCode::canonical_reason` is `reason: StatusCode -> Option<string>`.
- Decoding a body as `HashMap<String, String>` is `parseErrorMap: string -> Option<map<string, string>>`.
- Decoding a body as the response type is `decode: string -> Result<T, string>`.
- The network exchange is `exchange: OutboundRequest -> Result<HttpResponse, string>`.

Integer parsing, decimal printing and ASCII case folding are small and well defined, so they
are modelled concretely.

Two details of the source that the model keeps:
- Construction fails in three places, in this order: the key (src/lib.rs:25-27), the client
  build with `"Error instantiating client."` (src/lib.rs:36-43), and the base URL
  (src/lib.rs:45-47).
- The rate-limit counts are `i32` (src/model.rs:24-25), so a header `-5` reads as -5.

## Model

| member | source | states |
|---|---|---|
| Client.NewInternal | src/lib.rs:23-50 | empty or rejected key gives the API-key message; otherwise a failed build gives the client message; otherwise an unparsable URL gives "Invalid base_url."; success exactly when all three pass, holding the key and the parsed URL |
| Client.New | src/lib.rs:19-21 | an empty or rejected key is refused with the API-key message; success exactly when the key is non-empty and accepted, the client builds and the default base URL parses; a client built by `new` holds the key and the parsed default base URL |
| Client.KeyCheckedBeforeBaseUrl | src/lib.rs:24-47 | a bad key is reported the same way whatever the base URL, valid or not |
| Client.EventsQuery | src/lib.rs:57-66 | `adult` always present, "true"/"false", "false" when unset; `timezone`/`date` present exactly when supplied, with the supplied value; no other keys |
| Client.EventsParams | src/lib.rs:57-66 | the successive inserts build exactly the events query |
| Client.EventsQueryDeterminesRequest | src/lib.rs:57-66 | two events requests give the same query if and only if they agree on timezone, date and defaulted adult flag |
| Client.EventInfoQuery | src/lib.rs:80-88 | `id` always present with the id; `start`/`end` present exactly when supplied, as the integers' decimal text; no other keys |
| Client.EventInfoParams | src/lib.rs:80-88 | the successive inserts build exactly the event-info query |
| Client.EventInfoQueryRoundTrip | src/lib.rs:82-88 | reading `start`/`end` back as `i32` gives exactly the requested bounds, and absent ones stay absent |
| Client.BoolToString | src/lib.rs:58 | the flag's text is "true" or "false", and it is "true" exactly when the flag is set |
| Client.SearchQuery | src/lib.rs:102-105 | the keys are exactly `query` and `adult`; `query` is the text; `adult` is "true" only for `Some(true)` |
| Client.HttpErrorMessage | src/lib.rs:122-135 | a parsed, non-empty `error` field is returned verbatim; otherwise the reason phrase when one exists, else the decimal status |
| Client.StatusFallbackIsCode | src/lib.rs:132 | with no API message and no reason phrase, the error is three decimal digits whose value is the status |
| Client.IsSuccessStatus | src/lib.rs:122 | a status is a success exactly when it is in the 2xx class |
| Client.Classify | src/lib.rs:117-154 | success exactly for a delivered 2xx response whose body decodes, carrying the decoded value and the header rate limit; a transport failure gives the "Can't process request: " prefix plus its description |
| Client.NonSuccessNeverDecodes | src/lib.rs:122-136 | a non-2xx status always fails with the HTTP error text, whatever the body decoder does |
| Client.UndecodableBodyIsParseError | src/lib.rs:138-141 | a 2xx whose body fails to decode fails with "Can't parse response: " plus the diagnostic |
| Client.HeadersNeverCauseErrors | src/lib.rs:142-154 | replacing the headers never changes success or failure, or the error text, or the decoded value; only the rate limit changes |
| Client.ErrorKindsDistinct | src/lib.rs:117-141 | transport errors, parse errors and bare status codes never coincide |
| Client.RateLimitOf | src/lib.rs:142-151 | each count is the `i32` its header holds, matched in any case; 0 when the header is missing or does not parse |
| Client.RateLimitFromHeaders | src/lib.rs:142-151 | headers carrying printed `i32` counts give exactly those counts |
| Client.RateLimitDefaultsToZero | src/lib.rs:142-151 | without either header the rate limit is the default (0, 0) |
| Client.GetEvents | src/lib.rs:53-69 | sends exactly one request with the events query to "events"; fails when classification fails, with the same text; otherwise returns a fresh response holding the body's fields and the header rate limit |
| Client.GetEventInfo | src/lib.rs:72-91 | an empty id fails with "Event id is required." and sends nothing; otherwise sends one request with the event-info query to "event" and returns its classification |
| Client.Search | src/lib.rs:94-108 | an empty query fails with "Search query is required." and sends nothing; otherwise sends one request with the search query to "search" and returns its classification |
| Headers.ToLowerAscii | src/lib.rs:144 | header-name folding keeps the length, leaves no upper-case ASCII letter, turns each one into its lower-case partner and leaves every other character in place |
| Headers.ToLowerAsciiIdempotent | src/lib.rs:144 | folding a folded name changes nothing |
| Headers.Get | src/lib.rs:144 | a lookup finds nothing exactly when no header name matches in any case |
| Headers.GetFindsFirst | src/lib.rs:144 | the value found is the first matching header's value |
| Headers.GetIgnoresCase | src/lib.rs:144 | respelling header names in another case changes no lookup |
| Headers.ParsableIsVisible | src/lib.rs:145 | every value that parses as `i32` passes `to_str` (which accepts only visible ASCII and tabs) unchanged |
| Headers.InvisibleIsUnparsable | src/lib.rs:145 | a value refused by `to_str` would not have parsed either |
| Headers.HeaderInt | src/lib.rs:143-150 | a missing or unparsable header gives 0; a parsable one gives its `i32` value |
| Headers.HeaderIntReadsPrinted | src/lib.rs:143-146 | a header holding the text of an `i32` reads as that `i32` |
| Numerals.NatToString | src/lib.rs:132 | non-empty decimal digits without a leading zero; "0" is the only text starting with '0' |
| Numerals.IntToString | src/lib.rs:83-87 | a leading '-' exactly for negatives and never a '+'; only digits otherwise; no leading zero except in "0"; the text denotes the integer |
| Numerals.ParseI32 | src/lib.rs:145 | succeeds exactly on an optional sign followed by at least one digit whose value fits in an `i32`, and then gives that value |
| Numerals.ParseI32Samples | src/lib.rs:145 | "+7" and "007" read as 7 and "-0" as 0; " 7" and a lone "+" do not parse |
| Numerals.DigitsValueOfNatToString | src/lib.rs:132 | reading back the decimal text of a natural number gives the number |
| Numerals.ParseI32OfIntToString | src/lib.rs:83-87 | parsing the printed text of any `i32` gives it back |
| Model.SetRateLimitLastWriteWins | src/model.rs:37-39 | on response values, setting twice is setting the last value, and setting one value twice equals setting it once |
| Model.SetRateLimitTwice | src/model.rs:37-39 | two `set_rate_limit` calls on one response object leave exactly the second value, every other field unchanged |
| Model.GetEventsResponse.FromBody | src/model.rs:12-26 | a decoded response holds the body's fields and the default rate limit (0, 0) |
| Model.GetEventsResponse.GetRateLimit | src/model.rs:34-36 | returns the response's rate-limit slot, and as a function it cannot change the response |
| Model.GetEventsResponse.SetRateLimit | src/model.rs:37-39 | afterwards `GetRateLimit` returns the new value; `adult`, `date` and `timezone` are unchanged |
| ClientExamples.MissingApiKey | src/lib.rs:173-177 | `new("")` fails with the API-key message |
| ClientExamples.ReturnsANewClient | src/lib.rs:186-189 | `new("abc123")` succeeds when the key is accepted and the default base URL parses |
| ClientExamples.InvalidBaseUrl | src/lib.rs:180-184 | key "abc123" and base URL "derp" fail with "Invalid base_url." |
| ClientExamples.EventsWithDefaultParameters | src/lib.rs:57-58 | no parameters give the query `{adult: "false"}` |
| ClientExamples.EventsWithSetParameters | src/lib.rs:504-524 | all three parameters give exactly `{adult: "true", timezone, date}` |
| ClientExamples.EventInfoWithSetParameters | src/lib.rs:668-688 | the bounds 2002 and 2003 are sent as "2002" and "2003" beside the id |
| ClientExamples.SearchWithSetParameters | src/lib.rs:892-908 | "porch day" with adult set gives exactly `{query: "porch day", adult: "true"}` |
| ClientExamples.ApiErrorVerbatim | src/lib.rs:267-286 | a 401 whose body is `{"error":"MyError!"}` fails with "MyError!" |
| ClientExamples.ServerError500 | src/lib.rs:290-306 | a 500 with no error body fails with "Internal Server Error" |
| ClientExamples.ServerErrorUnknown | src/lib.rs:312-328 | a 599 with no reason phrase fails with "599" |
| ClientExamples.MixedCaseLimitName | src/lib.rs:411 | "X-RateLimit-Limit-Month" names the limit header and not the remaining header |
| ClientExamples.LowerCaseRemainingName | src/lib.rs:412 | "x-ratelimit-remaining-month" names the remaining header and not the limit header |
| ClientExamples.ReportsRateLimits | src/lib.rs:405-430 | mixed-case headers "100" and "88" give the rate limit (100, 88) |

## Left out

- The network transport, async/await, the ten-second timeout, redirect following and the
  default headers (user agent, `apikey`, `X-Platform-Version`). These are I/O. The exchange is
  a parameter, and the model does not inspect what the transport does with the key.
- `Url::parse`, `Url::join`, `query_pairs_mut` and `HeaderValue::try_from`. They are foreign
  and appear as parameters. The outbound request records the base URL, the path and the query
  map rather than a joined URL.
- JSON decoding. It appears as two decoder parameters. The concrete response shapes
  `GetEventInfoResponse`, `SearchResponse`, `EventInfo` and the date-or-timestamp value type
  are not part of this model: the shown `src/model.rs` defines only `GetEventsResponse`.
  For event info and search, the attached rate limit is therefore modelled on values
  (`RateLimitedResponse<T>`) rather than through a `set_rate_limit` call on an object.
- The table of canonical reason phrases. It appears as a parameter; the examples constrain
  only the tested points, 500 and 599.
- The platform-dependent text for an unreachable host (src/lib.rs:343-349). It depends on the
  operating system's error messages.
- Headers and bodies are modelled as `seq<char>`. Byte-level UTF-8 encoding is not modelled,
  and `to_str` is modelled on characters: a non-ASCII character is refused, as an obs-text byte is.
- The console demo program (`example.rs`): it only prints results.
