/** The concrete outcomes the repository's unit tests pin down, derived from the model. */
module ClientExamples {
  import opened Wrappers
  import opened Numerals
  import opened Headers
  import opened Model
  import opened Client

  /** An empty key is refused with the key message, whatever else holds. */
  lemma MissingApiKey(headerValueOk: string -> bool, clientBuilds: bool, parseUrl: string -> Option<string>)
    ensures New("", headerValueOk, clientBuilds, parseUrl) == Failure(InvalidApiKeyMessage)
  {
  }

  /** `new("abc123")` succeeds when the key is a valid header value and the default base URL parses. */
  lemma ReturnsANewClient(headerValueOk: string -> bool, parseUrl: string -> Option<string>)
    requires headerValueOk("abc123") && parseUrl(DefaultBaseUrl).Some?
    ensures New("abc123", headerValueOk, true, parseUrl).Success?
  {
  }

  /** A valid key with a base URL that does not parse ("derp") is refused with the base-URL message. */
  lemma InvalidBaseUrl(headerValueOk: string -> bool, parseUrl: string -> Option<string>)
    requires headerValueOk("abc123") && parseUrl("derp").None?
    ensures NewInternal("abc123", "derp", headerValueOk, true, parseUrl) == Failure("Invalid base_url.")
  {
  }

  /** No events parameters set: the query holds only `adult`, as "false". */
  lemma EventsWithDefaultParameters()
    ensures EventsQuery(GetEventsRequest(None, None, None)) == map["adult" := "false"]
  {
  }

  /** All three events parameters set: the query holds exactly those three values. */
  lemma EventsWithSetParameters()
    ensures EventsQuery(GetEventsRequest(Some("now"), Some(true), Some("America/New_York")))
         == map["adult" := "true", "timezone" := "America/New_York", "date" := "now"]
  {
  }

  /** Event info with year bounds: they travel as their decimal text. */
  lemma EventInfoWithSetParameters()
    ensures EventInfoQuery(GetEventInfoRequest("f90b893ea04939d7456f30c54f68d7b4", Some(2002), Some(2003)))
         == map["id" := "f90b893ea04939d7456f30c54f68d7b4", "start" := "2002", "end" := "2003"]
  {
    assert NatToString(2002) == "2002" by {
      assert NatToString(2) == "2" && NatToString(20) == "20" && NatToString(200) == "200";
    }
    assert NatToString(2003) == "2003" by {
      assert NatToString(2) == "2" && NatToString(20) == "20" && NatToString(200) == "200";
    }
  }

  /** A search with the adult flag set: the query holds the text and "true". */
  lemma SearchWithSetParameters()
    ensures SearchQuery(SearchRequest("porch day", Some(true))) == map["query" := "porch day", "adult" := "true"]
  {
  }

  /** A 401 whose body carries an `error` field fails with that text verbatim. */
  lemma ApiErrorVerbatim<T>(headers: seq<Header>, body: string, reason: StatusCode -> Option<string>,
                            parseErrorMap: string -> Option<map<string, string>>, decode: string -> Result<T, string>)
    requires parseErrorMap(body) == Some(map["error" := "MyError!"])
    ensures Classify(Success(HttpResponse(401, headers, body)), reason, parseErrorMap, decode) == Failure("MyError!")
  {
  }

  /** A 500 without an error body fails with the canonical reason phrase. */
  lemma ServerError500<T>(headers: seq<Header>, body: string, reason: StatusCode -> Option<string>,
                          parseErrorMap: string -> Option<map<string, string>>, decode: string -> Result<T, string>)
    requires reason(500) == Some("Internal Server Error") && parseErrorMap(body).None?
    ensures Classify(Success(HttpResponse(500, headers, body)), reason, parseErrorMap, decode)
         == Failure("Internal Server Error")
  {
  }

  /** A 599, which has no canonical reason phrase, fails with the text "599". */
  lemma ServerErrorUnknown<T>(headers: seq<Header>, body: string, reason: StatusCode -> Option<string>,
                              parseErrorMap: string -> Option<map<string, string>>, decode: string -> Result<T, string>)
    requires reason(599).None? && parseErrorMap(body).None?
    ensures Classify(Success(HttpResponse(599, headers, body)), reason, parseErrorMap, decode) == Failure("599")
  {
    assert NatToString(599) == "599" by {
      assert NatToString(5) == "5" && NatToString(59) == "59";
    }
  }

  /** The header name the test sends for the monthly limit, in mixed case, matches the limit header only. */
  lemma MixedCaseLimitName()
    ensures SameName("X-RateLimit-Limit-Month", LimitMonthHeader)
    ensures !SameName("X-RateLimit-Limit-Month", RemainingMonthHeader)
  {
    var t := ToLowerAscii("X-RateLimit-Limit-Month");
    assert t == LimitMonthHeader;
    LowerCaseIsNormal(LimitMonthHeader);
    assert |ToLowerAscii(RemainingMonthHeader)| != |t|;
  }

  /** The lower-case remaining-count name matches the remaining header only. */
  lemma LowerCaseRemainingName()
    ensures SameName("x-ratelimit-remaining-month", RemainingMonthHeader)
    ensures !SameName("x-ratelimit-remaining-month", LimitMonthHeader)
  {
    LowerCaseIsNormal(RemainingMonthHeader);
    assert |ToLowerAscii(LimitMonthHeader)| != |ToLowerAscii(RemainingMonthHeader)|;
  }

  /** The rate-limit headers sent as "X-RateLimit-Limit-Month: 100" and "x-ratelimit-remaining-month: 88". */
  lemma ReportsRateLimits()
    ensures RateLimitOf([Header("X-RateLimit-Limit-Month", "100"), Header("x-ratelimit-remaining-month", "88")])
         == RateLimit(100, 88)
  {
    var headers := [Header("X-RateLimit-Limit-Month", "100"), Header("x-ratelimit-remaining-month", "88")];
    MixedCaseLimitName();
    LowerCaseRemainingName();
    GetFindsFirst(headers, LimitMonthHeader, 0);
    GetFindsFirst(headers, RemainingMonthHeader, 1);
    assert IntToString(100) == "100" by {
      assert NatToString(1) == "1" && NatToString(10) == "10";
    }
    assert IntToString(88) == "88" by {
      assert NatToString(8) == "8";
    }
    RateLimitFromHeaders(headers, 100, 88);
  }
}
