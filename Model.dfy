/**
 * The records of src/model.rs: the request parameter bags, the rate-limit value and the
 * events response, whose rate-limit slot is not part of the JSON body and is filled in
 * place after decoding.
 */
module Model {
  import opened Wrappers
  import opened Numerals

  /** Parameters of the events-by-date operation; every field is optional. */
  datatype GetEventsRequest = GetEventsRequest(date: Option<string>, adult: Option<bool>, timezone: Option<string>)

  /** Parameters of the event-info operation: a required id and optional year bounds. */
  datatype GetEventInfoRequest = GetEventInfoRequest(id: string, start: Option<Int32>, end: Option<Int32>)

  /** Parameters of the search operation: a required query and an optional adult flag. */
  datatype SearchRequest = SearchRequest(query: string, adult: Option<bool>)

  /** Monthly quota and monthly remaining requests, as reported by the API. */
  datatype RateLimit = RateLimit(limitMonth: Int32, remainingMonth: Int32)

  /** `RateLimit::default()`: both counts zero. */
  const DefaultRateLimit := RateLimit(0, 0)

  /** The fields of an events response that the JSON body carries. */
  datatype EventsBody = EventsBody(adult: bool, date: string, timezone: string)

  /** The whole observable value of an events response, rate-limit slot included. */
  datatype EventsResponseValue = EventsResponseValue(adult: bool, date: string, timezone: string, rateLimit: RateLimit)

  /** Setting the rate-limit slot of a response value: the last write wins, and writing a value twice is writing it once. */
  lemma SetRateLimitLastWriteWins(v: EventsResponseValue, a: RateLimit, b: RateLimit)
    ensures v.(rateLimit := a).(rateLimit := b) == v.(rateLimit := b)
    ensures v.(rateLimit := a).(rateLimit := a) == v.(rateLimit := a)
    ensures v.(rateLimit := a).rateLimit == a
  {
  }

  /** Two `set_rate_limit` calls on one response leave the second value and nothing else changed. */
  method SetRateLimitTwice(resp: GetEventsResponse, a: RateLimit, b: RateLimit)
    modifies resp
    ensures resp.View() == old(resp.View()).(rateLimit := b)
    ensures resp.GetRateLimit() == b
  {
    resp.SetRateLimit(a);
    resp.SetRateLimit(b);
  }

  /** The events response; `SetRateLimit` is its `RateLimited` implementation. */
  class GetEventsResponse {
    var adult: bool
    var date: string
    var timezone: string
    var rateLimit: RateLimit

    function View(): EventsResponseValue
      reads this
    {
      EventsResponseValue(adult, date, timezone, rateLimit)
    }

    /** Deserialization: the body gives the wire fields; the skipped rate-limit slot takes its default. */
    constructor FromBody(body: EventsBody)
      ensures View() == EventsResponseValue(body.adult, body.date, body.timezone, DefaultRateLimit)
      ensures GetRateLimit() == RateLimit(0, 0)
    {
      adult := body.adult;
      date := body.date;
      timezone := body.timezone;
      rateLimit := DefaultRateLimit;
    }

    /** `get_rate_limit`: reads the slot; as a function it cannot change the response. */
    function GetRateLimit(): (r: RateLimit)
      reads this
      ensures r == View().rateLimit
    {
      rateLimit
    }

    /** `set_rate_limit`: overwrites the slot and nothing else. */
    method SetRateLimit(r: RateLimit)
      modifies this
      ensures GetRateLimit() == r
      ensures View() == old(View()).(rateLimit := r)
      ensures adult == old(adult) && date == old(date) && timezone == old(timezone)
    {
      rateLimit := r;
    }
  }
}
