/** The API's own middlewares: a per-client fixed-window rate limiter keyed by
    the forwarded client address, the bearer-token check, and the middleware
    that puts the limiter's answer into `X-RateLimit-*` headers.

    Time is passed in as `now`, in milliseconds; the limiter's window is kept
    in whole seconds, as `Duration::from_secs` builds it. */
module Middleware {
  import opened Wrappers
  import opened Text
  import opened Net
  import opened Ddos

  // ------------------------------------------------------------------------
  // RateLimiter

  /** What `check_rate_limit` reports: the limit, the requests left in the
      window, the seconds until the window resets, and whether this request is refused. */
  datatype RateLimitInfo = RateLimitInfo(limit: nat, remaining: nat, reset: nat, limited: bool)

  /** A client's entry: requests counted in its window and the window's start. */
  datatype Entry = Entry(count: nat, time: nat)

  /** Every entry has counted at least one and at most `maxRequests` requests. */
  predicate CountsBounded(requests: map<string, Entry>, maxRequests: nat) {
    forall ip | ip in requests :: 1 <= requests[ip].count <= maxRequests
  }

  /** `reset_in`: whole seconds left in a window entered `elapsed` ms ago
      (`as_secs` truncates the elapsed time). */
  function ResetIn(elapsed: nat, windowSecs: nat): (r: nat)
    requires elapsed <= windowSecs * 1000
    ensures r <= windowSecs
    ensures r == 0 <==> elapsed == windowSecs * 1000
    ensures elapsed < windowSecs * 1000 ==>
      windowSecs * 1000 - elapsed <= r * 1000 < windowSecs * 1000 - elapsed + 1000
  {
    if elapsed >= windowSecs * 1000 then 0 else windowSecs - elapsed / 1000
  }

  datatype Checked = Checked(info: RateLimitInfo, requests: map<string, Entry>)

  /** `check_rate_limit(ip)` at `now`: a new client or a stale entry starts a
      fresh window; inside the window a client at the limit is refused without
      counting, any other is counted. */
  function CheckStep(requests: map<string, Entry>, ip: string, now: nat, maxRequests: nat, windowSecs: nat): Checked
    requires maxRequests >= 1 && CountsBounded(requests, maxRequests)
  {
    if ip in requests then
      var e := requests[ip];
      var elapsed := Elapsed(now, e.time);
      if elapsed > windowSecs * 1000 then
        Checked(RateLimitInfo(maxRequests, maxRequests - 1, windowSecs, false), requests[ip := Entry(1, now)])
      else
        var reset := ResetIn(elapsed, windowSecs);
        if e.count >= maxRequests then Checked(RateLimitInfo(maxRequests, 0, reset, true), requests)
        else Checked(RateLimitInfo(maxRequests, maxRequests - (e.count + 1), reset, false),
                     requests[ip := Entry(e.count + 1, e.time)])
    else Checked(RateLimitInfo(maxRequests, maxRequests - 1, windowSecs, false), requests[ip := Entry(1, now)])
  }

  /** One check keeps every count in range and touches only the client's entry;
      an admitted request's `remaining` is the limit minus the client's count,
      and a refused one changes nothing. */
  lemma CheckStepAccounts(requests: map<string, Entry>, ip: string, now: nat, maxRequests: nat, windowSecs: nat)
    requires maxRequests >= 1 && CountsBounded(requests, maxRequests)
    ensures var r := CheckStep(requests, ip, now, maxRequests, windowSecs);
      CountsBounded(r.requests, maxRequests)
      && r.requests.Keys == requests.Keys + {ip}
      && (forall x | x in requests && x != ip :: r.requests[x] == requests[x])
      && r.info.limit == maxRequests && r.info.reset <= windowSecs
      && (!r.info.limited ==> r.info.remaining + r.requests[ip].count == maxRequests)
      && (r.info.limited <==> ip in requests && requests[ip].count == maxRequests
                              && Elapsed(now, requests[ip].time) <= windowSecs * 1000)
      && (r.info.limited ==> r.requests == requests && r.info.remaining == 0)
      && ((ip !in requests || Elapsed(now, requests[ip].time) > windowSecs * 1000) ==>
            r.requests[ip] == Entry(1, now)
            && r.info == RateLimitInfo(maxRequests, maxRequests - 1, windowSecs, false))
      && (ip in requests && Elapsed(now, requests[ip].time) <= windowSecs * 1000 ==>
            r.requests[ip].time == requests[ip].time
            && r.info.reset == ResetIn(Elapsed(now, requests[ip].time), windowSecs))
  {
  }

  /** What successive `check_rate_limit(ip)` calls at `times` report. */
  function CheckAnswers(requests: map<string, Entry>, ip: string, times: seq<nat>, maxRequests: nat, windowSecs: nat): (r: seq<RateLimitInfo>)
    requires maxRequests >= 1 && CountsBounded(requests, maxRequests)
    ensures |r| == |times|
    decreases |times|
  {
    if times == [] then []
    else
      CheckStepAccounts(requests, ip, times[0], maxRequests, windowSecs);
      var step := CheckStep(requests, ip, times[0], maxRequests, windowSecs);
      [step.info] + CheckAnswers(step.requests, ip, times[1..], maxRequests, windowSecs)
  }

  /** A client whose window opened at `start` with `k` requests counted, asking
      again at times that all fall inside that window: the i-th further request
      is refused exactly when `k + i` requests have already been admitted up to
      the limit, and otherwise leaves `maxRequests - (k + i + 1)`. */
  lemma {:induction false} WindowAdmitsUpToLimit(requests: map<string, Entry>, ip: string, start: nat, k: nat,
                                                 times: seq<nat>, maxRequests: nat, windowSecs: nat)
    requires maxRequests >= 1 && CountsBounded(requests, maxRequests)
    requires ip in requests && requests[ip] == Entry(k, start)
    requires forall i :: 0 <= i < |times| ==> Elapsed(times[i], start) <= windowSecs * 1000
    ensures forall i :: 0 <= i < |times| ==>
      (CheckAnswers(requests, ip, times, maxRequests, windowSecs)[i].limited <==> k + i >= maxRequests)
    ensures forall i :: 0 <= i < |times| && !CheckAnswers(requests, ip, times, maxRequests, windowSecs)[i].limited ==>
      CheckAnswers(requests, ip, times, maxRequests, windowSecs)[i].remaining == maxRequests - (k + i + 1)
    decreases |times|
  {
    if times != [] {
      CheckStepAccounts(requests, ip, times[0], maxRequests, windowSecs);
      var step := CheckStep(requests, ip, times[0], maxRequests, windowSecs);
      var k' := if k >= maxRequests then k else k + 1;
      assert step.requests[ip] == Entry(k', start);
      WindowAdmitsUpToLimit(step.requests, ip, start, k', times[1..], maxRequests, windowSecs);
      var answers := CheckAnswers(requests, ip, times, maxRequests, windowSecs);
      var rest := CheckAnswers(step.requests, ip, times[1..], maxRequests, windowSecs);
      assert answers == [step.info] + rest;
      forall i | 0 < i < |times|
        ensures (answers[i].limited <==> k + i >= maxRequests)
        ensures !answers[i].limited ==> answers[i].remaining == maxRequests - (k + i + 1)
      {
        assert answers[i] == rest[i - 1];
      }
    }
  }

  /** A new client's first request, or the first one after its window has
      expired, opens a fresh window at `start`; of the requests inside that
      window, exactly the first `maxRequests` are admitted. */
  lemma FreshClientAdmittedUpToLimit(requests: map<string, Entry>, ip: string, start: nat,
                                     times: seq<nat>, maxRequests: nat, windowSecs: nat)
    requires maxRequests >= 1 && CountsBounded(requests, maxRequests)
    requires ip !in requests || Elapsed(start, requests[ip].time) > windowSecs * 1000
    requires forall i :: 0 <= i < |times| ==> Elapsed(times[i], start) <= windowSecs * 1000
    ensures forall i :: 0 <= i <= |times| ==>
      (CheckAnswers(requests, ip, [start] + times, maxRequests, windowSecs)[i].limited <==> i >= maxRequests)
  {
    CheckStepAccounts(requests, ip, start, maxRequests, windowSecs);
    var step := CheckStep(requests, ip, start, maxRequests, windowSecs);
    WindowAdmitsUpToLimit(step.requests, ip, start, 1, times, maxRequests, windowSecs);
    var answers := CheckAnswers(requests, ip, [start] + times, maxRequests, windowSecs);
    assert ([start] + times)[1..] == times;
    var rest := CheckAnswers(step.requests, ip, times, maxRequests, windowSecs);
    assert answers == [step.info] + rest;
    forall i | 0 < i <= |times|
      ensures answers[i].limited <==> i >= maxRequests
    {
      assert answers[i] == rest[i - 1];
    }
  }

  /** The entries `cleanup` keeps: those not older than the window. */
  function Retained(requests: map<string, Entry>, now: nat, windowSecs: nat): map<string, Entry> {
    map ip | ip in requests && Elapsed(now, requests[ip].time) <= windowSecs * 1000 :: requests[ip]
  }

  /** Cleanup only drops entries that every later check would reset anyway: a
      check at a later time answers as it would have without the cleanup. */
  lemma CleanupInvisible(requests: map<string, Entry>, ip: string, now: nat, later: nat, maxRequests: nat, windowSecs: nat)
    requires maxRequests >= 1 && CountsBounded(requests, maxRequests)
    requires now <= later
    ensures CountsBounded(Retained(requests, now, windowSecs), maxRequests)
    ensures CheckStep(Retained(requests, now, windowSecs), ip, later, maxRequests, windowSecs).info
         == CheckStep(requests, ip, later, maxRequests, windowSecs).info
  {
    var kept := Retained(requests, now, windowSecs);
    if ip in requests && ip !in kept {
      assert Elapsed(later, requests[ip].time) > windowSecs * 1000;
    }
  }

  /** Writing an entry that is young at `now` and then cleaning is cleaning and
      then writing it. */
  lemma RetainedUpdate(requests: map<string, Entry>, ip: string, e: Entry, now: nat, windowSecs: nat)
    requires Elapsed(now, e.time) <= windowSecs * 1000
    ensures Retained(requests[ip := e], now, windowSecs) == Retained(requests, now, windowSecs)[ip := e]
  {
    var a := Retained(requests[ip := e], now, windowSecs);
    var b := Retained(requests, now, windowSecs)[ip := e];
    assert a.Keys == b.Keys;
  }

  /** A later check leaves, after a cleanup, the map that cleaning its result
      at the cleanup's time would give. */
  lemma CleanupCommutesWithCheck(requests: map<string, Entry>, ip: string, now: nat, later: nat,
                                 maxRequests: nat, windowSecs: nat)
    requires maxRequests >= 1 && CountsBounded(requests, maxRequests)
    requires now <= later
    ensures CountsBounded(Retained(requests, now, windowSecs), maxRequests)
    ensures CheckStep(Retained(requests, now, windowSecs), ip, later, maxRequests, windowSecs).requests
         == Retained(CheckStep(requests, ip, later, maxRequests, windowSecs).requests, now, windowSecs)
  {
    var kept := Retained(requests, now, windowSecs);
    assert CountsBounded(kept, maxRequests);
    var after := CheckStep(kept, ip, later, maxRequests, windowSecs).requests;
    if ip in kept {
      var e := requests[ip];
      assert kept[ip] == e;
      if Elapsed(later, e.time) > windowSecs * 1000 {
        RetainedUpdate(requests, ip, Entry(1, later), now, windowSecs);
      } else if e.count < maxRequests {
        RetainedUpdate(requests, ip, Entry(e.count + 1, e.time), now, windowSecs);
      }
    } else {
      if ip in requests {
        assert Elapsed(later, requests[ip].time) > windowSecs * 1000;
      }
      RetainedUpdate(requests, ip, Entry(1, later), now, windowSecs);
    }
  }

  /** Cleanup at `now` changes no answer of any run of checks from then on. */
  lemma {:induction false} CleanupInvisibleLater(requests: map<string, Entry>, ip: string, now: nat,
                                                 times: seq<nat>, maxRequests: nat, windowSecs: nat)
    requires maxRequests >= 1 && CountsBounded(requests, maxRequests)
    requires forall i :: 0 <= i < |times| ==> now <= times[i]
    ensures CountsBounded(Retained(requests, now, windowSecs), maxRequests)
    ensures CheckAnswers(Retained(requests, now, windowSecs), ip, times, maxRequests, windowSecs)
         == CheckAnswers(requests, ip, times, maxRequests, windowSecs)
    decreases |times|
  {
    assert CountsBounded(Retained(requests, now, windowSecs), maxRequests);
    if times != [] {
      CleanupInvisible(requests, ip, now, times[0], maxRequests, windowSecs);
      CleanupCommutesWithCheck(requests, ip, now, times[0], maxRequests, windowSecs);
      CheckStepAccounts(requests, ip, times[0], maxRequests, windowSecs);
      var step := CheckStep(requests, ip, times[0], maxRequests, windowSecs);
      CleanupInvisibleLater(step.requests, ip, now, times[1..], maxRequests, windowSecs);
    }
  }

  class RateLimiter {
    var requests: map<string, Entry>
    const maxRequests: nat
    const windowSecs: nat

    predicate Valid()
      reads this
    {
      maxRequests >= 1 && CountsBounded(requests, maxRequests)
    }

    /** `RateLimiter::new(max_requests, window_seconds)`. */
    constructor (maxRequests: nat, windowSeconds: nat)
      requires maxRequests >= 1
      ensures Valid() && requests == map[]
      ensures this.maxRequests == maxRequests && windowSecs == windowSeconds
    {
      requests := map[];
      this.maxRequests := maxRequests;
      windowSecs := windowSeconds;
    }

    method CheckRateLimit(ip: string, now: nat) returns (info: RateLimitInfo)
      requires Valid()
      modifies this
      ensures Valid()
      ensures Checked(info, requests) == CheckStep(old(requests), ip, now, maxRequests, windowSecs)
    {
      CheckStepAccounts(requests, ip, now, maxRequests, windowSecs);
      if ip in requests {
        var e := requests[ip];
        if Elapsed(now, e.time) > windowSecs * 1000 {
          requests := requests[ip := Entry(1, now)];
          return RateLimitInfo(maxRequests, maxRequests - 1, windowSecs, false);
        }
        var elapsed := Elapsed(now, e.time);
        var resetIn := if elapsed >= windowSecs * 1000 then 0 else windowSecs - elapsed / 1000;
        if e.count >= maxRequests {
          return RateLimitInfo(maxRequests, 0, resetIn, true);
        }
        var count := e.count + 1;
        requests := requests[ip := Entry(count, e.time)];
        return RateLimitInfo(maxRequests, maxRequests - count, resetIn, false);
      } else {
        requests := requests[ip := Entry(1, now)];
        return RateLimitInfo(maxRequests, maxRequests - 1, windowSecs, false);
      }
    }

    method Cleanup(now: nat)
      requires Valid()
      modifies this
      ensures Valid()
      ensures requests == Retained(old(requests), now, windowSecs)
    {
      requests := map ip | ip in requests && Elapsed(now, requests[ip].time) <= windowSecs * 1000 :: requests[ip];
    }
  }

  // ------------------------------------------------------------------------
  // auth_middleware

  datatype AuthOutcome = Authorized | Unauthorized(message: string)

  /** The `Authorization` check against the configured API token. */
  function Authenticate(header: Option<HeaderText>, token: string): AuthOutcome {
    match header
    case None => Unauthorized("API token required")
    case Some(Unreadable) => Unauthorized("Invalid API token")
    case Some(Readable(text)) =>
      if StartsWith(text, "Bearer ") && text[7..] == token then Authorized
      else Unauthorized("Invalid API token")
  }

  /** A request passes exactly when its header reads "Bearer " followed by the
      token; a missing header is told the token is required, any other failure
      that the token is invalid. */
  lemma AuthorizedIffBearerToken(header: Option<HeaderText>, token: string)
    ensures Authenticate(header, token) == Authorized <==> header == Some(Readable("Bearer " + token))
    ensures Authenticate(header, token) == Unauthorized("API token required") <==> header.None?
    ensures Authenticate(header, token) in {Authorized, Unauthorized("API token required"), Unauthorized("Invalid API token")}
  {
    var expected := "Bearer " + token;
    assert expected[..7] == "Bearer " && expected[7..] == token;
    if header.Some? && header.value.Readable? {
      var text := header.value.text;
      if StartsWith(text, "Bearer ") && text[7..] == token {
        assert text == text[..7] + text[7..];
      }
    }
  }

  // ------------------------------------------------------------------------
  // rate_limit_middleware

  /** The response the client sees: status, body text (`None` when it is the
      handler's own body) and the headers the middleware inserts. */
  datatype LimitedResponse = LimitedResponse(status: nat, body: Option<string>, headers: seq<Header>)

  function RateLimitHeaders(limit: nat, remaining: nat, reset: nat): seq<Header> {
    [Header("X-RateLimit-Limit", Decimal(limit)),
     Header("X-RateLimit-Remaining", Decimal(remaining)),
     Header("X-RateLimit-Reset", Decimal(reset))]
  }

  /** A refused request is answered 429 by the middleware itself; any other
      gets the handler's response (status `status`). Both carry the limit
      headers, Remaining being 0 on a refusal. */
  function RateLimitResponse(info: RateLimitInfo, status: nat): LimitedResponse {
    if info.limited then LimitedResponse(429, Some("Rate limit exceeded"), RateLimitHeaders(info.limit, 0, info.reset))
    else LimitedResponse(status, None, RateLimitHeaders(info.limit, info.remaining, info.reset))
  }

  /** The three headers read back as the numbers of the limiter's answer. */
  lemma RateLimitHeadersReadBack(info: RateLimitInfo, status: nat)
    ensures var r := RateLimitResponse(info, status);
      |r.headers| == 3
      && r.headers[0].name == "X-RateLimit-Limit" && AllDigits(r.headers[0].value)
      && DigitsValue(r.headers[0].value) == info.limit
      && r.headers[1].name == "X-RateLimit-Remaining" && AllDigits(r.headers[1].value)
      && DigitsValue(r.headers[1].value) == (if info.limited then 0 else info.remaining)
      && r.headers[2].name == "X-RateLimit-Reset" && AllDigits(r.headers[2].value)
      && DigitsValue(r.headers[2].value) == info.reset
      && (r.status == 429 <==> info.limited || status == 429)
      && (info.limited ==> r.body == Some("Rate limit exceeded"))
      && (!info.limited ==> r.status == status && r.body.None?)
  {
    DecimalRoundTrip(info.limit);
    DecimalRoundTrip(info.remaining);
    DecimalRoundTrip(info.reset);
    DecimalRoundTrip(0);
  }

  /** `rate_limit_middleware` for one request at `now` whose handler (if
      reached) answers `status`. */
  method RateLimitMiddleware(limiter: RateLimiter, xff: Option<HeaderText>, now: nat, status: nat)
    returns (response: LimitedResponse)
    requires limiter.Valid()
    modifies limiter
    ensures limiter.Valid()
    ensures var r := CheckStep(old(limiter.requests), ForwardedClient(xff), now, limiter.maxRequests, limiter.windowSecs);
      response == RateLimitResponse(r.info, status) && limiter.requests == r.requests
  {
    var ip := ForwardedClient(xff);
    var info := limiter.CheckRateLimit(ip, now);
    if info.limited {
      return LimitedResponse(429, Some("Rate limit exceeded"), RateLimitHeaders(info.limit, 0, info.reset));
    }
    return LimitedResponse(status, None, RateLimitHeaders(info.limit, info.remaining, info.reset));
  }
}
