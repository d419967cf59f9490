/** The marketplace HTTP client's policy (src/services/flippa-client.ts):
    query-parameter cleaning and mapping, the sliding-window rate limiter,
    and the retry loop of `get`.  The network, the clock and sleeping are
    not modelled: each attempt's outcome is an input, the clock readings
    are parameters, and delays are returned as values. */
module Client {
  import opened Wrappers
  import opened Constants
  import opened Sequences

  // ---------------------------------------------------------------------
  // Query parameters

  datatype ParamValue = Text(text: string) | Number(number: int)

  /** A query parameter as the caller builds it; `None` is JavaScript's
      `undefined`. */
  type RawParam = (string, Option<ParamValue>)

  /** A query parameter as it is sent. */
  type Param = (string, ParamValue)

  /** Keeps, in order, every parameter whose value is defined. */
  function CleanParams(params: seq<RawParam>): (r: seq<Param>)
    ensures |r| <= |params|
    ensures forall k, v :: (k, v) in r <==> (k, Some(v)) in params
  {
    if |params| == 0 then []
    else
      var rest := CleanParams(params[1..]);
      assert forall e | e in params :: e == params[0] || e in params[1..];
      assert forall e | e in params[1..] :: e in params;
      match params[0].1
      case None => rest
      case Some(v) => [(params[0].0, v)] + rest
  }

  /** The parameter a single entry contributes: itself, when its value is
      defined. */
  function CleanEntry(p: RawParam): seq<Param> {
    if p.1.Some? then [(p.0, p.1.value)] else []
  }

  /** Cleaning is the in-order concatenation of the entries' contributions:
      the defined parameters, each once, in their original order. */
  lemma {:induction false} CleanParamsGather(params: seq<RawParam>)
    ensures CleanParams(params) == Gather(params, CleanEntry)
  {
    if |params| > 0 {
      CleanParamsGather(params[1..]);
    }
  }

  /** Every parameter defined. */
  function Defined(params: seq<Param>): (r: seq<RawParam>)
    ensures |r| == |params|
    ensures forall i | 0 <= i < |r| :: r[i] == (params[i].0, Some(params[i].1))
  {
    if |params| == 0 then [] else [(params[0].0, Some(params[0].1))] + Defined(params[1..])
  }

  /** Cleaning leaves fully defined parameters exactly as they were, order
      included. */
  lemma {:induction false} CleanDefinedIsIdentity(params: seq<Param>)
    ensures CleanParams(Defined(params)) == params
  {
    if |params| > 0 {
      assert Defined(params)[1..] == Defined(params[1..]);
      CleanDefinedIsIdentity(params[1..]);
    }
  }

  /** JavaScript truthiness of an optional string: present and non-empty. */
  predicate Truthy(s: Option<string>) {
    s.Some? && |s.value| > 0
  }

  function OptNumber(n: Option<int>): Option<ParamValue> {
    if n.Some? then Some(Number(n.value)) else None
  }

  function OptText(s: Option<string>): Option<ParamValue> {
    if s.Some? then Some(Text(s.value)) else None
  }

  /** The argument of `searchListings`. */
  datatype SearchParams = SearchParams(
    pageNumber: Option<int>,
    pageSize: Option<int>,
    propertyType: Option<string>,
    status: Option<string>,
    saleMethod: Option<string>,
    sortAlias: Option<string>)

  /** The query object `searchListings` builds, in insertion order. */
  function SearchQuery(p: SearchParams): seq<RawParam> {
    [ ("page_number", OptNumber(p.pageNumber)),
      ("page_size", OptNumber(p.pageSize)),
      ("filter[status]", OptText(p.status)),
      ("filter[sale_method]", OptText(p.saleMethod)),
      ("sort_alias", OptText(p.sortAlias)) ]
    + (if Truthy(p.propertyType) then [("filter[property_type]", OptText(p.propertyType))] else [])
  }

  /** The value sent under each query key: the field it is named after,
      and the property-type filter only for a non-empty property type. */
  function WireValue(p: SearchParams, key: string): Option<ParamValue> {
    if key == "page_number" then OptNumber(p.pageNumber)
    else if key == "page_size" then OptNumber(p.pageSize)
    else if key == "filter[status]" then OptText(p.status)
    else if key == "filter[sale_method]" then OptText(p.saleMethod)
    else if key == "sort_alias" then OptText(p.sortAlias)
    else if key == "filter[property_type]" && Truthy(p.propertyType) then OptText(p.propertyType)
    else None
  }

  /** The query object holds, under each key, exactly that key's value. */
  lemma QueryHoldsWireValues(p: SearchParams)
    ensures forall k, v :: (k, Some(v)) in SearchQuery(p) <==> WireValue(p, k) == Some(v)
  {
    var q := SearchQuery(p);
    forall k, v
      ensures (k, Some(v)) in q <==> WireValue(p, k) == Some(v)
    {
      if (k, Some(v)) in q {
        var i :| 0 <= i < |q| && q[i] == (k, Some(v));
      }
    }
  }

  /** One outgoing GET: a path and the cleaned parameters. */
  datatype Request = Request(path: string, params: seq<Param>)

  /** The request `searchListings` sends: every defined field under its wire
      name and nothing else. */
  function SearchRequest(p: SearchParams): (r: Request)
    ensures r.path == "/listings"
    ensures forall k, v :: (k, v) in r.params <==> WireValue(p, k) == Some(v)
    ensures r.params == CleanParams(SearchQuery(p))
  {
    QueryHoldsWireValues(p);
    Request("/listings", CleanParams(SearchQuery(p)))
  }

  /** The request `getListing` sends: the listing's path, no parameters. */
  function ListingRequest(id: string): (r: Request)
    ensures r.path == "/listings/" + id && r.params == []
  {
    Request("/listings/" + id, CleanParams([]))
  }

  // ---------------------------------------------------------------------
  // Rate limiter

  /** Sliding-window limiter: at most `maxRequests` requests per
      `windowMs`, remembered as the list of past request times. */
  datatype RateLimiter = RateLimiter(maxRequests: nat, windowMs: int, timestamps: seq<int>)

  /** The limiter the client constructs: 60 requests per 60 000 ms. */
  function NewRateLimiter(): (rl: RateLimiter)
    ensures rl.maxRequests == MaxRequestsPerMinute && rl.windowMs == RateWindowMs
    ensures rl.timestamps == []
  {
    RateLimiter(MaxRequestsPerMinute, RateWindowMs, [])
  }

  /** The timestamps still inside the window at `now`, in their order. */
  function Prune(ts: seq<int>, now: int, windowMs: int): (r: seq<int>)
    ensures |r| <= |ts|
    ensures forall t :: t in r <==> t in ts && now - t < windowMs
    ensures |ts| > 0 && now - ts[0] < windowMs ==> |r| > 0 && r[0] == ts[0]
  {
    if |ts| == 0 then []
    else
      var rest := Prune(ts[1..], now, windowMs);
      assert forall t | t in ts :: t == ts[0] || t in ts[1..];
      assert forall t | t in ts[1..] :: t in ts;
      if now - ts[0] < windowMs then [ts[0]] + rest else rest
  }

  ghost predicate SortedTimes(ts: seq<int>) {
    forall i, j | 0 <= i < j < |ts| :: ts[i] <= ts[j]
  }

  /** The outcome of `waitForSlot`: how long the caller sleeps (0 for not at
      all) and the limiter afterwards. */
  datatype SlotGrant = SlotGrant(waitMs: int, limiter: RateLimiter)

  /** `waitForSlot` called at `now`, with `resumedAt` the clock reading after
      any sleep.  Expired timestamps are dropped; with the window full, the
      caller sleeps until 10 ms after the oldest remaining timestamp leaves
      the window; then exactly one timestamp is recorded. */
  function WaitForSlot(rl: RateLimiter, now: int, resumedAt: int): (g: SlotGrant)
    requires rl.maxRequests > 0
    ensures g.limiter.maxRequests == rl.maxRequests && g.limiter.windowMs == rl.windowMs
    ensures |g.limiter.timestamps| == |Prune(rl.timestamps, now, rl.windowMs)| + 1
    ensures g.limiter.timestamps == Prune(rl.timestamps, now, rl.windowMs) + [resumedAt]
    ensures g.limiter.timestamps[|g.limiter.timestamps| - 1] == resumedAt
    ensures forall i | 0 <= i < |g.limiter.timestamps| - 1 ::
              g.limiter.timestamps[i] in rl.timestamps && now - g.limiter.timestamps[i] < rl.windowMs
    ensures g.waitMs >= 0
    ensures g.waitMs > 0 <==> |Prune(rl.timestamps, now, rl.windowMs)| >= rl.maxRequests
    ensures g.waitMs > 0 ==> g.waitMs > 10
    ensures g.waitMs > 0 ==> now + g.waitMs == g.limiter.timestamps[0] + rl.windowMs + 10
  {
    var kept := Prune(rl.timestamps, now, rl.windowMs);
    var wait := if |kept| >= rl.maxRequests then rl.windowMs - (now - kept[0]) + 10 else 0;
    assert |kept| > 0 ==> kept[0] in kept;
    var ts := kept + [resumedAt];
    assert forall i | 0 <= i < |ts| - 1 :: ts[i] == kept[i] && kept[i] in kept;
    SlotGrant(wait, rl.(timestamps := ts))
  }

  /** At most `maxRequests` timestamps lie inside the window at `now`. */
  ghost predicate WithinBudget(rl: RateLimiter, now: int) {
    |Prune(rl.timestamps, now, rl.windowMs)| <= rl.maxRequests
  }

  /** Dropping a first timestamp that has left the window changes nothing. */
  lemma PruneDropsExpiredHead(ts: seq<int>, now: int, windowMs: int)
    requires |ts| > 0 && now - ts[0] >= windowMs
    ensures Prune(ts, now, windowMs) == Prune(ts[1..], now, windowMs)
  {
  }

  /** No more timestamps lie inside the window at a later time than lie
      inside it now. */
  lemma {:induction false} PruneLater(ts: seq<int>, now: int, later: int, windowMs: int)
    requires now <= later
    ensures |Prune(ts, later, windowMs)| <= |Prune(ts, now, windowMs)|
  {
    if |ts| > 0 {
      PruneLater(ts[1..], now, later, windowMs);
    }
  }

  /** Pruning twice at the same instant is pruning once. */
  lemma {:induction false} PruneIdempotent(ts: seq<int>, now: int, windowMs: int)
    ensures Prune(Prune(ts, now, windowMs), now, windowMs) == Prune(ts, now, windowMs)
  {
    if |ts| > 0 {
      PruneIdempotent(ts[1..], now, windowMs);
    }
  }

  /** Prune distributes over appending one timestamp. */
  lemma {:induction false} PruneAppend(ts: seq<int>, t: int, now: int, windowMs: int)
    ensures Prune(ts + [t], now, windowMs) ==
              Prune(ts, now, windowMs) + (if now - t < windowMs then [t] else [])
  {
    if |ts| > 0 {
      assert (ts + [t])[1..] == ts[1..] + [t];
      PruneAppend(ts[1..], t, now, windowMs);
    }
  }

  /** The sliding-window guarantee for calls made one after another: if at
      most `maxRequests` timestamps were inside the window when the call
      started, and the caller really slept the requested time, then at the
      moment the request is recorded, and at any later moment, at most
      `maxRequests` timestamps (the new one included) lie inside the window. */
  lemma SlidingWindowBound(rl: RateLimiter, now: int, resumedAt: int, later: int)
    requires rl.maxRequests > 0
    requires WithinBudget(rl, now)
    requires resumedAt >= now + WaitForSlot(rl, now, resumedAt).waitMs
    requires later >= resumedAt
    ensures WithinBudget(WaitForSlot(rl, now, resumedAt).limiter, later)
  {
    var w := rl.windowMs;
    var kept := Prune(rl.timestamps, now, w);
    var g := WaitForSlot(rl, now, resumedAt);
    assert g.limiter.timestamps == kept + [resumedAt];
    PruneAppend(kept, resumedAt, later, w);
    PruneLater(kept, now, later, w);
    PruneIdempotent(rl.timestamps, now, w);
    if |kept| >= rl.maxRequests {
      assert later - kept[0] >= w;
      PruneDropsExpiredHead(kept, later, w);
      PruneLater(kept[1..], now, later, w);
      assert |Prune(kept[1..], later, w)| <= |kept| - 1;
    }
  }

  /** Pruning keeps a time-ordered list in order. */
  lemma {:induction false} PruneSorted(ts: seq<int>, now: int, windowMs: int)
    requires SortedTimes(ts)
    ensures SortedTimes(Prune(ts, now, windowMs))
  {
    if |ts| > 0 {
      PruneSorted(ts[1..], now, windowMs);
      var rest := Prune(ts[1..], now, windowMs);
      forall i | 0 <= i < |rest|
        ensures ts[0] <= rest[i]
      {
        assert rest[i] in rest;
        assert rest[i] in ts[1..];
      }
    }
  }

  /** Recording times that never go backwards keeps the ledger sorted. */
  lemma LedgerStaysSorted(rl: RateLimiter, now: int, resumedAt: int)
    requires rl.maxRequests > 0
    requires SortedTimes(rl.timestamps)
    requires forall t | t in rl.timestamps :: t <= resumedAt
    ensures SortedTimes(WaitForSlot(rl, now, resumedAt).limiter.timestamps)
  {
    var kept := Prune(rl.timestamps, now, rl.windowMs);
    PruneSorted(rl.timestamps, now, rl.windowMs);
    assert forall i | 0 <= i < |kept| :: kept[i] in kept;
  }

  /** With 2 requests per 1000 ms, a third call inside the window sleeps
      until at least 1000 ms after the first call. */
  lemma ThirdCallWaits(t1: int, t2: int, now: int, resumedAt: int)
    requires t1 <= t2 <= now && now - t1 < 1000
    ensures var g := WaitForSlot(RateLimiter(2, 1000, [t1, t2]), now, resumedAt);
            g.waitMs > 0 && now + g.waitMs >= t1 + 1000
  {
    var kept := Prune([t1, t2], now, 1000);
    assert t1 in kept && t2 in kept;
    assert |kept| >= 2 by {
      if t1 == t2 {
        assert kept == [t1, t2];
      }
    }
  }

  // ---------------------------------------------------------------------
  // Retry loop

  /** What one attempt of the underlying GET produced: a body, an HTTP error
      response (with the `Retry-After` header as `Number()` reads it, `None`
      when absent or not a number), or no response at all (network failure,
      timeout, or any other thrown error). */
  datatype Attempt<T> = Ok(body: T) | HttpError(status: int, retryAfter: Option<real>) | NoResponse

  /** The failure the client reports.  `ClientError` carries the status of
      a 4xx response other than 429; `Exhausted` has no status and records
      the last underlying failure. */
  datatype ApiError = ClientError(status: int) | Exhausted(lastStatus: Option<int>)

  /** The `statusCode` of the error. */
  function StatusCode(e: ApiError): (r: Option<int>)
    ensures r.Some? <==> e.ClientError?
    ensures e.ClientError? ==> r == Some(e.status)
  {
    match e
    case ClientError(s) => Some(s)
    case Exhausted(_) => None
  }

  /** A 4xx response other than 429: reported at once, never retried. */
  predicate IsClientError(status: int) {
    400 <= status < 500 && status != 429
  }

  predicate Retryable<T>(a: Attempt<T>) {
    a.NoResponse? || (a.HttpError? && !IsClientError(a.status))
  }

  /** The sleep before the next attempt after a 429: `Retry-After` seconds,
      30 when it is absent, not a number, or zero. */
  function RetryAfterMs(retryAfter: Option<real>): (ms: real)
    ensures retryAfter.None? || retryAfter.value == 0.0 ==> ms == 30000.0
    ensures retryAfter.Some? && retryAfter.value != 0.0 ==> ms == retryAfter.value * 1000.0
  {
    (if retryAfter.None? || retryAfter.value == 0.0 then 30.0 else retryAfter.value) * 1000.0
  }

  /** The sleep after a retryable failure of `attempt` that is not the last. */
  function DelayAfter<T>(a: Attempt<T>, attempt: nat): real {
    if a.HttpError? && a.status == 429 then RetryAfterMs(a.retryAfter)
    else Backoff(attempt) as real
  }

  /** What `get` did: its result, how many attempts it made, and the sleeps
      between them. */
  datatype Run<T> = Run(result: Result<T, ApiError>, attempts: nat, delays: seq<real>)

  const MaxAttempts: nat := MaxRetries + 1

  /** The retry loop from attempt number `attempt` on, with `script[i]` the
      outcome attempt `i` would get. */
  function RetryFrom<T>(script: seq<Attempt<T>>, attempt: nat): (run: Run<T>)
    requires |script| >= MaxAttempts && attempt < MaxAttempts
    ensures attempt < run.attempts <= MaxAttempts
    ensures |run.delays| == run.attempts - attempt - 1
    // every attempt before the last one failed in a retryable way, and was
    // followed by the policy's sleep
    ensures forall j | attempt <= j < run.attempts - 1 :: Retryable(script[j])
    ensures forall i | 0 <= i < |run.delays| ::
              run.delays[i] == DelayAfter(script[attempt + i], attempt + i)
    // the last attempt decides the result
    ensures run.result.Success? <==> script[run.attempts - 1].Ok?
    ensures run.result.Success? ==> run.result.value == script[run.attempts - 1].body
    ensures run.result.Failure? && run.result.error.ClientError? <==>
              script[run.attempts - 1].HttpError? && IsClientError(script[run.attempts - 1].status)
    ensures run.result.Failure? && run.result.error.ClientError? ==>
              run.result.error.status == script[run.attempts - 1].status
    ensures run.result.Failure? && run.result.error.Exhausted? <==>
              run.attempts == MaxAttempts && Retryable(script[MaxAttempts - 1])
    decreases MaxAttempts - attempt
  {
    var outcome := script[attempt];
    if outcome.Ok? then Run(Success(outcome.body), attempt + 1, [])
    else if outcome.HttpError? && IsClientError(outcome.status) then
      Run(Failure(ClientError(outcome.status)), attempt + 1, [])
    else if attempt == MaxRetries then
      var last := if outcome.HttpError? then Some(outcome.status) else None;
      Run(Failure(Exhausted(last)), attempt + 1, [])
    else
      var rest := RetryFrom(script, attempt + 1);
      Run(rest.result, rest.attempts, [DelayAfter(outcome, attempt)] + rest.delays)
  }

  /** The record of one `get`: the limiter afterwards, how long the caller
      waited for a slot, the request every attempt sends, and the run. */
  datatype GetCall<T> = GetCall(limiter: RateLimiter, slotWaitMs: int, request: Request, run: Run<T>)

  /** `get(path, params)`: one wait for a rate-limit slot, then the retry
      loop over the cleaned parameters. */
  function Get<T>(rl: RateLimiter, now: int, resumedAt: int, path: string,
                  params: seq<RawParam>, script: seq<Attempt<T>>): (c: GetCall<T>)
    requires rl.maxRequests > 0
    requires |script| >= MaxAttempts
    ensures c.request.path == path
    ensures forall k, v :: (k, v) in c.request.params <==> (k, Some(v)) in params
    ensures c.request.params == CleanParams(params)
    ensures |c.limiter.timestamps| == |Prune(rl.timestamps, now, rl.windowMs)| + 1
    ensures c.limiter == WaitForSlot(rl, now, resumedAt).limiter
    ensures c.slotWaitMs == WaitForSlot(rl, now, resumedAt).waitMs
    ensures c.run == RetryFrom(script, 0)
    ensures 1 <= c.run.attempts <= MaxAttempts
    ensures |c.run.delays| == c.run.attempts - 1
  {
    var grant := WaitForSlot(rl, now, resumedAt);
    GetCall(grant.limiter, grant.waitMs, Request(path, CleanParams(params)), RetryFrom(script, 0))
  }

  /** The limiter is consulted once per `get`, not once per attempt: the
      ledger afterwards does not depend on how many attempts were made. */
  lemma LimiterOncePerGet<T>(rl: RateLimiter, now: int, resumedAt: int, path: string,
                             params: seq<RawParam>, s1: seq<Attempt<T>>, s2: seq<Attempt<T>>)
    requires rl.maxRequests > 0
    requires |s1| >= MaxAttempts && |s2| >= MaxAttempts
    ensures Get(rl, now, resumedAt, path, params, s1).limiter ==
              Get(rl, now, resumedAt, path, params, s2).limiter
  {
  }

  /** A 4xx other than 429 on the first attempt: one attempt, no sleep, and
      an error carrying that status. */
  lemma ClientErrorStopsAtOnce<T>(script: seq<Attempt<T>>)
    requires |script| >= MaxAttempts
    requires script[0].HttpError? && IsClientError(script[0].status)
    ensures RetryFrom(script, 0) == Run(Failure(ClientError(script[0].status)), 1, [])
    ensures StatusCode(RetryFrom(script, 0).result.error) == Some(script[0].status)
  {
  }

  /** A persistent server error: four attempts, backoffs of 1, 2 and 4
      seconds, then an error without a status. */
  lemma PersistentServerError<T>(script: seq<Attempt<T>>)
    requires |script| >= MaxAttempts
    requires forall i | 0 <= i < MaxAttempts :: script[i] == HttpError(500, None)
    ensures RetryFrom(script, 0) == Run(Failure(Exhausted(Some(500))), 4, [1000.0, 2000.0, 4000.0])
    ensures StatusCode(RetryFrom(script, 0).result.error) == None
  {
    assert script[0] == HttpError(500, None) && script[1] == HttpError(500, None);
    assert script[2] == HttpError(500, None) && script[3] == HttpError(500, None);
  }

  /** `k` retryable failures followed by a success: the body is returned
      after `k + 1` attempts. */
  lemma SuccessAfterFailures<T>(script: seq<Attempt<T>>, k: nat)
    requires |script| >= MaxAttempts && k < MaxAttempts
    requires forall j | 0 <= j < k :: Retryable(script[j])
    requires script[k].Ok?
    ensures RetryFrom(script, 0).result == Success(script[k].body)
    ensures RetryFrom(script, 0).attempts == k + 1
  {
    var run := RetryFrom(script, 0);
    if run.attempts - 1 < k {
      assert Retryable(script[run.attempts - 1]);
    }
  }

  /** A 429 on a non-final attempt sleeps for `Retry-After` (30 s when
      missing or zero) instead of the backoff; a 429 on the final attempt
      ends in exhaustion with no further sleep. */
  lemma TooManyRequests<T>(script: seq<Attempt<T>>, ra: Option<real>)
    requires |script| >= MaxAttempts
    requires script[0] == HttpError(429, ra)
    requires forall j | 1 <= j < MaxAttempts :: script[j] == HttpError(429, None)
    ensures RetryFrom(script, 0).delays ==
              [RetryAfterMs(ra), 30000.0, 30000.0]
    ensures RetryFrom(script, 0).result == Failure(Exhausted(Some(429)))
  {
    assert script[1] == HttpError(429, None) && script[2] == HttpError(429, None);
    assert script[3] == HttpError(429, None);
  }
}
