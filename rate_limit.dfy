/**
 * The counter store behind the gateway's fixed-window rate limiting (the `Incr` / `Expire`
 * part of the `RateLimitStore` interface, backed by Redis). A counter is a 64-bit integer
 * under a key; `INCR` creates a missing key at 1; `EXPIRE` gives an existing key a time to
 * live. Wall-clock time is not modelled: the end of a key's window is the explicit step
 * `WindowReset`, which deletes the key only when it has a time to live.
 */
module RateLimitStore {
  import opened Wrappers

  const MaxInt64: int := 0x7fff_ffff_ffff_ffff

  /** 429 Too Many Requests (RFC 6585, section 4): what both rate limiters answer when refusing. */
  const TooManyRequests: int := 429

  datatype StoreError =
    | Unavailable   // the store could not be reached
    | Overflow      // INCR on a counter already at the largest 64-bit value

  /** The counters and the set of keys that have a time to live. */
  datatype Counters = Counters(counts: map<string, int>, ttl: set<string>)
  {
    ghost predicate Valid() {
      && ttl <= counts.Keys
      && forall k <- counts :: 1 <= counts[k] <= MaxInt64
    }
  }

  /** The value of a missing counter, as INCR sees it. */
  function CountOf(c: Counters, key: string): int {
    if key in c.counts then c.counts[key] else 0
  }

  /** `INCR key` on a reachable store: the new count, or Overflow with nothing changed. */
  function IncrSpec(c: Counters, key: string): (r: Result<(int, Counters), StoreError>)
    requires c.Valid()
    ensures r.Ok? <==> CountOf(c, key) < MaxInt64
    ensures r.Ok? ==> var (n, d) := r.value;
      && n == CountOf(c, key) + 1 && n >= 1
      && d.Valid() && d.counts == c.counts[key := n] && d.ttl == c.ttl
    ensures r.Err? ==> r.error == Overflow
  {
    var n := CountOf(c, key) + 1;
    if n > MaxInt64 then Err(Overflow) else Ok((n, Counters(c.counts[key := n], c.ttl)))
  }

  /** `EXPIRE key`: only an existing key gets a time to live. */
  function ExpireSpec(c: Counters, key: string): (d: Counters)
    requires c.Valid()
    ensures d.Valid() && d.counts == c.counts
    ensures d.ttl == if key in c.counts then c.ttl + {key} else c.ttl
  {
    if key in c.counts then Counters(c.counts, c.ttl + {key}) else c
  }

  /** The end of a window: a key with a time to live disappears; one without stays forever. */
  function ResetSpec(c: Counters, key: string): (d: Counters)
    requires c.Valid()
    ensures d.Valid()
    ensures key in c.ttl ==> key !in d.counts && d.counts == c.counts - {key} && d.ttl == c.ttl - {key}
    ensures key !in c.ttl ==> d == c
  {
    if key in c.ttl then Counters(c.counts - {key}, c.ttl - {key}) else c
  }

  class CounterStore {
    var counts: map<string, int>
    var ttl: set<string>

    function Contents(): Counters
      reads this
    {
      Counters(counts, ttl)
    }

    ghost predicate Valid()
      reads this
    {
      Contents().Valid()
    }

    constructor ()
      ensures Valid() && counts == map[] && ttl == {}
    {
      counts, ttl := map[], {};
    }

    /** `Incr(ctx, key)`; `outage` stands for a store that cannot be reached. */
    method Incr(key: string, outage: bool) returns (r: Result<int, StoreError>)
      requires Valid()
      modifies this
      ensures Valid()
      ensures outage ==> r == Err(Unavailable) && Contents() == old(Contents())
      ensures !outage && IncrSpec(old(Contents()), key).Err? ==>
        r == Err(Overflow) && Contents() == old(Contents())
      ensures !outage && IncrSpec(old(Contents()), key).Ok? ==>
        r == Ok(IncrSpec(old(Contents()), key).value.0) && Contents() == IncrSpec(old(Contents()), key).value.1
    {
      if outage {
        return Err(Unavailable);
      }
      var n := CountOf(Contents(), key) + 1;
      if n > MaxInt64 {
        return Err(Overflow);
      }
      counts := counts[key := n];
      r := Ok(n);
    }

    /** `Expire(ctx, key, ttl)`. */
    method Expire(key: string, outage: bool) returns (err: Option<StoreError>)
      requires Valid()
      modifies this
      ensures Valid()
      ensures outage ==> err == Some(Unavailable) && Contents() == old(Contents())
      ensures !outage ==> err == None && Contents() == ExpireSpec(old(Contents()), key)
    {
      if outage {
        return Some(Unavailable);
      }
      if key in counts {
        ttl := ttl + {key};
      }
      err := None;
    }

    /** The time to live of `key` runs out. */
    method WindowReset(key: string)
      requires Valid()
      modifies this
      ensures Valid()
      ensures Contents() == ResetSpec(old(Contents()), key)
    {
      if key in ttl {
        counts, ttl := counts - {key}, ttl - {key};
      }
    }
  }
}

/**
 * `Handler.rateLimit` and `Handler.GetSimilarClaims` (api-gateway/handlers/handlers.go). The
 * vector search service and the metadata store are parameters: the search as a function from
 * the query text to the search results or an error, the store as its `Get`.
 */
module GatewayHandlers {
  import opened Wrappers
  import opened RateLimitStore
  import opened GatewayMetadata

  /** Why `rateLimit` refused the request. */
  datatype RateError = StoreFailed(cause: StoreError) | LimitExceeded

  /**
   * `rateLimit(ctx, key, limit, window)`: increment; on the first request of a window set the
   * time to live; refuse when the count is above the limit. Store errors are returned as they
   * are, and so is a failure to set the time to live (after the increment has happened).
   */
  function RateLimitSpec(c: Counters, key: string, limit: int, incrOutage: bool, expireOutage: bool)
    : (r: (Option<RateError>, Counters))
    requires c.Valid()
    ensures r.1.Valid()
    ensures incrOutage ==> r == (Some(StoreFailed(Unavailable)), c)
    ensures !incrOutage && IncrSpec(c, key).Err? ==> r == (Some(StoreFailed(Overflow)), c)
    ensures !incrOutage && IncrSpec(c, key).Ok? ==> var n := IncrSpec(c, key).value.0;
      && r.1.counts == c.counts[key := n]
      && (n == 1 && expireOutage ==> r.0 == Some(StoreFailed(Unavailable)) && r.1.ttl == c.ttl)
      && (n == 1 && !expireOutage ==> r.1.ttl == c.ttl + {key})
      && (n != 1 ==> r.1.ttl == c.ttl)
      && (!(n == 1 && expireOutage) ==> (r.0 == Some(LimitExceeded) <==> n > limit) && (r.0.None? <==> n <= limit))
  {
    if incrOutage then (Some(StoreFailed(Unavailable)), c)
    else match IncrSpec(c, key)
      case Err(e) => (Some(StoreFailed(e)), c)
      case Ok((n, d)) =>
        if n == 1 && expireOutage then (Some(StoreFailed(Unavailable)), d)
        else
          var d' := if n == 1 then ExpireSpec(d, key) else d;
          if n > limit then (Some(LimitExceeded), d') else (None, d')
  }

  /** The handler's `rateLimit` against the counter store. */
  method RateLimit(store: CounterStore, key: string, limit: int, incrOutage: bool, expireOutage: bool)
    returns (err: Option<RateError>)
    requires store.Valid()
    modifies store
    ensures store.Valid()
    ensures (err, store.Contents()) == RateLimitSpec(old(store.Contents()), key, limit, incrOutage, expireOutage)
  {
    var count := store.Incr(key, incrOutage);
    if count.Err? {
      return Some(StoreFailed(count.error));
    }
    if count.value == 1 {
      var e := store.Expire(key, expireOutage);
      if e.Some? {
        return Some(StoreFailed(e.value));
      }
    }
    if count.value > limit {
      return Some(LimitExceeded);
    }
    err := None;
  }

  /** The counters after `n` consecutive requests on `key` that meet no store failure. */
  ghost function HandlerRun(c: Counters, key: string, limit: int, n: nat): (d: Counters)
    requires c.Valid()
    ensures d.Valid()
  {
    if n == 0 then c else RateLimitSpec(HandlerRun(c, key, limit, n - 1), key, limit, false, false).1
  }

  /** From a fresh key, `n` requests leave the count at `n` with a time to live set. */
  lemma {:induction false} HandlerRunCount(c: Counters, key: string, limit: int, n: nat)
    requires c.Valid() && key !in c.counts && 1 <= n <= MaxInt64
    ensures key in HandlerRun(c, key, limit, n).counts
    ensures HandlerRun(c, key, limit, n).counts[key] == n
    ensures key in HandlerRun(c, key, limit, n).ttl
  {
    if n > 1 {
      HandlerRunCount(c, key, limit, n - 1);
    }
  }

  /** From a fresh key, the first `limit` requests of a window pass and the next one is refused. */
  lemma FreshKeyAdmitsLimit(c: Counters, key: string, limit: int, n: nat)
    requires c.Valid() && key !in c.counts && n < MaxInt64
    ensures var (err, _) := RateLimitSpec(HandlerRun(c, key, limit, n), key, limit, false, false);
      (err.None? <==> n + 1 <= limit) && (err.Some? ==> err == Some(LimitExceeded))
  {
    if n >= 1 {
      HandlerRunCount(c, key, limit, n);
    }
  }

  /**
   * If setting the time to live fails on the first request, the key never expires: every
   * later request keeps it without a time to live, a window reset leaves it in place, and
   * once its count has reached the limit every request is refused.
   */
  lemma ExpireFailureLocksOut(c: Counters, key: string, limit: int, expireOutage: bool)
    requires c.Valid() && key in c.counts && key !in c.ttl
    ensures var (err, d) := RateLimitSpec(c, key, limit, false, expireOutage);
      && key in d.counts && key !in d.ttl
      && ResetSpec(d, key) == d
      && (c.counts[key] >= limit ==> err.Some?)
  {
  }

  /** The counter key of the search endpoint: `fmt.Sprintf("rl:search:%s", ip)`. */
  function SearchKey(remoteAddr: string): (key: string)
    ensures |key| == |remoteAddr| + 10 && key[..10] == "rl:search:" && key[10..] == remoteAddr
  {
    "rl:search:" + remoteAddr
  }

  /** Distinct client addresses never share a search counter. */
  lemma SearchKeyInjective(a: string, b: string)
    requires SearchKey(a) == SearchKey(b)
    ensures a == b
  {
    assert a == SearchKey(a)[10..];
  }

  const SearchLimit: int := 5

  /** One search result: the uid of a claim and its similarity score. */
  datatype Hit = Hit(uid: string, score: real)

  /** The request sent to the vector search service. */
  datatype SearchRequest = SearchRequest(query: string, k: int)

  /** What the handler writes: an error status, or the claims encoded as JSON with 200. */
  datatype Response = HttpError(status: int) | JsonClaims(claims: Option<seq<ClaimMetaData>>)
  {
    function Status(): int {
      match this
      case HttpError(s) => s
      case JsonClaims(_) => 200
    }
  }

  /** 400 Bad Request (RFC 9110, section 15.5.1). */
  const BadRequest: int := 400
  /** 500 Internal Server Error (RFC 9110, section 15.6.1). */
  const InternalServerError: int := 500
  /** 502 Bad Gateway (RFC 9110, section 15.6.3). */
  const BadGateway: int := 502

  /** `uids = append(uids, r.Uid)` over the results: one uid per result, in result order. */
  method CollectUids(hits: seq<Hit>) returns (uids: seq<string>)
    ensures |uids| == |hits|
    ensures forall i :: 0 <= i < |hits| ==> uids[i] == hits[i].uid
  {
    uids := [];
    for i := 0 to |hits|
      invariant |uids| == i
      invariant forall j :: 0 <= j < i ==> uids[j] == hits[j].uid
    {
      uids := uids + [hits[i].uid];
    }
  }

  /** The uids of the results, in order. */
  function UidsOf(hits: seq<Hit>): seq<string> {
    seq(|hits|, i requires 0 <= i < |hits| => hits[i].uid)
  }

  /**
   * `GetSimilarClaims`: rate limit by client address (any refusal, store failure included, is
   * 429); a missing `q` is 400 and no search is made; a failed search is 502; a failed
   * metadata lookup is 500; otherwise the claims of the results' uids, as the store returns
   * them. `sent` is the request made to the search service, if any.
   */
  method GetSimilarClaims<E>(
    store: CounterStore, remoteAddr: string, q: string, incrOutage: bool, expireOutage: bool,
    search: SearchRequest -> Result<seq<Hit>, E>,
    metadataGet: seq<string> -> Result<Option<seq<ClaimMetaData>>, E>)
    returns (resp: Response, sent: Option<SearchRequest>)
    requires store.Valid()
    modifies store
    ensures store.Valid()
    ensures var (err, after) := RateLimitSpec(old(store.Contents()), SearchKey(remoteAddr), SearchLimit, incrOutage, expireOutage);
      && store.Contents() == after
      && (err.Some? ==> resp == HttpError(TooManyRequests) && sent.None?)
      && (err.None? && q == "" ==> resp == HttpError(BadRequest) && sent.None?)
      && (err.None? && q != "" ==> sent == Some(SearchRequest(q, 1)))
    ensures sent.Some? ==> match search(sent.value)
      case Err(_) => resp == HttpError(BadGateway)
      case Ok(hits) => match metadataGet(UidsOf(hits))
        case Err(_) => resp == HttpError(InternalServerError)
        case Ok(claims) => resp == JsonClaims(claims)
  {
    var err := RateLimit(store, SearchKey(remoteAddr), SearchLimit, incrOutage, expireOutage);
    if err.Some? {
      return HttpError(TooManyRequests), None;
    }
    if q == "" {
      return HttpError(BadRequest), None;
    }
    sent := Some(SearchRequest(q, 1));
    var results := search(sent.value);
    if results.Err? {
      return HttpError(BadGateway), sent;
    }
    var uids := CollectUids(results.value);
    assert uids == UidsOf(results.value);
    var claims := metadataGet(uids);
    if claims.Err? {
      return HttpError(InternalServerError), sent;
    }
    resp := JsonClaims(claims.value);
  }
}

/**
 * The `RateLimit` and `Auth` middlewares (api-gateway/Middleware/middlewares.go). A middleware
 * either answers the request itself with an error status or calls the next handler.
 */
module GatewayMiddleware {
  import opened Wrappers
  import opened RateLimitStore

  /** The counter key of the claims routes: `"rate:claims:" + ip`. */
  function ClaimsKey(remoteAddr: string): (key: string)
    ensures |key| == |remoteAddr| + 12 && key[..12] == "rate:claims:" && key[12..] == remoteAddr
  {
    "rate:claims:" + remoteAddr
  }

  /** Distinct client addresses never share a counter. */
  lemma ClaimsKeyInjective(a: string, b: string)
    requires ClaimsKey(a) == ClaimsKey(b)
    ensures a == b
  {
    assert a == ClaimsKey(a)[12..];
  }

  const ClaimsLimit: int := 3

  /** 503 Service Unavailable (RFC 9110, section 15.6.4). */
  const ServiceUnavailable: int := 503

  /**
   * What the rate-limit middleware decides: `Some(status)` when it answers itself, `None`
   * when it calls the next handler, and the counters afterwards. A failed `Expire` is ignored.
   */
  function AdmitSpec(c: Counters, key: string, incrOutage: bool, expireOutage: bool)
    : (r: (Option<int>, Counters))
    requires c.Valid()
    ensures r.1.Valid()
    ensures incrOutage ==> r == (Some(ServiceUnavailable), c)
    ensures !incrOutage && IncrSpec(c, key).Err? ==> r == (Some(ServiceUnavailable), c)
    ensures !incrOutage && IncrSpec(c, key).Ok? ==> var n := IncrSpec(c, key).value.0;
      && r.1.counts == c.counts[key := n]
      && r.1.ttl == (if n == 1 && !expireOutage then c.ttl + {key} else c.ttl)
      && (r.0 == Some(TooManyRequests) <==> n > ClaimsLimit)
      && (r.0.None? <==> n <= ClaimsLimit)
  {
    if incrOutage then (Some(ServiceUnavailable), c)
    else match IncrSpec(c, key)
      case Err(_) => (Some(ServiceUnavailable), c)
      case Ok((n, d)) =>
        var d' := if n == 1 && !expireOutage then ExpireSpec(d, key) else d;
        if n > ClaimsLimit then (Some(TooManyRequests), d') else (None, d')
  }

  /**
   * `RateLimit(store)(next)` serving one request: `status` is what the middleware answered
   * with, if anything, and `nextCalls` how many times it called `next`.
   */
  method RateLimit(store: CounterStore, remoteAddr: string, incrOutage: bool, expireOutage: bool)
    returns (status: Option<int>, nextCalls: nat)
    requires store.Valid()
    modifies store
    ensures store.Valid()
    ensures (status, store.Contents()) == AdmitSpec(old(store.Contents()), ClaimsKey(remoteAddr), incrOutage, expireOutage)
    ensures nextCalls == if status.None? then 1 else 0
  {
    var key := ClaimsKey(remoteAddr);
    var count := store.Incr(key, incrOutage);
    if count.Err? {
      return Some(ServiceUnavailable), 0;
    }
    if count.value == 1 {
      var _ := store.Expire(key, expireOutage);
    }
    if count.value > ClaimsLimit {
      return Some(TooManyRequests), 0;
    }
    status, nextCalls := None, 1;
  }

  /** The counters after `n` consecutive requests from one address that meet no store failure. */
  ghost function AdmitRun(c: Counters, key: string, n: nat): (d: Counters)
    requires c.Valid()
    ensures d.Valid()
  {
    if n == 0 then c else AdmitSpec(AdmitRun(c, key, n - 1), key, false, false).1
  }

  lemma {:induction false} AdmitRunCount(c: Counters, key: string, n: nat)
    requires c.Valid() && key !in c.counts && 1 <= n <= MaxInt64
    ensures key in AdmitRun(c, key, n).counts && AdmitRun(c, key, n).counts[key] == n
    ensures key in AdmitRun(c, key, n).ttl
  {
    if n > 1 {
      AdmitRunCount(c, key, n - 1);
    }
  }

  /** From a fresh key, three requests are passed on and the fourth is answered with 429. */
  lemma FreshKeyAdmitsThree(c: Counters, key: string, n: nat)
    requires c.Valid() && key !in c.counts && n < MaxInt64
    ensures var (status, _) := AdmitSpec(AdmitRun(c, key, n), key, false, false);
      (status.None? <==> n < ClaimsLimit) && (status.Some? ==> status == Some(TooManyRequests))
  {
    if n >= 1 {
      AdmitRunCount(c, key, n);
    }
  }

  /** `Auth(next)`: a handler that passes every request to `next` unchanged. */
  function Auth<Req(!new), Resp>(next: Req -> Resp): (h: Req -> Resp)
    ensures forall req :: h(req) == next(req)
  {
    req => next(req)
  }
}

/** The two rate limits count in separate keys. */
module RateLimitKeys {
  import GatewayHandlers
  import GatewayMiddleware

  /** A search counter and a claims counter never collide, whatever the two addresses. */
  lemma KeysDisjoint(a: string, b: string)
    ensures GatewayHandlers.SearchKey(a) != GatewayMiddleware.ClaimsKey(b)
  {
    assert GatewayHandlers.SearchKey(a)[1] == 'l';
    assert GatewayMiddleware.ClaimsKey(b)[1] == 'a';
  }
}
