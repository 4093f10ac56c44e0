/**
 * The standalone scraper: a module-level proxy pool refreshed from a proxy
 * list service, and a retry loop that rotates proxy, user agent and pause
 * on every attempt. The pool is the one field the scraper updates, so it is
 * a class.
 */
module Scraper {
  import opened Wrappers
  import opened Links
  import opened Rotation
  import opened Retry

  /** One entry of the proxy list service's reply: `protocols`, `ip` and `port`. */
  datatype ProxyEntry = ProxyEntry(protocols: seq<string>, ip: string, port: string)

  /** `${protocols[0]}://${ip}:${port}`; a missing first protocol prints as `undefined`. */
  function ProxyUrl(entry: ProxyEntry): (url: string)
    ensures |url| == (if |entry.protocols| > 0 then |entry.protocols[0]| else 9) + 3 + |entry.ip| + 1 + |entry.port|
    ensures |entry.protocols| > 0 ==> url[..|entry.protocols[0]| + 3] == entry.protocols[0] + "://"
    ensures |entry.protocols| == 0 ==> url[..12] == "undefined://"
    ensures url[|url| - |entry.port| - 1] == ':' && url[|url| - |entry.port|..] == entry.port
  {
    (if |entry.protocols| > 0 then entry.protocols[0] else "undefined") + "://" + entry.ip + ":" + entry.port
  }

  /** The reply's entries mapped to proxy URLs: one per entry, in entry order. */
  function FormatProxies(entries: seq<ProxyEntry>): (urls: seq<string>)
    ensures |urls| == |entries|
    ensures forall k :: 0 <= k < |entries| ==> urls[k] == ProxyUrl(entries[k])
  {
    if entries == [] then [] else [ProxyUrl(entries[0])] + FormatProxies(entries[1..])
  }

  /** A proxy URL is never empty, so `if (proxy)` only tests whether one was drawn. */
  lemma ProxyUrlNonEmpty(entry: ProxyEntry)
    ensures |ProxyUrl(entry)| >= 4
  {
  }

  /** `Math.random() * 5000 + 5000`: the pause before each request, in milliseconds. */
  function RandomPause(r: real): (ms: real)
    requires IsDraw(r)
    ensures 5000.0 <= ms < 10000.0
  {
    r * 5000.0 + 5000.0
  }

  /** The three `Math.random()` values one attempt consumes: proxy, user agent and pause. */
  datatype Draws = Draws(proxy: real, agent: real, pause: real)

  predicate ValidDraws(d: Draws) {
    IsDraw(d.proxy) && IsDraw(d.agent) && IsDraw(d.pause)
  }

  /** `getRandomProxy()` over the pool `pool`: `null` exactly when the pool is empty, otherwise a member of the pool. */
  function RandomProxy(pool: seq<string>, r: real): (proxy: Option<string>)
    requires IsDraw(r)
    ensures proxy.None? <==> pool == []
    ensures proxy.Some? ==> proxy.value in pool
  {
    if |pool| == 0 then None else Some(pool[RandomIndex(r, |pool|)])
  }

  /**
   * What one attempt of the rotating loop does with the draws `d`: a pause
   * of 5 to 10 seconds, then a request with a catalog user agent and,
   * exactly when the pool is not empty, a proxy from the pool.
   */
  function AttemptOf(pool: seq<string>, query: string, d: Draws): (attempt: Attempt)
    requires ValidDraws(d)
    ensures 5000.0 <= attempt.waitMs < 10000.0
    ensures attempt.request.query == query
    ensures attempt.request.proxy.Some? <==> pool != []
    ensures attempt.request.proxy.Some? ==> attempt.request.proxy.value in pool
  {
    Attempt(RandomPause(d.pause), Request(query, RandomUserAgent(d.agent), RandomProxy(pool, d.proxy)))
  }

  /** The first `n` attempts of the rotating loop, in order. */
  function AttemptsFor(pool: seq<string>, query: string, draws: seq<Draws>, n: nat): (attempts: seq<Attempt>)
    requires n <= |draws| && forall k :: 0 <= k < |draws| ==> ValidDraws(draws[k])
    ensures |attempts| == n
  {
    if n == 0 then [] else AttemptsFor(pool, query, draws, n - 1) + [AttemptOf(pool, query, draws[n - 1])]
  }

  /** The k-th attempt uses the k-th draws. */
  lemma {:induction false} AttemptsForAt(pool: seq<string>, query: string, draws: seq<Draws>, n: nat)
    requires n <= |draws| && forall k :: 0 <= k < |draws| ==> ValidDraws(draws[k])
    ensures forall k :: 0 <= k < n ==> AttemptsFor(pool, query, draws, n)[k] == AttemptOf(pool, query, draws[k])
    decreases n
  {
    if n > 0 {
      AttemptsForAt(pool, query, draws, n - 1);
    }
  }

  /**
   * The body of one attempt up to the request: draw a proxy and a user
   * agent, attach the proxy only if one was drawn (`if (proxy)`), and pause.
   */
  method NextAttempt(pool: seq<string>, query: string, d: Draws) returns (attempt: Attempt)
    requires ValidDraws(d)
    ensures attempt == AttemptOf(pool, query, d)
  {
    var proxy := RandomProxy(pool, d.proxy);
    var userAgent := RandomUserAgent(d.agent);
    var request := Request(query, userAgent, None);
    if proxy.Some? {
      request := request.(proxy := proxy);
    }
    attempt := Attempt(RandomPause(d.pause), request);
  }

  class ProxyPool {
    /** `proxies`: the proxy URLs the scraper rotates through. */
    var proxies: seq<string>

    /** `let proxies = []`. */
    constructor()
      ensures proxies == []
    {
      proxies := [];
    }

    /**
     * `fetchProxies()`, given the reply of the proxy list service: `None`
     * when the request failed, when the body had no entry list, or when an
     * entry had no `protocols` list so that formatting it threw; each leaves
     * the pool as it was. Otherwise the pool becomes the formatted entries.
     */
    method FetchProxies(reply: Option<seq<ProxyEntry>>)
      modifies this
      ensures reply.Some? ==> proxies == FormatProxies(reply.value)
      ensures reply.None? ==> proxies == old(proxies)
    {
      if reply.Some? {
        proxies := FormatProxies(reply.value);
      }
    }

    /**
     * `fetchAndExtractData(query)` of the standalone scraper: at most three
     * attempts, each with freshly drawn proxy, user agent and pause (see
     * `AttemptOf`). The result is the links of the first page that has
     * any, or `[]`.
     */
    method FetchAndExtractData(query: string, draws: seq<Draws>, pages: seq<Page>)
      returns (urls: seq<string>, attempts: seq<Attempt>)
      requires |draws| == MaxAttempts && |pages| == MaxAttempts
      requires forall k :: 0 <= k < |draws| ==> ValidDraws(draws[k])
      ensures urls == FirstFound(pages)
      ensures attempts == AttemptsFor(proxies, query, draws, AttemptsUsed(pages))
    {
      attempts := [];
      var attempt := 0;
      while attempt < |pages|
        invariant 0 <= attempt <= |pages|
        invariant NoneFoundBefore(pages, attempt)
        invariant attempts == AttemptsFor(proxies, query, draws, attempt)
      {
        var next := NextAttempt(proxies, query, draws[attempt]);
        attempts := attempts + [next];
        var found := TryPage(pages[attempt]);
        if |found| > 0 {
          FoundAt(pages, attempt);
          return found, attempts;
        }
        attempt := attempt + 1;
      }
      NoneFound(pages);
      urls := [];
    }
  }
}
