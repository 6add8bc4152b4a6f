/**
 * The cache-first service worker of sw.js: `install` pre-caches the core
 * pages, and every intercepted request is answered from the cache, else from
 * the network (keeping a copy of a same-origin 200 response), else with the
 * cached `/index.html`.
 */
module ServiceWorker {
  import opened Wrappers

  const CACHE_NAME: string := "edgemetrics-cache-v1"
  const CORE_ASSETS: seq<string> := ["/", "/index.html", "/dashboard.html", "/trades.html", "/pricing.html"]
  /** The page served when the network fails on a request the cache does not hold. */
  const OFFLINE_PAGE: string := "/index.html"

  /** A response: its HTTP status, its `type` (`"basic"` for same-origin) and its body. */
  datatype Response = Response(status: int, kind: string, body: string) {
    /** What `Cache.addAll` demands of every response: `Response.ok`, and not a partial (206) response. */
    predicate Addable() {
      200 <= status <= 299 && status != 206
    }
  }

  /** What `fetch(request)` does: resolve with a response (or, as the code allows, with nothing), or reject. */
  datatype Outcome = Resolved(response: Option<Response>) | Rejected

  /** The network: the outcome of fetching each URL. */
  type Network = string -> Outcome

  /** The test at sw.js:22 that a response is worth a copy in the cache. */
  predicate Cacheable(resp: Option<Response>) {
    resp.Some? && resp.value.status == 200 && resp.value.kind == "basic"
  }

  /** The network answers `url` with a response `cache.addAll` accepts. */
  predicate Serves(network: Network, url: string) {
    network(url).Resolved? && network(url).response.Some? && network(url).response.value.Addable()
  }

  /**
   * `cache.addAll(urls)`: the entries to add when every URL resolves with an ok
   * response, and `None` when the whole batch is refused.
   */
  function AddAll(urls: seq<string>, network: Network): (r: Option<map<string, Response>>)
    ensures r.Some? <==> forall i :: 0 <= i < |urls| ==> Serves(network, urls[i])
    ensures r.Some? ==> forall u :: u in r.value <==> u in urls
    ensures r.Some? ==> forall u :: u in urls ==> r.value[u] == network(u).response.value
  {
    if urls == [] then Some(map[])
    else
      var out := network(urls[0]);
      if !Serves(network, urls[0]) then None
      else
        match AddAll(urls[1..], network)
        case None => None
        case Some(rest) =>
          assert forall u :: u in urls <==> u == urls[0] || u in urls[1..];
          Some(rest[urls[0] := out.response.value])
  }

  /** The worker's cache `CACHE_NAME` and the requests it has sent to the network. */
  class Worker {
    /** responses stored under their request URL */
    var cache: map<string, Response>
    /** every URL the worker has fetched from the network, in order */
    var requests: seq<string>

    constructor (cache: map<string, Response>)
      ensures this.cache == cache && requests == []
    {
      this.cache := cache;
      requests := [];
    }

    /** `caches.match(url)` */
    function Match(url: string): (r: Option<Response>)
      reads this
      ensures r.Some? <==> url in cache
      ensures r.Some? ==> r.value == cache[url]
    {
      if url in cache then Some(cache[url]) else None
    }

    /**
     * The `install` handler: every core asset is requested, and the cache
     * `CACHE_NAME`, whose contents `cache` stands for, gains all of them or, when
     * `addAll` fails, none; the failure is swallowed.
     */
    method Install(network: Network)
      modifies this
      ensures requests == old(requests) + CORE_ASSETS
      ensures var batch := AddAll(CORE_ASSETS, network);
        cache == if batch.Some? then old(cache) + batch.value else old(cache)
    {
      requests := requests + CORE_ASSETS;
      var batch := AddAll(CORE_ASSETS, network);
      if batch.Some? {
        cache := cache + batch.value;
      }
    }

    /** The `fetch` handler for a request to `url`. */
    method Fetch(url: string, network: Network) returns (r: Option<Response>)
      modifies this
      ensures url in old(cache) ==> r == Some(old(cache)[url]) && cache == old(cache) && requests == old(requests)
      ensures url !in old(cache) ==> requests == old(requests) + [url]
      ensures url !in old(cache) && network(url).Resolved? ==>
        && r == network(url).response
        && cache == if Cacheable(r) then old(cache)[url := r.value] else old(cache)
      ensures url !in old(cache) && network(url).Rejected? ==>
        && cache == old(cache)
        && r == (if OFFLINE_PAGE in old(cache) then Some(old(cache)[OFFLINE_PAGE]) else None)
    {
      var cached := Match(url);
      if cached.Some? {
        return cached;
      }
      requests := requests + [url];
      match network(url)
      case Rejected =>
        r := Match(OFFLINE_PAGE);
      case Resolved(resp) =>
        if Cacheable(resp) {
          cache := cache[url := resp.value];
        }
        r := resp;
    }
  }

  /**
   * The offline scenario: once `install` has cached the core assets, a request
   * for one of them is answered from the cache without the network, and a
   * request for any other URL, with the network down, gets the cached
   * `/index.html`.
   */
  method OfflineScenario(online: Network, asset: string, other: string)
    returns (page: Option<Response>, fallback: Option<Response>, sent: seq<string>)
    requires forall i :: 0 <= i < |CORE_ASSETS| ==> Serves(online, CORE_ASSETS[i])
    requires asset in CORE_ASSETS && other !in CORE_ASSETS
    ensures page.Some? && online(asset) == Resolved(page)
    ensures fallback.Some? && online(OFFLINE_PAGE) == Resolved(fallback)
    ensures sent == CORE_ASSETS + [other]
  {
    var offline: Network := _ => Rejected;
    var worker := new Worker(map[]);
    worker.Install(online);
    page := worker.Fetch(asset, offline);
    fallback := worker.Fetch(other, offline);
    sent := worker.requests;
  }
}
