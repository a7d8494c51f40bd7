/**
 * The service worker appended to the page script: the cache-first `fetch` policy and the
 * `activate` clean-up of caches from other versions. Promises are taken to settle within
 * the event that starts them, so the `cache.put` happens before the next request.
 */
module ServiceWorker {
  import opened Wrappers

  const CacheName: string := "laki-covers-v1"
  const OfflineBody: string := "Offline - Content not available"

  /** `Response.type` as the Fetch standard lists it. */
  datatype ResponseType = Basic | Cors | Default | Error | Opaque | OpaqueRedirect

  /** A request is identified by its URL and its method (`GET`, `POST`, ...). */
  datatype Request = Request(url: string, verb: string)
  datatype Response = Response(status: int, kind: ResponseType, body: string)

  type Cache = map<Request, Response>

  /** `new Response('Offline - Content not available')`: status 200, type "default". */
  const OfflineResponse: Response := Response(200, Default, OfflineBody)

  /** The responses the handler copies into the cache: status 200 and type "basic". */
  predicate Storable(r: Response) {
    r.status == 200 && r.kind == Basic
  }

  /** The requests the Cache API deals in: `caches.match` finds nothing for any other
      method, and `cache.put` rejects any other method, so nothing else is stored. */
  predicate Cacheable(req: Request) {
    req.verb == "GET"
  }

  /** `caches.match(event.request)` resolves to a cached response. */
  predicate Hit(cache: Cache, req: Request) {
    Cacheable(req) && req in cache
  }

  /** The reply to the page and the cache afterwards. */
  datatype Fetched = Fetched(response: Response, cache: Cache)

  /** The `fetch` handler on a request, given what the network would answer (`None` when
      `fetch` rejects). Entries already cached never change, at most a `GET` request itself
      is added, and the reply is the cached entry, the network's answer or the placeholder. */
  function Fetch(cache: Cache, req: Request, network: Option<Response>): (r: Fetched)
    ensures forall k :: k in cache ==> k in r.cache && r.cache[k] == cache[k]
    ensures r.cache.Keys <= cache.Keys + {req}
    ensures !Cacheable(req) ==> r.cache == cache
    ensures Cacheable(req) && req in r.cache ==> r.cache[req] == r.response
    ensures Hit(cache, req) ==> r.response == cache[req]
    ensures !Hit(cache, req) ==> r.response == network.GetOr(OfflineResponse)
  {
    if Hit(cache, req) then Fetched(cache[req], cache)
    else match network
      case None => Fetched(OfflineResponse, cache)
      case Some(resp) =>
        if !Storable(resp) || !Cacheable(req) then Fetched(resp, cache)
        else Fetched(resp, cache[req := resp])
  }

  /** A hit answers from the cache whatever the network would have done. */
  lemma HitIgnoresNetwork(cache: Cache, req: Request, n1: Option<Response>, n2: Option<Response>)
    requires Hit(cache, req)
    ensures Fetch(cache, req, n1) == Fetch(cache, req, n2) == Fetched(cache[req], cache)
  {
  }

  /** A request with any method but `GET` goes to the network every time and is never
      stored, even when an entry under it is in the cache. */
  lemma OtherMethodsBypassCache(cache: Cache, req: Request, network: Option<Response>)
    requires !Cacheable(req)
    ensures Fetch(cache, req, network) == Fetched(network.GetOr(OfflineResponse), cache)
  {
  }

  /** A miss stores the network's answer exactly when it is storable and the request is a
      `GET`. */
  lemma MissStoresIffStorable(cache: Cache, req: Request, resp: Response)
    requires req !in cache
    ensures Fetch(cache, req, Some(resp)).response == resp
    ensures req in Fetch(cache, req, Some(resp)).cache <==> Storable(resp) && Cacheable(req)
    ensures !(Storable(resp) && Cacheable(req)) ==> Fetch(cache, req, Some(resp)).cache == cache
    ensures Storable(resp) && Cacheable(req) ==> Fetch(cache, req, Some(resp)).cache == cache[req := resp]
  {
  }

  /** Offline and no hit: the placeholder, and the cache is left alone. */
  lemma OfflineMissGivesPlaceholder(cache: Cache, req: Request)
    requires !Hit(cache, req)
    ensures Fetch(cache, req, None) == Fetched(OfflineResponse, cache)
  {
  }

  /** Once a storable answer to a `GET` has been fetched, the same request is served from
      the cache, even with the network gone. */
  lemma StoredThenServedOffline(cache: Cache, req: Request, resp: Response, later: Option<Response>)
    requires req !in cache && Storable(resp) && Cacheable(req)
    ensures Fetch(Fetch(cache, req, Some(resp)).cache, req, later).response == resp
  {
  }

  /** A `GET` that ends up cached is answered the same way the second time, with nothing
      new stored. */
  lemma FetchSettles(cache: Cache, req: Request, n1: Option<Response>, n2: Option<Response>)
    requires Cacheable(req) && req in Fetch(cache, req, n1).cache
    ensures var first := Fetch(cache, req, n1);
            Fetch(first.cache, req, n2) == Fetched(first.response, first.cache)
  {
  }

  /** `cacheName !== CACHE_NAME`: the test `activate` deletes by. */
  predicate Stale(name: string) {
    name != CacheName
  }

  /** The caches left after `activate`: the current version's, if present, and nothing else. */
  function Retained(caches: map<string, Cache>): (r: map<string, Cache>)
    ensures r.Keys <= {CacheName} && r.Keys <= caches.Keys
    ensures CacheName in caches ==> CacheName in r && r[CacheName] == caches[CacheName]
  {
    map name | name in caches && !Stale(name) :: caches[name]
  }

  /** A second `activate` deletes nothing more. */
  lemma RetainedIdempotent(caches: map<string, Cache>)
    ensures Retained(Retained(caches)) == Retained(caches)
  {
  }

  /** The origin's `CacheStorage`: named caches. */
  class CacheStorage {
    var caches: map<string, Cache>

    constructor (initial: map<string, Cache>)
      ensures caches == initial
    {
      caches := initial;
    }

    /** What `caches.match` finds for this worker: the entries of its own cache. */
    function Current(): Cache
      reads this
    {
      if CacheName in caches then caches[CacheName] else map[]
    }

    /** The `activate` handler: every cache named by `caches.keys()` that is stale is deleted. */
    method Activate()
      modifies this
      ensures caches == Retained(old(caches))
    {
      var names := caches.Keys;
      while names != {}
        invariant names <= old(caches).Keys
        invariant caches == map n | n in old(caches) && (n in names || !Stale(n)) :: old(caches)[n]
        decreases names
      {
        var name :| name in names;
        if Stale(name) {
          caches := caches - {name};
        }
        names := names - {name};
      }
    }

    /** The `fetch` handler: replies as `Fetch` does and, when it stores, writes through
        `caches.open(CACHE_NAME)`, which creates that cache if it is missing. */
    method HandleFetch(req: Request, network: Option<Response>) returns (response: Response)
      modifies this
      ensures response == Fetch(old(Current()), req, network).response
      ensures Current() == Fetch(old(Current()), req, network).cache
      ensures var stored := req !in old(Current()) && req in Current();
              caches == if stored then old(caches)[CacheName := Current()] else old(caches)
    {
      var cache := Current();
      if Cacheable(req) && req in cache {
        response := cache[req];
      } else if network.None? {
        response := OfflineResponse;
      } else {
        response := network.value;
        if Storable(response) && Cacheable(req) {
          caches := caches[CacheName := cache[req := response]];
        }
      }
    }
  }
}
