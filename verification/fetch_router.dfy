/**
 The fetch handler: cache first, network second. GET requests for the worker's
 own origin, or for a host whose name contains `fonts.googleapis.com`, are
 answered from any store that holds them; on a miss the network is asked, and a
 200 `basic` response is copied into the overflow store. When the network fails,
 document requests get the stored offline page and other requests get nothing.
 */
module FetchRouter {
  import opened Wrappers
  import opened Text
  import opened CacheStorage
  import opened Generation
  import opened Events

  /** The parts of a request the handler reads: `url` is already absolute, and
      `origin` / `hostname` are those of `new URL(url)`. */
  datatype Request = Request(httpMethod: string, url: Key, origin: string, hostname: string, destination: string)

  const FontsHost := "fonts.googleapis.com"

  /** The handler calls `respondWith` only for these requests. */
  predicate Intercepted(selfOrigin: string, req: Request) {
    && req.httpMethod == "GET"
    && (req.origin == selfOrigin || Contains(req.hostname, FontsHost))
  }

  /** Only a 200 response of type `basic` is copied into the overflow store. */
  predicate Persistable(response: Response) {
    response.status == 200 && response.kind == Basic
  }

  /** `PassThrough`: the handler returns without `respondWith`, and the browser
      fetches as if there were no worker. `RespondWith(None)`: the promise given
      to `respondWith` resolves to `undefined`, which the page sees as a network error. */
  datatype Outcome = PassThrough | RespondWith(response: Option<Response>)

  datatype FetchStep = FetchStep(outcome: Outcome, caches: Caches, effects: seq<Effect>)

  /** The `fetch` event for `req`, in a worker served from `selfOrigin`. The
      overflow write is modelled as complete when the step ends. */
  function HandleFetch(selfOrigin: string, c: Caches, req: Request, network: Network): (r: FetchStep)
    requires Valid(c)
    ensures Valid(r.caches)
    // interception rule; a declined request touches nothing
    ensures r.outcome.PassThrough? <==> !Intercepted(selfOrigin, req)
    ensures r.outcome.PassThrough? ==> r.caches == c && r.effects == []
    // a stored response wins and the network is not asked
    ensures Intercepted(selfOrigin, req) && Match(c, req.url).Some? ==>
              r.outcome == RespondWith(Match(c, req.url)) && r.caches == c && r.effects == []
    ensures NetworkFetch(req.url) in r.effects <==> Intercepted(selfOrigin, req) && Match(c, req.url).None?
    ensures r.effects == [] || r.effects == [NetworkFetch(req.url)]
    // a network response is handed back unchanged, and persisted iff it is 200/basic
    ensures Intercepted(selfOrigin, req) && Match(c, req.url).None? && network(req.url).NetOk? ==>
              && r.outcome == RespondWith(Some(network(req.url).response))
              && (r.caches != c <==> Persistable(network(req.url).response))
              && (Persistable(network(req.url).response) ==>
                    Match(r.caches, req.url) == Some(network(req.url).response))
    // a network failure changes nothing and falls back only for documents
    ensures Intercepted(selfOrigin, req) && Match(c, req.url).None? && network(req.url).NetFail? ==>
              && r.caches == c
              && r.outcome == RespondWith(
                   if req.destination == "document" then Match(c, Resolve(selfOrigin, OfflinePage)) else None)
    // the only write the handler can make is the overflow store's entry for this request
    ensures c.stores.Keys <= r.caches.stores.Keys <= c.stores.Keys + {DynamicCache}
    ensures forall n | n in c.stores && n != DynamicCache :: r.caches.stores[n] == c.stores[n]
    ensures forall n, k | n in c.stores && k in c.stores[n] :: n in r.caches.stores && k in r.caches.stores[n] && r.caches.stores[n][k] == c.stores[n][k]
    ensures forall n, k | n in r.caches.stores && k in r.caches.stores[n] && (n != DynamicCache || k != req.url) ::
              n in c.stores && k in c.stores[n]
  {
    if req.httpMethod != "GET" then FetchStep(PassThrough, c, [])
    else if req.origin != selfOrigin && !Contains(req.hostname, FontsHost) then FetchStep(PassThrough, c, [])
    else
      match Match(c, req.url)
      case Some(hit) => FetchStep(RespondWith(Some(hit)), c, [])
      case None =>
        match network(req.url)
        case NetOk(response) =>
          if !Persistable(response) then
            FetchStep(RespondWith(Some(response)), c, [NetworkFetch(req.url)])
          else
            MatchAfterPut(c, DynamicCache, req.url, response);
            var stored := Put(c, DynamicCache, req.url, response);
            assert req.url in stored.stores[DynamicCache];
            FetchStep(RespondWith(Some(response)), stored, [NetworkFetch(req.url)])
        case NetFail =>
          if req.destination == "document" then
            FetchStep(RespondWith(Match(c, Resolve(selfOrigin, OfflinePage))), c, [NetworkFetch(req.url)])
          else
            FetchStep(RespondWith(None), c, [NetworkFetch(req.url)])
  }

  /** The interception rule with `includes` read as "occurs somewhere": a request
      is intercepted iff it is a GET and it is same-origin or its host name has
      `fonts.googleapis.com` as a substring. */
  lemma InterceptionRule(selfOrigin: string, req: Request)
    ensures Intercepted(selfOrigin, req) <==>
              req.httpMethod == "GET" && (req.origin == selfOrigin || exists i :: OccursAt(req.hostname, FontsHost, i))
  {
    ContainsIff(req.hostname, FontsHost);
  }

  /** Round trip through the overflow store: once a miss has been answered by a
      200/basic response, the same request is answered with that response from
      the store, whatever the network would do now. */
  lemma PersistedResponseIsServed(selfOrigin: string, c: Caches, req: Request, network: Network, later: Network)
    requires Valid(c)
    requires Intercepted(selfOrigin, req)
    requires Match(c, req.url).None?
    requires network(req.url).NetOk? && Persistable(network(req.url).response)
    ensures HandleFetch(selfOrigin, HandleFetch(selfOrigin, c, req, network).caches, req, later) ==
              FetchStep(RespondWith(Some(network(req.url).response)), HandleFetch(selfOrigin, c, req, network).caches, [])
  {
  }
}
