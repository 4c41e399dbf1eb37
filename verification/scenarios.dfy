/**
 Whole-lifecycle consequences: install, then activate, then requests.
 */
module Scenarios {
  import opened Wrappers
  import opened CacheStorage
  import opened Generation
  import opened Events
  import opened Install
  import opened Activate
  import opened FetchRouter

  /** With a single store, a lookup is a lookup in that store. */
  lemma MatchSingleStore(c: Caches, name: string, key: Key)
    requires Valid(c) && c.stores.Keys == {name}
    ensures Match(c, key) == if key in c.stores[name] then Some(c.stores[name][key]) else None
  {
  }

  /** A fresh worker whose install batch commits and whose activation succeeds
      answers an offline document request for a page it never stored with the
      `/index.html` it fetched at install time. */
  lemma OfflineNavigationServesInstalledIndex(origin: string, network: Network, req: Request, offline: Network)
    requires BatchSucceeds(ManifestKeys(origin), network)
    requires req.httpMethod == "GET" && req.origin == origin && req.destination == "document"
    requires req.url !in ManifestKeys(origin)
    requires offline(req.url) == NetFail
    ensures var installed := HandleInstall(Empty, origin, network).caches;
            var active := HandleActivate(installed, {}).caches;
            && network(Resolve(origin, OfflinePage)).NetOk?
            && HandleFetch(origin, active, req, offline).outcome ==
                 RespondWith(Some(network(Resolve(origin, OfflinePage)).response))
  {
    var installed := HandleInstall(Empty, origin, network).caches;
    assert installed.stores.Keys == {StaticCache};
    var active := HandleActivate(installed, {}).caches;
    assert active.stores.Keys == {StaticCache};
    var entries := active.stores[StaticCache];
    assert entries == installed.stores[StaticCache];
    OfflinePageInManifest(origin);
    var index := Resolve(origin, OfflinePage);
    MatchSingleStore(active, StaticCache, index);
    MatchSingleStore(active, StaticCache, req.url);
    assert Match(active, index) == Some(network(index).response);
    assert Match(active, req.url) == None;
  }

  /** Once installed, every manifest entry is served from the bootstrap store
      without going to the network. */
  lemma ManifestServedFromStore(origin: string, c: Caches, network: Network, req: Request, later: Network)
    requires Valid(c)
    requires BatchSucceeds(ManifestKeys(origin), network)
    requires Intercepted(origin, req) && req.url in ManifestKeys(origin)
    ensures var installed := HandleInstall(c, origin, network).caches;
            var r := HandleFetch(origin, installed, req, later);
            r.outcome.RespondWith? && r.outcome.response.Some? && r.effects == [] && r.caches == installed
  {
    var installed := HandleInstall(c, origin, network).caches;
    assert req.url in installed.stores[StaticCache];
  }

  /** A failed install batch still leaves a bootstrap store behind (opening it
      created it), empty on a fresh worker, and the install promise fulfils
      without asking to skip waiting. */
  lemma FailedInstallLeavesEmptyStore(origin: string, network: Network)
    requires network(Resolve(origin, "/")) == NetFail
    ensures var r := HandleInstall(Empty, origin, network);
            && r.settled == Fulfilled
            && StaticCache in r.caches.stores
            && r.caches.stores[StaticCache] == map[]
            && SkipWaiting !in r.effects
  {
    assert ManifestKeys(origin)[0] == Resolve(origin, "/");
  }
}
