/**
 The install handler: open the bootstrap store and `addAll` the manifest into it
 as one all-or-nothing batch; on success ask to skip the waiting phase. A failed
 batch is caught and logged, so the handler's promise fulfils either way.
 */
module Install {
  import opened CacheStorage
  import opened Generation
  import opened Events

  /** What `addAll` accepts as a fetched response: an ok status (200-299) other
      than 206 Partial Content, and not a network error. */
  predicate Acceptable(result: NetResult) {
    && result.NetOk?
    && result.response.kind != Error
    && 200 <= result.response.status <= 299
    && result.response.status != 206
  }

  /** `addAll` commits its batch only when no two requests in it coincide and
      every fetch yields an acceptable response. */
  predicate BatchSucceeds(keys: seq<Key>, network: Network) {
    && Distinct(keys)
    && forall k | k in keys :: Acceptable(network(k))
  }

  /** One network request per manifest entry, in manifest order. */
  function FetchEffects(keys: seq<Key>): (effects: seq<Effect>)
    ensures |effects| == |keys|
    ensures forall i | 0 <= i < |keys| :: effects[i] == NetworkFetch(keys[i])
  {
    if keys == [] then [] else [NetworkFetch(keys[0])] + FetchEffects(keys[1..])
  }

  /** `cache.addAll(keys)` on the store `name`: either every key is stored with
      what the network returned for it, or the store is left as it was. */
  function AddAll(c: Caches, name: string, keys: seq<Key>, network: Network): (r: Caches)
    requires Valid(c) && name in c.stores
    ensures Valid(r)
    ensures r.stores.Keys == c.stores.Keys
    ensures forall n | n in c.stores && n != name :: r.stores[n] == c.stores[n]
    ensures BatchSucceeds(keys, network) ==>
              && (forall k | k in keys :: k in r.stores[name] && r.stores[name][k] == network(k).response)
              && (forall k | k in r.stores[name] && k !in keys :: k in c.stores[name] && r.stores[name][k] == c.stores[name][k])
              && (forall k | k in c.stores[name] :: k in r.stores[name])
    ensures !BatchSucceeds(keys, network) ==> r == c
  {
    if BatchSucceeds(keys, network) then
      var batch := map k | k in keys :: network(k).response;
      c.(stores := c.stores[name := c.stores[name] + batch])
    else c
  }

  datatype InstallStep = InstallStep(caches: Caches, effects: seq<Effect>, settled: Settlement)

  /** The `install` event for a worker served from `origin`. */
  function HandleInstall(c: Caches, origin: string, network: Network): (r: InstallStep)
    requires Valid(c)
    ensures Valid(r.caches)
    // the failure is caught, so the install promise always fulfils
    ensures r.settled == Fulfilled
    // only the bootstrap store is opened or written
    ensures r.caches.stores.Keys == c.stores.Keys + {StaticCache}
    ensures forall n | n in c.stores && n != StaticCache :: r.caches.stores[n] == c.stores[n]
    // every manifest entry is requested, in order, then skipWaiting iff the batch committed
    ensures |r.effects| == |Manifest| + (if BatchSucceeds(ManifestKeys(origin), network) then 1 else 0)
    ensures r.effects[..|Manifest|] == FetchEffects(ManifestKeys(origin))
    ensures SkipWaiting in r.effects <==> BatchSucceeds(ManifestKeys(origin), network)
    // all or nothing
    ensures BatchSucceeds(ManifestKeys(origin), network) ==>
              forall k | k in ManifestKeys(origin) ::
                k in r.caches.stores[StaticCache] && r.caches.stores[StaticCache][k] == network(k).response
    ensures forall k | k in r.caches.stores[StaticCache] ::
              k in ManifestKeys(origin) || (StaticCache in c.stores && k in c.stores[StaticCache])
    // entries already in the bootstrap store outside the manifest are kept as they were
    ensures StaticCache in c.stores ==>
              forall k | k in c.stores[StaticCache] && k !in ManifestKeys(origin) ::
                k in r.caches.stores[StaticCache] && r.caches.stores[StaticCache][k] == c.stores[StaticCache][k]
    ensures !BatchSucceeds(ManifestKeys(origin), network) ==>
              r.caches.stores[StaticCache] == if StaticCache in c.stores then c.stores[StaticCache] else map[]
  {
    var keys := ManifestKeys(origin);
    var created := Open(c, StaticCache);
    var fetched := FetchEffects(keys);
    assert forall e | e in fetched :: e.NetworkFetch?;
    if BatchSucceeds(keys, network) then
      InstallStep(AddAll(created, StaticCache, keys, network), fetched + [SkipWaiting], Fulfilled)
    else
      InstallStep(created, fetched, Fulfilled)
  }
}
