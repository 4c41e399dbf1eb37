/**
 Store naming and the bootstrap manifest of one release generation. Both store
 names carry the release version, so stores of another release are recognisable
 as stale.
 */
module Generation {
  import opened Text
  import opened CacheStorage

  const Version := "v1.0.0"

  function StaticName(version: string): string { "datatribe-static-" + version }
  function DynamicName(version: string): string { "datatribe-dynamic-" + version }

  /** The bootstrap store of the current release. */
  const StaticCache := StaticName(Version)
  /** The overflow store of the current release. */
  const DynamicCache := DynamicName(Version)
  /** Declared by the worker but never opened, and not among the names activation keeps. */
  const LegacyCache := "datatribe-" + Version

  /** The names activation keeps. */
  predicate IsCurrent(name: string) {
    name == StaticCache || name == DynamicCache
  }

  /** The bootstrap store and the overflow store never share a name, whatever the
      two versions are; so the two stores of one generation are distinct. */
  lemma StaticDynamicDisjoint(v: string, w: string)
    ensures StaticName(v) != DynamicName(w)
  {
    assert StaticName(v)[10] == 's';
    assert DynamicName(w)[10] == 'd';
  }

  /** Names of different versions never collide. */
  lemma {:induction false} NamesInjective(v: string, w: string)
    ensures StaticName(v) == StaticName(w) ==> v == w
    ensures DynamicName(v) == DynamicName(w) ==> v == w
  {
    var p, q := "datatribe-static-", "datatribe-dynamic-";
    if StaticName(v) == StaticName(w) {
      assert v == StaticName(v)[|p|..] == StaticName(w)[|p|..] == w;
    }
    if DynamicName(v) == DynamicName(w) {
      assert v == DynamicName(v)[|q|..] == DynamicName(w)[|q|..] == w;
    }
  }

  /** The legacy name is not kept, so activation reaps a store of that name. */
  lemma LegacyCacheIsStale()
    ensures !IsCurrent(LegacyCache)
  {
    assert LegacyCache[10] == 'v';
    assert StaticCache[10] == 's';
  }

  /** The assets fetched into the bootstrap store at install time, in order. */
  const Manifest: seq<string> := [
    "/",
    "/index.html",
    "/css/modern.css",
    "/js/modern.js",
    "/DataTribe_logo_circle.png",
    "/favicon.svg",
    "/learning-paths.html",
    "/events.html",
    "/mentors.html",
    "/partners.html",
    "https://fonts.googleapis.com/css2?family=Inter:wght@400;500;600;700&display=swap"
  ]

  /** The page the router falls back to for documents when the network fails. */
  const OfflinePage := "/index.html"

  /** A URL as written in the worker, resolved against the worker's origin: a
      path (starting with `/`) is relative, anything else is already absolute. */
  function Resolve(origin: string, url: string): (k: Key)
    ensures StartsWith(url, "/") ==> StartsWith(k, origin) && EndsWith(k, url) && |k| == |origin| + |url|
    ensures !StartsWith(url, "/") ==> k == url
  {
    if StartsWith(url, "/") then origin + url else url
  }

  function ResolveAll(origin: string, urls: seq<string>): (keys: seq<Key>)
    ensures |keys| == |urls|
    ensures forall i | 0 <= i < |urls| :: keys[i] == Resolve(origin, urls[i])
  {
    if urls == [] then [] else [Resolve(origin, urls[0])] + ResolveAll(origin, urls[1..])
  }

  /** The manifest as request keys for a worker served from `origin`. */
  function ManifestKeys(origin: string): seq<Key> {
    ResolveAll(origin, Manifest)
  }

  /** The offline page is one of the manifest entries, so a successful install
      stores it. */
  lemma OfflinePageInManifest(origin: string)
    ensures Resolve(origin, OfflinePage) in ManifestKeys(origin)
  {
    assert ManifestKeys(origin)[1] == Resolve(origin, Manifest[1]);
  }
}
