/**
 The worker's durable stores (the browser's CacheStorage) as an immutable value:
 named stores, each a map from request key to captured response, kept in the
 order they were created. That order is what `caches.keys()` enumerates and the
 order in which `caches.match` consults the stores.
 */
module CacheStorage {
  import opened Wrappers

  /** A request's identity: the absolute URL it names. Only GET requests reach a
      store, so the URL is all a lookup compares. */
  type Key = string

  /** The `type` of a fetched response. */
  datatype ResponseType = Basic | Cors | Opaque | OpaqueRedirect | Error | Default

  /** A captured response; `clone()` is a value copy, so the body is a value too. */
  datatype Response = Response(status: int, kind: ResponseType, body: string)

  type Store = map<Key, Response>

  datatype Caches = Caches(names: seq<string>, stores: map<string, Store>)

  /** Store names are listed once each, and exactly the listed names have stores. */
  ghost predicate Valid(c: Caches) {
    && Distinct(c.names)
    && (forall n :: n in c.stores <==> n in c.names)
  }

  predicate Distinct<T(==)>(s: seq<T>) {
    forall i, j | 0 <= i < j < |s| :: s[i] != s[j]
  }

  const Empty := Caches([], map[])

  /** `caches.open(name)`: the store of that name, created empty when missing. */
  function Open(c: Caches, name: string): (r: Caches)
    requires Valid(c)
    ensures Valid(r)
    ensures name in r.stores
    ensures r.stores[name] == if name in c.stores then c.stores[name] else map[]
    ensures r.stores.Keys == c.stores.Keys + {name}
    ensures forall n | n in c.stores :: r.stores[n] == c.stores[n]
  {
    if name in c.stores then c
    else Caches(c.names + [name], c.stores[name := map[]])
  }

  /** `cache.put(key, response)` on the store `name` (opened first). */
  function Put(c: Caches, name: string, key: Key, response: Response): (r: Caches)
    requires Valid(c)
    ensures Valid(r)
    ensures name in r.stores && key in r.stores[name] && r.stores[name][key] == response
    ensures r.stores.Keys == c.stores.Keys + {name}
    ensures forall n | n in c.stores && n != name :: r.stores[n] == c.stores[n]
    ensures forall k | k != key && k in r.stores[name] ::
              name in c.stores && k in c.stores[name] && r.stores[name][k] == c.stores[name][k]
    ensures name in c.stores ==>
              forall k | k in c.stores[name] && k != key :: k in r.stores[name] && r.stores[name][k] == c.stores[name][k]
  {
    var o := Open(c, name);
    o.(stores := o.stores[name := o.stores[name][key := response]])
  }

  /** The names of `names` other than `name`, in order. */
  function Without(names: seq<string>, name: string): (r: seq<string>)
    ensures forall n :: n in r <==> n in names && n != name
    ensures Distinct(names) ==> Distinct(r)
  {
    if names == [] then []
    else if names[0] == name then Without(names[1..], name)
    else
      var rest := Without(names[1..], name);
      assert Distinct(names) ==> Distinct(names[1..]) && names[0] !in names[1..] by {
        if Distinct(names) {
          forall i, j | 0 <= i < j < |names[1..]| ensures names[1..][i] != names[1..][j] {
            assert names[1..][i] == names[i + 1] && names[1..][j] == names[j + 1];
          }
          forall k | 0 <= k < |names[1..]| ensures names[1..][k] != names[0] {
            assert names[1..][k] == names[k + 1];
          }
        }
      }
      [names[0]] + rest
  }

  /** `caches.delete(name)`: the store of that name is gone; nothing else changes. */
  function Delete(c: Caches, name: string): (r: Caches)
    requires Valid(c)
    ensures Valid(r)
    ensures r.stores.Keys == c.stores.Keys - {name}
    ensures forall n | n in r.stores :: r.stores[n] == c.stores[n]
  {
    Caches(Without(c.names, name), c.stores - {name})
  }

  /** Looks `key` up in the stores named by `names`, in that order. */
  function MatchIn(stores: map<string, Store>, names: seq<string>, key: Key): (r: Option<Response>)
    requires forall n | n in names :: n in stores
    ensures r.None? <==> forall n | n in names :: key !in stores[n]
    ensures r.Some? ==> exists n | n in names :: key in stores[n] && stores[n][key] == r.value
  {
    if names == [] then None
    else if key in stores[names[0]] then Some(stores[names[0]][key])
    else MatchIn(stores, names[1..], key)
  }

  /** `caches.match(key)`: a response stored under `key` in some store, if any. */
  function Match(c: Caches, key: Key): (r: Option<Response>)
    requires Valid(c)
    ensures r.None? <==> forall n | n in c.stores :: key !in c.stores[n]
    ensures r.Some? ==> exists n | n in c.stores :: key in c.stores[n] && c.stores[n][key] == r.value
  {
    MatchIn(c.stores, c.names, key)
  }

  /** Storing under a key no store held makes every later lookup of that key
      return exactly what was stored. */
  lemma MatchAfterPut(c: Caches, name: string, key: Key, response: Response)
    requires Valid(c)
    requires Match(c, key).None?
    ensures Match(Put(c, name, key, response), key) == Some(response)
  {
    var r := Put(c, name, key, response);
    forall n | n in r.stores && n != name
      ensures key !in r.stores[n]
    {
      assert n in c.names;
    }
  }
}
