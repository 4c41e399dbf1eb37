/**
 The activate handler: list every store, delete each one whose name is not one
 of the current generation's two names, and once every deletion has succeeded
 claim the open clients. The deletions go through `Promise.all` without a catch
 of their own, so one failed deletion rejects the handler's promise and the
 claim never happens; the other deletions still take effect.
 */
module Activate {
  import opened CacheStorage
  import opened Generation
  import opened Events

  /** The names activation deletes, in enumeration order. */
  function StaleNames(names: seq<string>): (stale: seq<string>)
    ensures forall n :: n in stale <==> n in names && !IsCurrent(n)
    ensures Distinct(names) ==> Distinct(stale)
  {
    if names == [] then []
    else if IsCurrent(names[0]) then StaleNames(names[1..])
    else [names[0]] + StaleNames(names[1..])
  }

  /** Deletes the stores named in `stale`, one after another, except those whose
      deletion fails (`fails`); a failed deletion leaves its store in place. */
  function Reap(c: Caches, stale: seq<string>, fails: set<string>): (r: Caches)
    requires Valid(c)
    ensures Valid(r)
    ensures r.stores.Keys == c.stores.Keys - (set n | n in stale && n !in fails)
    ensures forall n | n in r.stores :: r.stores[n] == c.stores[n]
    decreases |stale|
  {
    if stale == [] then c
    else Reap(if stale[0] in fails then c else Delete(c, stale[0]), stale[1..], fails)
  }

  /** When every deletion fails, reaping changes nothing. */
  lemma {:induction false} ReapAllFailed(c: Caches, stale: seq<string>, fails: set<string>)
    requires Valid(c)
    requires forall n | n in stale :: n in fails
    ensures Reap(c, stale, fails) == c
    decreases |stale|
  {
    if stale != [] {
      ReapAllFailed(c, stale[1..], fails);
    }
  }

  function DeleteEffects(names: seq<string>): (effects: seq<Effect>)
    ensures |effects| == |names|
    ensures forall i | 0 <= i < |names| :: effects[i] == DeleteStore(names[i])
    ensures forall e | e in effects :: e.DeleteStore?
    ensures forall n :: DeleteStore(n) in effects <==> n in names
    ensures Distinct(names) ==> Distinct(effects)
  {
    if names == [] then [] else [DeleteStore(names[0])] + DeleteEffects(names[1..])
  }

  datatype ActivateStep = ActivateStep(caches: Caches, effects: seq<Effect>, settled: Settlement)

  /** The `activate` event; `fails` names the stores whose deletion rejects. */
  function HandleActivate(c: Caches, fails: set<string>): (r: ActivateStep)
    requires Valid(c)
    ensures Valid(r.caches)
    // a store survives iff it is current or its deletion failed; survivors are untouched
    ensures forall n :: n in r.caches.stores <==> n in c.stores && (IsCurrent(n) || n in fails)
    ensures forall n | n in r.caches.stores :: r.caches.stores[n] == c.stores[n]
    // every stale store is asked to go, and nothing else is
    ensures forall n :: DeleteStore(n) in r.effects <==> n in c.stores && !IsCurrent(n)
    // claim iff every deletion succeeded, and then only after all of them
    ensures ClaimClients in r.effects <==> r.settled == Fulfilled
    ensures r.settled == Fulfilled <==> forall n | n in c.stores && !IsCurrent(n) :: n !in fails
    ensures ClaimClients in r.effects ==>
              && r.effects[|r.effects| - 1] == ClaimClients
              && forall i | 0 <= i < |r.effects| - 1 :: r.effects[i].DeleteStore?
    // the log holds deletions and the claim only, each at most once
    ensures forall e | e in r.effects :: e.DeleteStore? || e == ClaimClients
    ensures Distinct(r.effects)
    // a fulfilled activation leaves only the current generation's stores
    ensures r.settled == Fulfilled ==> forall n | n in r.caches.stores :: IsCurrent(n)
  {
    var stale := StaleNames(c.names);
    var caches := Reap(c, stale, fails);
    var deletions := DeleteEffects(stale);
    assert Distinct(deletions);
    if exists n | n in stale :: n in fails then
      ActivateStep(caches, deletions, Rejected)
    else
      assert ClaimClients !in deletions;
      DistinctAppend(deletions, ClaimClients);
      ActivateStep(caches, deletions + [ClaimClients], Fulfilled)
  }

  /** Appending a value not yet present keeps a sequence free of repeats. */
  lemma DistinctAppend<T>(s: seq<T>, x: T)
    requires Distinct(s) && x !in s
    ensures Distinct(s + [x])
  {
  }

  /** Activating a second time with the same deletion outcomes leaves the stores
      exactly as the first activation left them. */
  lemma ActivateIdempotent(c: Caches, fails: set<string>)
    requires Valid(c)
    ensures HandleActivate(HandleActivate(c, fails).caches, fails).caches == HandleActivate(c, fails).caches
  {
    var once := HandleActivate(c, fails).caches;
    var stale := StaleNames(once.names);
    forall n | n in stale ensures n in fails {
      assert n in once.stores;
    }
    ReapAllFailed(once, stale, fails);
  }

  /** The current generation's stores always survive activation. */
  lemma CurrentStoresSurvive(c: Caches, fails: set<string>)
    requires Valid(c)
    ensures forall n | n in c.stores && IsCurrent(n) ::
              n in HandleActivate(c, fails).caches.stores &&
              HandleActivate(c, fails).caches.stores[n] == c.stores[n]
  {
  }
}
