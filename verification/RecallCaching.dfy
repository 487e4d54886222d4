/**
 One gateway's in-memory recall cache. Times are nanoseconds.
 */
module RecallCaching {
  import opened Scopes
  import opened RecallKeys

  const EVENTUAL_CACHE_TTL := 30_000_000_000
  const BOUNDED_CACHE_TTL := 5_000_000_000

  datatype Entry<+R> = Entry(response: R, cachedAt: int, scopeVersion: int)

  datatype Found<+R> = Miss | Hit(response: R, staleServed: bool)

  type Entries<R> = map<string, Entry<R>>

  function Lookup<R>(entries: Entries<R>, key: string, level: string, allowStale: bool, now: int,
                     scopeVersion: int): Found<R>
  {
    if key !in entries then Miss
    else
      var e := entries[key];
      var age := now - e.cachedAt;
      if level == "bounded" then
        if e.scopeVersion != scopeVersion || age > BOUNDED_CACHE_TTL then Miss else Hit(e.response, false)
      else if level == "eventual" then
        if age <= EVENTUAL_CACHE_TTL then Hit(e.response, false)
        else if allowStale then Hit(e.response, true)
        else Miss
      else Hit(e.response, false)
  }

  function WithoutScope<R>(entries: Entries<R>, s: Scope): Entries<R>
  {
    map key | key in entries && !HasScopePrefix(key, s) :: entries[key]
  }

  /** Invalidating a scope removes all of that scope's entries and no other scope's. */
  lemma InvalidationExact<R>(entries: Entries<R>, s: Scope, s': Scope, r: RecallRequest)
    requires PipeFree(s) && PipeFree(s')
    ensures var key := BuildRecallCacheKey(s', r);
            key in WithoutScope(entries, s) <==> key in entries && s' != s
  {
    PrefixTestExact(s, s', r);
  }

  class RecallCache<R> {
    var entries: Entries<R>

    constructor ()
      ensures entries == map[]
    {
      entries := map[];
    }

    method Set(key: string, response: R, cachedAt: int, scopeVersion: int)
      modifies this
      ensures entries == old(entries)[key := Entry(response, cachedAt, scopeVersion)]
    {
      entries := entries[key := Entry(response, cachedAt, scopeVersion)];
    }

    method InvalidateScope(s: Scope)
      modifies this
      ensures entries == WithoutScope(old(entries), s)
    {
      var keys := entries.Keys;
      while keys != {}
        invariant keys <= entries.Keys <= old(entries).Keys
        invariant forall key :: key in old(entries) ==>
          (key in entries <==> key in keys || !HasScopePrefix(key, s))
            && (key in entries ==> entries[key] == old(entries)[key])
        decreases |keys|
      {
        var key :| key in keys;
        keys := keys - {key};
        if HasScopePrefix(key, s) {
          entries := entries - {key};
        }
      }
    }

    /** A bounded hit needs the entry's token and is fresh; only an eventual hit can be stale; others take any age. */
    method LookupEntry(key: string, level: string, allowStale: bool, now: int, scopeVersion: int)
      returns (found: Found<R>)
      ensures found == Lookup(entries, key, level, allowStale, now, scopeVersion)
      ensures found.Hit? ==> key in entries && found.response == entries[key].response
      ensures level == "bounded" ==>
        (found.Hit? <==>
          key in entries && entries[key].scopeVersion == scopeVersion
            && now - entries[key].cachedAt <= 5_000_000_000)
      ensures level == "eventual" ==>
        (found.Hit? <==> key in entries && (allowStale || now - entries[key].cachedAt <= 30_000_000_000))
      ensures level != "bounded" && level != "eventual" ==> (found.Hit? <==> key in entries)
      ensures found.Hit? ==>
        (found.staleServed <==> level == "eventual" && now - entries[key].cachedAt > 30_000_000_000)
    {
      if key !in entries {
        return Miss;
      }
      var e := entries[key];
      var age := now - e.cachedAt;
      match level {
        case "bounded" =>
          if e.scopeVersion != scopeVersion {
            return Miss;
          }
          if age > BOUNDED_CACHE_TTL {
            return Miss;
          }
          return Hit(e.response, false);
        case "eventual" =>
          if age <= EVENTUAL_CACHE_TTL {
            return Hit(e.response, false);
          }
          if allowStale {
            return Hit(e.response, true);
          }
          return Miss;
        case _ =>
          return Hit(e.response, false);
      }
    }
  }
}
