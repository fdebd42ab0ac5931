/**
 The factory's two process-wide caches of reflective object codecs, keyed by
 a type's full name. A lookup first reads the cache without the lock; on a
 miss it takes the lock, reads again (another thread may have inserted the
 entry meanwhile), and only then constructs and inserts. Threads are not
 modelled: the observable effect kept here is that an entry is inserted at
 most once per key and never replaced.
 */
module CodecCache {

  /** A resolved value together with the cache after the resolution. */
  datatype Resolved<R, C> = Resolved(value: R, cache: map<string, C>)

  /** `after` keeps every entry of `before` unchanged: the cache only grows. */
  ghost predicate Extends<C>(before: map<string, C>, after: map<string, C>) {
    forall k :: k in before ==> k in after && after[k] == before[k]
  }

  /** The locked section: re-check, and construct and insert only when the
      key is still absent. `built` is the codec the constructor would build. */
  function LockedGetOrAdd<C>(cache: map<string, C>, key: string, built: C): (r: Resolved<C, C>)
    ensures key in r.cache && r.value == r.cache[key]
    ensures Extends(cache, r.cache)
    ensures r.cache.Keys == cache.Keys + {key}
    ensures key !in cache ==> r.value == built
  {
    if key in cache then Resolved(cache[key], cache)
    else Resolved(built, cache[key := built])
  }

  /** The whole catch-all lookup: the unlocked read, then the locked section. */
  function GetOrAdd<C>(cache: map<string, C>, key: string, built: C): (r: Resolved<C, C>)
    ensures key in r.cache && r.value == r.cache[key]
    ensures Extends(cache, r.cache)
    ensures r.cache.Keys == cache.Keys + {key}
    ensures key !in cache ==> r.value == built
  {
    if key in cache then Resolved(cache[key], cache)
    else LockedGetOrAdd(cache, key, built)
  }

  /** Two threads that both missed on the unlocked read enter the locked
      section one after the other: the second finds the first one's entry,
      returns that very codec and inserts nothing. */
  lemma RacingFirstUses<C>(cache: map<string, C>, key: string, built1: C, built2: C)
    requires key !in cache
    ensures var first := LockedGetOrAdd(cache, key, built1);
      var second := LockedGetOrAdd(first.cache, key, built2);
      && first.value == built1
      && second.value == first.value
      && second.cache == first.cache
      && |first.cache| == |cache| + 1
  {
  }

  /** Once a key is cached, every later lookup returns the cached codec and
      leaves the cache as it is, whatever codec it would have built. */
  lemma CachedLookupIsStable<C>(cache: map<string, C>, key: string, built: C, built2: C)
    ensures var first := GetOrAdd(cache, key, built);
      GetOrAdd(first.cache, key, built2) == first
  {
  }
}
