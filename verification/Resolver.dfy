/** The short-lived cache in front of project resolution. */
module Resolver {
  import opened Basics
  import opened Projects
  import opened Sorting

  const RESOLVE_CACHE_TTL: Time := 5 * SECOND
  const RESOLVE_CACHE_MAX := 512

  datatype CachedResolve = CachedResolve(result: Resolved, storedAt: Time)

  predicate Fresh(entry: CachedResolve, now: Time) {
    Age(now, entry.storedAt) <= RESOLVE_CACHE_TTL
  }

  predicate IsRecent(t: Time, now: Time) {
    now - 5_000_000_000 <= t <= now
  }

  function OnlyFresh(cache: map<Path, CachedResolve>, now: Time): map<Path, CachedResolve> {
    map p | p in cache && Fresh(cache[p], now) :: cache[p]
  }

  /** What stays when an entry is stored: everything while there is room, else
      what is fresh if that makes room, else nothing. */
  function RoomFor(cache: map<Path, CachedResolve>, now: Time): map<Path, CachedResolve> {
    if |cache| < RESOLVE_CACHE_MAX then cache
    else if |OnlyFresh(cache, now)| < RESOLVE_CACHE_MAX then OnlyFresh(cache, now)
    else map[]
  }

  /** Where there is room, an entry is added. A full cache keeps what is younger
      than five seconds, if that makes room, and nothing otherwise. */
  ghost predicate Stores(before: map<Path, CachedResolve>, after: map<Path, CachedResolve>, cwd: Path,
          entry: CachedResolve)
  {
    var young := set p | p in before && IsRecent(before[p].storedAt, entry.storedAt);
    && cwd in after && after[cwd] == entry
    && (forall p :: p in after && p != cwd ==> p in before && after[p] == before[p])
    && after.Keys == {cwd} + if |before| < 512 then before.Keys else if |young| < 512 then young else {}
  }

  lemma StoredExactly(cache: map<Path, CachedResolve>, cwd: Path, entry: CachedResolve)
    requires forall p :: p in cache ==> cache[p].storedAt <= entry.storedAt
    ensures Stores(cache, RoomFor(cache, entry.storedAt)[cwd := entry], cwd, entry)
  {
    var young := set p | p in cache && IsRecent(cache[p].storedAt, entry.storedAt);
    assert young == OnlyFresh(cache, entry.storedAt).Keys;
    assert |OnlyFresh(cache, entry.storedAt)| == |OnlyFresh(cache, entry.storedAt).Keys|;
    hide IsRecent, Fresh;
  }

  class ProjectResolver {
    const config: ResolverConfig
    var cache: map<Path, CachedResolve>

    /** What the markers on disk were, at every moment. */
    ghost const trees: Time -> Tree

    /** Every entry is what resolution said when it was stored. */
    ghost predicate Valid(now: Time)
      reads this
    {
      && |cache| <= RESOLVE_CACHE_MAX
      && forall p :: p in cache ==>
        cache[p].storedAt <= now && cache[p].result == ResolveUncached(config, trees(cache[p].storedAt), p)
    }

    constructor (config: ResolverConfig, ghost trees: Time -> Tree, ghost now: Time)
      ensures Valid(now) && this.config == config && this.trees == trees && cache == map[]
    {
      this.config, this.trees, cache := config, trees, map[];
    }

    /** A fresh entry is used as it is, a stale one is dropped. */
    method CacheGet(cwd: Path, now: Time) returns (hit: Option<Resolved>)
      requires Valid(now)
      modifies this`cache
      ensures Valid(now)
      ensures hit.Some? <==> cwd in old(cache) && now - old(cache)[cwd].storedAt <= 5_000_000_000
      ensures hit.Some? ==> cache == old(cache) && hit.value == old(cache)[cwd].result
      ensures hit.None? ==> cache == old(cache) - {cwd}
    {
      if cwd !in cache {
        return None;
      }
      var entry := cache[cwd];
      if Age(now, entry.storedAt) > RESOLVE_CACHE_TTL {
        FewerEntries(cache, cwd);
        cache := cache - {cwd};
        return None;
      }
      return Some(entry.result);
    }

    /** A full cache first drops what is stale, then everything. */
    method CachePut(cwd: Path, result: Resolved, now: Time)
      requires Valid(now) && result == ResolveUncached(config, trees(now), cwd)
      modifies this`cache
      ensures Valid(now) && cwd in cache && cache[cwd] == CachedResolve(result, now)
      ensures cache == RoomFor(old(cache), now)[cwd := CachedResolve(result, now)]
      ensures Stores(old(cache), cache, cwd, CachedResolve(result, now))
    {
      hide ResolveUncached, Fresh, Stores;
      StoredExactly(cache, cwd, CachedResolve(result, now));
      if |cache| >= RESOLVE_CACHE_MAX {
        KeptAreFewer(cache, now);
        cache := OnlyFresh(cache, now);
        if |cache| >= RESOLVE_CACHE_MAX {
          cache := map[];
        }
      }
      OneMore(cache, cwd, CachedResolve(result, now));
      cache := cache[cwd := CachedResolve(result, now)];
    }

    /** Resolve a working directory; `canonical` is what it canonicalises to,
        if it can be read at all. The answer is what resolution said at some
        moment within the last five seconds, so it is what resolution says now
        unless a marker has moved since. `tree` is the disk as it is now. */
    method Resolve(cwd: Path, canonical: Option<Path>, tree: Tree, now: Time) returns (result: Resolved)
      requires Valid(now) && tree == trees(now)
      modifies this`cache
      ensures Valid(now)
      ensures canonical.None? ==> result == Err(PathUnavailable(cwd)) && cache == old(cache)
      ensures canonical.Some? ==>
        exists t :: IsRecent(t, now) && result == ResolveUncached(config, trees(t), canonical.value)
      ensures canonical.Some? && (forall t :: IsRecent(t, now) ==> trees(t) == trees(now)) ==>
        result == ResolveUncached(config, trees(now), canonical.value)
    {
      hide ResolveUncached;
      if canonical.None? {
        return Err(PathUnavailable(cwd));
      }
      var hit := CacheGet(canonical.value, now);
      if hit.Some? {
        ghost var stored := old(cache)[canonical.value].storedAt;
        assert IsRecent(stored, now) && hit.value == ResolveUncached(config, trees(stored), canonical.value);
        return hit.value;
      }
      result := ResolveUncached(config, tree, canonical.value);
      assert IsRecent(now, now) && result == ResolveUncached(config, trees(now), canonical.value);
      NeverUnavailable(config, trees(now), canonical.value);
      if !(result.Err? && result.reason.PathUnavailable?) {
        CachePut(canonical.value, result, now);
      }
    }
  }

  lemma FewerEntries(cache: map<Path, CachedResolve>, cwd: Path)
    ensures |cache - {cwd}| <= |cache|
  {
    SubsetSize((cache - {cwd}).Keys, cache.Keys);
  }

  lemma KeptAreFewer(cache: map<Path, CachedResolve>, now: Time)
    ensures |OnlyFresh(cache, now)| <= |cache|
  {
    SubsetSize(OnlyFresh(cache, now).Keys, cache.Keys);
  }

  lemma OneMore(cache: map<Path, CachedResolve>, cwd: Path, entry: CachedResolve)
    ensures |cache[cwd := entry]| <= |cache| + 1
  {
    assert cache[cwd := entry].Keys == cache.Keys + {cwd};
    SubsetSize(cache.Keys, cache.Keys + {cwd});
    assert cache.Keys + {cwd} == if cwd in cache then cache.Keys else cache.Keys + {cwd};
  }

  lemma NeverUnavailable(config: ResolverConfig, tree: Tree, cwd: Path)
    ensures var r := ResolveUncached(config, tree, cwd); !(r.Err? && r.reason.PathUnavailable?)
  {
  }
}
