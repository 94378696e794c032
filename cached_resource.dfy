/**
 * CachedResource<T> of src/cached_resource.hpp: a static map from a path to
 * the loaded data and a use count. The shared pointers become plain map
 * entries; the 64-bit use count is a nat, which never wraps because every
 * entry is erased before its count could drop below one.
 */
module CachedResources {
  datatype Entry<T> = Entry(data: T, useCount: nat)

  type Cache<T> = map<string, Entry<T>>

  /** Every entry in the map is in use: free erases an entry as soon as its count reaches zero. */
  predicate AllInUse<T>(c: Cache<T>)
  {
    forall p :: p in c ==> c[p].useCount > 0
  }

  /** Nothing but the entry for p differs between the two maps. */
  ghost predicate OthersUnchanged<T>(c: Cache<T>, r: Cache<T>, p: string)
  {
    forall q :: q != p ==> (q in r <==> q in c) && (q in c ==> r[q] == c[q])
  }

  /** is_used */
  predicate IsUsedSpec<T>(c: Cache<T>, p: string)
  {
    p in c && c[p].useCount > 0
  }

  /** use: one more user of the stored data, which is returned. */
  function UseSpec<T>(c: Cache<T>, p: string): (r: (T, Cache<T>))
    requires p in c
    ensures r.0 == c[p].data
    ensures p in r.1 && r.1[p].data == c[p].data && r.1[p].useCount == c[p].useCount + 1
    ensures OthersUnchanged(c, r.1, p)
  {
    (c[p].data, c[p := c[p].(useCount := c[p].useCount + 1)])
  }

  /** add: a fresh entry with one user replaces whatever was stored. */
  function AddSpec<T>(c: Cache<T>, p: string, data: T): (r: Cache<T>)
    ensures p in r && r[p] == Entry(data, 1)
    ensures OthersUnchanged(c, r, p)
  {
    c[p := Entry(data, 1)]
  }

  /** free: one user fewer; the entry goes once nobody uses it; an absent path is ignored. */
  function FreeSpec<T>(c: Cache<T>, p: string): (r: Cache<T>)
    ensures p !in c ==> r == c
    ensures p in c && c[p].useCount <= 1 ==> p !in r
    ensures p in c && c[p].useCount > 1 ==> p in r && r[p] == c[p].(useCount := c[p].useCount - 1)
    ensures OthersUnchanged(c, r, p)
  {
    if p !in c then c
    else if c[p].useCount <= 1 then c - {p}
    else c[p := c[p].(useCount := c[p].useCount - 1)]
  }

  /** Every operation keeps every stored entry in use. */
  lemma OperationsKeepAllInUse<T>(c: Cache<T>, p: string, data: T)
    requires AllInUse(c)
    ensures AllInUse(AddSpec(c, p, data)) && AllInUse(FreeSpec(c, p))
    ensures p in c ==> AllInUse(UseSpec(c, p).1)
  {
  }

  /** So, on every reachable map, is_used holds exactly for the stored paths. */
  lemma IsUsedIffStored<T>(c: Cache<T>, p: string)
    requires AllInUse(c)
    ensures IsUsedSpec(c, p) <==> p in c
  {
  }

  /** k uses in a row. */
  function UseTimes<T>(c: Cache<T>, p: string, k: nat): (r: Cache<T>)
    requires p in c
    ensures p in r && r[p].data == c[p].data
  {
    if k == 0 then c else UseTimes(UseSpec(c, p).1, p, k - 1)
  }

  /** k frees in a row. */
  function FreeTimes<T>(c: Cache<T>, p: string, k: nat): (r: Cache<T>)
  {
    if k == 0 then c else FreeTimes(FreeSpec(c, p), p, k - 1)
  }

  lemma {:induction false} UseTimesCounts<T>(c: Cache<T>, p: string, k: nat)
    requires p in c
    ensures UseTimes(c, p, k)[p].useCount == c[p].useCount + k
    ensures OthersUnchanged(c, UseTimes(c, p, k), p)
  {
    if k > 0 {
      UseTimesCounts(UseSpec(c, p).1, p, k - 1);
    }
  }

  /** As many frees as users erase the entry, and leave the other paths alone. */
  lemma {:induction false} FreeTimesErases<T>(c: Cache<T>, p: string, k: nat)
    requires p in c && 0 < c[p].useCount <= k
    ensures p !in FreeTimes(c, p, k)
    ensures OthersUnchanged(c, FreeTimes(c, p, k), p)
  {
    if c[p].useCount == 1 {
      FreeTimesAbsent(FreeSpec(c, p), p, k - 1);
    } else {
      FreeTimesErases(FreeSpec(c, p), p, k - 1);
    }
  }

  /** Freeing an absent path any number of times changes nothing. */
  lemma {:induction false} FreeTimesAbsent<T>(c: Cache<T>, p: string, k: nat)
    requires p !in c
    ensures FreeTimes(c, p, k) == c
  {
    if k > 0 {
      FreeTimesAbsent(FreeSpec(c, p), p, k - 1);
    }
  }

  /** One add, k uses and k + 1 frees leave the path absent, and every other path as it was. */
  lemma AddUseFreeBalanced<T>(c: Cache<T>, p: string, data: T, k: nat)
    ensures p !in FreeTimes(UseTimes(AddSpec(c, p, data), p, k), p, k + 1)
    ensures OthersUnchanged(c, FreeTimes(UseTimes(AddSpec(c, p, data), p, k), p, k + 1), p)
  {
    var a := AddSpec(c, p, data);
    var u := UseTimes(a, p, k);
    UseTimesCounts(a, p, k);
    FreeTimesErases(u, p, k + 1);
  }

  /** The static cache of one resource type. */
  class CachedResource<T> {
    var cache: Cache<T>

    constructor ()
      ensures cache == map[]
    {
      cache := map[];
    }

    predicate IsUsed(path: string)
      reads this
    {
      IsUsedSpec(cache, path)
    }

    method Use(path: string) returns (data: T)
      requires path in cache
      modifies this
      ensures (data, cache) == UseSpec(old(cache), path)
    {
      data := cache[path].data;
      cache := cache[path := cache[path].(useCount := cache[path].useCount + 1)];
    }

    method Add(path: string, data: T) returns (stored: T)
      modifies this
      ensures stored == data && cache == AddSpec(old(cache), path, data)
    {
      cache := cache[path := Entry(data, 1)];
      stored := data;
    }

    method Free(path: string)
      modifies this
      ensures cache == FreeSpec(old(cache), path)
    {
      if path in cache {
        var count := cache[path].useCount;
        if count <= 1 {
          cache := cache - {path};
        } else {
          cache := cache[path := cache[path].(useCount := count - 1)];
        }
      }
    }
  }
}
