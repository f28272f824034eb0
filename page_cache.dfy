/**
 * The decoded-page cache and its size limit (`limitCacheSize`): once the cache
 * holds more than 20 pages, the pages with the smallest indices are dropped until
 * 15 remain. Eviction is by page index, not by insertion order, and no page (not
 * even the one on screen) is exempt.
 */
module PageCache {
  import opened Sequences

  /** A decoded page bitmap; the model never looks inside one. */
  datatype Image = Image(token: nat)

  /** The cache is trimmed when it holds more than this many pages ... */
  const CacheLimit: nat := 20
  /** ... down to this many. */
  const CacheTarget: nat := 15

  lemma NonEmptyHasElement(s: set<int>)
    requires s != {}
    ensures exists y :: y in s
  {
    if forall y :: y !in s {
      assert false;
    }
  }

  lemma {:induction false} MinExists(s: set<int>)
    requires s != {}
    ensures exists m :: m in s && forall x :: x in s ==> m <= x
    decreases |s|
  {
    NonEmptyHasElement(s);
    var y :| y in s;
    var rest := s - {y};
    assert forall x :: x in s ==> x == y || x in rest;
    if rest != {} {
      MinExists(rest);
      var m :| m in rest && forall x :: x in rest ==> m <= x;
    }
  }

  /** The smallest element of a non-empty set of page indices. */
  function MinKey(s: set<int>): (m: int)
    requires s != {}
    ensures m in s && forall x :: x in s ==> m <= x
  {
    MinExists(s);
    var m :| m in s && (forall x :: x in s ==> m <= x); m
  }

  /** `Array(keys).sorted()`: the keys in ascending order, each once. */
  function SortedKeys(s: set<int>): (r: seq<int>)
    ensures |r| == |s|
    ensures forall k :: k in s <==> k in r
    ensures StrictlyIncreasing(r)
    decreases |s|
  {
    if s == {} then []
    else
      var m := MinKey(s);
      var rest := SortedKeys(s - {m});
      assert forall k :: k in rest ==> m < k;
      [m] + rest
  }

  /** The keys `limitCacheSize` removes: the `count - 15` smallest, once the count exceeds 20. */
  function EvictedKeys(cache: map<int, Image>): set<int>
  {
    if |cache| > CacheLimit then
      Elems(SortedKeys(cache.Keys)[..|cache| - CacheTarget])
    else {}
  }

  /** The cache after `limitCacheSize`. */
  function Trimmed(cache: map<int, Image>): map<int, Image>
  {
    cache - EvictedKeys(cache)
  }

  /** A cache of at most 20 pages is left as it is. */
  lemma TrimmedSmallCacheUnchanged(cache: map<int, Image>)
    requires |cache| <= CacheLimit
    ensures Trimmed(cache) == cache
  {
    assert cache - {} == cache;
  }

  /** A cache of more than 20 pages is cut to exactly 15, all of them pages it held before, with their images. */
  lemma TrimmedLargeCacheSize(cache: map<int, Image>)
    requires |cache| > CacheLimit
    ensures |Trimmed(cache)| == CacheTarget
    ensures Trimmed(cache).Keys <= cache.Keys
    ensures forall k :: k in Trimmed(cache) ==> Trimmed(cache)[k] == cache[k]
  {
    var keys := SortedKeys(cache.Keys);
    var oldest := keys[..|cache| - CacheTarget];
    var evicted := Elems(oldest);
    assert StrictlyIncreasing(oldest);
    DistinctCardinality(oldest);
    assert evicted <= cache.Keys;
    assert Trimmed(cache).Keys == cache.Keys - evicted;
    assert |cache.Keys - evicted| == |cache.Keys| - |evicted|;
  }

  /** Every page that trimming drops has a smaller index than every page it keeps. */
  lemma TrimmedEvictsSmallest(cache: map<int, Image>)
    ensures forall e, k :: e in cache && e !in Trimmed(cache) && k in Trimmed(cache) ==> e < k
  {
    if |cache| > CacheLimit {
      var keys := SortedKeys(cache.Keys);
      var n := |cache| - CacheTarget;
      forall e, k | e in cache && e !in Trimmed(cache) && k in Trimmed(cache)
        ensures e < k
      {
        assert e in keys[..n];
        var i :| 0 <= i < n && keys[..n][i] == e;
        var j :| 0 <= j < |keys| && keys[j] == k;
        assert k !in keys[..n];
        assert j >= n;
      }
    }
  }

  /** Whatever was in the cache, a trimmed cache never holds more than 20 pages. */
  lemma TrimmedWithinLimit(cache: map<int, Image>)
    ensures |Trimmed(cache)| <= CacheLimit
  {
    if |cache| > CacheLimit {
      TrimmedLargeCacheSize(cache);
    } else {
      TrimmedSmallCacheUnchanged(cache);
    }
  }

  /** The lowest-indexed page is dropped by every trim, whichever page is on screen. */
  lemma LowestPageAlwaysEvicted(cache: map<int, Image>)
    requires |cache| > CacheLimit
    ensures MinKey(cache.Keys) !in Trimmed(cache)
  {
    var keys := SortedKeys(cache.Keys);
    assert keys[0] == MinKey(cache.Keys);
    assert keys[0] in keys[..|cache| - CacheTarget];
  }
}
