/**
 * Filling the continuous (scrolling) view: copying what the cache already holds,
 * finding the pages still missing, and cutting that list into the batches of
 * three pages that are decoded together.
 */
module ContinuousFill {
  import opened Sequences
  import opened PageCache

  /** Pages decoded together in one batch. */
  const BatchSize: nat := 3

  /** The cached pages that `populateContinuousFromCache` copies: those with an index in [0, total). */
  function CachedInRange(cache: map<int, Image>, total: int): (r: map<int, Image>)
    ensures forall k :: k in r <==> k in cache && 0 <= k < total
    ensures forall k :: k in r ==> r[k] == cache[k]
  {
    map k | k in cache && 0 <= k < total :: cache[k]
  }

  /** Widening the range by page n adds page n exactly when it is cached. */
  lemma CachedInRangeExtend(cache: map<int, Image>, n: int)
    requires n >= 0
    ensures n !in CachedInRange(cache, n)
    ensures n in cache ==> CachedInRange(cache, n + 1) == CachedInRange(cache, n)[n := cache[n]]
    ensures n !in cache ==> CachedInRange(cache, n + 1) == CachedInRange(cache, n)
  {
  }

  /** `(0..<n).filter { shown[$0] == nil }`: the pages missing from the view, in ascending order. */
  function PagesToLoad(n: int, shown: map<int, Image>): seq<int>
    decreases n
  {
    if n <= 0 then []
    else PagesToLoad(n - 1, shown) + (if n - 1 !in shown then [n - 1] else [])
  }

  lemma {:induction false} PagesToLoadSpec(n: int, shown: map<int, Image>)
    ensures forall p :: p in PagesToLoad(n, shown) <==> 0 <= p < n && p !in shown
    ensures StrictlyIncreasing(PagesToLoad(n, shown))
    decreases n
  {
    if n > 0 {
      PagesToLoadSpec(n - 1, shown);
      var before := PagesToLoad(n - 1, shown);
      var r := PagesToLoad(n, shown);
      assert forall p :: p in before ==> p < n - 1;
      forall i, j | 0 <= i < j < |r|
        ensures r[i] < r[j]
      {
        if j >= |before| {
          assert r[i] == before[i];
          assert before[i] in before;
        }
      }
    }
  }

  /** `(count + batchSize - 1) / batchSize`. */
  function BatchCount(n: nat): nat
  {
    (n + BatchSize - 1) / BatchSize
  }

  /** `pagesToLoad[startIndex..<min(startIndex + batchSize, count)]` for batch number `b`. */
  function Batch(pages: seq<int>, b: nat): seq<int>
    requires b < BatchCount(|pages|)
  {
    var startIndex := b * BatchSize;
    var endIndex := if startIndex + BatchSize < |pages| then startIndex + BatchSize else |pages|;
    pages[startIndex..endIndex]
  }

  /** All the batches of `loadAllPagesForContinuousView`, in the order they are run. */
  function Batches(pages: seq<int>): seq<seq<int>>
  {
    seq(BatchCount(|pages|), b requires 0 <= b < BatchCount(|pages|) => Batch(pages, b))
  }

  function Flatten(bs: seq<seq<int>>): seq<int>
  {
    if bs == [] then [] else bs[0] + Flatten(bs[1..])
  }

  /** Removing the first full batch leaves the batches of the rest of the list. */
  lemma BatchesShift(pages: seq<int>)
    requires |pages| > BatchSize
    ensures Batches(pages) == [pages[..BatchSize]] + Batches(pages[BatchSize..])
  {
    var rest := pages[BatchSize..];
    assert BatchCount(|pages|) == BatchCount(|rest|) + 1;
    forall b | 0 <= b < BatchCount(|rest|)
      ensures Batches(pages)[b + 1] == Batches(rest)[b]
    {
      assert (b + 1) * BatchSize == b * BatchSize + BatchSize;
    }
  }

  /**
   * There are ceil(n / 3) batches, each of one to three pages, and read one after
   * the other they give back exactly the list of pages to load.
   */
  lemma {:induction false} BatchesSpec(pages: seq<int>)
    ensures |Batches(pages)| == BatchCount(|pages|)
    ensures BatchSize * |Batches(pages)| - BatchSize < |pages| <= BatchSize * |Batches(pages)|
            || (pages == [] && Batches(pages) == [])
    ensures forall b :: 0 <= b < |Batches(pages)| ==> 1 <= |Batches(pages)[b]| <= BatchSize
    ensures Flatten(Batches(pages)) == pages
    decreases |pages|
  {
    if |pages| > BatchSize {
      BatchesShift(pages);
      BatchesSpec(pages[BatchSize..]);
      assert pages[..BatchSize] + pages[BatchSize..] == pages;
    } else if pages != [] {
      assert BatchCount(|pages|) == 1;
      assert Batch(pages, 0) == pages;
      assert Batches(pages) == [pages];
      assert Flatten([pages]) == pages + Flatten([]);
    }
  }
}
