/**
 * Which pages the background preloader schedules, and in what order. A scheduled
 * page is added to the preload queue, and no page that is cached or already queued
 * is scheduled again, so each pass starts at most one background decode per page.
 *
 * - After the first page of a document is shown: the pages at distance 1, 2 and 3
 *   from it (after, then before), then every other page in ascending order.
 * - After any other page is shown: only the page before it and the page after it.
 */
module Preload {
  import opened Sequences

  /** The pages lo, lo + 1, ..., hi - 1 (empty when hi <= lo). */
  function Range(lo: int, hi: int): (r: seq<int>)
    ensures |r| == if hi <= lo then 0 else hi - lo
    ensures forall i :: 0 <= i < |r| ==> r[i] == lo + i
    decreases hi - lo
  {
    if hi <= lo then [] else Range(lo, hi - 1) + [hi - 1]
  }

  /**
   * One scheduling loop: the candidates are visited in order and a candidate is
   * scheduled when it is a page of the document, is not in `skip` (the cached pages,
   * plus whatever else the loop's guard excludes) and is not queued yet, queued
   * meaning in the queue before the loop or scheduled earlier by it.
   */
  function Admit(cands: seq<int>, total: int, skip: set<int>, queued: set<int>): seq<int>
    decreases |cands|
  {
    if cands == [] then []
    else
      var before := Admit(cands[..|cands| - 1], total, skip, queued);
      var p := cands[|cands| - 1];
      if 0 <= p < total && p !in skip && p !in queued && p !in before then before + [p] else before
  }

  /** What one scheduling loop admits, in which order, and that it admits each page once. */
  lemma {:induction false} AdmitSpec(cands: seq<int>, total: int, skip: set<int>, queued: set<int>, key: int -> int)
    ensures forall p :: p in Admit(cands, total, skip, queued) <==>
      p in cands && 0 <= p < total && p !in skip && p !in queued
    ensures Distinct(Admit(cands, total, skip, queued))
    ensures IncreasingBy(cands, key) ==> IncreasingBy(Admit(cands, total, skip, queued), key)
    decreases |cands|
  {
    if cands != [] {
      var init := cands[..|cands| - 1];
      var p := cands[|cands| - 1];
      AdmitSpec(init, total, skip, queued, key);
      assert cands == init + [p];
      if IncreasingBy(cands, key) {
        assert IncreasingBy(init, key);
        var before := Admit(init, total, skip, queued);
        forall q | q in before
          ensures key(q) < key(p)
        {
          var i :| 0 <= i < |init| && init[i] == q;
          assert cands[i] == q;
        }
      }
    }
  }

  /** The six neighbours of the start page, nearest first, the later page before the earlier. */
  function NearbyCandidates(start: int): seq<int>
  {
    [start + 1, start - 1, start + 2, start - 2, start + 3, start - 3]
  }

  /** `filter { $0 >= 0 && $0 < totalPages && $0 != startPage }` */
  function InDocument(cands: seq<int>, total: int, start: int): seq<int>
  {
    if cands == [] then []
    else if 0 <= cands[0] < total && cands[0] != start then [cands[0]] + InDocument(cands[1..], total, start)
    else InDocument(cands[1..], total, start)
  }

  /** The filter keeps exactly the candidates that are pages of the document other than the start page, in order. */
  lemma {:induction false} InDocumentSpec(cands: seq<int>, total: int, start: int, key: int -> int)
    ensures forall p :: p in InDocument(cands, total, start) <==> p in cands && 0 <= p < total && p != start
    ensures IncreasingBy(cands, key) ==> IncreasingBy(InDocument(cands, total, start), key)
  {
    if cands != [] {
      var tail := cands[1..];
      InDocumentSpec(tail, total, start, key);
      assert cands == [cands[0]] + tail;
      if IncreasingBy(cands, key) {
        assert IncreasingBy(tail, key);
        forall q | q in InDocument(tail, total, start)
          ensures key(cands[0]) < key(q)
        {
          var i :| 0 <= i < |tail| && tail[i] == q;
          assert cands[i + 1] == q;
        }
      }
    }
  }

  /** Position of a neighbour in the order +1, -1, +2, -2, +3, -3. */
  function NearRank(start: int, p: int): int
  {
    if p > start then 2 * (p - start) - 1 else 2 * (start - p)
  }

  /** `nearbyPages` in `startBackgroundPreloading`. */
  function NearbyPages(start: int, total: int): (r: seq<int>)
    ensures forall p :: p in r <==> 0 <= p < total && p != start && start - 3 <= p <= start + 3
    ensures IncreasingBy(r, p => NearRank(start, p))
  {
    var cands := NearbyCandidates(start);
    assert IncreasingBy(cands, p => NearRank(start, p));
    assert forall p :: p in cands <==> p != start && start - 3 <= p <= start + 3;
    InDocumentSpec(cands, total, start, p => NearRank(start, p));
    InDocument(cands, total, start)
  }

  /** The pages the first loop of `startBackgroundPreloading` schedules. */
  function NearbyScheduled(start: int, total: int, cached: set<int>, queued: set<int>): seq<int>
  {
    Admit(NearbyPages(start, total), total, cached, queued)
  }

  /**
   * The pages the second loop schedules: the whole document in ascending order,
   * skipping the start page, the nearby pages, the cached pages and the queued ones.
   */
  function SweepScheduled(start: int, total: int, cached: set<int>, queued: set<int>): seq<int>
  {
    var nearby := NearbyPages(start, total);
    Admit(Range(0, total), total, cached + {start} + Elems(nearby),
          queued + Elems(NearbyScheduled(start, total, cached, queued)))
  }

  /** Everything one `startBackgroundPreloading` pass schedules, in order. */
  function PreloadPass(start: int, total: int, cached: set<int>, queued: set<int>): seq<int>
  {
    NearbyScheduled(start, total, cached, queued) + SweepScheduled(start, total, cached, queued)
  }

  /** The nearby loop schedules, nearest first, the uncached and unqueued pages within distance 3. */
  lemma NearbyScheduledSpec(start: int, total: int, cached: set<int>, queued: set<int>)
    ensures forall p :: p in NearbyScheduled(start, total, cached, queued) <==>
      0 <= p < total && p != start && start - 3 <= p <= start + 3 && p !in cached && p !in queued
    ensures IncreasingBy(NearbyScheduled(start, total, cached, queued), p => NearRank(start, p))
  {
    AdmitSpec(NearbyPages(start, total), total, cached, queued, p => NearRank(start, p));
  }

  /** The sweep schedules the remaining pages in ascending order, none of them within distance 3. */
  lemma SweepScheduledSpec(start: int, total: int, cached: set<int>, queued: set<int>)
    ensures forall p :: p in SweepScheduled(start, total, cached, queued) <==>
      0 <= p < total && (p < start - 3 || start + 3 < p) && p !in cached && p !in queued
    ensures IncreasingBy(SweepScheduled(start, total, cached, queued), p => p)
  {
    var nearby := NearbyPages(start, total);
    var first := NearbyScheduled(start, total, cached, queued);
    NearbyScheduledSpec(start, total, cached, queued);
    var all := Range(0, total);
    var skip := cached + {start} + Elems(nearby);
    var q := queued + Elems(first);
    var r := Admit(all, total, skip, q);
    assert r == SweepScheduled(start, total, cached, queued);
    assert IncreasingBy(all, p => p);
    AdmitSpec(all, total, skip, q, p => p);
    forall p
      ensures p in r <==> 0 <= p < total && (p < start - 3 || start + 3 < p) && p !in cached && p !in queued
    {
      if 0 <= p < total {
        assert all[p] == p;
      }
      assert p in Elems(nearby) <==> p in nearby;
      assert p in Elems(first) <==> p in first;
    }
  }

  /**
   * A whole pass schedules every page of the document that is not the start page,
   * not cached and not queued, each exactly once; the nearby pages come first.
   */
  lemma PreloadPassSpec(start: int, total: int, cached: set<int>, queued: set<int>)
    ensures forall p :: p in PreloadPass(start, total, cached, queued) <==>
      0 <= p < total && p != start && p !in cached && p !in queued
    ensures Distinct(PreloadPass(start, total, cached, queued))
  {
    var first := NearbyScheduled(start, total, cached, queued);
    var second := SweepScheduled(start, total, cached, queued);
    NearbyScheduledSpec(start, total, cached, queued);
    SweepScheduledSpec(start, total, cached, queued);
    AdmitSpec(NearbyPages(start, total), total, cached, queued, p => p);
    AdmitSpec(Range(0, total), total, cached + {start} + Elems(NearbyPages(start, total)),
              queued + Elems(first), p => p);
    var r := first + second;
    forall i, j | 0 <= i < j < |r|
      ensures r[i] != r[j]
    {
      if j >= |first| && i < |first| {
        assert r[i] in first;
        assert r[j] in second;
      }
    }
  }

  /** `schedulePreloadAdjacentPages(around:)`: the page before and the page after. */
  function AdjacentScheduled(center: int, total: int, cached: set<int>, queued: set<int>): seq<int>
  {
    Admit([center - 1, center + 1], total, cached, queued)
  }

  /** Only the in-range, uncached, unqueued neighbours c - 1 and c + 1 are scheduled, the earlier one first. */
  lemma AdjacentScheduledSpec(center: int, total: int, cached: set<int>, queued: set<int>)
    ensures forall p :: p in AdjacentScheduled(center, total, cached, queued) <==>
      (p == center - 1 || p == center + 1) && 0 <= p < total && p !in cached && p !in queued
    ensures IncreasingBy(AdjacentScheduled(center, total, cached, queued), p => p)
  {
    AdmitSpec([center - 1, center + 1], total, cached, queued, p => p);
  }
}
