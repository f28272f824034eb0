/** Small facts about sequences of page indices shared by the cache, preload and batching modules. */
module Sequences {

  /** The set of pages in a list. */
  function Elems(s: seq<int>): set<int>
  {
    set p | p in s
  }

  predicate Distinct(s: seq<int>) {
    forall i, j :: 0 <= i < j < |s| ==> s[i] != s[j]
  }

  /** `s` is strictly increasing under `key`. */
  predicate IncreasingBy(s: seq<int>, key: int -> int) {
    forall i, j :: 0 <= i < j < |s| ==> key(s[i]) < key(s[j])
  }

  predicate StrictlyIncreasing(s: seq<int>) {
    forall i, j :: 0 <= i < j < |s| ==> s[i] < s[j]
  }

  /** A list without repetitions has as many elements as its set. */
  lemma {:induction false} DistinctCardinality(s: seq<int>)
    requires Distinct(s)
    ensures |Elems(s)| == |s|
  {
    if s != [] {
      var tail := s[1..];
      DistinctCardinality(tail);
      assert Elems(s) == {s[0]} + Elems(tail);
      assert s[0] !in Elems(tail);
    }
  }
}
