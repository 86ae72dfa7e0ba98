/** An in-memory collection: a map from store-assigned ids to records, with ids handed
    out by a counter, and the `find(query)` scan over it in id (insertion) order. */
module Store {
  import opened Common

  /** Every id in use was handed out by the allocator before it reached `n`. */
  ghost predicate Bounded<V>(store: map<Id, V>, n: nat)
  {
    forall id :: id in store ==> id < n
  }

  predicate Increasing(ids: seq<Id>)
  {
    forall i, j :: 0 <= i < j < |ids| ==> ids[i] < ids[j]
  }

  /** The ids of all records that satisfy `keep`. */
  ghost function Matching<V>(store: map<Id, V>, keep: V -> bool): set<Id>
  {
    set id | id in store && keep(store[id])
  }

  /** `find(query)`: the ids below `n` whose records the query admits, in id order. */
  function SelectIds<V>(store: map<Id, V>, keep: V -> bool, n: nat): (ids: seq<Id>)
    ensures Increasing(ids)
    ensures forall k :: 0 <= k < |ids| ==> ids[k] < n && ids[k] in store && keep(store[ids[k]])
    ensures forall id :: id < n && id in store && keep(store[id]) ==> id in ids
  {
    if n == 0 then []
    else
      var prev := SelectIds(store, keep, n - 1);
      if n - 1 in store && keep(store[n - 1]) then prev + [n - 1] else prev
  }

  /** Ids below `n` that the query admits. */
  ghost function MatchingBelow<V>(store: map<Id, V>, keep: V -> bool, n: nat): set<Id>
  {
    set id | id in store && id < n && keep(store[id])
  }

  lemma {:induction false} SelectCountBelow<V>(store: map<Id, V>, keep: V -> bool, n: nat)
    ensures |SelectIds(store, keep, n)| == |MatchingBelow(store, keep, n)|
  {
    if n == 0 {
      assert MatchingBelow(store, keep, 0) == {};
    } else {
      SelectCountBelow(store, keep, n - 1);
      var prev := MatchingBelow(store, keep, n - 1);
      if n - 1 in store && keep(store[n - 1]) {
        assert MatchingBelow(store, keep, n) == prev + {n - 1};
        assert n - 1 !in prev;
      } else {
        assert MatchingBelow(store, keep, n) == prev;
      }
    }
  }

  /** `countDocuments(query)`: with every id below the allocator's counter, the scan
      returns each matching record exactly once, so its length is the number of matches. */
  lemma SelectCount<V>(store: map<Id, V>, keep: V -> bool, n: nat)
    requires Bounded(store, n)
    ensures |SelectIds(store, keep, n)| == |Matching(store, keep)|
  {
    SelectCountBelow(store, keep, n);
    assert MatchingBelow(store, keep, n) == Matching(store, keep);
  }
}
