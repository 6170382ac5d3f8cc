/**
 * A collection of the content store is a map from document id to document.
 * Ids are handed out in increasing order, so id order is the collection's
 * natural (insertion) order, the order an unsorted query returns.
 */
module Collections {
  import opened Wrappers

  type Id = nat

  predicate AllBelow<T>(m: map<Id, T>, bound: nat) {
    forall id :: id in m ==> id < bound
  }

  predicate Increasing(s: seq<Id>) {
    forall i, j :: 0 <= i < j < |s| ==> s[i] < s[j]
  }

  /** The ids below `bound` whose document satisfies `keep`, in increasing order. */
  function MatchingIds<T>(m: map<Id, T>, keep: T -> bool, bound: nat): (r: seq<Id>)
    ensures forall i :: 0 <= i < |r| ==> r[i] < bound && r[i] in m && keep(m[r[i]])
    ensures forall id :: id < bound && id in m && keep(m[id]) ==> id in r
    ensures Increasing(r)
  {
    if bound == 0 then []
    else
      var rest := MatchingIds(m, keep, bound - 1);
      if bound - 1 in m && keep(m[bound - 1]) then rest + [bound - 1] else rest
  }

  /** The documents with the given ids, in that order. */
  function Select<T>(m: map<Id, T>, ids: seq<Id>): (r: seq<T>)
    requires forall i :: 0 <= i < |ids| ==> ids[i] in m
    ensures |r| == |ids|
    ensures forall i :: 0 <= i < |ids| ==> r[i] == m[ids[i]]
  {
    seq(|ids|, i requires 0 <= i < |ids| => m[ids[i]])
  }

  /** An unsorted query: the documents satisfying `keep`, in natural order. */
  function Find<T(==)>(m: map<Id, T>, keep: T -> bool, bound: nat): (r: seq<T>)
    requires AllBelow(m, bound)
    ensures forall i :: 0 <= i < |r| ==> keep(r[i]) && r[i] in m.Values
    ensures forall id :: id in m && keep(m[id]) ==> m[id] in r
  {
    var ids := MatchingIds(m, keep, bound);
    var r := Select(m, ids);
    assert forall i :: 0 <= i < |r| ==> r[i] in m.Values by {
      forall i | 0 <= i < |r| ensures r[i] in m.Values {
        assert ids[i] in m && r[i] == m[ids[i]];
      }
    }
    assert forall id :: id in m && keep(m[id]) ==> m[id] in r by {
      forall id | id in m && keep(m[id]) ensures m[id] in r {
        var k :| 0 <= k < |ids| && ids[k] == id;
        assert r[k] == m[id];
      }
    }
    r
  }

  /** `findOne`: the first matching id in natural order. */
  function FindFirst<T>(m: map<Id, T>, keep: T -> bool, bound: nat): (r: Option<Id>)
    ensures r.Some? ==> r.value < bound && r.value in m && keep(m[r.value])
    ensures r.Some? ==> forall id :: id < r.value && id in m ==> !keep(m[id])
    ensures r.None? ==> forall id :: id < bound && id in m ==> !keep(m[id])
  {
    var ids := MatchingIds(m, keep, bound);
    if ids == [] then None else Some(ids[0])
  }

  /** Two collections that agree below `bound` give the same query result there. */
  lemma {:induction false} MatchingIdsAgree<T>(m1: map<Id, T>, m2: map<Id, T>, keep: T -> bool, bound: nat)
    requires forall id :: id < bound ==> (id in m1 <==> id in m2)
    requires forall id :: id < bound && id in m1 ==> keep(m1[id]) == keep(m2[id])
    ensures MatchingIds(m1, keep, bound) == MatchingIds(m2, keep, bound)
  {
    if bound > 0 {
      MatchingIdsAgree(m1, m2, keep, bound - 1);
    }
  }

  /** Raising the bound past ids whose documents do not match changes nothing. */
  lemma {:induction false} MatchingIdsNoneBeyond<T>(m: map<Id, T>, keep: T -> bool, low: nat, high: nat)
    requires low <= high
    requires forall id :: low <= id < high && id in m ==> !keep(m[id])
    ensures MatchingIds(m, keep, high) == MatchingIds(m, keep, low)
  {
    if low < high {
      MatchingIdsNoneBeyond(m, keep, low, high - 1);
    }
  }

  /**
   * Inserting, under the next id, a document the query does not match leaves
   * the query's result as it was.
   */
  lemma FindIgnoresUnmatchedInsert<T>(m: map<Id, T>, keep: T -> bool, bound: nat, x: T)
    requires AllBelow(m, bound)
    requires !keep(x)
    ensures Find(m[bound := x], keep, bound + 1) == Find(m, keep, bound)
  {
    var after := m[bound := x];
    MatchingIdsNoneBeyond(after, keep, bound, bound + 1);
    MatchingIdsAgree(after, m, keep, bound);
    var ids := MatchingIds(m, keep, bound);
    assert Select(after, ids) == Select(m, ids);
  }
}
