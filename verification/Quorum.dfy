/**
 The two order statistics the leader relies on: the index that a majority holds,
 and the time since which a majority has answered.
 */
module Quorum {
  import opened Types

  // ----- sorting

  predicate Before(a: int, b: int, descending: bool) { if descending then a >= b else a <= b }

  predicate Sorted(s: seq<int>, descending: bool) {
    forall i, j | 0 <= i < j < |s| :: Before(s[i], s[j], descending)
  }

  function Insert(x: int, s: seq<int>, descending: bool): seq<int> {
    if s == [] || Before(x, s[0], descending) then [x] + s
    else [s[0]] + Insert(x, s[1..], descending)
  }

  function Sort(s: seq<int>, descending: bool): seq<int> {
    if s == [] then [] else Insert(s[0], Sort(s[1..], descending), descending)
  }

  /** How many elements are at least `v`. */
  function CountGE(s: seq<int>, v: int): nat {
    if s == [] then 0 else (if s[0] >= v then 1 else 0) + CountGE(s[1..], v)
  }

  lemma {:induction false} InsertPermutes(x: int, s: seq<int>, descending: bool)
    ensures multiset(Insert(x, s, descending)) == multiset(s) + multiset{x}
    ensures |Insert(x, s, descending)| == |s| + 1
  {
    if s == [] || Before(x, s[0], descending) {
    } else {
      InsertPermutes(x, s[1..], descending);
      assert s == [s[0]] + s[1..];
    }
  }

  lemma {:induction false} InsertSorted(x: int, s: seq<int>, descending: bool)
    requires Sorted(s, descending)
    ensures Sorted(Insert(x, s, descending), descending)
  {
    if s == [] || Before(x, s[0], descending) {
    } else {
      InsertSorted(x, s[1..], descending);
      InsertPermutes(x, s[1..], descending);
      var r := Insert(x, s[1..], descending);
      forall k | 0 <= k < |r| ensures Before(s[0], r[k], descending) {
        assert r[k] in multiset(r);
      }
    }
  }

  lemma {:induction false} InsertCount(x: int, s: seq<int>, descending: bool, v: int)
    ensures CountGE(Insert(x, s, descending), v) == (if x >= v then 1 else 0) + CountGE(s, v)
  {
    if s == [] || Before(x, s[0], descending) {
      assert ([x] + s)[1..] == s;
    } else {
      InsertCount(x, s[1..], descending, v);
      assert ([s[0]] + Insert(x, s[1..], descending))[1..] == Insert(x, s[1..], descending);
    }
  }

  /** `Sort` sorts: in order, and a permutation. */
  lemma {:induction false} SortSorts(s: seq<int>, descending: bool)
    ensures Sorted(Sort(s, descending), descending)
    ensures multiset(Sort(s, descending)) == multiset(s) && |Sort(s, descending)| == |s|
  {
    if s != [] {
      SortSorts(s[1..], descending);
      InsertSorted(s[0], Sort(s[1..], descending), descending);
      InsertPermutes(s[0], Sort(s[1..], descending), descending);
      assert s == [s[0]] + s[1..];
    }
  }

  lemma {:induction false} SortCount(s: seq<int>, descending: bool, v: int)
    ensures CountGE(Sort(s, descending), v) == CountGE(s, v)
  {
    if s != [] {
      SortCount(s[1..], descending, v);
      InsertCount(s[0], Sort(s[1..], descending), descending, v);
    }
  }

  /**
   Position `k` of a descending sequence separates the values that `k + 1`
   elements reach from those that at most `k` do.
   */
  lemma {:induction false} DescendingCounts(s: seq<int>, k: nat)
    requires Sorted(s, true) && k < |s|
    ensures CountGE(s, s[k]) >= k + 1
    ensures forall v | v > s[k] :: CountGE(s, v) <= k
  {
    if k == 0 {
      forall v | v > s[0] ensures CountGE(s, v) == 0 {
        NoneGE(s, v);
      }
    } else {
      DescendingCounts(s[1..], k - 1);
    }
  }

  lemma {:induction false} NoneGE(s: seq<int>, v: int)
    requires forall k | 0 <= k < |s| :: s[k] < v
    ensures CountGE(s, v) == 0
  {
    if s != [] {
      NoneGE(s[1..], v);
    }
  }

  /** In an ascending sequence the elements from `k` on, and only they can, reach `s[k]`. */
  lemma {:induction false} AscendingCounts(s: seq<int>, k: nat)
    requires Sorted(s, false) && k < |s|
    ensures CountGE(s, s[k]) >= |s| - k
    ensures forall v | v > s[k] :: CountGE(s, v) <= |s| - k - 1
  {
    if k == 0 {
      AllGE(s, s[0]);
      forall v | v > s[0] ensures CountGE(s, v) <= |s| - 1 {
        CountBound(s[1..], v);
      }
    } else {
      AscendingCounts(s[1..], k - 1);
    }
  }

  lemma {:induction false} AllGE(s: seq<int>, v: int)
    requires forall k | 0 <= k < |s| :: s[k] >= v
    ensures CountGE(s, v) == |s|
  {
    if s != [] {
      AllGE(s[1..], v);
    }
  }

  lemma {:induction false} CountBound(s: seq<int>, v: int)
    ensures CountGE(s, v) <= |s|
  {
    if s != [] {
      CountBound(s[1..], v);
    }
  }

  // ----- the commit index

  function AtLeast(matched: map<Id, nat>, v: int): set<Id> {
    set j | j in matched && matched[j] >= v
  }

  /** How many of the servers, this one included, hold the log up to `v`. */
  function Holders(own: int, matched: map<Id, nat>, v: int): nat {
    |AtLeast(matched, v)| + (if own >= v then 1 else 0)
  }

  /** `v` is the largest index that a strict majority holds. */
  ghost predicate IsQuorumIndex(own: int, matched: map<Id, nat>, v: int) {
    && 2 * Holders(own, matched, v) > |matched| + 1
    && (forall w | w > v :: 2 * Holders(own, matched, w) <= |matched| + 1)
  }

  /** `xs` lists the values of `matched`, in any order. */
  ghost predicate Lists(xs: seq<int>, matched: map<Id, nat>) {
    |xs| == |matched| && (forall v :: CountGE(xs, v) == |AtLeast(matched, v)|)
  }

  /** The descending sort at half the cluster size picks the quorum index, for every cluster size. */
  lemma CommitPick(own: int, xs: seq<int>, matched: map<Id, nat>)
    requires Lists(xs, matched)
    ensures |Sort([own] + xs, true)| == |xs| + 1
    ensures IsQuorumIndex(own, matched, Sort([own] + xs, true)[(|xs| + 1) / 2])
    ensures own >= 0 && (forall k | 0 <= k < |xs| :: xs[k] >= 0) ==> Sort([own] + xs, true)[(|xs| + 1) / 2] >= 0
  {
    hide Sort;
    var all := [own] + xs;
    var k := |all| / 2;
    SortSorts(all, true);
    DescendingCounts(Sort(all, true), k);
    assert all[1..] == xs;
    forall v ensures CountGE(Sort(all, true), v) == Holders(own, matched, v) {
      SortCount(all, true, v);
    }
    assert Sort(all, true)[k] in multiset(all);
  }

  lemma QuorumIndexUnique(own: int, matched: map<Id, nat>, v: int, w: int)
    requires IsQuorumIndex(own, matched, v) && IsQuorumIndex(own, matched, w)
    ensures v == w
  {
  }

  lemma AtLeastOne(matched: map<Id, nat>, j: Id, x: nat, v: int)
    requires j !in matched
    ensures |AtLeast(matched[j := x], v)| == |AtLeast(matched, v)| + (if x >= v then 1 else 0)
  {
    var s := AtLeast(matched, v);
    assert AtLeast(matched[j := x], v) == if x >= v then s + {j} else s;
  }

  lemma ListsNone()
    ensures Lists([], map[])
  {
    assert forall v :: AtLeast(map[], v) == {};
  }

  lemma ListsSize(xs: seq<int>, matched: map<Id, nat>)
    requires Lists(xs, matched)
    ensures |xs| == |matched| == |matched.Keys|
  {
  }

  /** Going through the peers one by one lists their values. */
  lemma ListsOne(xs: seq<int>, matched: map<Id, nat>, j: Id, x: nat)
    requires Lists(xs, matched) && j !in matched
    ensures Lists([x] + xs, matched[j := x])
  {
    assert matched[j := x].Keys == matched.Keys + {j};
    forall v ensures CountGE([x] + xs, v) == |AtLeast(matched[j := x], v)| {
      AtLeastOne(matched, j, x, v);
      assert ([x] + xs)[1..] == xs;
    }
  }

  lemma {:induction false} SomeListing(matched: map<Id, nat>) returns (xs: seq<int>)
    ensures Lists(xs, matched) && forall k | 0 <= k < |xs| :: xs[k] >= 0
    decreases |matched|
  {
    var keys := matched.Keys;
    if keys == {} {
      xs := [];
      assert forall v :: AtLeast(matched, v) <= keys;
    } else {
      assert (forall j :: j !in keys) ==> keys == {};
      var j :| j in keys;
      var smaller := matched - {j};
      assert smaller.Keys == keys - {j};
      var ys := SomeListing(smaller);
      ListsOne(ys, smaller, j, matched[j]);
      assert smaller[j := matched[j]] == matched;
      xs := [matched[j]] + ys;
    }
  }

  lemma QuorumIndexExists(own: nat, matched: map<Id, nat>)
    ensures exists v: nat :: IsQuorumIndex(own, matched, v)
  {
    var xs := SomeListing(matched);
    CommitPick(own, xs, matched);
    var v: nat := Sort([own] + xs, true)[(|xs| + 1) / 2];
    assert IsQuorumIndex(own, matched, v);
  }

  ghost function QuorumIndex(own: nat, matched: map<Id, nat>): (v: nat)
    ensures IsQuorumIndex(own, matched, v)
  {
    QuorumIndexExists(own, matched);
    var v: nat :| IsQuorumIndex(own, matched, v);
    v
  }

  // ----- the lease

  /**
   The ascending sort of the peers' last answers at half their number picks the
   latest time since which a strict majority of the cluster, counting the
   leader itself, has answered.
   */
  lemma LeasePick(times: seq<int>)
    requires times != []
    ensures |Sort(times, false)| == |times|
    ensures var t := Sort(times, false)[|times| / 2];
            && 2 * (CountGE(times, t) + 1) > |times| + 1
            && (forall u | u > t :: 2 * (CountGE(times, u) + 1) <= |times| + 1)
  {
    SortSorts(times, false);
    AscendingCounts(Sort(times, false), |times| / 2);
    forall v ensures CountGE(Sort(times, false), v) == CountGE(times, v) {
      SortCount(times, false, v);
    }
  }
}
