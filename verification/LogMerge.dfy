/** How a follower merges the entries of a request into its log store. */
module LogMerge {
  import opened Types
  import opened Entries
  import opened LogStore

  // ----- what the merge is

  /** How many entries of a request, from the front, carry the same terms as the log from position `p` on. */
  function Agreeing(log: seq<Entry>, p: nat, es: seq<Entry>): (c: nat)
    requires p <= |log|
    ensures c <= |es| && p + c <= |log|
    decreases |es|
  {
    if es == [] || p == |log| || log[p].term != es[0].term then 0 else 1 + Agreeing(log, p + 1, es[1..])
  }

  /** The entries counted agree, and the count stops only at an end or at a conflict of terms. */
  lemma {:induction false} AgreeingMeans(log: seq<Entry>, p: nat, es: seq<Entry>)
    requires p <= |log|
    ensures var c := Agreeing(log, p, es);
            && (forall i | 0 <= i < c :: log[p..p + c][i].term == es[i].term)
            && (c < |es| && p + c < |log| ==> log[p + c].term != es[c].term)
    decreases |es|
  {
    if es != [] && p < |log| && log[p].term == es[0].term {
      AgreeingMeans(log, p + 1, es[1..]);
      var c := Agreeing(log, p, es);
      assert forall i | 0 < i < c :: log[p..p + c][i] == log[p + 1..p + c][i - 1] && es[i] == es[1..][i - 1];
    }
  }

  /**
   A request whose terms all agree changes nothing; one that reaches beyond the
   log extends it; only a conflict of terms drops entries, and none before it.
   */
  lemma {:induction false} MergeMeans(log: seq<Entry>, p: nat, es: seq<Entry>)
    requires p <= |log|
    ensures var c, m := Agreeing(log, p, es), Merge(log, p, es);
            && (c == |es| ==> m == log)
            && (c < |es| && p + c == |log| ==> m == log + es[c..])
            && (c < |es| && p + c < |log| ==> log[p + c].term != es[c].term && m == log[..p + c] + es[c..])
    decreases |es|
  {
    AgreeingMeans(log, p, es);
    MergeCuts(log, p, es);
    assert log[..|log|] == log;
  }

  lemma {:induction false} MergeCuts(log: seq<Entry>, p: nat, es: seq<Entry>)
    requires p <= |log|
    ensures var c := Agreeing(log, p, es);
            Merge(log, p, es) == if c == |es| then log else log[..p + c] + es[c..]
    decreases |es|
  {
    if es != [] && p < |log| && log[p].term == es[0].term {
      var more := es[1..];
      MergeCuts(log, p + 1, more);
      var c := Agreeing(log, p + 1, more);
      assert more[c..] == es[c + 1..];
    } else {
      assert es[0..] == es;
    }
  }

  /** The slots of the request end up with its terms. */
  lemma MergedTerms(log: seq<Entry>, p: nat, es: seq<Entry>, i: nat)
    requires p <= |log| && i < |es|
    ensures p + i < |Merge(log, p, es)| && Merge(log, p, es)[p + i].term == es[i].term
  {
    var c := Agreeing(log, p, es);
    AgreeingMeans(log, p, es);
    MergeCuts(log, p, es);
    if i < c {
      assert log[p..p + c][i] == log[p + i];
    }
  }

  lemma SkipStep(log: seq<Entry>, k: nat, vs: seq<Entry>, i: nat)
    requires k < |log| && i < |vs| && log[k].term == vs[i].term
    ensures Merge(log, k, vs[i..]) == Merge(log, k + 1, vs[i + 1..])
  {
    assert vs[i..][0] == vs[i] && vs[i..][1..] == vs[i + 1..];
  }

  /** At the end of the log or at a conflict, what is there is cut off and the entries are put there. */
  lemma MergeHere(log: seq<Entry>, k: nat, es: seq<Entry>)
    requires k <= |log| && (es != [] && k < |log| ==> log[k].term != es[0].term)
    ensures Merge(log, k, es) == if es == [] then log else log[..k] + es
  {
  }

  lemma WriteStep(log: seq<Entry>, k: nat, vs: seq<Entry>, i: nat)
    requires k <= |log| && i < |vs| && (k < |log| ==> log[k].term != vs[i].term)
    ensures Merge(log, k, vs[i..]) == Merge(log[..k] + [vs[i]], k + 1, vs[i + 1..])
  {
    hide Merge;
    var cut, more := log[..k] + [vs[i]], vs[i + 1..];
    MergeHere(log, k, vs[i..]);
    MergeHere(cut, k + 1, more);
    assert vs[i..] == [vs[i]] + more;
    Regroup(log[..k], [vs[i]], more);
    assert cut[..k + 1] == cut && cut + [] == cut;
  }

  // ----- the three loops

  /** The entries' values, in order. */
  ghost predicate Values(es: seq<LogEntry>, vs: seq<Entry>)
    reads es, set e | e in es :: e.buf.raw
  {
    |es| == |vs| && forall i | 0 <= i < |es| :: es[i].Valid() && es[i].Value() == vs[i]
  }

  lemma ValueAt(es: seq<LogEntry>, vs: seq<Entry>, i: nat)
    requires Values(es, vs) && i < |es|
    ensures |es| == |vs| && es[i].Valid() && es[i].Value() == vs[i] && es[i].term == vs[i].term
  {
  }

  lemma ValuesSize(es: seq<LogEntry>, vs: seq<Entry>)
    requires Values(es, vs)
    ensures |es| == |vs| && vs[0..] == vs
  {
  }

  /** Steps over the entries whose terms agree. */
  method SkipAgreeing(store: Store, prev: nat, es: seq<LogEntry>, ghost vs: seq<Entry>) returns (index: nat, i: nat)
    requires store.Valid() && Values(es, vs)
    requires store.start <= prev + 1 <= store.start + |store.entries|
    ensures store.Valid() && i <= |es| && store.start <= index <= store.start + |store.entries|
    ensures Merge(store.entries, index - store.start, vs[i..]) == Merge(store.entries, prev + 1 - store.start, vs)
    ensures i < |es| && index < store.start + |store.entries| ==> store.entries[index - store.start].term != vs[i].term
  {
    hide *;
    ValuesSize(es, vs);
    index, i := prev + 1, 0;
    while index < store.NextSlot() && i < |es|
      invariant store.Valid() && i <= |es| && store.start <= index <= store.start + |store.entries|
      invariant Merge(store.entries, index - store.start, vs[i..]) == Merge(store.entries, prev + 1 - store.start, vs)
    {
      ValueAt(es, vs, i);
      if store.TermAtIndex(index) != es[i].term {
        return;
      }
      SkipStep(store.entries, index - store.start, vs, i);
      index, i := index + 1, i + 1;
    }
  }

  /** Overwrites while there is something to overwrite; the first write drops all that follows. */
  method Overwrite(store: Store, from: nat, i0: nat, es: seq<LogEntry>, ghost vs: seq<Entry>) returns (i: nat)
    requires store.Valid() && Values(es, vs)
    requires i0 <= |es| && store.start <= from <= store.start + |store.entries|
    requires i0 < |es| && from < store.start + |store.entries| ==> store.entries[from - store.start].term != vs[i0].term
    modifies store
    ensures fresh(store.repr - old(store.repr))
    ensures store.Valid() && store.start == old(store.start) && i <= |es|
    ensures store.start <= from + (i - i0) <= store.start + |store.entries|
    ensures i < |es| ==> from + (i - i0) == store.start + |store.entries|
    ensures Merge(store.entries, from + (i - i0) - store.start, vs[i..]) ==
            old(Merge(store.entries, from - store.start, vs[i0..]))
  {
    hide *;
    ValuesSize(es, vs);
    i := i0;
    var index := from;
    while index < store.NextSlot() && i < |es|
      invariant i0 <= i <= |es| && index == from + (i - i0) && store.start <= index <= store.start + |store.entries|
      invariant store.Valid() && store.start == old(store.start) && fresh(store.repr - old(store.repr))
      invariant Merge(store.entries, index - store.start, vs[i..]) ==
                old(Merge(store.entries, from - store.start, vs[i0..]))
      invariant index < store.start + |store.entries| && i < |es| ==>
                  store.entries[index - store.start].term != vs[i].term
      decreases |es| - i
    {
      ValueAt(es, vs, i);
      WriteStep(store.entries, index - store.start, vs, i);
      store.StartsAtOne();
      store.WriteAt(index, es[i]);
      index, i := index + 1, i + 1;
    }
  }

  method AppendRest(store: Store, i0: nat, es: seq<LogEntry>, ghost vs: seq<Entry>)
    requires store.Valid() && Values(es, vs) && i0 <= |es|
    modifies store
    ensures fresh(store.repr - old(store.repr))
    ensures store.Valid() && store.start == old(store.start) && store.entries == old(store.entries) + vs[i0..]
  {
    hide *;
    ValuesSize(es, vs);
    for i := i0 to |es|
      invariant store.Valid() && store.start == old(store.start) && fresh(store.repr - old(store.repr))
      invariant store.entries == old(store.entries) + vs[i0..i]
    {
      ValueAt(es, vs, i);
      var at := store.Append(es[i]);
    }
  }

  /** Skip what agrees, overwrite from the first conflict on, append the rest. */
  method MergeEntries(store: Store, prev: nat, es: seq<LogEntry>, ghost vs: seq<Entry>)
    requires store.Valid() && Values(es, vs)
    requires store.start <= prev + 1 <= store.start + |store.entries|
    modifies store
    ensures fresh(store.repr - old(store.repr))
    ensures store.Valid() && store.start == old(store.start)
    ensures store.entries == Merge(old(store.entries), prev + 1 - store.start, vs)
  {
    hide *;
    ValuesSize(es, vs);
    var index, i0 := SkipAgreeing(store, prev, es, vs);
    var i := Overwrite(store, index, i0, es, vs);
    MergeAtEnd(store.entries, index + (i - i0) - store.start, vs[i..]);
    AppendRest(store, i, es, vs);
  }

  lemma MergeAtEnd(log: seq<Entry>, p: nat, es: seq<Entry>)
    requires p <= |log| && (es == [] || p == |log|)
    ensures Merge(log, p, es) == log + es
  {
    assert p == |log| ==> log[..p] == log;
  }
}
