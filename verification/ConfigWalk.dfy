/**
 Which configuration a snapshot records: the walk back from the current
 configuration along the links that each configuration keeps to its predecessor.
 */
module ConfigWalk {
  import opened Types
  import opened Codec
  import opened Entries
  import opened LogStore
  import opened Serializer

  /** The configuration in slot `index` of a log that starts at `start`. */
  function ConfigAt(log: seq<Entry>, start: nat, index: nat): Option<ClusterConfig>
    requires start <= index < start + |log|
  {
    var (c, _) :- DecodeConfig(log[index - start].data);
    Some(c)
  }

  /**
   Every configuration points at an earlier one, which, if it is still in the
   log, knows its own index. A configuration that was never logged has index 0.
   */
  predicate Linked(log: seq<Entry>, start: nat, c: ClusterConfig)
    decreases c.logIdx
  {
    if c.prevLogIdx < start then c.logIdx == 0 || c.prevLogIdx < c.logIdx
    else
      && c.prevLogIdx < c.logIdx && c.prevLogIdx < start + |log|
      && var d := ConfigAt(log, start, c.prevLogIdx);
         d.Some? && d.value.logIdx == c.prevLogIdx && Linked(log, start, d.value)
  }

  function Previous(log: seq<Entry>, start: nat, c: ClusterConfig): ClusterConfig
    requires Linked(log, start, c) && c.prevLogIdx >= start
  {
    ConfigAt(log, start, c.prevLogIdx).value
  }

  /** `m` is `c` or one of its predecessors in the log. */
  predicate OnChain(log: seq<Entry>, start: nat, c: ClusterConfig, m: ClusterConfig)
    requires Linked(log, start, c)
    decreases c.logIdx
  {
    m == c || (c.prevLogIdx >= start && OnChain(log, start, Previous(log, start, c), m))
  }

  /** The newest configuration of the chain that is not newer than `index`. */
  ghost predicate InForce(log: seq<Entry>, start: nat, c: ClusterConfig, index: nat, m: ClusterConfig)
    requires Linked(log, start, c)
  {
    && OnChain(log, start, c, m) && m.logIdx <= index
    && (forall x | OnChain(log, start, c, x) && x.logIdx <= index :: x.logIdx <= m.logIdx)
  }

  /** Every configuration that can be read points into the log or before it, and the one found there is older. */
  predicate Descends(log: seq<Entry>, start: nat, c: ClusterConfig)
    decreases c.logIdx
  {
    c.prevLogIdx >= start ==>
      && c.prevLogIdx < start + |log|
      && var d := ConfigAt(log, start, c.prevLogIdx);
         d.Some? ==> d.value.logIdx < c.logIdx && Descends(log, start, d.value)
  }

  lemma {:induction false} LinkedDescends(log: seq<Entry>, start: nat, c: ClusterConfig)
    requires Linked(log, start, c)
    ensures Descends(log, start, c)
    decreases c.logIdx
  {
    if c.prevLogIdx >= start {
      LinkedDescends(log, start, Previous(log, start, c));
    }
  }

  /** Where the walk ends; nowhere if it comes to an entry that cannot be read. */
  function Walk(log: seq<Entry>, start: nat, c: ClusterConfig, index: nat): Option<ClusterConfig>
    requires Descends(log, start, c)
    decreases c.logIdx
  {
    if c.logIdx > index && c.prevLogIdx >= start then
      var d :- ConfigAt(log, start, c.prevLogIdx);
      Walk(log, start, d, index)
    else Some(c)
  }

  lemma {:induction false} ChainDescends(log: seq<Entry>, start: nat, c: ClusterConfig, m: ClusterConfig)
    requires Linked(log, start, c) && OnChain(log, start, c, m)
    ensures m.logIdx <= c.logIdx && (m.logIdx == c.logIdx ==> m == c)
    decreases c.logIdx
  {
    if m != c {
      ChainDescends(log, start, Previous(log, start, c), m);
    }
  }

  /** A chain holds at most one configuration per index. */
  lemma {:induction false} ChainUnique(log: seq<Entry>, start: nat, c: ClusterConfig, m: ClusterConfig,
                                       n: ClusterConfig)
    requires Linked(log, start, c) && OnChain(log, start, c, m) && OnChain(log, start, c, n) && m.logIdx == n.logIdx
    ensures m == n
    decreases c.logIdx
  {
    ChainDescends(log, start, c, m);
    ChainDescends(log, start, c, n);
    if m != c && n != c {
      ChainUnique(log, start, Previous(log, start, c), m, n);
    }
  }

  lemma InForceUnique(log: seq<Entry>, start: nat, c: ClusterConfig, index: nat, m: ClusterConfig, n: ClusterConfig)
    requires Linked(log, start, c) && InForce(log, start, c, index, m) && InForce(log, start, c, index, n)
    ensures m == n
  {
    ChainUnique(log, start, c, m, n);
  }

  /**
   The walk ends at the configuration in force if the log still holds one, and
   otherwise at the oldest one, whose predecessor lies before the log.
   */
  lemma {:induction false} WalkFinds(log: seq<Entry>, start: nat, c: ClusterConfig, index: nat)
    requires Linked(log, start, c)
    ensures Descends(log, start, c) && Walk(log, start, c, index).Some?
    ensures var m := Walk(log, start, c, index).value;
            && OnChain(log, start, c, m) && Linked(log, start, m)
            && (m.logIdx <= index <==> exists x :: InForce(log, start, c, index, x))
            && (m.logIdx <= index ==> InForce(log, start, c, index, m))
            && (m.logIdx > index ==> m.prevLogIdx < start)
    decreases c.logIdx
  {
    LinkedDescends(log, start, c);
    if c.logIdx > index && c.prevLogIdx >= start {
      var p := Previous(log, start, c);
      WalkFinds(log, start, p, index);
      var m := Walk(log, start, p, index).value;
      forall x | OnChain(log, start, c, x) && x.logIdx <= index ensures OnChain(log, start, p, x) {
      }
      if m.logIdx <= index {
        assert InForce(log, start, p, index, m);
        assert InForce(log, start, c, index, m);
      } else {
        forall x ensures !InForce(log, start, c, index, x) {
          assert InForce(log, start, c, index, x) ==> InForce(log, start, p, index, x);
        }
      }
    } else {
      forall x | OnChain(log, start, c, x) ensures x.logIdx <= c.logIdx {
        ChainDescends(log, start, c, x);
      }
      if c.logIdx <= index {
        assert InForce(log, start, c, index, c);
      }
    }
  }

  /**
   What the snapshot gets: the walk's end, the last snapshot's configuration, or
   nothing, and then none is taken.
   */
  function Choose(log: seq<Entry>, start: nat, c: ClusterConfig, index: nat, last: Option<ClusterConfig>)
    : Option<ClusterConfig>
    requires Descends(log, start, c)
  {
    var m :- Walk(log, start, c, index);
    if m.logIdx <= index then Some(m) else if m.prevLogIdx == 0 then None else last
  }

  /** On a linked chain that is the configuration in force, and only without one the last snapshot's or nothing. */
  lemma ChoosesInForce(log: seq<Entry>, start: nat, c: ClusterConfig, index: nat, last: Option<ClusterConfig>)
    requires Linked(log, start, c)
    ensures Descends(log, start, c)
    ensures var r := Choose(log, start, c, index, last);
            && (forall m :: InForce(log, start, c, index, m) ==> r == Some(m))
            && ((forall m :: !InForce(log, start, c, index, m)) ==> r == None || r == last)
  {
    WalkFinds(log, start, c, index);
    var w := Walk(log, start, c, index).value;
    forall m | InForce(log, start, c, index, m) ensures m == w {
      InForceUnique(log, start, c, index, m, w);
    }
  }

  /** The loop over the store. */
  method FindConfig(store: Store, config: ClusterConfig, committed: nat, last: Option<ClusterConfig>)
    returns (r: Option<ClusterConfig>)
    requires store.Valid() && Descends(store.entries, store.start, config)
    ensures r == Choose(store.entries, store.start, config, committed, last)
    ensures Linked(store.entries, store.start, config) ==>
              && (forall m :: InForce(store.entries, store.start, config, committed, m) ==> r == Some(m))
              && ((forall m :: !InForce(store.entries, store.start, config, committed, m)) ==> r == None || r == last)
  {
    hide Store.Valid, InForce, Linked;
    r := WalkStore(store, config, committed, last);
    if Linked(store.entries, store.start, config) {
      ChoosesInForce(store.entries, store.start, config, committed, last);
    }
  }

  method WalkStore(store: Store, config: ClusterConfig, committed: nat, last: Option<ClusterConfig>)
    returns (r: Option<ClusterConfig>)
    requires store.Valid() && Descends(store.entries, store.start, config)
    ensures r == Choose(store.entries, store.start, config, committed, last)
  {
    hide Store.Valid, DecodeConfig, LogEntry.Holds;
    ghost var log, start := store.entries, store.start;
    var conf := config;
    while conf.logIdx > committed && conf.prevLogIdx >= store.start
      invariant store.Valid() && store.entries == log && store.start == start && Descends(log, start, conf)
      invariant Walk(log, start, conf, committed) == Walk(log, start, config, committed)
      decreases conf.logIdx
    {
      var e := store.EntryAt(conf.prevLogIdx);
      store.StartsAtOne();
      var c := ReadConfig(e, log[conf.prevLogIdx - start]);
      if c.None? {
        return None;
      }
      conf := c.value;
    }
    store.StartsAtOne();
    if conf.logIdx > committed && conf.prevLogIdx > 0 && conf.prevLogIdx < store.start {
      return last;
    } else if conf.logIdx > committed && conf.prevLogIdx == 0 {
      return None;
    }
    return Some(conf);
  }
}
