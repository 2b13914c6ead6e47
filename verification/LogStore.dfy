/**
 The in-memory log store: a map from indexes to entries, with a dummy entry in
 slot 0 and an index where the log starts. It stands for an offset and a
 sequence, and hands out copies only.
 */
module LogStore {
  import opened Types
  import opened Bytes
  import opened Codec
  import opened Buffers
  import opened Entries

  // ----- the key set

  /** Slot 0 and `n` slots from `start` on, nothing else. */
  ghost predicate Contiguous(keys: set<nat>, start: nat, n: nat) {
    1 <= start && forall k: nat :: k in keys <==> k == 0 || start <= k < start + n
  }

  lemma KeysOf(keys: set<nat>, start: nat, n: nat)
    requires Contiguous(keys, start, n)
    ensures 1 <= start && forall k: nat :: k in keys <==> k == 0 || start <= k < start + n
  {
  }

  /** The number of keys determines the first free slot. */
  lemma {:induction false} KeyCount(keys: set<nat>, start: nat, n: nat)
    requires Contiguous(keys, start, n)
    ensures |keys| == n + 1
    decreases n
  {
    if n == 0 {
      assert keys == {0};
    } else {
      KeyCount(keys - {start + n - 1}, start, n - 1);
    }
  }

  ghost predicate SomeContiguous(keys: set<nat>, start: nat) { exists n: nat :: Contiguous(keys, start, n) }

  /** The keys that a truncating write at `index` leaves. */
  function Truncated(keys: set<nat>, index: nat): set<nat> {
    (set k | k in keys && k < index) + {index}
  }

  /** A truncating write keeps the slots contiguous exactly inside the log, right behind it, or over the dummy. */
  lemma TruncatedContiguous(keys: set<nat>, start: nat, n: nat, index: nat)
    requires Contiguous(keys, start, n)
    ensures SomeContiguous(Truncated(keys, index), start) <==> index == 0 || start <= index <= start + n
    ensures start <= index <= start + n ==> Contiguous(Truncated(keys, index), start, index + 1 - start)
  {
    var cut := Truncated(keys, index);
    if index == 0 {
      assert Contiguous(cut, start, 0);
    } else if start <= index <= start + n {
      assert Contiguous(cut, start, index + 1 - start);
    } else {
      assert index in cut && (index > start + n ==> index - 1 !in cut);
    }
  }

  /** The keys that a compaction up to `last` leaves. */
  function Compacted(keys: set<nat>, start: nat, last: nat): set<nat> {
    set k | k in keys && !(start <= k <= last)
  }

  /** A compaction that moves the start backwards leaves a gap, unless the store is empty. */
  lemma CompactedContiguous(keys: set<nat>, start: nat, n: nat, last: nat)
    requires Contiguous(keys, start, n)
    ensures SomeContiguous(Compacted(keys, start, last), last + 1) <==> n == 0 || start <= last + 1
    ensures n == 0 || start <= last + 1 ==>
              Contiguous(Compacted(keys, start, last), last + 1, if n == 0 then 0 else Max(start + n - (last + 1), 0))
  {
    var cut := Compacted(keys, start, last);
    if n == 0 || start + n <= last + 1 {
      assert Contiguous(cut, last + 1, 0);
    } else if start <= last + 1 {
      assert Contiguous(cut, last + 1, start + n - (last + 1));
    } else {
      assert start in cut && last + 1 !in cut;
    }
  }

  // ----- what packs do to the model

  /** Entries `es` laid over `xs` from position `p` on; what lies behind them stays. */
  function Overlay(xs: seq<Entry>, p: nat, es: seq<Entry>): seq<Entry>
    requires p <= |xs|
  {
    xs[..p] + es + if p + |es| <= |xs| then xs[p + |es|..] else []
  }

  /** The least positive key, if there is one. */
  ghost predicate FirstOf(keys: set<nat>, first: Option<nat>) {
    match first
    case None => forall k | k in keys :: k == 0
    case Some(m) => m in keys && m > 0 && forall k | k in keys :: k == 0 || m <= k
  }

  /** `xs` laid into the slots from `index` on. */
  ghost function Spread<T>(m: map<nat, T>, index: nat, xs: seq<T>): map<nat, T> {
    if xs == [] then m else Spread(m, index, xs[..|xs| - 1])[index + |xs| - 1 := xs[|xs| - 1]]
  }

  lemma {:induction false} SpreadAt<T>(m: map<nat, T>, index: nat, xs: seq<T>, k: nat)
    ensures k in Spread(m, index, xs) <==> k in m || index <= k < index + |xs|
    ensures index <= k < index + |xs| ==> Spread(m, index, xs)[k] == xs[k - index]
    ensures k in m && !(index <= k < index + |xs|) ==> Spread(m, index, xs)[k] == m[k]
  {
    if xs != [] {
      SpreadAt(m, index, xs[..|xs| - 1], k);
    }
  }

  /** `n` slots from `start` on and `m` from `index` on leave no gap between them. */
  predicate Joins(start: nat, n: nat, index: nat, m: nat) {
    n == 0 || m == 0 || (index <= start + n && start <= index + m)
  }

  function AppliedStart(start: nat, xs: seq<Entry>, index: nat, es: seq<Entry>): nat {
    if xs == [] then (if es == [] then 1 else index) else if es == [] then start else Min(start, index)
  }

  function AppliedEntries(start: nat, xs: seq<Entry>, index: nat, es: seq<Entry>): seq<Entry>
    requires Joins(start, |xs|, index, |es|)
  {
    if xs == [] || es == [] then xs + es
    else if start <= index then Overlay(xs, index - start, es)
    else es + xs[Min(|xs|, index + |es| - start)..]
  }

  lemma AppliedSize(start: nat, xs: seq<Entry>, index: nat, es: seq<Entry>)
    requires Joins(start, |xs|, index, |es|)
    ensures var n := |AppliedEntries(start, xs, index, es)|;
            if xs == [] || es == [] then n == |xs| + |es|
            else AppliedStart(start, xs, index, es) + n == Max(start + |xs|, index + |es|)
  {
  }

  lemma AppliedAt(start: nat, xs: seq<Entry>, index: nat, es: seq<Entry>, k: nat)
    requires Joins(start, |xs|, index, |es|)
    requires index <= k < index + |es| || start <= k < start + |xs|
    ensures var p := k - AppliedStart(start, xs, index, es);
            && 0 <= p < |AppliedEntries(start, xs, index, es)|
            && AppliedEntries(start, xs, index, es)[p] ==
               if index <= k < index + |es| then es[k - index] else xs[k - start]
  {
  }

  /** After a pack the slots are contiguous from the least key on exactly if it left no gap. */
  lemma SpreadFirst<T>(m: map<nat, T>, start: nat, n: nat, index: nat, xs: seq<T>, first: Option<nat>)
    requires Contiguous(m.Keys, start, n) && index >= 1
    requires FirstOf(Spread(m, index, xs).Keys, first)
    ensures var keys := Spread(m, index, xs).Keys;
            && (first.None? <==> n == 0 && xs == [])
            && (n == 0 && xs == [] ==> Contiguous(keys, 1, 0))
            && (n == 0 && xs != [] ==> first == Some(index) && Contiguous(keys, index, |xs|))
            && (n > 0 && xs == [] ==> first == Some(start) && Contiguous(keys, start, n))
            && (n > 0 && xs != [] ==>
                  && first == Some(Min(start, index))
                  && if Joins(start, n, index, |xs|) then
                       Contiguous(keys, Min(start, index), Max(start + n, index + |xs|) - Min(start, index))
                     else !SomeContiguous(keys, Min(start, index)))
  {
    var keys := Spread(m, index, xs).Keys;
    forall k: nat ensures k in keys <==> k in m || index <= k < index + |xs| {
      SpreadAt(m, index, xs, k);
    }
    assert n > 0 ==> start in keys && start + n - 1 in keys;
    assert xs != [] ==> index in keys && index + |xs| - 1 in keys;
    if n > 0 && xs != [] && !Joins(start, n, index, |xs|) {
      assert index > start + n ==> start + n !in keys;
      assert start > index + |xs| ==> index + |xs| !in keys;
    }
  }

  // ----- the store

  class Store {
    var logs: map<nat, LogEntry>
    var start: nat
    ghost var dummy: Entry
    ghost var entries: seq<Entry>
    ghost var repr: set<object>

    /** What slot `k` holds. */
    ghost function Slot(k: nat): Entry
      requires k == 0 || start <= k < start + |entries|
      reads this
    {
      if k == 0 then dummy else entries[k - start]
    }

    /** The slots are contiguous, and every stored buffer has its cursor at the front and the modelled contents. */
    ghost predicate Valid()
      reads this, repr
    {
      && Contiguous(logs.Keys, start, |entries|)
      && (forall k | k in logs :: logs[k] in repr && logs[k].buf.raw in repr && logs[k].Holds(Slot(k)))
      && dummy.term == 0
    }

    constructor ()
      ensures Valid() && start == 1 && entries == [] && fresh(repr)
    {
      var b := new Buffer(8);
      var d := new LogEntry(0, APP_LOG, b);
      logs := map[0 := d];
      start := 1;
      entries := [];
      dummy := Entry(0, APP_LOG, b.Data());
      repr := {d, b.raw};
    }

    function NextSlot(): (next: nat)
      requires Valid()
      reads this, repr
      ensures next == start + |entries|
    {
      KeyCount(logs.Keys, start, |entries|);
      start + |logs| - 1
    }

    /** The term in slot `index`, or the dummy's. */
    function TermAtIndex(index: nat): (term: nat)
      requires Valid()
      reads this, repr
      ensures term == if start <= index < start + |entries| then entries[index - start].term else 0
    {
      hide LogEntry.Holds, Contiguous;
      SlotTerm(index);
      logs[if index in logs then index else 0].term
    }

    lemma DummyTerm()
      requires Valid()
      ensures dummy.term == 0
    {
    }

    lemma SlotTerm(index: nat)
      requires Valid()
      ensures 0 in logs && (index in logs <==> index == 0 || start <= index < start + |entries|)
      ensures index in logs ==> logs[index].term == Slot(index).term
      ensures logs[0].term == 0 && logs[0] in repr && (index in logs ==> logs[index] in repr)
    {
      hide LogEntry.Holds;
      if index in logs {
        logs[index].HoldsValue(Slot(index));
      }
      logs[0].HoldsValue(Slot(0));
    }

    /** The entry in slot `index`, or the dummy. */
    method EntryAt(index: nat) returns (e: LogEntry)
      requires Valid()
      ensures Valid()
      ensures fresh(e) && fresh(e.buf.raw)
      ensures e.Holds(if start <= index < start + |entries| then Slot(index) else dummy)
    {
      hide LogEntry.Holds, LogEntry.Valid, LogEntry.Value;
      var k := if index in logs then index else 0;
      logs[k].HoldsValue(Slot(k));
      e := logs[k].Clone();
    }

    method LastEntry() returns (e: LogEntry)
      requires Valid()
      ensures Valid()
      ensures fresh(e) && fresh(e.buf.raw)
      ensures e.Holds(if entries != [] then entries[|entries| - 1] else dummy)
    {
      hide LogEntry.Holds;
      var next := NextSlot();
      e := EntryAt(next - 1);
    }

    /** The first free slot takes `c`. */
    method Put(index: nat, c: LogEntry, ghost v: Entry)
      requires Valid() && c.Holds(v) && index == start + |entries|
      modifies this
      ensures Valid() && start == old(start) && entries == old(entries) + [v] && repr == old(repr) + {c, c.buf.raw}
      ensures logs == old(logs)[index := c]
    {
      hide LogEntry.Holds;
      logs := logs[index := c];
      entries := entries + [v];
      repr := repr + {c, c.buf.raw};
    }

    /** Stores a copy of what is left of the entry's buffer. */
    method Append(e: LogEntry) returns (index: nat)
      requires Valid() && e.Valid()
      modifies this
      ensures Valid() && start == old(start) && entries == old(entries) + [e.Value()]
      ensures index == start + |old(entries)|
      ensures fresh(repr - old(repr))
    {
      hide LogEntry.Holds, LogEntry.Valid, LogEntry.Value, Valid;
      var c := e.Clone();
      index := NextSlot();
      Put(index, c, e.Value());
    }

    /**
     Drops everything from `index` on and puts a copy there. Inside the log, or
     right behind it, this is a truncating overwrite; elsewhere it leaves a gap.
     */
    method WriteAt(index: nat, e: LogEntry)
      requires Valid() && e.Valid() && index >= 1
      modifies this
      ensures start == old(start) && logs.Keys == Truncated(old(logs.Keys), index)
      ensures (forall k | k in logs && k < index :: logs[k] == old(logs)[k]) && logs[index].Holds(e.Value())
      ensures Valid() <==> start <= index <= start + |old(entries)|
      ensures start <= index <= start + |old(entries)| ==> entries == old(entries[..index - start]) + [e.Value()]
      ensures fresh(repr - old(repr))
    {
      hide LogEntry.Holds, LogEntry.Valid, LogEntry.Value, Valid;
      var c := e.Clone();
      Replace(index, c, e.Value());
    }

    method Replace(index: nat, c: LogEntry, ghost v: Entry)
      requires Valid() && c.Holds(v) && index >= 1
      modifies this
      ensures start == old(start) && logs.Keys == Truncated(old(logs.Keys), index)
      ensures (forall k | k in logs && k < index :: logs[k] == old(logs)[k]) && logs[index] == c
      ensures Valid() <==> start <= index <= start + |old(entries)|
      ensures start <= index <= start + |old(entries)| ==> entries == old(entries[..index - start]) + [v]
      ensures repr == old(repr) + {c, c.buf.raw}
    {
      hide LogEntry.Holds, LogEntry.Valid, Contiguous;
      ghost var n, inside := |entries|, start <= index <= start + |entries|;
      TruncatedContiguous(logs.Keys, start, n, index);
      KeysOf(logs.Keys, start, n);
      PutOver(index, c);
      repr := repr + {c, c.buf.raw};
      if inside {
        entries := entries[..index - start] + [v];
        forall k | k in logs && k != index
          ensures logs[k] in repr && logs[k].buf.raw in repr && logs[k].Holds(Slot(k))
        {
          assert k < index && old(k in logs) && logs[k] == old(logs[k]);
          assert old(logs[k].Holds(Slot(k)));
          assert Slot(k) == old(Slot(k));
        }
      } else {
        assert !Contiguous(logs.Keys, start, |entries|);
      }
    }

    /** Erases the slots from `index` on and fills that one. */
    method PutOver(index: nat, c: LogEntry)
      modifies `logs
      ensures logs.Keys == Truncated(old(logs.Keys), index) && logs[index] == c
      ensures forall k | k in logs && k < index :: k in old(logs) && logs[k] == old(logs)[k]
    {
      DropFrom(index);
      logs := logs[index := c];
    }

    /** Erases the slots from `index` on. */
    method DropFrom(index: nat)
      modifies `logs
      ensures logs.Keys == set k | k in old(logs) && k < index
      ensures forall k | k in logs :: logs[k] == old(logs)[k]
    {
      var tail := set k | k in logs && k >= index;
      while tail != {}
        invariant tail == set k | k in logs && k >= index
        invariant logs.Keys <= old(logs).Keys && forall k | k in logs :: logs[k] == old(logs)[k]
        invariant forall k | k in old(logs) && k < index :: k in logs
        decreases |tail|
      {
        var k :| k in tail;
        logs := logs - {k};
        tail := tail - {k};
      }
      assert forall k | k in logs :: k >= index ==> k in tail;
    }

    /** Copies of the entries from index `from` up to, not including, `to`. */
    method LogEntries(from: nat, to: nat) returns (es: seq<LogEntry>)
      requires Valid() && start <= from <= to <= start + |entries|
      ensures Valid()
      ensures |es| == to - from
      ensures forall i | 0 <= i < |es| :: fresh(es[i]) && fresh(es[i].buf.raw)
      ensures forall i | 0 <= i < |es| :: es[i].Holds(entries[from - start..to - start][i])
    {
      hide LogEntry.Holds;
      es := [];
      for i := from to to
        invariant Valid() && |es| == i - from
        invariant forall j | 0 <= j < |es| :: fresh(es[j]) && fresh(es[j].buf.raw)
        invariant forall j | 0 <= j < |es| :: es[j].Holds(entries[from - start..to - start][j])
      {
        var e := EntryAt(i);
        es := es + [e];
      }
    }

    /** The same entries, read out as values. */
    method ReadOut(from: nat, to: nat) returns (vs: seq<Entry>)
      requires Valid() && start <= from <= to <= start + |entries|
      ensures Valid() && vs == entries[from - start..to - start]
    {
      hide LogEntry.Holds, LogEntry.Valid, LogEntry.Value, Contiguous;
      ghost var want := entries[from - start..to - start];
      var es := LogEntries(from, to);
      vs := [];
      for i := 0 to |es|
        invariant |vs| == i && vs == want[..i]
        invariant forall k | 0 <= k < |es| :: es[k].Holds(want[k])
      {
        es[i].HoldsValue(want[i]);
        var v := es[i].Read();
        vs := vs + [v];
      }
    }

    // ----- packs

    /** One stored entry, serialized. Rewinding its payload changes nothing. */
    method SerializeSlot(k: nat) returns (b: Option<Buffer>, size: nat)
      requires Valid() && start <= k < start + |entries|
      modifies repr
      ensures Valid() && unchanged(this)
      ensures var bs := EncodeEntry(old(Slot(k)));
              && (b.Some? <==> |bs| < TWO_31)
              && (b.Some? ==> fresh(b.value) && fresh(b.value.raw) && b.value.raw !in repr)
              && (b.Some? ==> b.value.Has(bs) && size == |bs|)
    {
      hide LogEntry.Holds, LogEntry.Valid, LogEntry.Value, LogEntry.Whole, Buffer.Has, EncodeEntry;
      logs[k].HoldsValue(Slot(k));
      label before:
      b := logs[k].Serialize();
      forall i | i in logs ensures logs[i].Holds(Slot(i)) {
        logs[i].StillHolds@before(Slot(i));
      }
      size := 0;
      if b.Some? {
        b.value.HasIs(EncodeEntry(old(Slot(k))));
        size := b.value.Size();
      }
    }

    /** The entries `es` from `index` on. */
    ghost predicate Range(index: nat, es: seq<Entry>)
      reads this
    {
      start <= index && index + |es| <= start + |entries| && es == entries[index - start..index - start + |es|]
    }

    lemma RangeSlot(index: nat, es: seq<Entry>, j: nat)
      requires Range(index, es) && j < |es| && start >= 1
      ensures start <= index + j < start + |entries| && Slot(index + j) == es[j]
    {
    }

    lemma StartsAtOne()
      requires Valid()
      ensures start >= 1
    {
    }

    /** The entries from `index` on, each in a buffer of its own, and their total size. */
    method SerializeAll(index: nat, cnt: nat, ghost es: seq<Entry>) returns (ok: bool, ps: seq<Buffer>, total: nat)
      requires Valid() && |es| == cnt && Range(index, es)
      modifies repr
      ensures Valid() && unchanged(this)
      ensures ok ==> |ps| == cnt && total == |EncodeItems(es)| - 4 * cnt
      ensures !ok ==> |EncodeItems(es)| >= TWO_31
      ensures ok ==> forall j | 0 <= j < cnt :: fresh(ps[j]) && fresh(ps[j].raw)
      ensures ok ==> forall j | 0 <= j < cnt :: ps[j].Has(EncodeEntry(es[j]))
    {
      hide *;
      NoItems(es);
      StartsAtOne();
      ok, ps, total := true, [], 0;
      for j := 0 to cnt
        invariant Valid() && unchanged(this)
        invariant |ps| == j && total == |EncodeItems(es[..j])| - 4 * j
        invariant forall i | 0 <= i < j :: fresh(ps[i]) && fresh(ps[i].raw) && ps[i].raw !in repr
        invariant forall i | 0 <= i < j :: ps[i].Has(EncodeEntry(es[i]))
      {
        ItemsSplit(es, j);
        RangeSlot(index, es, j);
        var b, size := SerializeSlot(index + j);
        if b.None? {
          ok := false;
          return;
        }
        total := total + size;
        ps := ps + [b.value];
      }
    }

    /** A pack of `cnt` entries from `index` on; refused when it does not fit in a buffer. */
    method Pack(index: nat, cnt: nat, ghost es: seq<Entry>) returns (b: Option<Buffer>)
      requires Valid() && |es| == cnt < TWO_31 && Range(index, es)
      modifies repr
      ensures Valid() && unchanged(this)
      ensures b.Some? <==> |EncodePack(es)| < TWO_31
      ensures b.Some? ==> fresh(b.value) && fresh(b.value.raw) && b.value.Valid() && b.value.Data() == EncodePack(es)
    {
      hide LogEntry.Holds, Buffer.Valid, Buffer.Data, Buffer.Pos, Buffer.Has, EncodePack, EncodeItems, EncodeEntry;
      PackSize(es);
      var ok, ps, total := SerializeAll(index, cnt, es);
      if !ok {
        return None;
      }
      b := Buffer.Alloc(4 + 4 * cnt + total);
      if b.Some? {
        b.value.SetPos(0);
        WriteParts(b.value, ps, es);
      }
    }

    /** The first index in use behind the dummy. */
    method FirstKey() returns (first: Option<nat>)
      ensures FirstOf(logs.Keys, first)
    {
      first := None;
      var todo := logs.Keys;
      ghost var seen: set<nat> := {};
      while todo != {}
        invariant seen + todo == logs.Keys && FirstOf(seen, first)
        decreases |todo|
      {
        var i :| i in todo;
        todo, seen := todo - {i}, seen + {i};
        if i > 0 && (first.None? || i < first.value) {
          first := Some(i);
        }
      }
    }

    /** Reads `n` items into the slots from `index` on. */
    method StoreItems(index: nat, n: int, pack: Buffer)
      returns (ok: bool, ghost added: seq<LogEntry>, ghost got: seq<Entry>, ghost more: set<object>)
      requires pack.Valid()
      modifies `logs, pack.raw
      ensures pack.Valid() && pack.Data() == old(pack.Data())
      ensures ok <==> DecodeItems(n, old(pack.Rest())).Some?
      ensures ok ==> DecodeItems(n, old(pack.Rest())) == Some(got) && |added| == |got|
      ensures logs == Spread(old(logs), index, added)
      ensures fresh(more) && forall i | 0 <= i < |added| :: added[i] in more && added[i].buf.raw in more
      ensures ok ==> forall i | 0 <= i < |added| :: added[i].Holds(got[i])
    {
      hide LogEntry.Holds, Buffer.Valid, Buffer.Data, Buffer.Pos, DecodeItem, DecodeItems;
      ghost var bs := pack.Rest();
      added, got, more, ok := [], [], {}, true;
      var j := 0;
      AfterNothing(DecodeItems(n, bs));
      while j < n
        invariant 0 <= j && |got| == |added| == j
        invariant pack.Valid() && pack.Data() == old(pack.Data())
        invariant DecodeItems(n, bs) == After(got, DecodeItems(n - j, pack.Rest()))
        invariant logs == Spread(old(logs), index, added)
        invariant fresh(more) && forall i | 0 <= i < |added| :: added[i] in more && added[i].buf.raw in more
        invariant forall i | 0 <= i < |added| :: added[i].Holds(got[i])
        decreases n - j
      {
        ItemsStep(n - j, pack.Rest(), got);
        ghost var d := DecodeItem(pack.Rest());
        var e := ReadItem(pack);
        if e.None? {
          ok := false;
          return;
        }
        logs := logs[index + j := e.value];
        assert (added + [e.value])[..j] == added;
        added := added + [e.value];
        more := more + {e.value, e.value.buf.raw};
        got := got + [d.value.0];
        j := j + 1;
      }
      NoneLeft(n - j, pack.Rest(), got);
    }

    /**
     Lays a pack over the log from `index` on and finds the start again. Slots
     around the pack stay; a pack that does not touch the log leaves a gap.
     */
    method ApplyPack(index: nat, pack: Buffer) returns (ok: bool)
      requires Valid() && pack.Valid() && pack.raw !in repr && index >= 1
      modifies this, pack.raw
      ensures fresh(repr - old(repr)) && pack.Valid() && pack.Data() == old(pack.Data())
      ensures ok <==> DecodePack(old(pack.Data())).Some?
      ensures ok ==>
                var es := DecodePack(old(pack.Data())).value;
                && start == AppliedStart(old(start), old(entries), index, es)
                && (Valid() <==> Joins(old(start), |old(entries)|, index, |es|))
                && (Valid() ==> entries == AppliedEntries(old(start), old(entries), index, es))
    {
      hide LogEntry.Holds, Buffer.Valid, Buffer.Data, Buffer.Pos, Buffer.Rest, DecodeItems, Bytes.GetInt;
      hide AppliedEntries, AppliedStart, Joins, Spread, Contiguous;
      pack.SetPos(0);
      pack.Empty();
      var n := pack.GetInt();
      if n.None? {
        return false;
      }
      ghost var added, got, more;
      ok, added, got, more := StoreItems(index, n.value, pack);
      if ok {
        FindStart(index, old(logs), added, got, more);
      }
    }

    /** With the items in place, the start is the least positive key. */
    method FindStart(index: nat, ghost was: map<nat, LogEntry>, ghost added: seq<LogEntry>, ghost got: seq<Entry>,
                     ghost more: set<object>)
      requires forall i | 0 <= i < |added| :: added[i] in more && added[i].buf.raw in more
      requires Contiguous(was.Keys, start, |entries|) && logs == Spread(was, index, added) && |added| == |got|
      requires index >= 1
      requires forall k | k in was :: was[k] in repr && was[k].buf.raw in repr && was[k].Holds(Slot(k))
      requires forall i | 0 <= i < |added| :: added[i].Holds(got[i])
      requires dummy.term == 0
      modifies `start, `entries, `repr
      ensures start == AppliedStart(old(start), old(entries), index, got) && repr == old(repr) + more
      ensures Valid() <==> Joins(old(start), |old(entries)|, index, |got|)
      ensures Valid() ==> entries == AppliedEntries(old(start), old(entries), index, got)
    {
      hide LogEntry.Holds, LogEntry.Valid, AppliedEntries, Spread, Contiguous;
      var first := FirstKey();
      SpreadFirst(was, start, |entries|, index, added, first);
      ghost var start0, entries0 := start, entries;
      start := if first.Some? then first.value else 1;
      repr := repr + more;
      if Joins(start0, |entries0|, index, |got|) {
        entries := AppliedEntries(start0, entries0, index, got);
        AppliedSize(start0, entries0, index, got);
        assert Contiguous(logs.Keys, start, |entries|);
        KeysOf(logs.Keys, start, |entries|);
        forall k | k in logs ensures logs[k] in repr && logs[k].buf.raw in repr && logs[k].Holds(Slot(k)) {
          SpreadAt(was, index, added, k);
          LaidSlot(start0, entries0, was.Keys, index, got, k);
        }
      } else {
        assert !Contiguous(logs.Keys, start, |entries|);
      }
    }

    /** After a pack, a slot of it holds its entry and any other one what it held. */
    lemma LaidSlot(start0: nat, entries0: seq<Entry>, keys: set<nat>, index: nat, got: seq<Entry>, k: nat)
      requires Joins(start0, |entries0|, index, |got|) && Contiguous(keys, start0, |entries0|) && index >= 1
      requires start == AppliedStart(start0, entries0, index, got)
      requires entries == AppliedEntries(start0, entries0, index, got)
      requires k in keys || index <= k < index + |got|
      ensures k == 0 || start <= k < start + |entries|
      ensures Slot(k) ==
              if index <= k < index + |got| then got[k - index] else if k == 0 then dummy else entries0[k - start0]
    {
      hide AppliedEntries, AppliedStart, Joins;
      if k > 0 {
        AppliedAt(start0, entries0, index, got, k);
      }
    }

    // ----- compaction

    /**
     Drops everything up to and including `last`; the log then starts behind it,
     even if nothing was dropped. Moving the start of a log back leaves a gap.
     */
    method Compact(last: nat)
      requires Valid()
      modifies this
      ensures start == last + 1 && logs.Keys == Compacted(old(logs.Keys), old(start), last) && repr == old(repr)
      ensures forall k | k in logs :: logs[k] == old(logs)[k]
      ensures Valid() <==> old(entries) == [] || old(start) <= last + 1
      ensures Valid() ==>
                entries == if last + 1 - old(start) <= |old(entries)| && old(entries) != []
                           then old(entries[last + 1 - start..]) else []
    {
      hide LogEntry.Holds, Contiguous;
      ghost var keeps := entries == [] || start <= last + 1;
      CompactedContiguous(logs.Keys, start, |entries|, last);
      KeysOf(logs.Keys, start, |entries|);
      EraseUpTo(last);
      entries := if keeps && entries != [] && last + 1 - start <= |entries| then entries[last + 1 - start..] else [];
      start := last + 1;
      if keeps {
        forall k | k in logs ensures logs[k] in repr && logs[k].buf.raw in repr && logs[k].Holds(Slot(k)) {
          assert old(logs[k].Holds(Slot(k)));
          assert Slot(k) == old(Slot(k));
        }
      } else {
        assert !Contiguous(logs.Keys, start, |entries|);
      }
    }

    /** Erases the slots from the start up to and including `last`. */
    method EraseUpTo(last: nat)
      requires start >= 1
      modifies `logs
      ensures logs.Keys == Compacted(old(logs.Keys), start, last)
      ensures forall k | k in logs :: logs[k] == old(logs)[k]
    {
      var i := start;
      while i <= last
        invariant if start <= last + 1 then start <= i <= last + 1 else i == start
        invariant logs.Keys == Compacted(old(logs.Keys), start, i - 1)
        invariant forall k | k in logs :: logs[k] == old(logs)[k]
      {
        if i in logs {
          logs := logs - {i};
        }
        i := i + 1;
      }
      assert Compacted(old(logs.Keys), start, i - 1) == Compacted(old(logs.Keys), start, last);
    }
  }

  lemma AfterNothing(d: Option<seq<Entry>>)
    ensures After([], d) == d
  {
    if d.Some? {
      assert [] + d.value == d.value;
    }
  }

  lemma NoneLeft(n: int, bs: seq<byte>, got: seq<Entry>)
    requires n <= 0
    ensures After(got, DecodeItems(n, bs)) == Some(got)
  {
    assert got + [] == got;
  }

  /** One item: its size, then a block of that size that holds an entry. */
  method ReadItem(pack: Buffer) returns (e: Option<LogEntry>)
    requires pack.Valid()
    modifies pack.raw
    ensures pack.Valid() && pack.Data() == old(pack.Data())
    ensures match DecodeItem(old(pack.Rest()))
            case None => e == None
            case Some((x, rest)) =>
              e.Some? && fresh(e.value) && fresh(e.value.buf.raw) && e.value.Holds(x) && pack.Rest() == rest
  {
    hide Buffer.Has, Buffer.Valid, Buffer.Data, Buffer.Pos, Buffer.Rest, LogEntry.Holds, DecodeEntry;
    hide Bytes.GetInt, Bytes.GetBytes;
    var size :- pack.GetInt();
    ghost var item := GetBytes(pack.Rest(), size);
    var b :- pack.GetBlock(size);
    b.HasIs(item.value.0);
    e := LogEntry.Deserialize(b);
  }

  /** Writes the count and then each part behind its size. */
  method WriteParts(out: Buffer, ps: seq<Buffer>, ghost es: seq<Entry>)
    requires out.Valid() && out.Pos() == 0 && |ps| == |es| < TWO_31 && |out.Data()| == |EncodePack(es)|
    requires forall j | 0 <= j < |ps| :: ps[j].raw != out.raw && ps[j].Has(EncodeEntry(es[j]))
    modifies out.raw
    ensures out.Valid() && out.Data() == EncodePack(es)
  {
    hide *;
    NoItems(es);
    PackSize(es);
    out.Ends();
    var ok := out.PutInt(|ps|);
    for j := 0 to |ps|
      invariant out.Valid() && out.Done() == PutInt(|es|) + EncodeItems(es[..j])
      invariant |out.Done()| + |out.Rest()| == |EncodePack(es)|
      invariant forall i | 0 <= i < |ps| :: ps[i].Has(EncodeEntry(es[i]))
    {
      ItemsSplit(es, j);
      ps[j].HasIs(EncodeEntry(es[j]));
      var size := ps[j].Size();
      ok := out.PutInt(size);
      ok := out.PutBuffer(ps[j]);
    }
    out.Ends();
  }

  lemma PackSize(es: seq<Entry>)
    ensures |EncodePack(es)| == 4 + |EncodeItems(es)| && EncodePack(es) == PutInt(ToInt32(|es|)) + EncodeItems(es)
  {
  }

  lemma NoItems(es: seq<Entry>)
    ensures EncodeItems(es[..0]) == [] && es[..|es|] == es
  {
  }

  lemma ItemsSplit(es: seq<Entry>, j: nat)
    requires j < |es|
    ensures EncodeItems(es[..j + 1]) ==
            EncodeItems(es[..j]) + (PutInt(ToInt32(|EncodeEntry(es[j])|)) + EncodeEntry(es[j]))
    ensures |EncodeItems(es)| >= |EncodeItems(es[..j + 1])| && |EncodeItems(es)| >= |EncodeEntry(es[j])|
  {
    assert es[..j + 1] == es[..j] + [es[j]];
    ItemsConcat(es[..j], [es[j]]);
    assert es == es[..j + 1] + es[j + 1..];
    ItemsConcat(es[..j + 1], es[j + 1..]);
  }
}
