/** The serializers, written through buffers and their cursors, against the byte formats of `Codec`. */
module Serializer {
  import opened Types
  import opened Bytes
  import opened Codec
  import opened Buffers
  import opened Entries

  /** `b` is a new buffer with contents `bs`, unless they do not fit in one. */
  twostate predicate Serialized(new b: Option<Buffer>, bs: seq<byte>)
    reads if b.Some? then {b.value.raw} else {}
  {
    && (b.Some? <==> |bs| < TWO_31)
    && (b.Some? ==> fresh(b.value) && fresh(b.value.raw) && b.value.Has(bs))
  }

  /** One more field is written: what is done and what is to come still make the whole. */
  lemma Moved(done: seq<byte>, field: seq<byte>, rest: seq<byte>, whole: seq<byte>)
    requires done + (field + rest) == whole
    ensures done + field + rest == whole
  {
    assert done + field + rest == done + (field + rest);
  }

  // ----- server configuration

  method SerializeSrv(c: SrvConfig) returns (b: Option<Buffer>)
    ensures Serialized(b, EncodeSrv(c))
  {
    hide Bytes.PutInt;
    hide Buffer.Has, Buffer.Valid, Buffer.Data, Buffer.Pos, Buffer.Done, Buffer.Rest;
    b := Buffer.Alloc(4 + |c.endpoint| + 1);
    if b.Some? {
      var out := b.value;
      out.Empty();
      var ok := out.PutInt(c.id);
      ok := out.PutStr(c.endpoint);
      out.Rewind(EncodeSrv(c));
    }
  }

  method DeserializeSrv(buf: Buffer) returns (c: Option<SrvConfig>)
    requires buf.Valid()
    modifies buf.raw
    ensures buf.Valid() && buf.Data() == old(buf.Data())
    ensures match DecodeSrv(old(buf.Rest()))
            case None => c == None
            case Some((x, rest)) => c == Some(x) && buf.Rest() == rest
  {
    hide Buffer.Valid, Buffer.Data, Buffer.Pos, Bytes.GetInt, Bytes.GetStr;
    var id :- buf.GetInt();
    var endpoint :- buf.GetStr();
    return Some(SrvConfig(id, endpoint));
  }

  // ----- cluster configuration

  lemma {:induction false} ServersConcat(xs: seq<SrvConfig>, ys: seq<SrvConfig>)
    ensures EncodeServers(xs + ys) == EncodeServers(xs) + EncodeServers(ys)
  {
    hide EncodeSrv;
    if xs == [] {
      assert xs + ys == ys;
    } else {
      ServersConcat(xs[1..], ys);
      assert (xs + ys)[0] == xs[0] && (xs + ys)[1..] == xs[1..] + ys;
      Moved(EncodeSrv(xs[0]), EncodeServers(xs[1..]), EncodeServers(ys), EncodeServers(xs + ys));
    }
  }

  lemma ServersSplit(ss: seq<SrvConfig>, j: nat)
    requires j < |ss|
    ensures EncodeServers(ss[..j + 1]) == EncodeServers(ss[..j]) + EncodeSrv(ss[j])
    ensures |EncodeServers(ss)| >= |EncodeServers(ss[..j + 1])| && |EncodeServers(ss)| >= |EncodeSrv(ss[j])|
  {
    hide EncodeSrv;
    assert ss[..j + 1] == ss[..j] + [ss[j]];
    ServersConcat(ss[..j], [ss[j]]);
    assert EncodeServers([ss[j]]) == EncodeSrv(ss[j]);
    assert ss == ss[..j + 1] + ss[j + 1..];
    ServersConcat(ss[..j + 1], ss[j + 1..]);
  }

  lemma NoServers(ss: seq<SrvConfig>)
    ensures EncodeServers(ss[..0]) == [] && ss[..|ss|] == ss
  {
  }

  /** Every server in a buffer of its own, and their total size. */
  method SerializeServers(ss: seq<SrvConfig>) returns (ok: bool, ps: seq<Buffer>, total: nat)
    ensures ok ==> |ps| == |ss| && total == |EncodeServers(ss)|
    ensures !ok ==> |EncodeServers(ss)| >= TWO_31
    ensures ok ==> forall j | 0 <= j < |ps| :: fresh(ps[j]) && fresh(ps[j].raw)
    ensures ok ==> forall j | 0 <= j < |ps| :: ps[j].Has(EncodeSrv(ss[j]))
  {
    hide EncodeSrv, EncodeServers;
    hide Buffer.Has, Buffer.Valid, Buffer.Data, Buffer.Pos, Buffer.Done, Buffer.Rest;
    NoServers(ss);
    ok, ps, total := true, [], 0;
    for j := 0 to |ss|
      invariant |ps| == j && total == |EncodeServers(ss[..j])|
      invariant forall i | 0 <= i < j :: fresh(ps[i]) && fresh(ps[i].raw)
      invariant forall i | 0 <= i < j :: ps[i].Has(EncodeSrv(ss[i]))
    {
      ServersSplit(ss, j);
      var b := SerializeSrv(ss[j]);
      if b.None? {
        ok := false;
        return;
      }
      b.value.HasIs(EncodeSrv(ss[j]));
      var size := b.value.Size();
      total := total + size;
      ps := ps + [b.value];
    }
  }

  method WriteServers(out: Buffer, ps: seq<Buffer>, ghost ss: seq<SrvConfig>)
    requires out.Valid() && |ps| == |ss| && |out.Rest()| == |EncodeServers(ss)|
    requires forall j | 0 <= j < |ps| :: ps[j].raw != out.raw && ps[j].Has(EncodeSrv(ss[j]))
    modifies out.raw
    ensures out.Valid() && out.Rest() == [] && out.Done() == old(out.Done()) + EncodeServers(ss)
  {
    hide *;
    NoServers(ss);
    for j := 0 to |ps|
      invariant out.Valid() && out.Done() == old(out.Done()) + EncodeServers(ss[..j])
      invariant |out.Done()| + |out.Rest()| == old(|out.Done()|) + |EncodeServers(ss)|
      invariant forall i | 0 <= i < |ps| :: ps[i].Has(EncodeSrv(ss[i]))
    {
      ServersSplit(ss, j);
      ps[j].HasIs(EncodeSrv(ss[j]));
      var ok := out.PutBuffer(ps[j]);
    }
  }

  /** Both indexes and the number of servers. */
  method WriteConfigHeader(out: Buffer, c: ClusterConfig)
    requires out.Valid() && out.Pos() == 0 && |out.Data()| >= 20
    modifies out.raw
    ensures out.Valid() && |out.Rest()| == |old(out.Data())| - 20
    ensures out.Done() == PutULong(c.logIdx) + PutULong(c.prevLogIdx) + PutInt(ToInt32(|c.servers|))
  {
    hide Bytes.PutInt, Bytes.PutULong, ToInt32;
    hide Buffer.Valid, Buffer.Data, Buffer.Pos, Buffer.Done, Buffer.Rest;
    out.Empty();
    var ok := out.PutULong(c.logIdx);
    ok := out.PutULong(c.prevLogIdx);
    ok := out.PutInt(ToInt32(|c.servers|));
  }

  method SerializeConfig(c: ClusterConfig) returns (b: Option<Buffer>)
    ensures Serialized(b, EncodeConfig(c))
  {
    hide EncodeServers, EncodeSrv, EncodeConfig, Bytes.PutInt, Bytes.PutULong, ToInt32;
    hide Buffer.Has, Buffer.Valid, Buffer.Data, Buffer.Pos, Buffer.Done, Buffer.Rest;
    ConfigLength(c);
    var ok, ps, total := SerializeServers(c.servers);
    if !ok {
      return None;
    }
    b := Buffer.Alloc(20 + total);
    if b.Some? {
      var out := b.value;
      WriteConfigHeader(out, c);
      WriteServers(out, ps, c.servers);
      ConfigBytes(c, out.Done());
      out.Rewind(EncodeConfig(c));
    }
  }

  lemma ConfigLength(c: ClusterConfig)
    ensures |EncodeConfig(c)| == 20 + |EncodeServers(c.servers)|
  {
    hide EncodeServers;
  }

  lemma ConfigBytes(c: ClusterConfig, bs: seq<byte>)
    requires bs == PutULong(c.logIdx) + PutULong(c.prevLogIdx) + PutInt(ToInt32(|c.servers|)) + EncodeServers(c.servers)
    ensures bs == EncodeConfig(c)
  {
    hide PutULong, PutInt, EncodeServers;
  }

  function AfterServers(got: seq<SrvConfig>, more: Option<(seq<SrvConfig>, seq<byte>)>)
    : Option<(seq<SrvConfig>, seq<byte>)>
  {
    match more case None => None case Some((cs, rest)) => Some((got + cs, rest))
  }

  lemma ServersStep(n: int, bs: seq<byte>, got: seq<SrvConfig>)
    ensures n <= 0 ==> AfterServers(got, DecodeServers(n, bs)) == Some((got, bs))
    ensures n > 0 ==>
              match DecodeSrv(bs)
              case None => DecodeServers(n, bs).None?
              case Some((c, r)) =>
                AfterServers(got, DecodeServers(n, bs)) == AfterServers(got + [c], DecodeServers(n - 1, r))
    ensures AfterServers([], DecodeServers(n, bs)) == DecodeServers(n, bs)
  {
    hide DecodeSrv;
    assert got + [] == got;
    var all := DecodeServers(n, bs);
    assert all.Some? ==> [] + all.value.0 == all.value.0;
    var d := DecodeSrv(bs);
    if n > 0 && d.Some? {
      var more := DecodeServers(n - 1, d.value.1);
      assert more.Some? ==> got + ([d.value.0] + more.value.0) == got + [d.value.0] + more.value.0;
    }
  }

  /** Reads servers until the count is used up. */
  method DeserializeServers(n: int32, buf: Buffer) returns (cs: Option<seq<SrvConfig>>)
    requires buf.Valid()
    modifies buf.raw
    ensures buf.Valid() && buf.Data() == old(buf.Data())
    ensures match DecodeServers(n, old(buf.Rest()))
            case None => cs == None
            case Some((xs, rest)) => cs == Some(xs) && buf.Rest() == rest
  {
    hide Buffer.Valid, Buffer.Data, Buffer.Pos, DecodeSrv, DecodeServers;
    ghost var bs := buf.Rest();
    var got: seq<SrvConfig> := [];
    var left: int := n;
    ServersStep(n, bs, got);
    while left > 0
      invariant buf.Valid() && buf.Data() == old(buf.Data())
      invariant DecodeServers(n, bs) == AfterServers(got, DecodeServers(left, buf.Rest()))
    {
      ServersStep(left, buf.Rest(), got);
      var c := DeserializeSrv(buf);
      if c.None? {
        return None;
      }
      got := got + [c.value];
      left := left - 1;
    }
    ServersStep(left, buf.Rest(), got);
    return Some(got);
  }

  method DeserializeConfig(buf: Buffer) returns (c: Option<ClusterConfig>)
    requires buf.Valid()
    modifies buf.raw
    ensures buf.Valid() && buf.Data() == old(buf.Data())
    ensures match DecodeConfig(old(buf.Rest()))
            case None => c == None
            case Some((x, rest)) => c == Some(x) && buf.Rest() == rest
  {
    hide Buffer.Valid, Buffer.Data, Buffer.Pos, DecodeServers, Bytes.GetInt, Bytes.GetULong;
    var logIdx :- buf.GetULong();
    var prev :- buf.GetULong();
    var n :- buf.GetInt();
    var servers :- DeserializeServers(n, buf);
    return Some(ClusterConfig(logIdx, prev, servers));
  }

  /** What was read from a buffer can be written into one. */
  lemma ConfigFits(bs: seq<byte>)
    ensures var d := DecodeConfig(bs); d.Some? ==> 20 + |EncodeServers(d.value.0.servers)| <= |bs|
  {
    var a := GetULong(bs);
    if a.Some? {
      var b := GetULong(a.value.1);
      if b.Some? {
        var n := GetInt(b.value.1);
        if n.Some? {
          ServersFit(n.value.0, n.value.1);
        }
      }
    }
  }

  lemma {:induction false} ServersFit(n: int, bs: seq<byte>)
    ensures var d := DecodeServers(n, bs); d.Some? ==> |EncodeServers(d.value.0)| + |d.value.1| == |bs|
    decreases Max(n, 0)
  {
    if n > 0 {
      var c := DecodeSrv(bs);
      if c.Some? {
        SrvFits(bs);
        ServersFit(n - 1, c.value.1);
        var more := DecodeServers(n - 1, c.value.1);
        if more.Some? {
          assert ([c.value.0] + more.value.0)[1..] == more.value.0;
        }
      }
    }
  }

  lemma SrvFits(bs: seq<byte>)
    ensures var d := DecodeSrv(bs); d.Some? ==> |EncodeSrv(d.value.0)| + |d.value.1| == |bs|
  {
  }

  /** The configuration that an entry holds. */
  method ReadConfig(e: LogEntry, ghost v: Entry) returns (c: Option<ClusterConfig>)
    requires e.Holds(v)
    modifies e.buf.raw
    ensures match DecodeConfig(v.data)
            case None => c == None
            case Some((x, _)) => c == Some(x) && 20 + |EncodeServers(x.servers)| < TWO_31
  {
    hide Buffer.Valid, Buffer.Data, Buffer.Pos, DecodeConfig;
    e.HoldsValue(v);
    ConfigFits(v.data);
    c := DeserializeConfig(e.buf);
  }

  // ----- snapshots

  method WriteSnapshotHeader(out: Buffer, s: Snapshot)
    requires out.Valid() && out.Pos() == 0 && |out.Data()| >= 24
    modifies out.raw
    ensures out.Valid() && |out.Rest()| == |old(out.Data())| - 24
    ensures out.Done() == PutULong(s.lastLogIdx) + PutULong(s.lastLogTerm) + PutULong(s.size)
  {
    hide Bytes.PutULong;
    hide Buffer.Valid, Buffer.Data, Buffer.Pos, Buffer.Done, Buffer.Rest;
    out.Empty();
    var ok := out.PutULong(s.lastLogIdx);
    ok := out.PutULong(s.lastLogTerm);
    ok := out.PutULong(s.size);
  }

  method SerializeSnapshot(s: Snapshot) returns (b: Option<Buffer>)
    ensures Serialized(b, EncodeSnapshot(s))
  {
    hide EncodeConfig, EncodeSnapshot, Bytes.PutULong;
    hide Buffer.Has, Buffer.Valid, Buffer.Data, Buffer.Pos, Buffer.Done, Buffer.Rest;
    SnapshotBytes(s);
    var conf :- SerializeConfig(s.config);
    conf.HasIs(EncodeConfig(s.config));
    var size := conf.Size();
    b := Buffer.Alloc(size + 24);
    if b.Some? {
      WriteSnapshotHeader(b.value, s);
      var ok := b.value.PutBuffer(conf);
      b.value.Rewind(EncodeSnapshot(s));
    }
  }

  lemma SnapshotBytes(s: Snapshot)
    ensures EncodeSnapshot(s) ==
            PutULong(s.lastLogIdx) + PutULong(s.lastLogTerm) + PutULong(s.size) + EncodeConfig(s.config)
    ensures |EncodeSnapshot(s)| == 24 + |EncodeConfig(s.config)|
  {
    hide EncodeConfig, PutULong;
  }

  method DeserializeSnapshot(buf: Buffer) returns (s: Option<Snapshot>)
    requires buf.Valid()
    modifies buf.raw
    ensures buf.Valid() && buf.Data() == old(buf.Data())
    ensures match DecodeSnapshot(old(buf.Rest()))
            case None => s == None
            case Some((x, rest)) => s == Some(x) && buf.Rest() == rest
  {
    hide Buffer.Valid, Buffer.Data, Buffer.Pos, DecodeConfig, Bytes.GetULong;
    var idx :- buf.GetULong();
    var term :- buf.GetULong();
    var size :- buf.GetULong();
    var config :- DeserializeConfig(buf);
    return Some(Snapshot(idx, term, size, config));
  }

  /** A block of a snapshot: the block's data is what is left of `data`. */
  method SerializeSync(s: Snapshot, offset: nat, data: Buffer, done: bool) returns (b: Option<Buffer>)
    requires data.Valid()
    ensures Serialized(b, EncodeSync(SnapshotSyncReq(s, offset, data.Rest(), done)))
  {
    hide Buffer.Has, Buffer.Valid, Buffer.Data, Buffer.Pos, EncodeSnapshot, EncodeSync;
    ghost var q := SnapshotSyncReq(s, offset, data.Rest(), done);
    SyncSize(q);
    var snp :- SerializeSnapshot(s);
    snp.HasIs(EncodeSnapshot(s));
    var size := snp.Size();
    var rest := data.Available();
    b := Buffer.Alloc(size + 9 + rest);
    if b.Some? {
      WriteSync(b.value, snp, offset, data, done, q);
    }
  }

  method WriteSync(out: Buffer, snp: Buffer, offset: nat, data: Buffer, done: bool, ghost q: SnapshotSyncReq)
    requires out.Valid() && snp.Valid() && data.Valid() && out.raw != snp.raw && out.raw != data.raw
    requires out.Pos() == 0 && |out.Data()| == |EncodeSync(q)|
    requires snp.Rest() == EncodeSnapshot(q.snapshot) && q.offset == offset && q.data == data.Rest() && q.done == done
    modifies out.raw
    ensures out.Has(EncodeSync(q))
  {
    hide *;
    out.Ends();
    SyncSize(q);
    var ok := out.PutBuffer(snp);
    ok := out.PutULong(offset);
    ok := out.PutByte(if done then 1 else 0);
    ok := out.PutBuffer(data);
    SyncBytes(q, out.Done());
    out.Ends();
    out.Rewind(EncodeSync(q));
  }

  lemma SyncSize(q: SnapshotSyncReq)
    ensures |EncodeSync(q)| == |EncodeSnapshot(q.snapshot)| + 9 + |q.data|
  {
    hide EncodeSnapshot, PutULong;
  }

  lemma SyncBytes(q: SnapshotSyncReq, bs: seq<byte>)
    requires bs == EncodeSnapshot(q.snapshot) + PutULong(q.offset) + [if q.done then 1 else 0] + q.data
    ensures bs == EncodeSync(q)
  {
    hide EncodeSnapshot, PutULong;
  }

  method DeserializeSync(buf: Buffer) returns (s: Option<Snapshot>, offset: nat, data: Option<Buffer>, done: bool)
    requires buf.Valid()
    modifies buf.raw
    ensures buf.Valid() && buf.Data() == old(buf.Data())
    ensures match DecodeSync(old(buf.Rest()))
            case None => s == None
            case Some(q) =>
              && s == Some(q.snapshot) && offset == q.offset && done == q.done
              && data.Some? && fresh(data.value) && fresh(data.value.raw) && data.value.Has(q.data)
  {
    hide Buffer.Has, Buffer.Valid, Buffer.Data, Buffer.Pos, DecodeSnapshot, Bytes.GetULong;
    s, offset, data, done := None, 0, None, false;
    var snp := DeserializeSnapshot(buf);
    if snp.None? {
      return;
    }
    var o := buf.GetULong();
    if o.None? {
      return;
    }
    var d := buf.GetByte();
    if d.None? {
      return;
    }
    var block := Buffer.Copy(buf);
    block.NowHas(buf.Rest());
    return snp, o.value, Some(block), d.value == 1;
  }

  // ----- the persisted state

  method SerializeState(s: SrvState) returns (b: Buffer)
    ensures fresh(b) && fresh(b.raw) && b.Has(EncodeState(s))
  {
    hide Bytes.PutULong, Bytes.PutInt;
    hide Buffer.Has, Buffer.Valid, Buffer.Data, Buffer.Pos, Buffer.Done, Buffer.Rest;
    b := new Buffer(12);
    b.Empty();
    var ok := b.PutULong(s.term);
    ok := b.PutInt(s.votedFor);
    b.Rewind(EncodeState(s));
  }

  method DeserializeState(buf: Buffer) returns (s: Option<SrvState>)
    requires buf.Valid()
    modifies buf.raw
    ensures buf.Valid() && buf.Data() == old(buf.Data()) && s == DecodeState(old(buf.Rest()))
  {
    hide Buffer.Valid, Buffer.Data, Buffer.Pos, Bytes.GetULong, Bytes.GetInt;
    var term :- buf.GetULong();
    var votedFor :- buf.GetInt();
    return Some(SrvState(term, votedFor));
  }

  // ----- responses

  method SerializeResp(p: Resp) returns (b: Buffer)
    ensures fresh(b) && fresh(b.raw) && b.Has(EncodeResp(p))
  {
    hide EncodeResp, Bytes.PutULong, Bytes.PutInt;
    hide Buffer.Has, Buffer.Valid, Buffer.Data, Buffer.Pos, Buffer.Done, Buffer.Rest;
    b := new Buffer(RESP_SIZE);
    b.Empty();
    var ok := b.PutByte(p.kind);
    ok := b.PutInt(p.src);
    ok := b.PutInt(p.dst);
    ok := b.PutULong(p.term);
    ok := b.PutULong(p.nextIdx);
    ok := b.PutByte(if p.accepted then 1 else 0);
    RespBytes(p, b.Done());
    b.Rewind(EncodeResp(p));
  }

  lemma RespBytes(p: Resp, bs: seq<byte>)
    requires bs == [p.kind] + PutInt(p.src) + PutInt(p.dst) + PutULong(p.term) + PutULong(p.nextIdx)
                   + [if p.accepted then 1 else 0]
    ensures bs == EncodeResp(p)
  {
    hide PutULong, PutInt;
  }

  method DeserializeResp(buf: Buffer) returns (p: Option<Resp>)
    requires buf.Valid()
    modifies buf.raw
    ensures buf.Valid() && buf.Data() == old(buf.Data()) && p == DecodeResp(buf.Data())
  {
    hide Buffer.Valid, Buffer.Data, Buffer.Pos, Bytes.GetULong, Bytes.GetInt;
    buf.SetPos(0);
    assert buf.Rest() == buf.Data();
    var kind :- buf.GetByte();
    var src :- buf.GetInt();
    var dst :- buf.GetInt();
    var term :- buf.GetULong();
    var nextIdx :- buf.GetULong();
    var accepted :- buf.GetByte();
    return Some(Resp(kind, src, dst, term, nextIdx, accepted == 1));
  }

  // ----- requests

  lemma {:induction false} EntriesConcat(xs: seq<Entry>, ys: seq<Entry>)
    ensures EncodeEntries(xs + ys) == EncodeEntries(xs) + EncodeEntries(ys)
  {
    hide EncodeWireEntry;
    if xs == [] {
      assert xs + ys == ys;
    } else {
      EntriesConcat(xs[1..], ys);
      assert (xs + ys)[0] == xs[0] && (xs + ys)[1..] == xs[1..] + ys;
      Moved(EncodeWireEntry(xs[0]), EncodeEntries(xs[1..]), EncodeEntries(ys), EncodeEntries(xs + ys));
    }
  }

  lemma EntriesSplit(vs: seq<Entry>, j: nat)
    requires j < |vs|
    ensures EncodeEntries(vs[..j + 1]) == EncodeEntries(vs[..j]) + EncodeWireEntry(vs[j])
    ensures |EncodeEntries(vs)| >= |EncodeEntries(vs[..j + 1])| && |EncodeEntries(vs)| >= |EncodeWireEntry(vs[j])|
  {
    hide EncodeWireEntry;
    assert vs[..j + 1] == vs[..j] + [vs[j]];
    EntriesConcat(vs[..j], [vs[j]]);
    assert EncodeEntries([vs[j]]) == EncodeWireEntry(vs[j]);
    assert vs == vs[..j + 1] + vs[j + 1..];
    EntriesConcat(vs[..j + 1], vs[j + 1..]);
  }

  lemma NoEntries(vs: seq<Entry>)
    ensures EncodeEntries(vs[..0]) == [] && vs[..|vs|] == vs
  {
  }

  /** One entry of a request; its payload is rewound first. */
  method SerializeEntry(e: LogEntry) returns (b: Option<Buffer>)
    requires e.Valid()
    modifies e.buf.raw
    ensures e.Holds(old(e.Whole())) && Serialized(b, EncodeWireEntry(old(e.Whole())))
  {
    hide Buffer.Valid, Buffer.Data, Buffer.Pos, Buffer.Has, EncodeWireEntry;
    WireSize(e.Whole());
    e.buf.SetPos(0);
    var size := e.buf.Size();
    b := Buffer.Alloc(13 + size);
    if b.Some? {
      WriteEntry(b.value, e.term, e.kind, size, e.buf, e.Whole());
    }
  }

  method WriteEntry(out: Buffer, term: nat, kind: byte, size: int32, payload: Buffer, ghost v: Entry)
    requires out.Valid() && payload.Valid() && out.raw != payload.raw
    requires out.Pos() == 0 && |out.Data()| == |EncodeWireEntry(v)|
    requires v == Entry(term, kind, payload.Rest()) && size == |v.data|
    modifies out.raw
    ensures out.Has(EncodeWireEntry(v))
  {
    hide *;
    out.Ends();
    WireSize(v);
    var ok := out.PutULong(term);
    ok := out.PutByte(kind);
    ok := out.PutInt(size);
    ok := out.PutBuffer(payload);
    WireBytes(v, out.Done());
    out.Ends();
    out.Rewind(EncodeWireEntry(v));
  }

  lemma WireSize(v: Entry)
    ensures |EncodeWireEntry(v)| == 13 + |v.data|
  {
  }

  lemma WireBytes(v: Entry, bs: seq<byte>)
    requires bs == PutULong(v.term) + [v.kind] + PutInt(ToInt32(|v.data|)) + v.data
    ensures bs == EncodeWireEntry(v)
  {
    hide PutULong, PutInt;
  }

  ghost predicate Wholes(es: seq<LogEntry>, vs: seq<Entry>)
    reads es, set e | e in es :: e.buf.raw
  {
    |es| == |vs| && forall i | 0 <= i < |es| :: es[i].Valid() && es[i].Whole() == vs[i]
  }

  /** Entry `j`, with the others left as they are even if they share its block. */
  method SerializeEntryOf(es: seq<LogEntry>, j: nat, ghost vs: seq<Entry>) returns (b: Option<Buffer>, size: nat)
    requires Wholes(es, vs) && j < |es|
    modifies set e | e in es :: e.buf.raw
    ensures Wholes(es, vs) && Serialized(b, EncodeWireEntry(vs[j])) && (b.Some? ==> size == |EncodeWireEntry(vs[j])|)
  {
    hide LogEntry.Valid, LogEntry.Whole, LogEntry.Holds, LogEntry.Value;
    hide Buffer.Has, Buffer.Valid, Buffer.Data, Buffer.Pos;
    hide EncodeWireEntry;
    label before:
    b := SerializeEntry(es[j]);
    es[j].HoldsValue(vs[j]);
    forall i | 0 <= i < |es| ensures es[i].Valid() && es[i].Whole() == vs[i] {
      es[i].Keeps@before(es[j]);
    }
    size := 0;
    if b.Some? {
      b.value.HasIs(EncodeWireEntry(vs[j]));
      size := b.value.Size();
    }
  }

  lemma WholesSize(es: seq<LogEntry>, vs: seq<Entry>)
    requires Wholes(es, vs)
    ensures |es| == |vs|
  {
  }

  /** Every entry in a buffer of its own, and their total size. */
  method SerializeEntries(es: seq<LogEntry>, ghost vs: seq<Entry>) returns (ok: bool, ps: seq<Buffer>, total: nat)
    requires Wholes(es, vs)
    modifies set e | e in es :: e.buf.raw
    ensures Wholes(es, vs)
    ensures ok ==> |ps| == |vs| && total == |EncodeEntries(vs)|
    ensures !ok ==> |EncodeEntries(vs)| >= TWO_31
    ensures ok ==> forall j | 0 <= j < |ps| :: fresh(ps[j]) && fresh(ps[j].raw)
    ensures ok ==> forall j | 0 <= j < |ps| :: ps[j].Has(EncodeWireEntry(vs[j]))
  {
    hide Wholes, Buffer.Has, EncodeWireEntry, EncodeEntries;
    WholesSize(es, vs);
    NoEntries(vs);
    ok, ps, total := true, [], 0;
    for j := 0 to |es|
      invariant Wholes(es, vs) && |ps| == j && total == |EncodeEntries(vs[..j])|
      invariant forall i | 0 <= i < j :: fresh(ps[i]) && fresh(ps[i].raw)
      invariant forall i | 0 <= i < j :: ps[i].Has(EncodeWireEntry(vs[i]))
    {
      EntriesSplit(vs, j);
      var b, size := SerializeEntryOf(es, j, vs);
      if b.None? {
        ok := false;
        return;
      }
      total := total + size;
      ps := ps + [b.value];
    }
  }

  method WriteEntries(out: Buffer, ps: seq<Buffer>, ghost vs: seq<Entry>)
    requires out.Valid() && |ps| == |vs| && |out.Rest()| == |EncodeEntries(vs)|
    requires forall j | 0 <= j < |ps| :: ps[j].raw != out.raw && ps[j].Has(EncodeWireEntry(vs[j]))
    modifies out.raw
    ensures out.Valid() && out.Rest() == [] && out.Done() == old(out.Done()) + EncodeEntries(vs)
  {
    hide *;
    NoEntries(vs);
    for j := 0 to |ps|
      invariant out.Valid() && out.Done() == old(out.Done()) + EncodeEntries(vs[..j])
      invariant |out.Done()| + |out.Rest()| == old(|out.Done()|) + |EncodeEntries(vs)|
      invariant forall i | 0 <= i < |ps| :: ps[i].Has(EncodeWireEntry(vs[i]))
    {
      EntriesSplit(vs, j);
      ps[j].HasIs(EncodeWireEntry(vs[j]));
      var ok := out.PutBuffer(ps[j]);
    }
  }

  /** The fixed part of a request, up to the size of its entries. */
  method WriteHeader(out: Buffer, q: Req, dataSize: nat)
    requires out.Valid() && out.Pos() == 0 && |out.Data()| >= REQ_HEADER_SIZE
    modifies out.raw
    ensures out.Valid() && out.Done() == EncodeHeader(q, dataSize)
    ensures |out.Rest()| == |old(out.Data())| - REQ_HEADER_SIZE
  {
    hide EncodeHeader, Bytes.PutInt, Bytes.PutULong, ToInt32;
    hide Buffer.Valid, Buffer.Data, Buffer.Pos, Buffer.Done, Buffer.Rest;
    out.Ends();
    assert out.Done() == [];
    var ok := out.PutByte(q.kind);
    ok := out.PutInt(q.src);
    ok := out.PutInt(q.dst);
    ok := out.PutULong(q.term);
    ok := out.PutULong(q.lastLogTerm);
    ok := out.PutULong(q.lastLogIdx);
    ok := out.PutULong(q.commitIdx);
    ok := out.PutInt(ToInt32(dataSize));
    HeaderBytes(q, dataSize, out.Done());
  }

  lemma HeaderBytes(q: Req, dataSize: int, bs: seq<byte>)
    requires bs == [q.kind] + PutInt(q.src) + PutInt(q.dst) + PutULong(q.term) + PutULong(q.lastLogTerm)
                   + PutULong(q.lastLogIdx) + PutULong(q.commitIdx) + PutInt(ToInt32(dataSize))
    ensures bs == EncodeHeader(q, dataSize)
  {
    hide PutULong, PutInt, ToInt32;
  }

  /** A request: its entries are `es`, the other fields are those of `q`. */
  method SerializeReq(q: Req, es: seq<LogEntry>, ghost vs: seq<Entry>) returns (b: Option<Buffer>)
    requires Wholes(es, vs)
    modifies set e | e in es :: e.buf.raw
    ensures Wholes(es, vs) && Serialized(b, EncodeReq(q.(entries := vs)))
  {
    hide Wholes, Buffer.Has, Buffer.Valid, Buffer.Data, Buffer.Pos;
    hide EncodeWireEntry, EncodeEntries, EncodeHeader, EncodeReq;
    ReqBytes(q, vs);
    var ok, ps, total := SerializeEntries(es, vs);
    if !ok {
      return None;
    }
    b := Buffer.Alloc(REQ_HEADER_SIZE + total);
    if b.Some? {
      WriteHeader(b.value, q, total);
      WriteEntries(b.value, ps, vs);
      b.value.Rewind(EncodeReq(q.(entries := vs)));
    }
  }

  lemma ReqBytes(q: Req, vs: seq<Entry>)
    ensures EncodeReq(q.(entries := vs)) == EncodeHeader(q, |EncodeEntries(vs)|) + EncodeEntries(vs)
    ensures |EncodeHeader(q, |EncodeEntries(vs)|)| == REQ_HEADER_SIZE
  {
    hide EncodeEntries;
  }

  /** One entry; the payload is copied out of the data without looking at how much is left. */
  method ReadEntry(data: Buffer) returns (e: Option<LogEntry>)
    requires data.Valid()
    modifies data.raw
    ensures data.Valid() && data.Data() == old(data.Data())
    ensures match DecodeWireEntry(old(data.Rest()))
            case None => e == None
            case Some((x, rest)) =>
              e.Some? && fresh(e.value) && fresh(e.value.buf.raw) && e.value.Holds(x) && data.Rest() == rest
  {
    hide Buffer.Has, Buffer.Valid, Buffer.Data, Buffer.Pos, Buffer.Rest, LogEntry.Holds;
    hide Bytes.GetInt, Bytes.GetULong, Bytes.GetByte, Bytes.GetBytes;
    var term :- data.GetULong();
    var kind :- data.GetByte();
    var size :- data.GetInt();
    ghost var payload := GetBytes(data.Rest(), size);
    var buf :- data.GetBlock(size);
    var entry := new LogEntry(term, kind, buf);
    entry.NowHolds(payload.value.0);
    return Some(entry);
  }

  lemma EntriesStep(bs: seq<byte>, got: seq<Entry>)
    ensures bs == [] ==> After(got, DecodeEntries(bs)) == Some(got)
    ensures bs != [] ==>
              match DecodeWireEntry(bs)
              case None => DecodeEntries(bs).None?
              case Some((e, r)) => |r| < |bs| && After(got, DecodeEntries(bs)) == After(got + [e], DecodeEntries(r))
    ensures After([], DecodeEntries(bs)) == DecodeEntries(bs)
  {
    assert got + [] == got;
    var all := DecodeEntries(bs);
    assert all.Some? ==> [] + all.value == all.value;
    var d := DecodeWireEntry(bs);
    if bs != [] && d.Some? {
      EntryConsumes(bs);
      var more := DecodeEntries(d.value.1);
      assert more.Some? ==> got + ([d.value.0] + more.value) == got + [d.value.0] + more.value;
    }
  }

  lemma EntryConsumes(bs: seq<byte>)
    requires DecodeWireEntry(bs).Some?
    ensures |DecodeWireEntry(bs).value.1| < |bs|
  {
  }

  /** Reads entries until the data is used up. */
  method ReadEntries(data: Buffer) returns (ok: bool, es: seq<LogEntry>, ghost vs: seq<Entry>)
    requires data.Valid()
    modifies data.raw
    ensures data.Valid() && data.Data() == old(data.Data())
    ensures if ok then DecodeEntries(old(data.Rest())) == Some(vs) else DecodeEntries(old(data.Rest())) == None
    ensures ok ==> |es| == |vs| && forall i | 0 <= i < |es| :: es[i].Holds(vs[i])
    ensures ok ==> forall i | 0 <= i < |es| :: fresh(es[i]) && fresh(es[i].buf.raw)
  {
    hide Buffer.Valid, Buffer.Data, Buffer.Pos, LogEntry.Holds, DecodeWireEntry, DecodeEntries, After;
    ghost var bs := data.Rest();
    ok, es, vs := true, [], [];
    EntriesStep(bs, vs);
    var left := data.Available();
    while left > 0
      invariant data.Valid() && data.Data() == old(data.Data()) && left == |data.Rest()|
      invariant DecodeEntries(bs) == After(vs, DecodeEntries(data.Rest()))
      invariant |es| == |vs| && forall i | 0 <= i < |es| :: es[i].Holds(vs[i])
      invariant forall i | 0 <= i < |es| :: fresh(es[i]) && fresh(es[i].buf.raw)
      decreases left
    {
      ghost var d := DecodeWireEntry(data.Rest());
      EntriesStep(data.Rest(), vs);
      var e := ReadEntry(data);
      if e.None? {
        ok := false;
        NothingAfter(vs);
        return;
      }
      es := es + [e.value];
      vs := vs + [d.value.0];
      left := data.Available();
    }
    EntriesStep(data.Rest(), vs);
  }

  lemma NothingAfter(got: seq<Entry>)
    ensures After(got, None) == None
  {
  }

  /** The fields of a request header and the announced size of its data. */
  method ReadHeader(header: Buffer) returns (q: Option<Req>, size: int32)
    requires header.Valid()
    modifies header.raw
    ensures header.Valid() && header.Data() == old(header.Data())
    ensures match DecodeHeader(header.Data())
            case None => q == None
            case Some((x, n)) => q == Some(x) && size == n
  {
    hide Buffer.Valid, Buffer.Data, Buffer.Pos, Bytes.GetInt, Bytes.GetULong;
    header.SetPos(0);
    assert header.Rest() == header.Data();
    q, size := None, 0;
    var kind := header.GetByte();
    if kind.None? { return; }
    var src := header.GetInt();
    if src.None? { return; }
    var dst := header.GetInt();
    if dst.None? { return; }
    var term := header.GetULong();
    if term.None? { return; }
    var lastTerm := header.GetULong();
    if lastTerm.None? { return; }
    var lastIdx := header.GetULong();
    if lastIdx.None? { return; }
    var commitIdx := header.GetULong();
    if commitIdx.None? { return; }
    var n := header.GetInt();
    if n.None? { return; }
    var req := Req(kind.value, src.value, dst.value, term.value, lastTerm.value, lastIdx.value, commitIdx.value, []);
    return Some(req), n.value;
  }

  /** Header and data come in separate buffers; the second may be missing. */
  method DeserializeReq(header: Buffer, data: Option<Buffer>) returns (q: Option<Req>, es: seq<LogEntry>)
    requires header.Valid() && (data.Some? ==> data.value.Valid() && data.value.raw != header.raw)
    modifies header.raw, if data.Some? then {data.value.raw} else {}
    ensures match DecodeReq(old(header.Data()), if data.Some? then old(data.value.Data()) else [])
            case None => q == None
            case Some(x) =>
              && q == Some(x.(entries := [])) && |es| == |x.entries|
              && (forall i | 0 <= i < |es| :: es[i].Holds(x.entries[i]) && fresh(es[i]) && fresh(es[i].buf.raw))
  {
    hide Buffer.Valid, Buffer.Data, Buffer.Pos, DecodeHeader, DecodeEntries, LogEntry.Holds;
    NoData();
    es := [];
    var size;
    q, size := ReadHeader(header);
    if q.None? {
      return;
    }
    HeaderOnly(header.Data());
    if size > 0 && data.Some? {
      data.value.SetPos(0);
      assert data.value.Rest() == old(data.value.Data());
      var ok;
      ghost var vs;
      ok, es, vs := ReadEntries(data.value);
      if !ok {
        q := None;
      }
    }
  }

  lemma HeaderOnly(bs: seq<byte>)
    ensures var h := DecodeHeader(bs); h.Some? ==> h.value.0.entries == []
  {
  }

  lemma NoData()
    ensures DecodeEntries([]) == Some([])
  {
  }
}
