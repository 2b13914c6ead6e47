/**
 The byte formats: what the serializers write and what the deserializers make
 of it, as functions on byte sequences, and the round trips between them.
 */
module Codec {
  import opened Types
  import opened Bytes

  datatype SrvConfig = SrvConfig(id: int32, endpoint: seq<byte>)

  datatype ClusterConfig = ClusterConfig(logIdx: nat, prevLogIdx: nat, servers: seq<SrvConfig>)

  datatype Snapshot = Snapshot(lastLogIdx: nat, lastLogTerm: nat, size: nat, config: ClusterConfig)

  datatype SnapshotSyncReq = SnapshotSyncReq(snapshot: Snapshot, offset: nat, data: seq<byte>, done: bool)

  datatype SrvState = SrvState(term: nat, votedFor: int32)

  datatype Req = Req(kind: byte, src: int32, dst: int32, term: nat, lastLogTerm: nat, lastLogIdx: nat,
                     commitIdx: nat, entries: seq<Entry>)

  datatype Resp = Resp(kind: byte, src: int32, dst: int32, term: nat, nextIdx: nat, accepted: bool)

  const REQ_HEADER_SIZE := 45
  const RESP_SIZE := 26

  predicate Fits(v: nat) { v < TWO_64 }

  // ----- server and cluster configuration

  function EncodeSrv(c: SrvConfig): seq<byte> { PutInt(c.id) + (c.endpoint + [0]) }

  function DecodeSrv(bs: seq<byte>): Option<(SrvConfig, seq<byte>)> {
    var (id, r1) :- GetInt(bs);
    var (endpoint, r2) :- GetStr(r1);
    Some((SrvConfig(id, endpoint), r2))
  }

  /** The endpoints that survive: not empty and free of NUL. */
  predicate Readable(c: SrvConfig) { c.endpoint != [] && 0 !in c.endpoint }

  lemma SrvRoundTrip(c: SrvConfig, rest: seq<byte>)
    ensures Readable(c) ==> DecodeSrv(EncodeSrv(c) + rest) == Some((c, rest))
    ensures var d := DecodeSrv(EncodeSrv(c) + rest); d.Some? && d.value.0 == c ==> Readable(c)
  {
    var tail := c.endpoint + [0] + rest;
    assert EncodeSrv(c) + rest == PutInt(c.id) + tail;
    IntRoundTrip(c.id, tail);
    StrRoundTrip(c.endpoint, rest);
    StrCut(c.endpoint, rest);
  }

  /** If a string is read back at all as itself, it was readable. */
  lemma StrCut(s: seq<byte>, rest: seq<byte>)
    ensures GetStr(s + [0] + rest).Some? && GetStr(s + [0] + rest).value.0 == s ==> s != [] && 0 !in s
  {
    var bs := s + [0] + rest;
    assert forall k | 0 <= k < |s| :: bs[k] == s[k];
  }

  function EncodeServers(ss: seq<SrvConfig>): seq<byte> {
    if ss == [] then [] else EncodeSrv(ss[0]) + EncodeServers(ss[1..])
  }

  /** The loop of the reader: `n` servers, none when `n` is not positive. */
  function DecodeServers(n: int, bs: seq<byte>): Option<(seq<SrvConfig>, seq<byte>)>
    decreases Max(n, 0)
  {
    if n <= 0 then Some(([], bs))
    else
      var (c, r1) :- DecodeSrv(bs);
      var (cs, r2) :- DecodeServers(n - 1, r1);
      Some(([c] + cs, r2))
  }

  predicate AllReadable(ss: seq<SrvConfig>) { forall c | c in ss :: Readable(c) }

  /** A list of servers is read back as itself exactly when every endpoint is readable. */
  lemma {:induction false} ServersRoundTrip(ss: seq<SrvConfig>, rest: seq<byte>)
    ensures AllReadable(ss) ==> DecodeServers(|ss|, EncodeServers(ss) + rest) == Some((ss, rest))
    ensures var d := DecodeServers(|ss|, EncodeServers(ss) + rest); d.Some? && d.value.0 == ss ==> AllReadable(ss)
  {
    hide EncodeSrv, DecodeSrv, Readable;
    if ss == [] {
      assert EncodeServers(ss) + rest == rest;
    } else {
      var head, tail := EncodeSrv(ss[0]), EncodeServers(ss[1..]) + rest;
      Regroup(head, EncodeServers(ss[1..]), rest);
      SrvRoundTrip(ss[0], tail);
      ServersRoundTrip(ss[1..], rest);
      assert ss == [ss[0]] + ss[1..];
      FirstServer(ss, head + tail);
    }
  }

  lemma FirstServer(ss: seq<SrvConfig>, bs: seq<byte>)
    requires ss != []
    ensures var d, c := DecodeServers(|ss|, bs), DecodeSrv(bs);
            d.Some? && d.value.0 == ss ==>
              && c.Some? && c.value.0 == ss[0]
              && var e := DecodeServers(|ss| - 1, c.value.1); e.Some? && e.value.0 == ss[1..]
  {
    hide DecodeSrv;
  }

  lemma {:induction false} ServersSize(ss: seq<SrvConfig>)
    ensures |EncodeServers(ss)| >= 5 * |ss|
  {
    if ss != [] {
      ServersSize(ss[1..]);
    }
  }

  function EncodeConfig(c: ClusterConfig): seq<byte> {
    PutULong(c.logIdx) + (PutULong(c.prevLogIdx) + (PutInt(ToInt32(|c.servers|)) + EncodeServers(c.servers)))
  }

  function DecodeConfig(bs: seq<byte>): Option<(ClusterConfig, seq<byte>)> {
    var (logIdx, r1) :- GetULong(bs);
    var (prev, r2) :- GetULong(r1);
    var (n, r3) :- GetInt(r2);
    var (servers, r4) :- DecodeServers(n, r3);
    Some((ClusterConfig(logIdx, prev, servers), r4))
  }

  /** Within the allocation limit, a configuration survives exactly when all its endpoints do. */
  lemma ConfigRoundTrip(c: ClusterConfig, rest: seq<byte>)
    requires Fits(c.logIdx) && Fits(c.prevLogIdx) && |EncodeConfig(c)| < TWO_31
    ensures AllReadable(c.servers) ==> DecodeConfig(EncodeConfig(c) + rest) == Some((c, rest))
    ensures var d := DecodeConfig(EncodeConfig(c) + rest); d.Some? && d.value.0 == c ==> AllReadable(c.servers)
  {
    hide GetInt, GetULong, PutInt, PutULong, ToInt32, EncodeServers, DecodeServers, AllReadable;
    var r3 := EncodeServers(c.servers) + rest;
    var r2 := PutInt(ToInt32(|c.servers|)) + r3;
    var r1 := PutULong(c.prevLogIdx) + r2;
    assert EncodeConfig(c) + rest == PutULong(c.logIdx) + r1;
    ULongRoundTrip(c.logIdx, r1);
    ULongRoundTrip(c.prevLogIdx, r2);
    ServersSize(c.servers);
    IntRoundTrip(|c.servers|, r3);
    ServersRoundTrip(c.servers, rest);
  }

  // ----- snapshots

  function EncodeSnapshot(s: Snapshot): seq<byte> {
    PutULong(s.lastLogIdx) + (PutULong(s.lastLogTerm) + (PutULong(s.size) + EncodeConfig(s.config)))
  }

  function DecodeSnapshot(bs: seq<byte>): Option<(Snapshot, seq<byte>)> {
    var (idx, r1) :- GetULong(bs);
    var (term, r2) :- GetULong(r1);
    var (size, r3) :- GetULong(r2);
    var (config, r4) :- DecodeConfig(r3);
    Some((Snapshot(idx, term, size, config), r4))
  }

  predicate SnapshotFits(s: Snapshot) {
    Fits(s.lastLogIdx) && Fits(s.lastLogTerm) && Fits(s.size) && Fits(s.config.logIdx) && Fits(s.config.prevLogIdx)
  }

  lemma SnapshotRoundTrip(s: Snapshot, rest: seq<byte>)
    requires SnapshotFits(s) && |EncodeSnapshot(s)| < TWO_31
    ensures AllReadable(s.config.servers) ==> DecodeSnapshot(EncodeSnapshot(s) + rest) == Some((s, rest))
    ensures var d := DecodeSnapshot(EncodeSnapshot(s) + rest);
            d.Some? && d.value.0 == s ==> AllReadable(s.config.servers)
  {
    var r3 := EncodeConfig(s.config) + rest;
    var r2 := PutULong(s.size) + r3;
    var r1 := PutULong(s.lastLogTerm) + r2;
    assert EncodeSnapshot(s) + rest == PutULong(s.lastLogIdx) + r1;
    ULongRoundTrip(s.lastLogIdx, r1);
    ULongRoundTrip(s.lastLogTerm, r2);
    ULongRoundTrip(s.size, r3);
    ConfigRoundTrip(s.config, rest);
  }

  function EncodeSync(q: SnapshotSyncReq): seq<byte> {
    EncodeSnapshot(q.snapshot) + (PutULong(q.offset) + ([if q.done then 1 else 0] + q.data))
  }

  /** The block's data is whatever follows the header fields. */
  function DecodeSync(bs: seq<byte>): Option<SnapshotSyncReq> {
    var (snapshot, r1) :- DecodeSnapshot(bs);
    var (offset, r2) :- GetULong(r1);
    var (done, r3) :- GetByte(r2);
    Some(SnapshotSyncReq(snapshot, offset, r3, done == 1))
  }

  /** Three formats deep, the inner readers stop exactly where the outer fields begin. */
  lemma SyncRoundTrip(q: SnapshotSyncReq)
    requires SnapshotFits(q.snapshot) && Fits(q.offset) && |EncodeSync(q)| < TWO_31
    ensures DecodeSync(EncodeSync(q)) == Some(q) <==> AllReadable(q.snapshot.config.servers)
  {
    var r3: seq<byte> := [if q.done then 1 else 0] + q.data;
    var r2 := PutULong(q.offset) + r3;
    SnapshotRoundTrip(q.snapshot, r2);
    ULongRoundTrip(q.offset, r3);
    assert r3[1..] == q.data;
  }

  // ----- entries, packs and state

  function EncodeEntry(e: Entry): seq<byte> { PutULong(e.term) + ([e.kind] + e.data) }

  function DecodeEntry(bs: seq<byte>): Option<Entry> {
    var (term, r1) :- GetULong(bs);
    var (kind, r2) :- GetByte(r1);
    Some(Entry(term, kind, r2))
  }

  lemma EntryRoundTrip(e: Entry)
    requires Fits(e.term)
    ensures DecodeEntry(EncodeEntry(e)) == Some(e)
  {
    ULongRoundTrip(e.term, [e.kind] + e.data);
    assert ([e.kind] + e.data)[1..] == e.data;
  }

  /** The items of a log pack, each behind its length. */
  function EncodeItems(es: seq<Entry>): seq<byte> {
    if es == [] then []
    else PutInt(ToInt32(|EncodeEntry(es[0])|)) + (EncodeEntry(es[0]) + EncodeItems(es[1..]))
  }

  function EncodePack(es: seq<Entry>): seq<byte> { PutInt(ToInt32(|es|)) + EncodeItems(es) }

  function DecodeItem(bs: seq<byte>): Option<(Entry, seq<byte>)> {
    var (size, r1) :- GetInt(bs);
    var (item, r2) :- GetBytes(r1, size);
    var e :- DecodeEntry(item);
    Some((e, r2))
  }

  function DecodeItems(n: int, bs: seq<byte>): Option<seq<Entry>>
    decreases Max(n, 0)
  {
    if n <= 0 then Some([])
    else
      var (e, r) :- DecodeItem(bs);
      var es :- DecodeItems(n - 1, r);
      Some([e] + es)
  }

  /** What a reader that has `got` so far ends up with. */
  function After(got: seq<Entry>, more: Option<seq<Entry>>): Option<seq<Entry>> {
    match more case None => None case Some(es) => Some(got + es)
  }

  lemma ItemsStep(n: int, bs: seq<byte>, got: seq<Entry>)
    requires n > 0
    ensures match DecodeItem(bs)
            case None => DecodeItems(n, bs).None?
            case Some((e, r)) => After(got, DecodeItems(n, bs)) == After(got + [e], DecodeItems(n - 1, r))
  {
    hide DecodeItem;
    var d := DecodeItem(bs);
    if d.Some? {
      var more := DecodeItems(n - 1, d.value.1);
      if more.Some? {
        assert got + ([d.value.0] + more.value) == got + [d.value.0] + more.value;
      }
    }
  }

  function DecodePack(bs: seq<byte>): Option<seq<Entry>> {
    var (n, r) :- GetInt(bs);
    DecodeItems(n, r)
  }

  predicate TermsFit(es: seq<Entry>) { forall e | e in es :: Fits(e.term) }

  lemma {:induction false} ItemsRoundTrip(es: seq<Entry>)
    requires TermsFit(es) && |EncodeItems(es)| < TWO_31
    ensures DecodeItems(|es|, EncodeItems(es)) == Some(es)
  {
    if es != [] {
      var item := EncodeEntry(es[0]);
      var tail := item + EncodeItems(es[1..]);
      IntRoundTrip(|item|, tail);
      assert GetBytes(tail, |item|) == Some((item, EncodeItems(es[1..]))) by {
        assert tail[..|item|] == item && tail[|item|..] == EncodeItems(es[1..]);
      }
      EntryRoundTrip(es[0]);
      ItemsRoundTrip(es[1..]);
      assert es == [es[0]] + es[1..];
    }
  }

  lemma {:induction false} ItemsSize(es: seq<Entry>)
    ensures |EncodeItems(es)| >= 13 * |es|
  {
    if es != [] {
      ItemsSize(es[1..]);
    }
  }

  lemma {:induction false} ItemsConcat(xs: seq<Entry>, ys: seq<Entry>)
    ensures EncodeItems(xs + ys) == EncodeItems(xs) + EncodeItems(ys)
  {
    hide PutInt, ToInt32, EncodeEntry;
    if xs == [] {
      assert xs + ys == ys;
    } else {
      var size, item := PutInt(ToInt32(|EncodeEntry(xs[0])|)), EncodeEntry(xs[0]);
      ItemsConcat(xs[1..], ys);
      assert (xs + ys)[1..] == xs[1..] + ys;
      Regroup(item, EncodeItems(xs[1..]), EncodeItems(ys));
      Regroup(size, item + EncodeItems(xs[1..]), EncodeItems(ys));
    }
  }

  lemma PackRoundTrip(es: seq<Entry>)
    requires TermsFit(es) && |EncodePack(es)| < TWO_31
    ensures DecodePack(EncodePack(es)) == Some(es)
  {
    ItemsSize(es);
    IntRoundTrip(|es|, EncodeItems(es));
    ItemsRoundTrip(es);
  }

  function EncodeState(s: SrvState): seq<byte> { PutULong(s.term) + PutInt(s.votedFor) }

  function DecodeState(bs: seq<byte>): Option<SrvState> {
    var (term, r1) :- GetULong(bs);
    var (votedFor, r2) :- GetInt(r1);
    Some(SrvState(term, votedFor))
  }

  /** "Nobody", the negative vote, survives like any other. */
  lemma StateRoundTrip(s: SrvState)
    requires Fits(s.term)
    ensures DecodeState(EncodeState(s)) == Some(s)
  {
    ULongRoundTrip(s.term, PutInt(s.votedFor));
    IntRoundTrip(s.votedFor, []);
    assert PutInt(s.votedFor) + [] == PutInt(s.votedFor);
  }

  // ----- requests and responses

  function EncodeWireEntry(e: Entry): seq<byte> {
    PutULong(e.term) + ([e.kind] + (PutInt(ToInt32(|e.data|)) + e.data))
  }

  function EncodeEntries(es: seq<Entry>): seq<byte> {
    if es == [] then [] else EncodeWireEntry(es[0]) + EncodeEntries(es[1..])
  }

  function DecodeWireEntry(bs: seq<byte>): Option<(Entry, seq<byte>)> {
    var (term, r1) :- GetULong(bs);
    var (kind, r2) :- GetByte(r1);
    var (size, r3) :- GetInt(r2);
    var (data, r4) :- GetBytes(r3, size);
    Some((Entry(term, kind, data), r4))
  }

  /** The reader's loop runs until the data is used up. */
  function DecodeEntries(bs: seq<byte>): Option<seq<Entry>>
    decreases |bs|
  {
    if bs == [] then Some([])
    else
      var (e, r) :- DecodeWireEntry(bs);
      var es :- DecodeEntries(r);
      Some([e] + es)
  }

  lemma WireEntryRoundTrip(e: Entry, rest: seq<byte>)
    requires Fits(e.term) && |e.data| < TWO_31
    ensures DecodeWireEntry(EncodeWireEntry(e) + rest) == Some((e, rest))
  {
    var r3 := e.data + rest;
    var r2 := PutInt(|e.data|) + r3;
    var r1 := [e.kind] + r2;
    assert EncodeWireEntry(e) + rest == PutULong(e.term) + r1;
    ULongRoundTrip(e.term, r1);
    assert r1[1..] == r2;
    IntRoundTrip(|e.data|, r3);
    assert r3[..|e.data|] == e.data && r3[|e.data|..] == rest;
  }

  lemma {:induction false} EntriesRoundTrip(es: seq<Entry>)
    requires TermsFit(es) && |EncodeEntries(es)| < TWO_31
    ensures DecodeEntries(EncodeEntries(es)) == Some(es)
  {
    if es != [] {
      WireEntryRoundTrip(es[0], EncodeEntries(es[1..]));
      EntriesRoundTrip(es[1..]);
      assert es == [es[0]] + es[1..];
    }
  }

  function EncodeHeader(q: Req, dataSize: int): seq<byte> {
    [q.kind] + (PutInt(q.src) + (PutInt(q.dst) + (PutULong(q.term) + (PutULong(q.lastLogTerm) +
    (PutULong(q.lastLogIdx) + (PutULong(q.commitIdx) + PutInt(ToInt32(dataSize))))))))
  }

  function EncodeReq(q: Req): seq<byte> {
    EncodeHeader(q, |EncodeEntries(q.entries)|) + EncodeEntries(q.entries)
  }

  /** The fields of a request header and the announced size of its data. */
  function DecodeHeader(header: seq<byte>): Option<(Req, int32)> {
    var (kind, r1) :- GetByte(header);
    var (src, r2) :- GetInt(r1);
    var (dst, r3) :- GetInt(r2);
    var (term, r4) :- GetULong(r3);
    var (lastTerm, r5) :- GetULong(r4);
    var (lastIdx, r6) :- GetULong(r5);
    var (commitIdx, r7) :- GetULong(r6);
    var (size, r8) :- GetInt(r7);
    Some((Req(kind, src, dst, term, lastTerm, lastIdx, commitIdx, []), size))
  }

  /** Header and log data arrive in two buffers; the data is looked at only if the header announces some. */
  function DecodeReq(header: seq<byte>, data: seq<byte>): Option<Req> {
    var (q, size) :- DecodeHeader(header);
    if size > 0 then (var es :- DecodeEntries(data); Some(q.(entries := es))) else Some(q)
  }

  predicate ReqFits(q: Req) {
    Fits(q.term) && Fits(q.lastLogTerm) && Fits(q.lastLogIdx) && Fits(q.commitIdx) && TermsFit(q.entries)
  }

  /** Splitting the bytes after the 45-byte header and reading both parts gives the request back. */
  lemma ReqRoundTrip(q: Req)
    requires ReqFits(q) && |EncodeReq(q)| < TWO_31
    ensures |EncodeReq(q)| >= REQ_HEADER_SIZE
    ensures DecodeReq(EncodeReq(q)[..REQ_HEADER_SIZE], EncodeReq(q)[REQ_HEADER_SIZE..]) == Some(q)
  {
    var data := EncodeEntries(q.entries);
    var h := EncodeHeader(q, |data|);
    assert EncodeReq(q)[..REQ_HEADER_SIZE] == h && EncodeReq(q)[REQ_HEADER_SIZE..] == data;
    var r8 := PutInt(|data|);
    var r7 := PutULong(q.commitIdx) + r8;
    var r6 := PutULong(q.lastLogIdx) + r7;
    var r5 := PutULong(q.lastLogTerm) + r6;
    var r4 := PutULong(q.term) + r5;
    var r3 := PutInt(q.dst) + r4;
    var r2 := PutInt(q.src) + r3;
    assert h == [q.kind] + r2 && h[1..] == r2;
    IntRoundTrip(q.src, r3);
    IntRoundTrip(q.dst, r4);
    ULongRoundTrip(q.term, r5);
    ULongRoundTrip(q.lastLogTerm, r6);
    ULongRoundTrip(q.lastLogIdx, r7);
    ULongRoundTrip(q.commitIdx, r8);
    IntRoundTrip(|data|, []);
    assert r8 + [] == r8;
    EntriesRoundTrip(q.entries);
  }

  function EncodeResp(p: Resp): seq<byte> {
    [p.kind] + (PutInt(p.src) + (PutInt(p.dst) + (PutULong(p.term) + (PutULong(p.nextIdx) +
    [if p.accepted then 1 else 0]))))
  }

  function DecodeResp(bs: seq<byte>): Option<Resp> {
    var (kind, r1) :- GetByte(bs);
    var (src, r2) :- GetInt(r1);
    var (dst, r3) :- GetInt(r2);
    var (term, r4) :- GetULong(r3);
    var (nextIdx, r5) :- GetULong(r4);
    var (accepted, r6) :- GetByte(r5);
    Some(Resp(kind, src, dst, term, nextIdx, accepted == 1))
  }

  lemma RespRoundTrip(p: Resp)
    requires Fits(p.term) && Fits(p.nextIdx)
    ensures |EncodeResp(p)| == RESP_SIZE && DecodeResp(EncodeResp(p)) == Some(p)
  {
    var r5: seq<byte> := [if p.accepted then 1 else 0];
    var r4 := PutULong(p.nextIdx) + r5;
    var r3 := PutULong(p.term) + r4;
    var r2 := PutInt(p.dst) + r3;
    var r1 := PutInt(p.src) + r2;
    assert EncodeResp(p) == [p.kind] + r1 && EncodeResp(p)[1..] == r1;
    IntRoundTrip(p.src, r2);
    IntRoundTrip(p.dst, r3);
    ULongRoundTrip(p.term, r4);
    ULongRoundTrip(p.nextIdx, r5);
  }
}
