/**
 Runs of three servers, told step by step. A sheet is what one needs to know of
 a server to follow such a run; each step below says what an event makes of the
 sheets, and which conditions on commits it respects.
 */
module Scenario {
  import opened Types
  import opened Bytes
  import opened Codec
  import opened ServerSpec
  import opened Protocol
  import opened Raft
  import opened Safety
  import opened CommitSafety

  // ----- the cast

  const SERVERS: seq<SrvConfig> := [SrvConfig(1, [97]), SrvConfig(2, [98]), SrvConfig(3, [99])]

  /** The configuration that a leader logs at index `n` when none was logged before. */
  function Conf(n: nat): ClusterConfig { ClusterConfig(n, 0, SERVERS) }

  function First(t: nat, n: nat): Entry { Entry(t, CONF, EncodeConfig(Conf(n))) }

  function App(t: nat, d: byte): Entry { Entry(t, APP_LOG, [d]) }

  function Others(i: Id): set<Id> { {1, 2, 3} - {i} }

  /** The two peers of server `i`, in order. */
  function Lo(i: Id): Id { if i == 1 then 2 else 1 }

  function Hi(i: Id): Id { if i == 3 then 2 else 3 }

  function Two(i: Id, lo: Peer, hi: Peer): map<Id, Peer> { map[Lo(i) := lo, Hi(i) := hi] }

  datatype Sheet = Sheet(term: nat, leads: bool, log: seq<Entry>, quick: nat, sm: nat, applied: seq<Entry>,
                         conf: nat, max: nat, lo: Peer, hi: Peer)

  function PeerOf(h: Sheet, i: Id, j: Id): Peer { if j == Lo(i) then h.lo else h.hi }

  function WithPeer(h: Sheet, i: Id, j: Id, p: Peer): Sheet { if j == Lo(i) then h.(lo := p) else h.(hi := p) }

  ghost predicate Shows(s: Server, i: Id, h: Sheet) {
    && s.id == i && s.term == h.term && (s.role.Leader? <==> h.leads) && s.log == h.log
    && s.quickCommit == h.quick && s.smCommit == h.sm && s.applied == h.applied && s.bootCommit == 0
    && s.config.logIdx == h.conf && s.config.servers == SERVERS
    && s.maxAppend == h.max && s.peers == Two(i, h.lo, h.hi)
  }

  /** The sheets of the three servers. */
  datatype Cast = Cast(one: Sheet, two: Sheet, three: Sheet)

  function At(w: Cast, i: Id): Sheet { if i == 1 then w.one else if i == 2 then w.two else w.three }

  function With(w: Cast, i: Id, h: Sheet): Cast {
    if i == 1 then w.(one := h) else if i == 2 then w.(two := h) else w.(three := h)
  }

  ghost predicate Is(sys: System, w: Cast) {
    && sys.servers.Keys == {1, 2, 3}
    && Shows(sys.servers[1], 1, w.one) && Shows(sys.servers[2], 2, w.two) && Shows(sys.servers[3], 3, w.three)
  }

  lemma IsAt(sys: System, w: Cast, i: Id)
    requires Is(sys, w) && i in {1, 2, 3}
    ensures i in sys.servers && Shows(sys.servers[i], i, At(w, i)) && Shows(Ready(sys.servers[i]), i, At(w, i))
  {
  }

  lemma IsUpdated(sys: System, w: Cast, i: Id, s: Server, h: Sheet, net: set<Msg>)
    requires Is(sys, w) && i in {1, 2, 3} && Shows(s, i, h)
    ensures Is(System(sys.servers[i := s], net), With(w, i, h))
  {
    assert sys.servers[i := s].Keys == sys.servers.Keys;
  }

  lemma TwoPeers(s: Server, i: Id, h: Sheet)
    requires Shows(s, i, h) && i in {1, 2, 3}
    ensures |s.peers| == 2 && s.peers.Keys == Others(i) == {Lo(i), Hi(i)}
    ensures forall j | j in Others(i) :: s.peers[j] == PeerOf(h, i, j)
  {
    assert s.peers.Keys == {Lo(i), Hi(i)} == Others(i);
    assert |s.peers.Keys| == 2;
  }

  lemma PeersAre(ps: map<Id, Peer>, i: Id, lo: Peer, hi: Peer)
    requires i in {1, 2, 3} && ps.Keys == Others(i) && ps[Lo(i)] == lo && ps[Hi(i)] == hi
    ensures ps == Two(i, lo, hi)
  {
    assert ps.Keys == {Lo(i), Hi(i)};
  }

  // ----- runs that respect all conditions but one

  ghost predicate Keeps(c: Condition, a: System, ev: Event, b: System) {
    forall d | d != c :: Meets(d, a, ev, b)
  }

  ghost predicate Path(c: Condition, run: seq<System>, evs: seq<Event>) {
    && |run| == |evs| + 1
    && (forall k | 0 <= k < |evs| :: Next(run[k], evs[k], run[k + 1]) && Keeps(c, run[k], evs[k], run[k + 1]))
  }

  ghost predicate Reaches(c: Condition, a: System, b: System) {
    exists run, evs :: Path(c, run, evs) && run[0] == a && run[|run| - 1] == b
  }

  lemma Stay(c: Condition, a: System)
    ensures Reaches(c, a, a)
  {
    hide Next, Keeps;
    assert Path(c, [a], []);
  }

  lemma ThenStep(c: Condition, a: System, b: System, ev: Event, d: System)
    requires Reaches(c, a, b) && Next(b, ev, d) && Keeps(c, b, ev, d)
    ensures Reaches(c, a, d)
  {
    hide Next, Keeps;
    var run, evs :| Path(c, run, evs) && run[0] == a && run[|run| - 1] == b;
    var longer := run + [d];
    assert Path(c, longer, evs + [ev]);
  }

  /** Server `i` reacts to `ev` without running into an error; of its messages, `kept` arrive. */
  lemma Move(c: Condition, z: System, a: System, w: Cast, ev: Event, o: Outcome, h: Sheet, kept: set<Msg>)
    returns (b: System)
    requires Reaches(c, z, a) && Is(a, w) && Actor(ev) in {1, 2, 3} && Enabled(a, ev) && o == React(a, ev)
    requires !o.server.exited && Shows(o.server, Actor(ev), h) && kept <= o.sent
    requires var i := Actor(ev);
             h.quick == At(w, i).quick || Keeps(c, a, ev, System(a.servers[i := o.server], a.net + kept))
    ensures b == System(a.servers[Actor(ev) := o.server], a.net + kept)
    ensures Reaches(c, z, b) && Is(b, With(w, Actor(ev), h))
  {
    hide Reaches, React, Is, Enabled;
    var i := Actor(ev);
    IsAt(a, w, i);
    b := System(a.servers[i := o.server], a.net + kept);
    IsUpdated(a, w, i, o.server, h, b.net);
    ThenStep(c, z, a, ev, b);
  }

  // ----- elections

  /** Every index a leader keeps for a peer lies in its log or right behind it. */
  predicate InRange(h: Sheet) { 1 <= h.lo.next <= |h.log| + 1 && 1 <= h.hi.next <= |h.log| + 1 }

  /** The request a leader has for peer `j`. */
  function Order(h: Sheet, x: Id, j: Id): Msg
    requires InRange(h)
  {
    var prev := PeerOf(h, x, j).next - 1;
    AppendReq(x, j, h.term, TermAt(h.log, prev), prev, h.quick, h.log[prev..Min(|h.log|, prev + h.max)])
  }

  /** The request of a candidate. */
  function Ask(h: Sheet, x: Id, j: Id): Msg {
    VoteReq(x, j, h.term, TermAt(h.log, |h.log|), |h.log|, h.quick)
  }

  function Stood(h: Sheet): Sheet { h.(term := h.term + 1, leads := false) }

  function Followed(h: Sheet, t: nat): Sheet { h.(term := t, leads := false) }

  /** The winner before it has sent anything: its configuration is logged if none was. */
  function Crowned(h: Sheet): Sheet {
    h.(leads := true,
       log := if h.conf == 0 then h.log + [First(h.term, |h.log| + 1)] else h.log,
       conf := if h.conf == 0 then |h.log| + 1 else h.conf,
       lo := h.lo.(next := |h.log| + 1, busy := false), hi := h.hi.(next := |h.log| + 1, busy := false))
  }

  /** The winner with a request out to every peer. */
  function Elected(h: Sheet): (g: Sheet)
    ensures InRange(g)
  {
    Crowned(h).(lo := h.lo.(next := |h.log| + 1, busy := true), hi := h.hi.(next := |h.log| + 1, busy := true))
  }

  lemma StandOutcome(s: Server, x: Id, h: Sheet)
    requires Shows(s, x, h) && x in {1, 2, 3} && !h.leads && !s.exited
    ensures var o := ElectionTimeout(s);
            && o.server == Standing(s) && Shows(Standing(s), x, Stood(h))
            && (forall j | j in Others(x) :: Ask(Stood(h), x, j) in o.sent)
  {
    hide Two, BecomeLeader;
    TwoPeers(s, x, h);
    assert {} + {s.id} == {s.id};
    assert ElectionTimeout(s) == Outcome(Standing(s), set j | j in s.peers :: VoteReqFor(Standing(s), j));
    forall j | j in Others(x) ensures Ask(Stood(h), x, j) in ElectionTimeout(s).sent {
      assert Ask(Stood(h), x, j) == VoteReqFor(Standing(s), j);
    }
  }

  /** A server stands for the next term and asks both others. */
  lemma Stand(c: Condition, z: System, a: System, w: Cast, x: Id) returns (b: System)
    requires Reaches(c, z, a) && Is(a, w) && x in {1, 2, 3} && !At(w, x).leads
    ensures Reaches(c, z, b) && Is(b, With(w, x, Stood(At(w, x)))) && a.net <= b.net
    ensures x in a.servers && x in b.servers && b.servers[x] == Standing(Ready(a.servers[x]))
    ensures forall j | j in Others(x) :: Ask(Stood(At(w, x)), x, j) in b.net
  {
    hide Reaches, Is, ElectionTimeout, Shows, Standing;
    IsAt(a, w, x);
    var s := Ready(a.servers[x]);
    StandOutcome(s, x, At(w, x));
    ReadyStanding(s);
    var o := ElectionTimeout(s);
    b := Move(c, z, a, w, Timeout(x), o, Stood(At(w, x)), o.sent);
  }

  lemma ReadyStanding(s: Server)
    requires !s.exited
    ensures Ready(Standing(s)) == Standing(s) && Standing(s).peers == s.peers && !Standing(s).exited
  {
  }

  lemma VoteOutcome(s: Server, y: Id, h: Sheet, m: Msg)
    requires Shows(s, y, h) && !s.exited && m.VoteReq? && m.term > h.term
    ensures var o := ProcessReq(s, m);
            && !o.server.exited && Shows(o.server, y, Followed(h, m.term))
            && (UpToDate(m.lastLogTerm, m.lastLogIdx, h.log) ==>
                  VoteResp(y, m.src, m.term, |h.log| + 1, true) in o.sent)
  {
  }

  /** A vote request of a newer term makes a follower, and wins a vote if the candidate's log is current. */
  lemma Vote(c: Condition, z: System, a: System, w: Cast, m: Msg) returns (b: System)
    requires Reaches(c, z, a) && Is(a, w) && m in a.net && m.VoteReq?
    requires m.dst in {1, 2, 3} && m.term > At(w, m.dst).term
    ensures var y := m.dst;
            && Reaches(c, z, b) && Is(b, With(w, y, Followed(At(w, y), m.term))) && a.net <= b.net
            && y in b.servers && b.servers == a.servers[y := b.servers[y]]
            && (UpToDate(m.lastLogTerm, m.lastLogIdx, At(w, y).log) ==>
                  VoteResp(y, m.src, m.term, |At(w, y).log| + 1, true) in b.net)
  {
    hide Reaches, Is, ProcessReq, Shows, UpToDate;
    var y := m.dst;
    IsAt(a, w, y);
    var s := Ready(a.servers[y]);
    VoteOutcome(s, y, At(w, y), m);
    var o := ProcessReq(s, m);
    b := Move(c, z, a, w, Deliver(m), o, Followed(At(w, y), m.term), o.sent);
  }

  /** Sending to all peers moves no index when none is unknown or too large. */
  lemma Spreads(s: Server, announce: bool)
    requires !s.exited && forall j | j in s.peers :: 1 <= s.peers[j].next <= |s.log| + 1
    ensures var o := SendAll(s, announce);
            && !o.server.exited && o.server == s.(peers := o.server.peers) && o.server.peers.Keys == s.peers.Keys
            && (forall j | j in s.peers :: o.server.peers[j] ==
                  if s.peers[j].busy then (if announce then s.peers[j].(pending := true) else s.peers[j])
                  else s.peers[j].(busy := true))
            && (forall j | j in s.peers && !s.peers[j].busy :: !TooLarge(s, j) && CreateAppendReq(s, j) in o.sent)
  {
  }

  lemma OrderIs(s: Server, x: Id, h: Sheet, j: Id)
    requires Shows(s, x, h) && x in {1, 2, 3} && j in Others(x) && InRange(h)
    ensures j in s.peers && !TooLarge(s, j) && CreateAppendReq(s, j) == Order(h, x, j)
  {
    hide Two;
    TwoPeers(s, x, h);
    assert s.peers[j].next == PeerOf(h, x, j).next >= 1;
  }

  lemma CrownShows(s: Server, x: Id, h: Sheet)
    requires Shows(s, x, h) && !s.exited && x in {1, 2, 3}
    ensures !Crown(s).exited && Crown(s).role.Leader? && Shows(Crown(s), x, Crowned(h))
  {
    hide EncodeConfig, Two;
    TwoPeers(s, x, h);
    PeersAre(Crown(s).peers, x, Crowned(h).lo, Crowned(h).hi);
  }

  /** A leader none of whose peers is busy sends to both. */
  lemma SpreadShows(s: Server, x: Id, h: Sheet)
    requires Shows(s, x, h) && !s.exited && x in {1, 2, 3} && InRange(h) && !h.lo.busy && !h.hi.busy
    ensures var o := SendAll(s, false);
            !o.server.exited && Shows(o.server, x, h.(lo := h.lo.(busy := true), hi := h.hi.(busy := true)))
  {
    hide SendAll, CreateAppendReq, Two;
    TwoPeers(s, x, h);
    Spreads(s, false);
    PeersAre(SendAll(s, false).server.peers, x, h.lo.(busy := true), h.hi.(busy := true));
  }

  lemma SpreadSends(s: Server, x: Id, h: Sheet, j: Id)
    requires Shows(s, x, h) && !s.exited && x in {1, 2, 3} && InRange(h) && !h.lo.busy && !h.hi.busy && j in Others(x)
    ensures Order(h, x, j) in SendAll(s, false).sent
  {
    hide SendAll, CreateAppendReq, Order;
    TwoPeers(s, x, h);
    Spreads(s, false);
    OrderIs(s, x, h, j);
  }

  lemma OfficeOutcome(s: Server, x: Id, h: Sheet)
    requires Shows(s, x, h) && !s.exited && x in {1, 2, 3}
    ensures var o := BecomeLeader(s);
            && !o.server.exited && Shows(o.server, x, Elected(h))
            && (forall j | j in Others(x) :: Order(Elected(h), x, j) in o.sent)
  {
    hide Crown, SendAll, First, Order, Shows;
    CrownShows(s, x, h);
    var k, g := Crown(s), Crowned(h);
    SpreadShows(k, x, g);
    assert BecomeLeader(s) == SendAll(k, false) by { TwoPeers(k, x, g); }
    forall j | j in Others(x) ensures Order(Elected(h), x, j) in SendAll(k, false).sent {
      SpreadSends(k, x, g, j);
      SameOrder(g, Elected(h), x, j);
    }
  }

  lemma WinOutcome(r: Server, x: Id, h: Sheet, m: Msg)
    requires Shows(Standing(r), x, h) && !r.exited && x in {1, 2, 3}
    requires m.VoteResp? && m.accepted && m.term == h.term && m.src != x
    ensures var o := HandlePeerResp(Standing(r), m);
            && !o.server.exited && Shows(o.server, x, Elected(h))
            && (forall j | j in Others(x) :: Order(Elected(h), x, j) in o.sent)
  {
    hide BecomeLeader, Elected, Order;
    var s := Standing(r);
    TwoPeers(s, x, h);
    var won := s.(votedServers := s.votedServers + {m.src}, votesGranted := 2, electionCompleted := true);
    assert HandlePeerResp(s, m) == BecomeLeader(won);
    OfficeOutcome(won, x, h);
  }

  /** Server `x` stands, `y` votes for it, and it leads: its requests are out to both others. */
  lemma Campaign(c: Condition, z: System, a: System, w: Cast, x: Id, y: Id) returns (b: System)
    requires Reaches(c, z, a) && Is(a, w) && x in {1, 2, 3} && y in Others(x)
    requires !At(w, x).leads && At(w, y).term <= At(w, x).term
    requires UpToDate(TermAt(At(w, x).log, |At(w, x).log|), |At(w, x).log|, At(w, y).log)
    ensures var t, g := At(w, x).term + 1, Elected(Stood(At(w, x)));
            && Reaches(c, z, b) && Is(b, With(With(w, x, g), y, Followed(At(w, y), t))) && a.net <= b.net
            && (forall j | j in Others(x) :: Order(g, x, j) in b.net && Ask(Stood(At(w, x)), x, j) in b.net)
  {
    hide Reaches, Is, HandlePeerResp, Shows, UpToDate, Elected, Order, Standing;
    var h := Stood(At(w, x));
    var d := Stand(c, z, a, w, x);
    var m, w1 := Ask(h, x, y), With(w, x, h);
    var e := Vote(c, z, d, w1, m);
    var w2 := With(w1, y, Followed(At(w, y), h.term));
    IsAt(e, w2, x);
    var r := Ready(a.servers[x]);
    ReadyStanding(r);
    var v := VoteResp(y, x, h.term, |At(w, y).log| + 1, true);
    WinOutcome(r, x, h, v);
    var o := HandlePeerResp(Standing(r), v);
    b := Move(c, z, e, w2, Deliver(v), o, Elected(h), o.sent) by { QuickKept(h); }
  }

  lemma QuickKept(h: Sheet)
    ensures Elected(h).quick == h.quick
  {
  }

  // ----- client entries

  function Logged(h: Sheet, d: byte): Sheet { h.(log := h.log + [App(h.term, d)]) }

  predicate AllBusy(h: Sheet) { h.lo.busy && h.hi.busy && InRange(h) }

  lemma ClientOutcome(s: Server, x: Id, h: Sheet, d: byte)
    requires Shows(s, x, h) && !s.exited && h.leads && x in {1, 2, 3} && AllBusy(h)
    ensures var o := ClientReq(s, [Payload(APP_LOG, [d])], false);
            !o.server.exited && Shows(o.server, x, Logged(h, d))
  {
    hide SendAll;
    TwoPeers(s, x, h);
    var s1 := s.(log := s.log + [App(s.term, d)]);
    Spreads(s1, false);
    var o := SendAll(s1, false);
    PeersAre(o.server.peers, x, h.lo, h.hi);
    assert ClientEntries(s.term, [Payload(APP_LOG, [d])]) == [App(s.term, d)];
    assert ClientReq(s, [Payload(APP_LOG, [d])], false) == o;
  }

  /** A client's entry reaches a leader all of whose peers have a request outstanding. */
  lemma Log(c: Condition, z: System, a: System, w: Cast, x: Id, d: byte) returns (b: System)
    requires Reaches(c, z, a) && Is(a, w) && x in {1, 2, 3} && At(w, x).leads && AllBusy(At(w, x))
    ensures Reaches(c, z, b) && Is(b, With(w, x, Logged(At(w, x), d))) && a.net <= b.net
  {
    hide Reaches, Is, ClientReq, Shows;
    IsAt(a, w, x);
    var s := Ready(a.servers[x]);
    ClientOutcome(s, x, At(w, x), d);
    var o := ClientReq(s, [Payload(APP_LOG, [d])], false);
    b := Move(c, z, a, w, Client(x, [Payload(APP_LOG, [d])], false), o, Logged(At(w, x), d), {});
  }

  // ----- requests

  /** A follower is in the request's term, or enters it now. */
  predicate Admits(h: Sheet, m: Msg) { m.term > h.term || (m.term == h.term && !h.leads) }

  lemma RefuseOutcome(s: Server, y: Id, h: Sheet, m: Msg)
    requires Shows(s, y, h) && !s.exited && m.AppendReq? && Admits(h, m) && !LogOkay(h.log, m)
    ensures var o := ProcessReq(s, m);
            && !o.server.exited && Shows(o.server, y, Followed(h, m.term))
            && AppendResp(y, m.src, m.term, |h.log| + 1, false) in o.sent
  {
    hide LogOkay;
  }

  /** The follower lacks the entry before the request. */
  lemma Refuse(c: Condition, z: System, a: System, w: Cast, m: Msg) returns (b: System)
    requires Reaches(c, z, a) && Is(a, w) && m in a.net && m.AppendReq? && m.dst in {1, 2, 3}
    requires Admits(At(w, m.dst), m) && !LogOkay(At(w, m.dst).log, m)
    ensures Reaches(c, z, b) && Is(b, With(w, m.dst, Followed(At(w, m.dst), m.term))) && a.net <= b.net
    ensures AppendResp(m.dst, m.src, m.term, |At(w, m.dst).log| + 1, false) in b.net
  {
    hide Reaches, Is, ProcessReq, Shows, LogOkay, Admits;
    var y := m.dst;
    IsAt(a, w, y);
    var s := Ready(a.servers[y]);
    RefuseOutcome(s, y, At(w, y), m);
    var o := ProcessReq(s, m);
    b := Move(c, z, a, w, Deliver(m), o, Followed(At(w, y), m.term), o.sent);
  }

  lemma StaleOutcome(s: Server, y: Id, h: Sheet, m: Msg)
    requires Shows(s, y, h) && !s.exited && m.AppendReq? && m.term < h.term
    ensures var o := ProcessReq(s, m);
            o.server == s && AppendResp(y, m.src, h.term, |h.log| + 1, false) in o.sent
  {
  }

  /** A request of an older term is refused and changes nothing. */
  lemma Stale(c: Condition, z: System, a: System, w: Cast, m: Msg) returns (b: System)
    requires Reaches(c, z, a) && Is(a, w) && m in a.net && m.AppendReq? && m.dst in {1, 2, 3}
    requires m.term < At(w, m.dst).term
    ensures Reaches(c, z, b) && Is(b, w) && a.net <= b.net
    ensures AppendResp(m.dst, m.src, At(w, m.dst).term, |At(w, m.dst).log| + 1, false) in b.net
  {
    hide Reaches, Is, ProcessReq, Shows;
    var y := m.dst;
    IsAt(a, w, y);
    var s := Ready(a.servers[y]);
    StaleOutcome(s, y, At(w, y), m);
    var o := ProcessReq(s, m);
    b := Move(c, z, a, w, Deliver(m), o, At(w, y), o.sent);
  }

  function Taken(h: Sheet, m: Msg): Sheet
    requires m.AppendReq? && m.lastLogIdx <= |h.log|
  {
    Followed(h, m.term).(log := Merge(h.log, m.lastLogIdx, m.entries), quick := Max(h.quick, m.commitIdx))
  }

  lemma AcceptOutcome(s: Server, y: Id, h: Sheet, m: Msg)
    requires Shows(s, y, h) && !s.exited && m.AppendReq? && Admits(h, m)
    requires m.lastLogIdx <= |h.log| && LogOkay(h.log, m)
    ensures var o := ProcessReq(s, m);
            && !o.server.exited && Shows(o.server, y, Taken(h, m))
            && AppendResp(y, m.src, m.term, m.lastLogIdx + |m.entries| + 1, true) in o.sent
  {
    hide LogOkay, Merge;
  }

  /** The follower takes the entries and the commit index. */
  lemma Accept(c: Condition, z: System, a: System, w: Cast, m: Msg) returns (b: System)
    requires Reaches(c, z, a) && Is(a, w) && m in a.net && m.AppendReq? && m.dst in {1, 2, 3}
    requires Admits(At(w, m.dst), m) && m.lastLogIdx <= |At(w, m.dst).log| && LogOkay(At(w, m.dst).log, m)
    requires c.Capped? || m.commitIdx <= m.lastLogIdx + |m.entries|
    ensures Reaches(c, z, b) && Is(b, With(w, m.dst, Taken(At(w, m.dst), m))) && a.net <= b.net
    ensures AppendResp(m.dst, m.src, m.term, m.lastLogIdx + |m.entries| + 1, true) in b.net
  {
    hide Reaches, Is, ProcessReq, Shows, LogOkay, Merge, Admits;
    var y := m.dst;
    IsAt(a, w, y);
    var s := Ready(a.servers[y]);
    AcceptOutcome(s, y, At(w, y), m);
    var o := ProcessReq(s, m);
    b := Move(c, z, a, w, Deliver(m), o, Taken(At(w, y), m), o.sent);
  }

  // ----- answers

  function StepBack(p: Peer, named: nat): nat {
    if named > 0 && p.next > named then named else Dec(p.next)
  }

  function Backed(h: Sheet, x: Id, j: Id, named: nat): Sheet {
    WithPeer(h, x, j, PeerOf(h, x, j).(next := StepBack(PeerOf(h, x, j), named), busy := true))
  }

  /** The leader's record of peer `j`, which it is about to send to. */
  function Freed(s: Server, j: Id, p: Peer): Server { s.(peers := s.peers[j := p.(busy := false)]) }

  lemma RefusedIs(s: Server, m: Msg, p: Peer)
    requires !s.exited && s.role.Leader? && m.AppendResp? && !m.accepted && m.term <= s.term && m.src in s.peers
    requires p == s.peers[m.src].(next := StepBack(s.peers[m.src], m.nextIdx)) && 1 <= p.next <= |s.log| + 1
    ensures var s1 := Freed(s, m.src, p);
            && !TooLarge(s1, m.src)
            && HandlePeerResp(s, m) ==
               Outcome(s.(peers := s.peers[m.src := p.(busy := true)]), {CreateAppendReq(s1, m.src)})
  {
    hide CreateAppendReq;
    var s0, s1 := SetFree(s, m.src), Freed(s, m.src, p);
    assert s0.peers[m.src := p.(busy := false)] == s1.peers;
    assert s1.peers[m.src := p.(busy := true)] == s.peers[m.src := p.(busy := true)];
    assert HandlePeerResp(s, m) == PeerRefused(s0, m) == TrySend(s1, m.src);
  }

  lemma FreedOrder(s: Server, x: Id, h: Sheet, j: Id, p: Peer)
    requires Shows(s, x, h) && x in {1, 2, 3} && j in Others(x) && InRange(WithPeer(h, x, j, p))
    ensures var s1 := Freed(s, j, p);
            j in s1.peers && !TooLarge(s1, j) && CreateAppendReq(s1, j) == Order(WithPeer(h, x, j, p), x, j)
  {
    hide CreateAppendReq, Order, Two;
    TwoPeers(s, x, h);
    var s1, f, g := Freed(s, j, p), WithPeer(h, x, j, p.(busy := false)), WithPeer(h, x, j, p);
    PeersAre(s1.peers, x, f.lo, f.hi);
    OrderIs(s1, x, f, j);
    SameOrder(f, g, x, j);
  }

  lemma ShowsPeer(s: Server, x: Id, h: Sheet, j: Id, p: Peer)
    requires Shows(s, x, h) && x in {1, 2, 3} && j in Others(x)
    ensures Shows(s.(peers := s.peers[j := p]), x, WithPeer(h, x, j, p))
  {
    hide Two;
    TwoPeers(s, x, h);
    var g := WithPeer(h, x, j, p);
    PeersAre(s.peers[j := p], x, g.lo, g.hi);
  }

  lemma BackOutcome(s: Server, x: Id, h: Sheet, m: Msg)
    requires Shows(s, x, h) && !s.exited && h.leads && m.AppendResp? && !m.accepted && m.term <= h.term
    requires x in {1, 2, 3} && m.src in Others(x) && InRange(Backed(h, x, m.src, m.nextIdx))
    ensures var o, g := HandlePeerResp(s, m), Backed(h, x, m.src, m.nextIdx);
            && !o.server.exited && Shows(o.server, x, g) && Order(g, x, m.src) in o.sent
  {
    hide HandlePeerResp, CreateAppendReq, Order, Two, StepBack, Freed, TooLarge;
    var j, g := m.src, Backed(h, x, m.src, m.nextIdx);
    TwoPeers(s, x, h);
    var p := PeerOf(h, x, j).(next := StepBack(PeerOf(h, x, j), m.nextIdx));
    RefusedIs(s, m, p);
    ShowsPeer(s, x, h, j, p.(busy := true));
    FreedOrder(s, x, h, j, p);
    SameOrder(WithPeer(h, x, j, p), g, x, j);
  }

  lemma SameOrder(g: Sheet, h: Sheet, x: Id, j: Id)
    requires InRange(g) && InRange(h) && PeerOf(g, x, j).next == PeerOf(h, x, j).next
    requires g.term == h.term && g.log == h.log && g.quick == h.quick && g.max == h.max
    ensures Order(g, x, j) == Order(h, x, j)
  {
  }

  /** A leader steps back for a peer that refused, and tries again. */
  lemma Back(c: Condition, z: System, a: System, w: Cast, m: Msg) returns (b: System)
    requires Reaches(c, z, a) && Is(a, w) && m in a.net && m.AppendResp? && !m.accepted && m.dst in {1, 2, 3}
    requires At(w, m.dst).leads && m.term <= At(w, m.dst).term && m.src in Others(m.dst)
    requires InRange(Backed(At(w, m.dst), m.dst, m.src, m.nextIdx))
    ensures var g := Backed(At(w, m.dst), m.dst, m.src, m.nextIdx);
            Reaches(c, z, b) && Is(b, With(w, m.dst, g)) && a.net <= b.net && Order(g, m.dst, m.src) in b.net
  {
    hide Reaches, Is, HandlePeerResp, Shows, StepBack, Order;
    var x := m.dst;
    IsAt(a, w, x);
    var s := Ready(a.servers[x]);
    BackOutcome(s, x, At(w, x), m);
    var o := HandlePeerResp(s, m);
    b := Move(c, z, a, w, Deliver(m), o, Backed(At(w, x), x, m.src, m.nextIdx), o.sent);
  }

  // ----- a log replaced

  /** The logs have no entry in common. */
  predicate Unlike(log: seq<Entry>, other: seq<Entry>) {
    forall k | 0 <= k < |log| && k < |other| :: log[k].term != other[k].term
  }

  lemma ReplacedLog(h: Sheet, m: Msg, log: seq<Entry>)
    requires m.AppendReq? && m.lastLogIdx == 0 && m.commitIdx == 0 && m.entries == log
    requires Unlike(h.log, log) && log != []
    ensures Taken(h, m) == Followed(h, m.term).(log := log)
  {
    assert h.log[..0] + log == log;
  }

  /** A request that does not start at index 1 is refused; the next one starts further down. */
  lemma Retry(c: Condition, z: System, a: System, w: Cast, x: Id, m: Msg) returns (b: System, k: Sheet)
    requires Reaches(c, z, a) && Is(a, w) && x in {1, 2, 3} && m in a.net && m.AppendReq? && m.src == x
    requires m.dst in Others(x)
    requires var h, g, p := At(w, x), At(w, m.dst), PeerOf(At(w, x), x, m.dst);
             && h.leads && InRange(h) && p.next > 1 && p.busy
             && m.term == h.term && Admits(g, m) && !LogOkay(g.log, m)
    ensures var y, h, n := m.dst, At(w, x), PeerOf(k, x, m.dst).next;
            && Reaches(c, z, b) && Is(b, With(With(w, y, Followed(At(w, y), h.term)), x, k)) && a.net <= b.net
            && 1 <= n < PeerOf(h, x, y).next && k == WithPeer(h, x, y, PeerOf(h, x, y).(next := n))
            && Order(k, x, y) in b.net && Order(k, x, y).AppendReq? && Order(k, x, y).src == x
            && Order(k, x, y).dst == y && Order(k, x, y).term == h.term && Order(k, x, y).lastLogIdx == n - 1
            && Order(k, x, y).lastLogTerm == TermAt(h.log, n - 1)
  {
    hide Reaches, Is, Order, LogOkay, TermAt;
    var y, h, g := m.dst, At(w, x), At(w, m.dst);
    var d := Refuse(c, z, a, w, m);
    k := Backed(h, x, y, |g.log| + 1);
    b := Back(c, z, d, With(w, y, Followed(g, h.term)), AppendResp(y, x, h.term, |g.log| + 1, false));
    OrderStarts(k, x, y);
  }

  /**
   Request `m` of leader `x` is refused, and so are the next ones, until the
   leader sends its whole log from index 1: that replaces the log of `y`.
   */
  lemma Overwrite(c: Condition, z: System, a: System, w: Cast, x: Id, m: Msg) returns (b: System)
    requires Reaches(c, z, a) && Is(a, w) && x in {1, 2, 3} && m in a.net && m.AppendReq? && m.src == x
    requires m.dst in Others(x)
    requires var h, g, p := At(w, x), At(w, m.dst), PeerOf(At(w, x), x, m.dst);
             && h.leads && InRange(h) && p.busy && 0 < |h.log| <= h.max && h.quick == 0
             && m.term == h.term && Admits(g, m) && Unlike(g.log, h.log)
             && m.lastLogIdx == p.next - 1 && m.lastLogTerm == TermAt(h.log, p.next - 1)
             && (p.next == 1 ==> m == Order(h, x, m.dst))
    ensures var y, h := m.dst, At(w, x);
            && Reaches(c, z, b) && a.net <= b.net && AppendResp(y, x, h.term, |h.log| + 1, true) in b.net
            && Is(b, With(With(w, x, WithPeer(h, x, y, PeerOf(h, x, y).(next := 1))),
                          y, Followed(At(w, y), h.term).(log := h.log)))
    decreases PeerOf(At(w, x), x, m.dst).next
  {
    hide Reaches, Is, Order, Unlike, LogOkay, Taken, TermAt;
    var y, h, g := m.dst, At(w, x), At(w, m.dst);
    var p := PeerOf(h, x, y);
    if p.next == 1 {
      WholeOrder(h, x, y);
      FromTheStart(g.log, m);
      ReplacedLog(g, m, h.log);
      b := Accept(c, z, a, w, m);
    } else {
      Differs(g.log, h.log, m);
      var d, k := Retry(c, z, a, w, x, m);
      b := Overwrite(c, z, d, With(With(w, y, Followed(g, h.term)), x, k), x, Order(k, x, y));
    }
  }

  lemma WholeOrder(h: Sheet, x: Id, y: Id)
    requires InRange(h) && PeerOf(h, x, y).next == 1 && |h.log| <= h.max && h.quick == 0
    ensures Order(h, x, y) == AppendReq(x, y, h.term, 0, 0, 0, h.log)
  {
    assert h.log[0..|h.log|] == h.log;
  }

  lemma FromTheStart(log: seq<Entry>, m: Msg)
    requires m.AppendReq? && m.lastLogIdx == 0
    ensures LogOkay(log, m)
  {
  }

  lemma OrderStarts(h: Sheet, x: Id, y: Id)
    requires InRange(h)
    ensures var m, prev := Order(h, x, y), PeerOf(h, x, y).next - 1;
            && m.AppendReq? && m.src == x && m.dst == y && m.term == h.term && m.lastLogIdx == prev
            && m.lastLogTerm == TermAt(h.log, prev)
  {
  }

  lemma Differs(log: seq<Entry>, other: seq<Entry>, m: Msg)
    requires Unlike(log, other) && m.AppendReq? && 0 < m.lastLogIdx <= |other|
    requires m.lastLogTerm == TermAt(other, m.lastLogIdx)
    ensures !LogOkay(log, m)
  {
  }

  /** The middle one of three indexes. */
  function Middle(a: nat, b: nat, c: nat): nat { Max(Min(a, b), Min(c, Max(a, b))) }

  /** In a cluster of three, a majority reaches the middle index. */
  lemma MiddleIsQuorum(s: Server, j: Id, k: Id)
    requires s.peers.Keys == {j, k} && j != k
    ensures CommitTarget(s) == Middle(|s.log|, s.peers[j].matched, s.peers[k].matched)
  {
    var ms, t := Matched(s), Middle(|s.log|, s.peers[j].matched, s.peers[k].matched);
    assert ms.Keys == {j, k} && |ms| == |ms.Keys| == 2;
    forall v ensures |Quorum.AtLeast(ms, v)| == (if ms[j] >= v then 1 else 0) + (if ms[k] >= v then 1 else 0) {
      assert Quorum.AtLeast(ms, v) == (if ms[j] >= v then {j} else {}) + (if ms[k] >= v then {k} else {});
    }
    assert Quorum.IsQuorumIndex(|s.log|, ms, t);
    Quorum.QuorumIndexUnique(|s.log|, ms, t, CommitTarget(s));
  }

  function Third(x: Id, y: Id): Id { 6 - x - y }

  /** The commit index of `x` after peer `j` has acknowledged up to `next`. */
  function Target(h: Sheet, x: Id, j: Id, next: nat): nat
    requires next >= 1
  {
    Middle(|h.log|, next - 1, PeerOf(h, x, Third(x, j)).matched)
  }

  function Advanced(h: Sheet, x: Id, j: Id, next: nat): Sheet
    requires next >= 1
  {
    var k := Third(x, j);
    WithPeer(WithPeer(h, x, j, Peer(next, next - 1, true, false)), x, k, PeerOf(h, x, k).(pending := true))
      .(quick := Target(h, x, j, next))
  }

  /** After the commit the peer is no longer pending and, with its next request out, gets no other one. */
  lemma AcceptedIs(s: Server, m: Msg, s1: Server)
    requires m.AppendResp? && m.src in s.peers && s.role.Leader? && m.nextIdx >= 1 && CommitTarget(s1) > s.quickCommit
    requires s1 == s.(peers := s.peers[m.src := s.peers[m.src].(next := m.nextIdx, matched := m.nextIdx - 1)])
    ensures var o := SendAll(s1.(quickCommit := CommitTarget(s1)), true);
            o.server.peers[m.src].busy ==>
              PeerAccepted(s, m) ==
              Outcome(o.server.(peers := o.server.peers[m.src := o.server.peers[m.src].(pending := false)]), o.sent)
  {
    hide SendAll, CommitTarget;
    var o := SendAll(s1.(quickCommit := CommitTarget(s1)), true);
    assert Commit(s1, CommitTarget(s1)) == o;
    assert o.sent + {} == o.sent;
  }

  /** Of two peers one is free and is sent a request; the other one is only marked. */
  lemma SpreadToOne(s: Server, j: Id, k: Id)
    requires !s.exited && s.peers.Keys == {j, k} && j != k && !s.peers[j].busy && s.peers[k].busy
    requires 1 <= s.peers[j].next <= |s.log| + 1 && 1 <= s.peers[k].next <= |s.log| + 1
    ensures var o := SendAll(s, true);
            && j in o.server.peers && o.server.peers[j].busy && !TooLarge(s, j) && CreateAppendReq(s, j) in o.sent
            && o.server.(peers := o.server.peers[j := o.server.peers[j].(pending := false)]) ==
               s.(peers := s.peers[k := s.peers[k].(pending := true)][j := s.peers[j].(busy := true, pending := false)])
  {
    hide SendAll, CreateAppendReq;
    Spreads(s, true);
    var p := SendAll(s, true).server.peers;
    assert p[j := p[j].(pending := false)] ==
           s.peers[k := s.peers[k].(pending := true)][j := s.peers[j].(busy := true, pending := false)];
  }

  /** The other peer `k` is busy: it is only marked, while `j` is sent the next request. */
  lemma AckedIs(s: Server, m: Msg, k: Id, t: nat)
    requires !s.exited && s.role.Leader? && m.AppendResp? && m.accepted && m.term <= s.term
    requires s.peers.Keys == {m.src, k} && m.src != k && s.peers[k].busy && 1 <= s.peers[k].next <= |s.log| + 1
    requires 1 <= m.nextIdx <= |s.log| + 1 && t == Middle(|s.log|, m.nextIdx - 1, s.peers[k].matched) > s.quickCommit
    ensures var j, n, o := m.src, m.nextIdx, HandlePeerResp(s, m);
            var s2 := Freed(s.(quickCommit := t), j, Peer(n, n - 1, false, s.peers[j].pending));
            && o.server == s.(quickCommit := t,
                              peers := s.peers[k := s.peers[k].(pending := true)][j := Peer(n, n - 1, true, false)])
            && !TooLarge(s2, j) && CreateAppendReq(s2, j) in o.sent
  {
    hide SendAll, CommitTarget, Middle, CreateAppendReq, TooLarge, PeerAccepted, HandlePeerResp;
    var j, n := m.src, m.nextIdx;
    var p := Peer(n, n - 1, false, s.peers[j].pending);
    var s0, s2 := SetFree(s, j), Freed(s.(quickCommit := t), j, p);
    var s1 := s0.(peers := s0.peers[j := p]);
    AnswerIs(s, m);
    Updates(s.peers, j, k, s0.peers[j], p, p);
    assert s1.(quickCommit := t) == s2;
    MiddleIsQuorum(s1, j, k);
    AcceptedIs(s0, m, s1);
    SpreadToOne(s2, j, k);
    Updates(s.peers, j, k, p, s.peers[k].(pending := true), Peer(n, n - 1, true, false));
  }

  lemma AnswerIs(s: Server, m: Msg)
    requires !s.exited && s.role.Leader? && m.AppendResp? && m.accepted && m.term <= s.term && m.src in s.peers
    ensures HandlePeerResp(s, m) == PeerAccepted(SetFree(s, m.src), m)
  {
    hide PeerAccepted;
  }

  lemma Updates<V>(peers: map<Id, V>, j: Id, k: Id, x: V, q: V, p: V)
    requires j in peers && k in peers && j != k
    ensures peers[j := x][j := p] == peers[j := p] && peers[j := p].Keys == peers.Keys
    ensures peers[j := x][k := q][j := p] == peers[k := q][j := p]
  {
  }

  lemma AckOutcome(s: Server, x: Id, h: Sheet, m: Msg)
    requires Shows(s, x, h) && !s.exited && h.leads && m.AppendResp? && m.accepted && m.term <= h.term
    requires x in {1, 2, 3} && m.src in Others(x) && PeerOf(h, x, Third(x, m.src)).busy
    requires m.nextIdx >= 1 && InRange(Advanced(h, x, m.src, m.nextIdx)) && Target(h, x, m.src, m.nextIdx) > h.quick
    ensures var o, g := HandlePeerResp(s, m), Advanced(h, x, m.src, m.nextIdx);
            && !o.server.exited && Shows(o.server, x, g) && Order(g, x, m.src) in o.sent
  {
    hide HandlePeerResp, Middle, CreateAppendReq, Order, Two, Freed, TooLarge;
    var j, n, k, g := m.src, m.nextIdx, Third(x, m.src), Advanced(h, x, m.src, m.nextIdx);
    TwoPeers(s, x, h);
    assert s.peers.Keys == {j, k};
    AckedIs(s, m, k, g.quick);
    var f, p := h.(quick := g.quick), Peer(n, n - 1, false, PeerOf(h, x, j).pending);
    ShowsPeer(s.(quickCommit := g.quick), x, f, k, PeerOf(h, x, k).(pending := true));
    ShowsPeer(s.(quickCommit := g.quick, peers := s.peers[k := s.peers[k].(pending := true)]), x,
              WithPeer(f, x, k, PeerOf(h, x, k).(pending := true)), j, Peer(n, n - 1, true, false));
    FreedOrder(s.(quickCommit := g.quick), x, f, j, p);
    SameOrder(WithPeer(f, x, j, p), g, x, j);
  }

  /** An acknowledgement that lets the leader commit more; what it commits by it is as good as the acknowledgement. */
  lemma Ack(c: Condition, z: System, a: System, w: Cast, m: Msg) returns (b: System)
    requires Reaches(c, z, a) && Is(a, w) && m in a.net && m.AppendResp? && m.accepted
    requires m.dst in {1, 2, 3} && m.src in Others(m.dst) && At(w, m.dst).leads && m.term <= At(w, m.dst).term
    requires m.nextIdx >= 1
    requires var h, g := At(w, m.dst), Advanced(At(w, m.dst), m.dst, m.src, m.nextIdx);
             && PeerOf(h, m.dst, Third(m.dst, m.src)).busy && InRange(g) && h.quick < g.quick < m.nextIdx
             && (c.OwnTerm? || h.log[g.quick - 1].term == h.term)
             && (c.Acknowledged? || m.term == h.term)
    ensures var g := Advanced(At(w, m.dst), m.dst, m.src, m.nextIdx);
            Reaches(c, z, b) && Is(b, With(w, m.dst, g)) && a.net <= b.net && Order(g, m.dst, m.src) in b.net
  {
    hide Reaches, Is, HandlePeerResp, Shows, Order, Middle, Keeps;
    var x := m.dst;
    IsAt(a, w, x);
    var s, h := Ready(a.servers[x]), At(w, x);
    AckOutcome(s, x, h, m);
    var o, g := HandlePeerResp(s, m), Advanced(h, x, m.src, m.nextIdx);
    b := System(a.servers[x := o.server], a.net + o.sent);
    IsUpdated(a, w, x, o.server, g, b.net);
    AckKeeps(c, a, w, m, b, g);
    b := Move(c, z, a, w, Deliver(m), o, g, o.sent);
  }

  lemma AckKeeps(c: Condition, a: System, w: Cast, m: Msg, b: System, g: Sheet)
    requires Is(a, w) && m in b.net && m.AppendResp? && m.accepted && m.dst in {1, 2, 3} && m.src in Others(m.dst)
    requires Is(b, With(w, m.dst, g)) && g.leads && 1 <= g.quick <= |g.log| && g.quick < m.nextIdx
    requires c.OwnTerm? || g.log[g.quick - 1].term == g.term
    requires c.Acknowledged? || m.term == g.term
    ensures Keeps(c, a, Deliver(m), b)
  {
    var x, q := m.dst, {m.dst, m.src};
    IsAt(b, With(w, x, g), x);
    assert b.servers.Keys == {1, 2, 3} && |q| == 2 && |b.servers.Keys| == 3;
    if !c.Acknowledged? {
      assert IsAck(m, m.src, g.term, g.quick);
      assert AckedBy(b, x, g.quick, q);
    }
  }

  // ----- applying

  function Applied(h: Sheet): Sheet
    requires h.sm < |h.log|
  {
    h.(sm := h.sm + 1, applied := h.applied + [h.log[h.sm]],
       conf := if h.log[h.sm].kind == CONF then Max(h.conf, h.sm + 1) else h.conf)
  }

  /** An entry of a client, or the configuration that was logged at this index. */
  predicate Plain(e: Entry, n: nat) { e.kind != CONF || e == First(e.term, n) }

  lemma ConfReads(n: nat)
    requires n < TWO_64
    ensures DecodeConfig(EncodeConfig(Conf(n))) == Some((Conf(n), []))
  {
    hide EncodeConfig, DecodeConfig, AllReadable;
    ConfFits(n);
    ConfigRoundTrip(Conf(n), []);
    assert EncodeConfig(Conf(n)) + [] == EncodeConfig(Conf(n));
  }

  lemma ConfFits(n: nat)
    ensures |EncodeConfig(Conf(n))| < TWO_31 && AllReadable(SERVERS)
  {
    hide PutULong, PutInt, ToInt32;
    assert EncodeServers(SERVERS[1..]) == EncodeSrv(SERVERS[1]) + EncodeServers(SERVERS[2..]);
    assert EncodeServers(SERVERS[2..]) == EncodeSrv(SERVERS[2]) + EncodeServers(SERVERS[3..]);
  }

  lemma ConfMembers(s: Server, x: Id, h: Sheet, n: nat)
    requires Shows(s, x, h) && x in {1, 2, 3}
    ensures SameMembers(s, Conf(n))
  {
    TwoPeers(s, x, h);
    assert SERVERS[0].id == 1 && SERVERS[1].id == 2 && SERVERS[2].id == 3;
  }

  lemma ApplyOutcome(s: Server, x: Id, h: Sheet)
    requires Shows(s, x, h) && !s.exited && x in {1, 2, 3} && h.sm < h.quick && h.sm < |h.log| < TWO_31
    requires Plain(h.log[h.sm], h.sm + 1)
    ensures CanApply(s) && !ApplyNext(s).exited && Shows(ApplyNext(s), x, Applied(h))
    ensures var e := s.log[s.smCommit]; e.kind == CONF ==>
              DecodeConfig(e.data) == Some((Conf(h.sm + 1), [])) && SameMembers(s, Conf(h.sm + 1))
  {
    hide EncodeConfig, DecodeConfig, MemberIds, WithConfig, Two;
    ConfReads(h.sm + 1);
    ConfMembers(s, x, h, h.sm + 1);
    SameConfig(s.(smCommit := s.smCommit + 1, applied := s.applied + [s.log[s.smCommit]]), x, Conf(h.sm + 1));
  }

  /** A configuration with the same members only replaces the old one. */
  lemma SameConfig(s: Server, x: Id, c: ClusterConfig)
    requires s.id == x && x in {1, 2, 3} && SameMembers(s, c)
    ensures WithConfig(s, c) == s.(config := c)
  {
    hide MemberIds;
  }

  lemma Apply(c: Condition, z: System, a: System, w: Cast, x: Id) returns (b: System)
    requires Reaches(c, z, a) && Is(a, w) && x in {1, 2, 3} && At(w, x).sm < At(w, x).quick
    requires At(w, x).sm < |At(w, x).log| < TWO_31 && Plain(At(w, x).log[At(w, x).sm], At(w, x).sm + 1)
    ensures Reaches(c, z, b) && Is(b, With(w, x, Applied(At(w, x)))) && a.net <= b.net
  {
    hide Reaches, Is, Shows, DecodeConfig, EncodeConfig, ApplyNext, Plain;
    IsAt(a, w, x);
    var s := Ready(a.servers[x]);
    ApplyOutcome(s, x, At(w, x));
    b := Move(c, z, a, w, ApplyDue(x), Outcome(ApplyNext(s), {}), Applied(At(w, x)), {});
  }

  /** What a server has committed, it can apply. */
  predicate Applicable(h: Sheet) {
    && h.sm <= h.quick <= |h.log| < TWO_31 && h.applied == h.log[..h.sm]
    && (forall k | 0 <= k < h.quick :: Plain(h.log[k], k + 1) && (h.log[k].kind == CONF ==> k < h.conf))
  }

  lemma AppliedOne(h: Sheet)
    requires Applicable(h) && h.sm < h.quick
    ensures Plain(h.log[h.sm], h.sm + 1)
    ensures Applied(h) == h.(sm := h.sm + 1, applied := h.log[..h.sm + 1]) && Applicable(Applied(h))
  {
    hide First;
    assert h.log[..h.sm + 1] == h.log[..h.sm] + [h.log[h.sm]];
  }

  lemma ApplyAll(c: Condition, z: System, a: System, w: Cast, x: Id) returns (b: System)
    requires Reaches(c, z, a) && Is(a, w) && x in {1, 2, 3} && Applicable(At(w, x))
    ensures var h := At(w, x);
            Reaches(c, z, b) && Is(b, With(w, x, h.(sm := h.quick, applied := h.log[..h.quick]))) && a.net <= b.net
    decreases At(w, x).quick - At(w, x).sm
  {
    hide Reaches, Is, Applied, Plain, Applicable;
    var h := At(w, x);
    ApplicableRange(h);
    b := a;
    if h.sm < h.quick {
      AppliedOne(h);
      b := Apply(c, z, a, w, x);
      b := ApplyAll(c, z, b, With(w, x, Applied(h)), x);
    } else {
      assert h == h.(sm := h.quick, applied := h.log[..h.quick]);
      assert With(w, x, h) == w;
    }
  }

  lemma ApplicableRange(h: Sheet)
    requires Applicable(h)
    ensures h.sm <= h.quick <= |h.log| < TWO_31 && h.applied == h.log[..h.sm]
  {
  }
}
