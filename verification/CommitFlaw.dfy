/**
 Why each condition of `CommitSafety` is needed: three runs, each respecting the
 other two, at whose end two servers have handed different commands to their
 state machines at one index.
 */
module CommitFlaw {
  import opened Types
  import opened Bytes
  import opened Codec
  import opened ServerSpec
  import opened Protocol
  import opened CommitSafety
  import opened Scenario

  // ----- the beginning

  function Begin(max: nat): System {
    System(map[1 := Boot(1, Others(1), 100, None, [], 0, Conf(0)),
               2 := Boot(2, Others(2), max, None, [], 0, Conf(0)),
               3 := Boot(3, Others(3), 100, None, [], 0, Conf(0))], {})
  }

  /** A server that has not led: its peers are as they were at start-up. */
  function Plainly(t: nat, log: seq<Entry>, max: nat): Sheet {
    Sheet(t, false, log, 0, 0, [], 0, max, Peer(0, 0, false, false), Peer(0, 0, false, false))
  }

  /** One that leads or has led, with requests outstanding to both peers from index `next` on. */
  function Busy(t: nat, leads: bool, log: seq<Entry>, next: nat): Sheet {
    Sheet(t, leads, log, 0, 0, [], 1, 100, Peer(next, 0, true, false), Peer(next, 0, true, false))
  }

  lemma Boots(i: Id, max: nat)
    requires i in {1, 2, 3}
    ensures Shows(Boot(i, Others(i), max, None, [], 0, Conf(0)), i, Plainly(0, [], max))
  {
    var p := Peer(0, 0, false, false);
    PeersAre(Boot(i, Others(i), max, None, [], 0, Conf(0)).peers, i, p, p);
  }

  lemma Begins(c: Condition, max: nat)
    ensures Init(Begin(max)) && Reaches(c, Begin(max), Begin(max))
    ensures Is(Begin(max), Cast(Plainly(0, [], 100), Plainly(0, [], max), Plainly(0, [], 100)))
  {
    hide Reaches, Shows, Boot;
    var sys := Begin(max);
    Boots(1, 100);
    Boots(2, max);
    Boots(3, 100);
    Stay(c, sys);
    assert sys.servers.Keys == {1, 2, 3};
    assert forall i | i in sys.servers :: sys.servers.Keys - {i} == Others(i);
  }

  // ----- two leaders, and the first one again

  /** A server's first election: the configuration is its first entry. */
  lemma FirstElection(t: nat, max: nat)
    ensures Elected(Stood(Plainly(t, [], max))) == Busy(t + 1, true, [First(t + 1, 1)], 1).(max := max)
  {
    hide EncodeConfig;
    assert [] + [First(t + 1, 1)] == [First(t + 1, 1)];
  }

  /** A later one: nothing is added. */
  lemma Reelection(h: Sheet)
    requires h.conf > 0
    ensures Elected(Stood(h)) == h.(term := h.term + 1, leads := true,
                                    lo := h.lo.(next := |h.log| + 1, busy := true),
                                    hi := h.hi.(next := |h.log| + 1, busy := true))
  {
  }

  lemma Pair(e: Entry, f: Entry)
    ensures [e] + [f] == [e, f]
  {
  }

  /** Server 1 leads in term 1 and takes a client's entry, server 2 leads in term 2; neither reaches anyone. */
  lemma TwoLeaders(c: Condition, d: byte) returns (b: System)
    ensures Reaches(c, Begin(100), b)
    ensures Is(b, Cast(Busy(2, false, [First(1, 1), App(1, d)], 1), Busy(2, true, [First(2, 1)], 1),
                       Plainly(2, [], 100)))
  {
    hide Reaches, Is, EncodeConfig, Begin, Order, Elected;
    Begins(c, 100);
    FirstElection(0, 100);
    FirstElection(1, 100);
    Pair(First(1, 1), App(1, d));
    var z, p := Begin(100), Plainly(0, [], 100);
    b := Campaign(c, z, z, Cast(p, p, p), 1, 3);
    b := Log(c, z, b, Cast(Busy(1, true, [First(1, 1)], 1), p, Plainly(1, [], 100)), 1, d);
    var h := Busy(1, true, [First(1, 1), App(1, d)], 1);
    b := Stand(c, z, b, Cast(h, p, Plainly(1, [], 100)), 2);
    b := Campaign(c, z, b, Cast(h, Plainly(1, [], 100), Plainly(1, [], 100)), 2, 3);
    assert 1 in Others(2);
    b := Vote(c, z, b, Cast(h, Busy(2, true, [First(2, 1)], 1), Plainly(2, [], 100)), VoteReq(2, 1, 2, 0, 0, 0));
  }

  // ----- a leader that prevails

  /** A leader of which no peer is known to hold anything, and all of whose log it may apply. */
  predicate Fresh(h: Sheet) {
    && h.leads && AllBusy(h) && h.lo.matched == h.hi.matched == 0 && 0 < |h.log| <= h.max && |h.log| < TWO_31
    && h.quick == h.sm == 0 && h.applied == []
    && (forall k | 0 <= k < |h.log| :: Plain(h.log[k], k + 1) && (h.log[k].kind == CONF ==> k < h.conf))
  }

  lemma AllCommitted(h: Sheet, x: Id)
    requires Fresh(h) && x in {1, 2}
    ensures var n, k := |h.log| + 1, WithPeer(h, x, 3, PeerOf(h, x, 3).(next := 1));
            var g := Advanced(k, x, 3, n);
            && InRange(g) && PeerOf(k, x, Third(x, 3)).busy && g.quick == |h.log| && Applicable(g) && g.log == h.log
  {
    hide First;
  }

  /** The leader's log replaces that of server 3; its acknowledgement commits all of it. */
  lemma Prevail(c: Condition, z: System, a: System, w: Cast, x: Id, m: Msg) returns (b: System, g: Sheet)
    requires Reaches(c, z, a) && Is(a, w) && x in {1, 2} && m in a.net && m.AppendReq? && m.src == x && m.dst == 3
    requires var h, p := At(w, x), PeerOf(At(w, x), x, 3);
             && Fresh(h) && m.term == h.term && Admits(w.three, m) && Unlike(w.three.log, h.log)
             && m.lastLogIdx == p.next - 1 && m.lastLogTerm == TermAt(h.log, p.next - 1)
             && (p.next == 1 ==> m == Order(h, x, 3))
    requires c.OwnTerm? || TermAt(At(w, x).log, |At(w, x).log|) == At(w, x).term
    ensures var h := At(w, x);
            && Reaches(c, z, b) && Is(b, With(With(w, x, g), 3, Followed(w.three, h.term).(log := h.log)))
            && a.net <= b.net && g.applied == h.log
  {
    hide Reaches, Is, Order, Plain, Applicable, Advanced, Unlike;
    var h := At(w, x);
    var n := |h.log| + 1;
    b := Overwrite(c, z, a, w, x, m);
    AllCommitted(h, x);
    var k := WithPeer(h, x, 3, PeerOf(h, x, 3).(next := 1));
    var w1 := With(With(w, x, k), 3, Followed(w.three, h.term).(log := h.log));
    b := Ack(c, z, b, w1, AppendResp(3, x, h.term, n, true));
    g := Advanced(k, x, 3, n);
    b := ApplyAll(c, z, b, With(w1, x, g), x);
    g := g.(sm := g.quick, applied := g.log[..g.quick]);
  }

  // ----- without the rule that a leader commits by an entry of its own term

  function Pairing(t: nat, u: nat, d: byte): seq<Entry> { [First(t, 1), App(u, d)] }

  lemma FreshPair(t: nat, u: nat, v: nat, d: byte, n: nat)
    requires 1 <= n <= 3
    ensures Fresh(Busy(t, true, Pairing(u, v, d), n))
  {
    hide EncodeConfig;
  }

  /** Server 1 leads again in term 3 and commits what it logged in term 1. */
  lemma OldEntryCommits(d: byte, e: byte) returns (b: System, g: Sheet)
    ensures Reaches(OwnTerm, Begin(100), b) && g.applied == Pairing(1, 1, d)
    ensures Is(b, Cast(g, Busy(3, false, Pairing(2, 2, e), 1), Plainly(3, Pairing(1, 1, d), 100)))
  {
    hide Reaches, Is, EncodeConfig, Begin, Order, Elected, Fresh;
    var c, z, l1, l2, p := OwnTerm, Begin(100), Pairing(1, 1, d), Pairing(2, 2, e), Plainly(2, [], 100);
    b := TwoLeaders(c, d);
    b := Log(c, z, b, Cast(Busy(2, false, l1, 1), Busy(2, true, [First(2, 1)], 1), p), 2, e);
    Pair(First(2, 1), App(2, e));
    var h := Busy(3, true, l1, 3);
    Reelection(Busy(2, false, l1, 1));
    b := Campaign(c, z, b, Cast(Busy(2, false, l1, 1), Busy(2, true, l2, 1), p), 1, 3);
    assert 2 in Others(1) && 3 in Others(1);
    FreshPair(3, 1, 1, d, 3);
    OrderStarts(h, 1, 3);
    b, g := Prevail(c, z, b, Cast(h, Busy(2, true, l2, 1), Plainly(3, [], 100)), 1, Order(h, 1, 3));
    b := Vote(c, z, b, Cast(g, Busy(2, true, l2, 1), Plainly(3, l1, 100)), VoteReq(1, 2, 3, 1, 2, 0));
  }

  /** Then server 2 leads in term 4, replaces what server 3 holds, and commits that. */
  lemma OldTermRun(d: byte, e: byte) returns (b: System, g: Sheet, h: Sheet)
    ensures Reaches(OwnTerm, Begin(100), b) && Is(b, Cast(g, h, Plainly(4, Pairing(2, 2, e), 100)))
    ensures g.applied == Pairing(1, 1, d) && h.applied == Pairing(2, 2, e)
  {
    hide Reaches, Is, EncodeConfig, Begin, Order, Elected, Fresh;
    var c, z, l1, l2 := OwnTerm, Begin(100), Pairing(1, 1, d), Pairing(2, 2, e);
    b, g := OldEntryCommits(d, e);
    Reelection(Busy(3, false, l2, 1));
    b := Campaign(c, z, b, Cast(g, Busy(3, false, l2, 1), Plainly(3, l1, 100)), 2, 3);
    assert 3 in Others(2);
    var k := Busy(4, true, l2, 3);
    FreshPair(4, 2, 2, e, 3);
    OrderStarts(k, 2, 3);
    b, h := Prevail(c, z, b, Cast(g, k, Plainly(4, l1, 100)), 2, Order(k, 2, 3));
  }

  // ----- without the rule that the acknowledgements are of the leader's term

  /**
   Server 3 takes the log of server 1 in term 3, but its acknowledgement is slow.
   Server 2 leads in term 4 and replaces the log of server 1 by its own.
   */
  lemma SlowAnswer(d: byte) returns (b: System)
    ensures Reaches(Acknowledged, Begin(100), b) && AppendResp(3, 1, 3, 3, true) in b.net
    ensures Is(b, Cast(Busy(4, false, [First(2, 1)], 3).(hi := Peer(1, 0, true, false)),
                       Busy(4, true, [First(2, 1)], 2).(lo := Peer(1, 0, true, false)),
                       Plainly(4, Pairing(1, 1, d), 100)))
  {
    hide Reaches, Is, EncodeConfig, Begin, Order, Elected;
    var c, z, l1, l2, p := Acknowledged, Begin(100), Pairing(1, 1, d), [First(2, 1)], Plainly(2, [], 100);
    b := TwoLeaders(c, d);
    var h := Busy(3, true, l1, 3);
    Reelection(Busy(2, false, l1, 1));
    b := Campaign(c, z, b, Cast(Busy(2, false, l1, 1), Busy(2, true, l2, 1), p), 1, 3);
    assert 2 in Others(1) && 3 in Others(1) && 1 in Others(2);
    OrderStarts(h, 1, 3);
    b := Overwrite(c, z, b, Cast(h, Busy(2, true, l2, 1), Plainly(3, [], 100)), 1, Order(h, 1, 3));
    h := h.(hi := Peer(1, 0, true, false));
    b := Vote(c, z, b, Cast(h, Busy(2, true, l2, 1), Plainly(3, l1, 100)), VoteReq(1, 2, 3, 1, 2, 0));
    var k := Busy(4, true, l2, 2);
    Reelection(Busy(3, false, l2, 1));
    b := Campaign(c, z, b, Cast(h, Busy(3, false, l2, 1), Plainly(3, l1, 100)), 2, 3);
    OrderStarts(k, 2, 1);
    b := Overwrite(c, z, b, Cast(h, k, Plainly(4, l1, 100)), 2, Order(k, 2, 1));
  }

  lemma PairAcked(t: nat, u: nat, v: nat, d: byte)
    ensures var h := Busy(t, true, Pairing(u, v, d), 2);
            var g := Advanced(h, 1, 3, 3);
            InRange(g) && h.hi.busy && g.quick == 2 && Applicable(g) && g.log == h.log
  {
    hide EncodeConfig;
  }

  /** Server 1 leads in term 5, logs another entry, and takes the answer of term 3 for an acknowledgement of it. */
  lemma SlowAnswerCounts(d: byte, e: byte) returns (b: System, g: Sheet)
    ensures Reaches(Acknowledged, Begin(100), b) && g.applied == Pairing(2, 5, e)
    ensures Is(b, Cast(g, Busy(5, false, [First(2, 1)], 2).(lo := Peer(1, 0, true, false)),
                       Plainly(5, Pairing(1, 1, d), 100)))
  {
    hide Reaches, Is, EncodeConfig, Begin, Order, Elected, Applicable, Advanced;
    var c, z, l1, l2 := Acknowledged, Begin(100), Pairing(1, 1, d), [First(2, 1)];
    b := SlowAnswer(d);
    var h := Busy(4, false, l2, 3).(hi := Peer(1, 0, true, false));
    var k := Busy(4, true, l2, 2).(lo := Peer(1, 0, true, false));
    Reelection(h);
    b := Campaign(c, z, b, Cast(h, k, Plainly(4, l1, 100)), 1, 3);
    assert 2 in Others(1);
    b := Log(c, z, b, Cast(Busy(5, true, l2, 2), k, Plainly(5, l1, 100)), 1, e);
    Pair(First(2, 1), App(5, e));
    h := Busy(5, true, Pairing(2, 5, e), 2);
    PairAcked(5, 2, 5, e);
    b := Ack(c, z, b, Cast(h, k, Plainly(5, l1, 100)), AppendResp(3, 1, 3, 3, true));
    g := Advanced(h, 1, 3, 3);
    b := ApplyAll(c, z, b, Cast(g, k, Plainly(5, l1, 100)), 1);
    g := g.(sm := g.quick, applied := g.log[..g.quick]);
    b := Vote(c, z, b, Cast(g, k, Plainly(5, l1, 100)), VoteReq(1, 2, 5, 2, 1, 0));
  }

  /** Server 2 leads in term 6 and has its own entry acknowledged by server 3. */
  lemma OldAckRun(d: byte, e: byte, f: byte) returns (b: System, g: Sheet, h: Sheet)
    ensures Reaches(Acknowledged, Begin(100), b) && Is(b, Cast(g, h, Plainly(6, Pairing(2, 6, f), 100)))
    ensures g.applied == Pairing(2, 5, e) && h.applied == Pairing(2, 6, f)
  {
    hide Reaches, Is, EncodeConfig, Begin, Order, Elected, Fresh;
    var c, z, l1, l2 := Acknowledged, Begin(100), Pairing(1, 1, d), [First(2, 1)];
    b, g := SlowAnswerCounts(d, e);
    var k := Busy(5, false, l2, 2).(lo := Peer(1, 0, true, false));
    Reelection(k);
    b := Campaign(c, z, b, Cast(g, k, Plainly(5, l1, 100)), 2, 3);
    assert 3 in Others(2);
    k := Busy(6, true, l2, 2);
    var m := Order(k, 2, 3);
    OrderStarts(k, 2, 3);
    b := Log(c, z, b, Cast(g, k, Plainly(6, l1, 100)), 2, f);
    Pair(First(2, 1), App(6, f));
    FreshPair(6, 2, 6, f, 2);
    b, h := Prevail(c, z, b, Cast(g, Busy(6, true, Pairing(2, 6, f), 2), Plainly(6, l1, 100)), 2, m);
  }

  // ----- without the rule that a follower commits only what the request vouches for

  function Longer(d: byte): seq<Entry> { [First(1, 1), App(1, d), App(1, d)] }

  function Shorter(): seq<Entry> { [First(1, 1), First(2, 2)] }

  function Other(e: byte): seq<Entry> { Shorter() + [App(2, e)] }

  /** Server 2 sends one entry at a time. */
  function Single(t: nat, leads: bool, log: seq<Entry>, quick: nat, lo: Peer, hi: Peer): Sheet {
    Sheet(t, leads, log, quick, 0, [], 2, 1, lo, hi)
  }

  lemma FirstTaken(t: nat, max: nat, m: Msg)
    requires m == AppendReq(1, m.dst, 1, 0, 0, 0, [First(1, 1)])
    ensures Taken(Plainly(t, [], max), m) == Plainly(1, [First(1, 1)], max) && LogOkay([], m)
  {
    hide EncodeConfig;
    assert [] + [First(1, 1)] == [First(1, 1)];
  }

  lemma FirstOrder(j: Id)
    requires j in {2, 3}
    ensures Order(Busy(1, true, [First(1, 1)], 1), 1, j) == AppendReq(1, j, 1, 0, 0, 0, [First(1, 1)])
  {
    hide EncodeConfig;
    assert [First(1, 1)][0..1] == [First(1, 1)];
  }

  lemma Triple(e: Entry, f: Entry, g: Entry)
    ensures [e] + [f] + [g] == [e, f, g]
  {
  }

  /** Server 1 leads in term 1 and logs three entries, of which the first reaches the others. */
  lemma OneShared(d: byte) returns (b: System)
    ensures Reaches(Capped, Begin(1), b)
    ensures Is(b, Cast(Busy(1, true, Longer(d), 1), Plainly(1, [First(1, 1)], 1), Plainly(1, [First(1, 1)], 100)))
  {
    hide Reaches, Is, EncodeConfig, Begin, Order, Elected, Taken, LogOkay;
    var c, z, p, q := Capped, Begin(1), Plainly(0, [], 100), Plainly(0, [], 1);
    Begins(c, 1);
    FirstElection(0, 100);
    b := Campaign(c, z, z, Cast(p, q, p), 1, 3);
    assert 2 in Others(1) && 3 in Others(1);
    FirstOrder(2);
    FirstOrder(3);
    var h := Busy(1, true, [First(1, 1)], 1);
    b := Log(c, z, b, Cast(h, q, Plainly(1, [], 100)), 1, d);
    b := Log(c, z, b, Cast(Logged(h, d), q, Plainly(1, [], 100)), 1, d);
    Triple(First(1, 1), App(1, d), App(1, d));
    h := Busy(1, true, Longer(d), 1);
    var m, n := AppendReq(1, 2, 1, 0, 0, 0, [First(1, 1)]), AppendReq(1, 3, 1, 0, 0, 0, [First(1, 1)]);
    FirstTaken(0, 1, m);
    FirstTaken(1, 100, n);
    b := Accept(c, z, b, Cast(h, q, Plainly(1, [], 100)), m);
    b := Accept(c, z, b, Cast(h, Plainly(1, [First(1, 1)], 1), Plainly(1, [], 100)), n);
  }

  /** Server 2 is elected in term 2: the configuration becomes its second entry. */
  lemma SecondElection()
    ensures var p := Peer(2, 0, true, false);
            && Elected(Stood(Plainly(1, [First(1, 1)], 1))) == Single(2, true, Shorter(), 0, p, p)
            && (forall j | j in {1, 3} ::
                  Order(Single(2, true, Shorter(), 0, p, p), 2, j) == AppendReq(2, j, 2, 1, 1, 0, [First(2, 2)]))
  {
    hide EncodeConfig;
    Pair(First(1, 1), First(2, 2));
    assert Shorter()[1..2] == [First(2, 2)];
  }

  lemma SecondTaken(m: Msg)
    requires m == AppendReq(2, 3, 2, 1, 1, 0, [First(2, 2)])
    ensures Taken(Plainly(2, [First(1, 1)], 100), m) == Plainly(2, Shorter(), 100) && LogOkay([First(1, 1)], m)
  {
    hide EncodeConfig;
    assert [First(1, 1)][..1] + [First(2, 2)] == Shorter();
  }

  lemma ThirdTaken(e: byte, m: Msg)
    requires m == AppendReq(2, 3, 2, 2, 2, 2, [App(2, e)])
    ensures Taken(Plainly(2, Shorter(), 100), m) == Plainly(2, Other(e), 100).(quick := 2) && LogOkay(Shorter(), m)
  {
    hide EncodeConfig;
    assert Shorter()[..2] + [App(2, e)] == Other(e);
  }

  /** Server 3 acknowledges the second entry, and the third is sent. */
  lemma SecondAcked(e: byte)
    ensures var h := Single(2, true, Other(e), 0, Peer(2, 0, true, false), Peer(2, 0, true, false));
            var g := Single(2, true, Other(e), 2, Peer(2, 0, true, true), Peer(3, 2, true, false));
            Advanced(h, 2, 3, 3) == g && Order(g, 2, 3) == AppendReq(2, 3, 2, 2, 2, 2, [App(2, e)])
  {
    hide EncodeConfig;
    assert Other(e)[2..3] == [App(2, e)];
  }

  lemma ThirdAcked(e: byte)
    ensures var h := Single(2, true, Other(e), 2, Peer(2, 0, true, true), Peer(3, 2, true, false));
            var g := Single(2, true, Other(e), 3, Peer(2, 0, true, true), Peer(4, 3, true, false));
            Advanced(h, 2, 3, 4) == g && Applicable(g) && Other(e)[..3] == Other(e)
  {
    hide EncodeConfig;
  }

  function Done(t: nat, leads: bool, e: byte, next: nat, far: nat): Sheet {
    Single(t, leads, Other(e), 3, Peer(next, 0, true, true), Peer(far, 3, true, false)).(sm := 3, applied := Other(e))
  }

  /** Server 2 leads in term 2; with server 3 it commits two entries of its own, and applies all. */
  lemma SecondCommits(d: byte, e: byte) returns (b: System)
    ensures Reaches(Capped, Begin(1), b)
    ensures VoteReq(2, 1, 2, 1, 1, 0) in b.net && AppendReq(2, 1, 2, 1, 1, 0, [First(2, 2)]) in b.net
    ensures Is(b, Cast(Busy(1, true, Longer(d), 1), Done(2, true, e, 2, 4), Plainly(2, Other(e), 100).(quick := 2)))
  {
    hide Reaches, Is, EncodeConfig, Begin, Order, Elected, Taken, LogOkay, Advanced, Applicable;
    var c, z, h := Capped, Begin(1), Busy(1, true, Longer(d), 1);
    b := OneShared(d);
    SecondElection();
    b := Campaign(c, z, b, Cast(h, Plainly(1, [First(1, 1)], 1), Plainly(1, [First(1, 1)], 100)), 2, 3);
    assert 1 in Others(2) && 3 in Others(2);
    var p := Peer(2, 0, true, false);
    b := Log(c, z, b, Cast(h, Single(2, true, Shorter(), 0, p, p), Plainly(2, [First(1, 1)], 100)), 2, e);
    var k := Single(2, true, Other(e), 0, p, p);
    var m := AppendReq(2, 3, 2, 1, 1, 0, [First(2, 2)]);
    SecondTaken(m);
    b := Accept(c, z, b, Cast(h, k, Plainly(2, [First(1, 1)], 100)), m);
    SecondAcked(e);
    b := Ack(c, z, b, Cast(h, k, Plainly(2, Shorter(), 100)), AppendResp(3, 2, 2, 3, true));
    k := Single(2, true, Other(e), 2, Peer(2, 0, true, true), Peer(3, 2, true, false));
    m := AppendReq(2, 3, 2, 2, 2, 2, [App(2, e)]);
    ThirdTaken(e, m);
    b := Accept(c, z, b, Cast(h, k, Plainly(2, Shorter(), 100)), m);
    ThirdAcked(e);
    var q := Plainly(2, Other(e), 100).(quick := 2);
    b := Ack(c, z, b, Cast(h, k, q), AppendResp(3, 2, 2, 4, true));
    k := Single(2, true, Other(e), 3, Peer(2, 0, true, true), Peer(4, 3, true, false));
    b := ApplyAll(c, z, b, Cast(h, k, q), 2);
  }

  /** Server 1 stands in term 3 and refuses the request of term 2, naming the end of its own log. */
  lemma StaleRefusal(d: byte, e: byte) returns (b: System)
    ensures Reaches(Capped, Begin(1), b) && AppendResp(1, 2, 3, 4, false) in b.net
    ensures Is(b, Cast(Busy(3, false, Longer(d), 1), Done(3, false, e, 2, 4), Plainly(2, Other(e), 100).(quick := 2)))
  {
    hide Reaches, Is, EncodeConfig, Begin;
    var c, z, k, q := Capped, Begin(1), Done(2, true, e, 2, 4), Plainly(2, Other(e), 100).(quick := 2);
    b := SecondCommits(d, e);
    b := Vote(c, z, b, Cast(Busy(1, true, Longer(d), 1), k, q), VoteReq(2, 1, 2, 1, 1, 0));
    b := Stand(c, z, b, Cast(Busy(2, false, Longer(d), 1), k, q), 1);
    assert 2 in Others(1);
    var h := Busy(3, false, Longer(d), 1);
    b := Stale(c, z, b, Cast(h, k, q), AppendReq(2, 1, 2, 1, 1, 0, [First(2, 2)]));
    b := Vote(c, z, b, Cast(h, k, q), VoteReq(1, 2, 3, 1, 3, 0));
  }

  lemma WholeBack(e: byte)
    ensures var m := Order(Done(4, true, e, 1, 4), 2, 1); m == AppendReq(2, 1, 4, 0, 0, 3, [First(1, 1)])
  {
    hide EncodeConfig;
    assert Other(e)[0..1] == [First(1, 1)];
  }

  lemma NothingNew(d: byte, m: Msg)
    requires m == AppendReq(2, 1, 4, 0, 0, 3, [First(1, 1)])
    ensures var g := Busy(4, false, Longer(d), 1).(quick := 3);
            && Taken(Busy(4, false, Longer(d), 1), m) == g && LogOkay(Longer(d), m) && Applicable(g)
            && Longer(d)[..3] == Longer(d)
  {
    hide EncodeConfig;
    assert [First(1, 1)][1..] == [];
  }

  /** What server 2 says of its second and third entry is not what server 1 holds. */
  lemma NotOkay(d: byte, e: byte, next: nat)
    requires next in {3, 4}
    ensures !LogOkay(Longer(d), Order(Done(4, true, e, next, 4), 2, 1))
  {
    hide EncodeConfig;
  }

  /** Server 2 leads in term 4 and goes back to index 2, by two refusals of its own requests. */
  lemma TwoRefusals(d: byte, e: byte) returns (b: System)
    ensures Reaches(Capped, Begin(1), b) && AppendResp(1, 2, 3, 4, false) in b.net
    ensures Is(b, Cast(Busy(4, false, Longer(d), 1), Done(4, true, e, 2, 4), Plainly(4, Other(e), 100).(quick := 2)))
  {
    hide Reaches, Is, EncodeConfig, Begin, Order, Elected, LogOkay;
    var c, z, h, q := Capped, Begin(1), Busy(4, false, Longer(d), 1), Plainly(4, Other(e), 100).(quick := 2);
    var r, k := AppendResp(1, 2, 4, 4, false), Done(4, true, e, 4, 4);
    b := StaleRefusal(d, e);
    Reelection(Done(3, false, e, 2, 4));
    b := Campaign(c, z, b, Cast(h.(term := 3), Done(3, false, e, 2, 4), q.(term := 2)), 2, 3);
    assert 1 in Others(2);
    NotOkay(d, e, 4);
    OrderStarts(k, 2, 1);
    b := Refuse(c, z, b, Cast(h.(term := 3), k, q), Order(k, 2, 1));
    b := Back(c, z, b, Cast(h, k, q), r);
    k := Done(4, true, e, 3, 4);
    NotOkay(d, e, 3);
    OrderStarts(k, 2, 1);
    b := Refuse(c, z, b, Cast(h, k, q), Order(k, 2, 1));
    b := Back(c, z, b, Cast(h, k, q), r);
  }

  /**
   Then the refusal of term 3 arrives and takes it back to index 1, from where
   its request vouches for one entry only.
   */
  lemma UncappedRun(d: byte, e: byte) returns (b: System, g: Sheet, h: Sheet)
    ensures Reaches(Capped, Begin(1), b) && Is(b, Cast(g, h, Plainly(4, Other(e), 100).(quick := 2)))
    ensures g.applied == Longer(d) && h.applied == Other(e)
  {
    hide Reaches, Is, EncodeConfig, Begin, Order, Taken, LogOkay, Applicable;
    var c, z, k, q := Capped, Begin(1), Busy(4, false, Longer(d), 1), Plainly(4, Other(e), 100).(quick := 2);
    b := TwoRefusals(d, e);
    b := Back(c, z, b, Cast(k, Done(4, true, e, 2, 4), q), AppendResp(1, 2, 3, 4, false));
    WholeBack(e);
    h := Done(4, true, e, 1, 4);
    NothingNew(d, Order(h, 2, 1));
    b := Accept(c, z, b, Cast(k, h, q), Order(h, 2, 1));
    b := ApplyAll(c, z, b, Cast(k.(quick := 3), h, q), 1);
    g := k.(quick := 3, sm := 3, applied := Longer(d));
  }

  // ----- what the runs show

  /** In the last state two servers have given their state machines different commands at one index. */
  ghost predicate Diverged(run: seq<System>) {
    run != [] &&
    var servers := run[|run| - 1].servers;
    exists i, j, p | i in servers && j in servers && 0 <= p < |servers[i].applied| && p < |servers[j].applied| ::
      && servers[i].bootCommit == servers[j].bootCommit == 0
      && servers[i].applied[p].kind == servers[j].applied[p].kind == APP_LOG
      && servers[i].applied[p].data != servers[j].applied[p].data
  }

  ghost predicate KeptBut(c: Condition, run: seq<System>, evs: seq<Event>) {
    IsRun(run, evs) && forall k | 0 <= k < |evs| :: Keeps(c, run[k], evs[k], run[k + 1])
  }

  /** By State Machine Safety, a run after which servers have diverged breaks a condition. */
  lemma DivergedIsUnguarded(run: seq<System>, evs: seq<Event>)
    requires IsRun(run, evs) && Diverged(run)
    ensures !GuardedRun(run, evs)
  {
    hide Next, Init, Guarded;
    if GuardedRun(run, evs) {
      var servers := run[|run| - 1].servers;
      var i, j, p :| i in servers && j in servers && 0 <= p < |servers[i].applied| && p < |servers[j].applied|
        && servers[i].bootCommit == servers[j].bootCommit == 0
        && servers[i].applied[p].data != servers[j].applied[p].data;
      StateMachineSafety(run, evs, |run| - 1, |run| - 1, i, j, p, p);
    }
  }

  /** So a run that keeps the other two breaks this one. */
  lemma OnlyOneBroken(c: Condition, run: seq<System>, evs: seq<Event>)
    requires KeptBut(c, run, evs) && !GuardedRun(run, evs)
    ensures exists k | 0 <= k < |evs| :: !Meets(c, run[k], evs[k], run[k + 1])
  {
    hide Next, Init, Meets;
    var k :| 0 <= k < |evs| && !Guarded(run[k], evs[k], run[k + 1]);
    assert Keeps(c, run[k], evs[k], run[k + 1]);
  }

  lemma Divergence(c: Condition, max: nat, b: System, w: Cast, p: nat) returns (run: seq<System>, evs: seq<Event>)
    requires Reaches(c, Begin(max), b) && Is(b, w)
    requires p < |w.one.applied| && p < |w.two.applied| && w.one.applied[p].kind == w.two.applied[p].kind == APP_LOG
    requires w.one.applied[p].data != w.two.applied[p].data
    ensures KeptBut(c, run, evs) && Diverged(run)
  {
    hide Next, Init, Keeps, Begin;
    Begins(c, max);
    run, evs :| Path(c, run, evs) && run[0] == Begin(max) && run[|run| - 1] == b;
    assert 1 in b.servers && 2 in b.servers;
    assert b.servers[1].applied[p].kind == APP_LOG;
  }

  /**
   None of the three conditions can be dropped: there is a run that keeps the
   other two at every step, breaks this one, and leaves two servers diverged.
   */
  lemma EachConditionNeeded(c: Condition)
    ensures exists run, evs, k | 0 <= k < |evs| ::
              KeptBut(c, run, evs) && Diverged(run) && !Meets(c, run[k], evs[k], run[k + 1])
  {
    hide Diverged, KeptBut, Meets, Is, Reaches, EncodeConfig, Begin, Plainly;
    var run, evs;
    match c {
      case OwnTerm =>
        var b, g, h := OldTermRun(0, 1);
        run, evs := Divergence(c, 100, b, Cast(g, h, Plainly(4, Pairing(2, 2, 1), 100)), 1);
      case Acknowledged =>
        var b, g, h := OldAckRun(0, 1, 2);
        run, evs := Divergence(c, 100, b, Cast(g, h, Plainly(6, Pairing(2, 6, 2), 100)), 1);
      case Capped =>
        var b, g, h := UncappedRun(0, 1);
        run, evs := Divergence(c, 1, b, Cast(g, h, Plainly(4, Other(1), 100).(quick := 2)), 2);
    }
    KeptIsRun(c, run, evs);
    DivergedIsUnguarded(run, evs);
    OnlyOneBroken(c, run, evs);
    var k :| 0 <= k < |evs| && !Meets(c, run[k], evs[k], run[k + 1]);
  }

  lemma KeptIsRun(c: Condition, run: seq<System>, evs: seq<Event>)
    requires KeptBut(c, run, evs)
    ensures IsRun(run, evs) && |run| == |evs| + 1
  {
  }
}
