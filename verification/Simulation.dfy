/**
 Every run of the cluster keeps the protocol invariant: each handler is a few
 steps of the argument in `Raft`, for a record of votes and leaderships that
 only the proof keeps.
 */
module Simulation {
  import opened Types
  import opened ServerSpec
  import opened Protocol
  import opened Raft

  datatype Record = Record(leaders: map<nat, Leadership>, votes: map<(Id, nat), Ballot>)

  function NodeOf(s: Server): Node {
    Node(s.term, s.votedFor, s.role, s.log, s.electionCompleted, s.votesGranted, s.votedServers)
  }

  ghost function View(sys: System, r: Record): State {
    State(map i | i in sys.servers :: NodeOf(sys.servers[i]), sys.net, r.leaders, r.votes)
  }

  /** Saved and live state agree. */
  ghost predicate Saved(s: Server) {
    if s.saved.Some? then s.saved.value == Persisted(s.term, s.votedFor) else s.term == 0 && s.votedFor == NONE
  }

  /** What each server keeps by itself: who it is, whom it knows, and a saved state equal to the live one. */
  ghost predicate ServerOk(sys: System, i: Id, s: Server) {
    s.id == i && s.peers.Keys == sys.servers.Keys - {i} && Saved(s)
  }

  ghost predicate Local(sys: System) {
    forall i | i in sys.servers :: ServerOk(sys, i, sys.servers[i])
  }

  /** Records only grow. */
  ghost predicate Grows(a: State, b: State) {
    && Extends(a.leaders, b.leaders)
    && (forall v | v in a.votes :: v in b.votes && b.votes[v] == a.votes[v])
    && a.net <= b.net
  }

  /** The state of the argument when server `i` has become `s` and `kept` was sent. */
  ghost predicate After(a: State, i: Id, s: Server, kept: set<Msg>, b: State) {
    Grows(a, b) && b.nodes == a.nodes[i := NodeOf(s)] && b.net == a.net + kept
  }

  lemma ExtendsTwice(a: map<nat, Leadership>, b: map<nat, Leadership>, c: map<nat, Leadership>)
    requires Extends(a, b) && Extends(b, c)
    ensures Extends(a, c)
  {
  }

  /** Two steps of the same server in a row. */
  lemma AfterAfter(a: State, i: Id, s: Server, kept: set<Msg>, b: State, s': Server, kept': set<Msg>, c: State)
    requires After(a, i, s, kept, b) && After(b, i, s', kept', c)
    ensures After(a, i, s', kept + kept', c)
  {
    ExtendsTwice(a.leaders, b.leaders, c.leaders);
  }

  ghost predicate At(st: State, i: Id, s: Server) {
    && i in st.nodes && st.nodes[i] == NodeOf(s) && s.id == i && s.peers.Keys == st.nodes.Keys - {i}
  }

  /** A server that changes neither log nor, in the same term, its vote. */
  lemma AdjustTo(st: State, i: Id, s: Server) returns (b: State)
    requires Inv(st) && i in st.nodes && Adjusts(st, i, NodeOf(s))
    ensures Inv(b) && After(st, i, s, {}, b) && b.leaders == st.leaders && b.votes == st.votes
  {
    hide Inv;
    b := Adjust(st, i, NodeOf(s));
    AdjustKeeps(st, i, NodeOf(s));
  }

  lemma SupportersBelow(votes: map<(Id, nat), Ballot>, t: nat, c: Id)
    ensures Supporters(votes, {}, t, c) == {}
  {
  }

  lemma UpdateTermSim(st: State, i: Id, s: Server, t: nat) returns (b: State)
    requires Inv(st) && At(st, i, s)
    ensures Inv(b) && After(st, i, UpdateTerm(s, t), {}, b) && b.leaders == st.leaders && b.votes == st.votes
    ensures At(b, i, UpdateTerm(s, t))
  {
    hide Inv;
    b := AdjustTo(st, i, UpdateTerm(s, t)) by {
      SupportersBelow(st.votes, t, i);
      CountNow(st, i);
    }
  }

  lemma SendSim(st: State, i: Id, s: Server, kept: set<Msg>) returns (b: State)
    requires Inv(st) && i in st.nodes && st.nodes[i] == NodeOf(s)
    requires forall m | m in kept :: Sendable(st, m)
    ensures Inv(b) && After(st, i, s, kept, b) && b.leaders == st.leaders && b.votes == st.votes
  {
    hide Inv;
    b := Send(st, kept);
    SendKeeps(st, kept);
  }

  /** A leader may send slices of its log. */
  lemma SendSlices(st: State, i: Id, s: Server, kept: set<Msg>) returns (b: State)
    requires Inv(st) && At(st, i, s) && s.role.Leader?
    requires forall m | m in kept :: StatesSlice(s, m)
    ensures Inv(b) && After(st, i, s, kept, b) && b.leaders == st.leaders && b.votes == st.votes
  {
    hide Inv;
    b := SendSim(st, i, s, kept) by { Open(st); }
  }

  /** What winning makes of a server, as far as the argument goes: it leads, with entries of its own term added. */
  ghost predicate Crowned(s: Server, c: Server) {
    && c.id == s.id && c.peers.Keys == s.peers.Keys && s.log <= c.log
    && NodeOf(c) == NodeOf(s).(role := Leader, completed := true, log := c.log)
    && (forall e | e in c.log[|s.log|..] :: e.term == s.term)
  }

  lemma BecomeLeaderShape(s: Server)
    ensures var o := BecomeLeader(s.(electionCompleted := true));
            Crowned(s, o.server) && forall m | m in o.sent :: StatesSlice(o.server, m)
  {
  }

  lemma MajorityOfVotes(st: State, i: Id, s: Server)
    requires At(st, i, s) && Wins(s)
    ensures 2 * s.votesGranted > |st.nodes|
  {
    assert st.nodes.Keys == s.peers.Keys + {i};
    assert |st.nodes.Keys| == |s.peers.Keys| + 1;
  }

  /** A server leads, with `es` newly appended, and sends slices of its log. */
  lemma LeadSim(st: State, i: Id, es: seq<Entry>, c: Server, kept: set<Msg>) returns (b: State)
    requires Inv(st) && MayLead(st, i, es)
    requires c.id == i && c.peers.Keys == st.nodes.Keys - {i} && c.role.Leader?
    requires NodeOf(c) == Lead(st, i, es).nodes[i]
    requires forall m | m in kept :: StatesSlice(c, m)
    ensures Inv(b) && After(st, i, c, kept, b)
  {
    hide Inv;
    LeadKeeps(st, i, es);
    b := SendSlices(Lead(st, i, es), i, c, kept);
  }

  /** Winning an election, and the first requests of the new leader. */
  lemma BecomeLeaderSim(st: State, i: Id, s: Server, o: Outcome, kept: set<Msg>) returns (b: State)
    requires Inv(st) && At(st, i, s) && !s.electionCompleted && Wins(s)
    requires Crowned(s, o.server) && forall m | m in kept :: StatesSlice(o.server, m)
    ensures Inv(b) && After(st, i, o.server, kept, b)
  {
    hide Inv;
    var es := o.server.log[|s.log|..];
    assert o.server.log == s.log + es;
    MajorityOfVotes(st, i, s);
    WinsOnce(st, i);
    b := LeadSim(st, i, es, o.server, kept);
  }

  /** What an election timeout comes to: a candidate that polls its peers, or a leader at once. */
  lemma TimeoutShape(s: Server)
    requires !s.role.Leader?
    ensures var s1, o := Standing(s), ElectionTimeout(s);
            if Wins(s1) then Crowned(s1, o.server) && forall m | m in o.sent :: StatesSlice(o.server, m)
            else o == Outcome(s1, set j | j in s1.peers :: VoteReqFor(s1, j))
  {
    assert {} + {s.id} == {s.id};
    BecomeLeaderShape(Standing(s));
  }

  lemma TimeoutSim(st: State, i: Id, s: Server, o: Outcome, kept: set<Msg>) returns (b: State)
    requires Inv(st) && At(st, i, s) && o == ElectionTimeout(s) && kept <= o.sent
    ensures Inv(b) && After(st, i, o.server, kept, b)
  {
    hide Inv;
    if s.role.Leader? {
      b := SendSim(st, i, s, kept);
    } else {
      b := CandidacySim(st, i, s, o, kept);
    }
  }

  lemma CandidacySim(st: State, i: Id, s: Server, o: Outcome, kept: set<Msg>) returns (b: State)
    requires Inv(st) && At(st, i, s) && !s.role.Leader? && o == ElectionTimeout(s) && kept <= o.sent
    ensures Inv(b) && After(st, i, o.server, kept, b)
  {
    hide Inv, ElectionTimeout, Grows;
    TimeoutShape(s);
    var s1 := Standing(s);
    var b1 := StandSim(st, i, s, s1);
    if Wins(s1) {
      b := BecomeLeaderSim(b1, i, s1, o, kept);
    } else {
      b := SendPoll(b1, i, s1, kept);
    }
    AfterAfter(st, i, s1, {}, b1, o.server, kept, b);
    assert {} + kept == kept;
  }

  lemma StandSim(st: State, i: Id, s: Server, s1: Server) returns (b: State)
    requires Inv(st) && At(st, i, s)
    requires NodeOf(s1) == Node(s.term + 1, i, Candidate, s.log, false, 1, {i})
    ensures Inv(b) && After(st, i, s1, {}, b)
  {
    hide Inv;
    SupportersBelow(st.votes, s.term + 1, i);
    var n := Node(s.term + 1, NONE, Follower, s.log, false, 0, {});
    AdjustKeeps(st, i, n);
    b := CastSim(Adjust(st, i, n), i, i, s1);
  }

  lemma CastSim(st: State, i: Id, c: Id, s: Server) returns (b: State)
    requires Inv(st) && MayCast(st, i, c) && NodeOf(s) == Cast(st, i, c).nodes[i]
    ensures Inv(b) && After(st, i, s, {}, b)
    ensures VotedFor(b.votes, i, s.term, c)
  {
    hide Inv;
    b := Cast(st, i, c);
    NotVotedYet(st, i);
    CastKeeps(st, i, c);
  }

  lemma SendPoll(st: State, i: Id, s: Server, kept: set<Msg>) returns (b: State)
    requires Inv(st) && At(st, i, s) && s.role.Candidate? && s.term >= 1
    requires kept <= set j | j in s.peers :: VoteReqFor(s, j)
    ensures Inv(b) && After(st, i, s, kept, b)
  {
    hide Inv;
    b := SendSim(st, i, s, kept);
  }

  // ----- requests

  /** The follower's side of an accepted append request. */
  function Taken(s: Server, m: Msg): Server
    requires m.AppendReq? && m.lastLogIdx <= |s.log|
  {
    s.(role := Follower, leader := m.src, log := Merge(s.log, m.lastLogIdx, m.entries))
  }

  function Ack(s: Server, m: Msg): Msg
    requires m.AppendReq?
  {
    AppendResp(s.id, m.src, s.term, m.lastLogIdx + |m.entries| + 1, true)
  }

  predicate Accepts(s: Server, m: Msg)
    requires m.AppendReq?
  {
    m.term == s.term && !s.role.Leader? && LogOkay(s.log, m)
  }

  lemma AppendShape(s: Server, m: Msg)
    requires m.AppendReq? && m.term <= s.term
    ensures var o := HandleAppendEntries(s, m);
            if Accepts(s, m) then
              SameCore(Taken(s, m), o.server) && o.server.quickCommit >= s.quickCommit && o.sent == {Ack(s, m)}
            else
              && (o.server == s || o.server == s.(role := Follower) || (o.server == s.(exited := true) && o.sent == {}))
              && (forall r | r in o.sent :: r.AppendResp? && !r.accepted)
  {
  }

  lemma AppendReqSim(st: State, i: Id, s: Server, m: Msg, o: Outcome, kept: set<Msg>) returns (b: State)
    requires Inv(st) && At(st, i, s) && m in st.net && m.AppendReq? && m.dst == i && m.term <= s.term
    requires o == HandleAppendEntries(s, m) && kept <= o.sent
    ensures Inv(b) && After(st, i, o.server, kept, b)
  {
    hide Inv;
    AppendShape(s, m);
    if Accepts(s, m) {
      b := AcceptSim(st, i, s, m, kept);
    } else {
      b := AdjustTo(st, i, o.server) by { CountNow(st, i); }
      b := SendSim(b, i, o.server, kept);
    }
  }

  lemma AcceptSim(st: State, i: Id, s: Server, m: Msg, kept: set<Msg>) returns (b: State)
    requires Inv(st) && At(st, i, s) && m in st.net && m.AppendReq? && m.dst == i
    requires Accepts(s, m) && kept <= {Ack(s, m)}
    ensures Inv(b) && After(st, i, Taken(s, m), kept, b)
  {
    hide Inv;
    var b1 := AdjustTo(st, i, s.(role := Follower)) by { CountNow(st, i); }
    var b2 := MergeSim(b1, i, m);
    b := SendSim(b2, i, Taken(s, m), kept);
  }

  lemma MergeSim(st: State, i: Id, m: Msg) returns (b: State)
    requires Inv(st) && i in st.nodes && !st.nodes[i].role.Leader? && m in st.net && m.AppendReq? && m.dst == i
    requires m.term == st.nodes[i].term && LogOkay(st.nodes[i].log, m)
    ensures Inv(b) && b == Accept(st, i, m)
    ensures Sendable(b, AppendResp(i, m.src, m.term, m.lastLogIdx + |m.entries| + 1, true))
  {
    hide Inv;
    OkayMayAccept(st, i, m);
    AcceptKeeps(st, i, m);
    AcceptedPrefix(st, i, m);
    b := Accept(st, i, m);
  }

  lemma VoteReqSim(st: State, i: Id, s: Server, m: Msg, o: Outcome, kept: set<Msg>) returns (b: State)
    requires Inv(st) && At(st, i, s) && m in st.net && m.VoteReq? && m.dst == i && m.term <= s.term
    requires o == HandleVoteReq(s, m) && kept <= o.sent
    ensures Inv(b) && After(st, i, o.server, kept, b)
  {
    hide Inv;
    if Grants(s, m) && s.votedFor == NONE {
      assert MayCast(st, i, m.src) by { Open(st); }
      b := CastSim(st, i, m.src, o.server) by { Open(st); }
      b := SendSim(b, i, o.server, kept);
    } else {
      assert Grants(s, m) ==> VotedFor(st.votes, i, s.term, m.src) by { Open(st); }
      b := SendSim(st, i, o.server, kept);
    }
  }

  // ----- responses

  /** A candidate's state after one more answer. */
  function Counted(s: Server, m: Msg): Server
    requires m.VoteResp?
  {
    s.(votedServers := s.votedServers + {m.src}, votesGranted := s.votesGranted + if m.accepted then 1 else 0)
  }

  /** What an answer to a vote request comes to: ignored, counted, or decisive. */
  ghost predicate VotingOutcome(s: Server, m: Msg, o: Outcome)
    requires m.VoteResp?
  {
    var s1 := Counted(s, m);
    if m.term != s.term || s.electionCompleted || m.src in s.votedServers then o == Outcome(s, {})
    else if Wins(s1) then Crowned(s1, o.server) && forall r | r in o.sent :: StatesSlice(o.server, r)
    else o == Outcome(s1.(electionCompleted := |s1.votedServers| >= ClusterSize(s)), {})
  }

  lemma VotingShape(s: Server, m: Msg)
    requires m.VoteResp?
    ensures VotingOutcome(s, m, HandleVotingResp(s, m))
  {
    BecomeLeaderShape(Counted(s, m));
  }

  lemma VoteRespSim(st: State, i: Id, s: Server, m: Msg, o: Outcome, kept: set<Msg>) returns (b: State)
    requires Inv(st) && At(st, i, s) && m in st.net && m.VoteResp? && m.dst == i
    requires VotingOutcome(s, m, o) && kept <= o.sent
    ensures Inv(b) && After(st, i, o.server, kept, b)
  {
    hide Inv;
    if m.term != s.term || s.electionCompleted || m.src in s.votedServers {
      b := st;
    } else {
      CountOne(st, i, s, m);
      if Wins(Counted(s, m)) {
        b := DecidingVoteSim(st, i, Counted(s, m), o, kept);
      } else {
        b := OpenVoteSim(st, i, Counted(s, m), o, kept);
      }
    }
  }

  lemma OpenVoteSim(st: State, i: Id, s1: Server, o: Outcome, kept: set<Msg>) returns (b: State)
    requires Inv(st) && i in st.nodes && Adjusts(st, i, NodeOf(s1)) && !st.nodes[i].completed && kept == {}
    requires NodeOf(o.server) == NodeOf(s1).(completed := o.server.electionCompleted)
    ensures Inv(b) && After(st, i, o.server, kept, b)
  {
    hide Inv;
    b := AdjustTo(st, i, o.server);
  }

  lemma DecidingVoteSim(st: State, i: Id, s1: Server, o: Outcome, kept: set<Msg>) returns (b: State)
    requires Inv(st) && i in st.nodes && Adjusts(st, i, NodeOf(s1)) && !s1.electionCompleted && Wins(s1)
    requires s1.id == i && s1.peers.Keys == st.nodes.Keys - {i}
    requires Crowned(s1, o.server) && forall r | r in kept :: StatesSlice(o.server, r)
    ensures Inv(b) && After(st, i, o.server, kept, b)
  {
    hide Inv, Grows, Crowned, StatesSlice;
    var b1 := AdjustTo(st, i, s1);
    b := BecomeLeaderSim(b1, i, s1, o, kept);
    AfterAfter(st, i, s1, {}, b1, o.server, kept, b);
    assert {} + kept == kept;
  }

  /** One more answer, granted or not, never puts the count above the votes received. */
  lemma CountOne(st: State, i: Id, s: Server, m: Msg)
    requires Inv(st) && At(st, i, s) && m in st.net && m.VoteResp? && m.dst == i && m.term == s.term
    requires m.src !in s.votedServers
    ensures s.votedServers + {m.src} <= st.nodes.Keys
    ensures s.votesGranted + (if m.accepted then 1 else 0)
            <= |Supporters(st.votes, s.votedServers + {m.src}, s.term, i)|
  {
    hide Inv;
    Open(st);
    var before, after := Supporters(st.votes, s.votedServers, s.term, i),
                         Supporters(st.votes, s.votedServers + {m.src}, s.term, i);
    if m.accepted {
      assert after == before + {m.src};
    } else {
      SubsetSize(before, after);
    }
  }

  /** Only sending, and a commit index that does not go back. */
  ghost predicate OnlySends(s: Server, o: Outcome) {
    && SameCore(s, o.server) && o.server.quickCommit >= s.quickCommit
    && (forall r | r in o.sent :: s.role.Leader? && StatesSlice(s, r))
  }

  lemma AppendRespShape(s: Server, m: Msg)
    requires m.AppendResp?
    ensures OnlySends(s, HandleAppendResp(s, m))
  {
    hide PeerAccepted, PeerRefused;
    if m.src in s.peers {
      PeerAcceptedShape(s, m);
      PeerRefusedShape(s, m);
    }
  }

  lemma PeerAcceptedShape(s: Server, m: Msg)
    requires m.AppendResp? && m.src in s.peers
    ensures OnlySends(s, PeerAccepted(s, m))
  {
    hide Commit, TrySend, CommitTarget;
  }

  lemma PeerRefusedShape(s: Server, m: Msg)
    requires m.AppendResp? && m.src in s.peers
    ensures OnlySends(s, PeerRefused(s, m))
  {
    hide TrySend;
  }

  /** Sending slices is all a server does to the others when its own core stays. */
  lemma SlicesSim(st: State, i: Id, s: Server, o: Outcome, kept: set<Msg>) returns (b: State)
    requires Inv(st) && At(st, i, s) && SameCore(s, o.server) && kept <= o.sent
    requires forall r | r in o.sent :: s.role.Leader? && StatesSlice(s, r)
    ensures Inv(b) && After(st, i, o.server, kept, b)
  {
    hide Inv;
    if s.role.Leader? {
      b := SendSlices(st, i, s, kept);
    } else {
      b := SendSim(st, i, s, kept);
    }
  }

  // ----- one step of the cluster

  lemma DeliverReqSim(st: State, i: Id, s: Server, m: Msg, o: Outcome, kept: set<Msg>) returns (b: State)
    requires Inv(st) && At(st, i, s) && m in st.net && m.dst == i && (m.AppendReq? || m.VoteReq?)
    requires o == ProcessReq(s, m) && kept <= o.sent
    ensures Inv(b) && After(st, i, o.server, kept, b)
  {
    hide Inv, Grows;
    var s1 := UpdateTerm(s, m.term);
    var b1 := UpdateTermSim(st, i, s, m.term);
    if m.AppendReq? {
      b := AppendReqSim(b1, i, s1, m, o, kept);
    } else {
      b := VoteReqSim(b1, i, s1, m, o, kept);
    }
    AfterAfter(st, i, s1, {}, b1, o.server, kept, b);
    assert {} + kept == kept;
  }

  lemma DeliverRespSim(st: State, i: Id, s: Server, m: Msg, o: Outcome, kept: set<Msg>) returns (b: State)
    requires Inv(st) && At(st, i, s) && m in st.net && m.dst == i && (m.AppendResp? || m.VoteResp?)
    requires o == HandlePeerResp(s, m) && kept <= o.sent
    ensures Inv(b) && After(st, i, o.server, kept, b)
  {
    hide Inv;
    var s0 := if m.AppendResp? then SetFree(s, m.src) else s;
    assert At(st, i, s0);
    if m.term > s.term {
      b := UpdateTermSim(st, i, s0, m.term);
    } else if m.VoteResp? {
      VotingShape(s0, m);
      b := VoteRespSim(st, i, s0, m, o, kept);
    } else {
      AppendRespShape(s0, m);
      b := SlicesSim(st, i, s0, o, kept);
    }
  }

  lemma ClientSim(st: State, i: Id, s: Server, payloads: seq<Payload>, expired: bool, o: Outcome, kept: set<Msg>)
    returns (b: State)
    requires Inv(st) && At(st, i, s)
    requires o == ClientReq(s, payloads, expired) && kept <= o.sent
    ensures Inv(b) && After(st, i, o.server, kept, b)
  {
    hide Inv;
    if ClientAccepted(s, expired) {
      var es := ClientEntries(s.term, payloads);
      assert st.nodes[i].completed by { Open(st); LeaderCompleted(st, i); }
      b := LeadSim(st, i, es, s.(log := s.log + es), kept);
    } else {
      b := SendSim(st, i, s, kept);
    }
  }

  lemma LeaderCompleted(st: State, i: Id)
    requires Leading(st) && i in st.nodes && st.nodes[i].role.Leader?
    ensures st.nodes[i].completed
  {
    var t := st.nodes[i].term;
    assert LeadershipOk(st, t, st.leaders[t]);
  }

  lemma RestartSim(st: State, i: Id, s: Server, o: Outcome, kept: set<Msg>) returns (b: State)
    requires Inv(st) && At(st, i, s) && kept == {}
    requires NodeOf(o.server) == Node(s.term, s.votedFor, Follower, s.log, true, 0, {})
    ensures Inv(b) && After(st, i, o.server, kept, b)
  {
    hide Inv;
    SupportersBelow(st.votes, s.term, i);
    b := AdjustTo(st, i, o.server);
  }

  lemma ApplySim(st: State, i: Id, s: Server, o: Outcome, kept: set<Msg>) returns (b: State)
    requires Inv(st) && At(st, i, s) && CanApply(s) && o == Outcome(ApplyNext(s), {}) && kept == {}
    ensures Inv(b) && After(st, i, o.server, kept, b)
  {
    hide Inv;
    b := st;
  }

  lemma AtReady(sys: System, r: Record, i: Id)
    requires Local(sys) && i in sys.servers
    ensures At(View(sys, r), i, Ready(sys.servers[i])) && View(sys, r).net == sys.net && Saved(sys.servers[i])
  {
    assert ServerOk(sys, i, sys.servers[i]);
  }

  /** Every event keeps the invariant, for some continuation of the record. */
  lemma EventSim(sys: System, ev: Event, r: Record, kept: set<Msg>) returns (b: State)
    requires Local(sys) && Inv(View(sys, r)) && Enabled(sys, ev) && kept <= React(sys, ev).sent
    ensures Inv(b) && After(View(sys, r), Actor(ev), React(sys, ev).server, kept, b)
  {
    hide Inv, After, At, View, Local, ElectionTimeout, ProcessReq, HandlePeerResp, ClientReq, ApplyNext, TrySend;
    var st, i, o := View(sys, r), Actor(ev), React(sys, ev);
    var s := Ready(sys.servers[i]);
    AtReady(sys, r, i);
    match ev
    case Timeout(_) => b := TimeoutSim(st, i, s, o, kept);
    case Deliver(m) =>
      if m.AppendReq? || m.VoteReq? {
        b := DeliverReqSim(st, i, s, m, o, kept);
      } else {
        b := DeliverRespSim(st, i, s, m, o, kept);
      }
    case Client(_, payloads, expired) => b := ClientSim(st, i, s, payloads, expired, o, kept);
    case HeartbeatDue(_, _) => b := SlicesSim(st, i, s, o, kept);
    case RpcFailed(_, _) => b := SlicesSim(st, i, s, o, kept);
    case ApplyDue(_) => b := ApplySim(st, i, s, o, kept);
    case Restart(_, _, _) => b := RestartSim(st, i, s, o, kept);
  }

  // ----- what each server keeps by itself

  /** Identity and membership stay, and the term only grows. */
  ghost predicate Continues(s: Server, t: Server) {
    t.id == s.id && t.peers.Keys == s.peers.Keys && t.term >= s.term
  }

  /** Nothing is applied, and the commit index does not go back. */
  ghost predicate AppliesNothing(s: Server, t: Server) {
    t.smCommit == s.smCommit && t.bootCommit == s.bootCommit && t.applied == s.applied && t.quickCommit >= s.quickCommit
  }

  lemma ReactKeepsSaved(sys: System, ev: Event)
    requires Enabled(sys, ev) && Saved(sys.servers[Actor(ev)])
    ensures Saved(React(sys, ev).server) && Continues(sys.servers[Actor(ev)], React(sys, ev).server)
    ensures ev.ApplyDue? || ev.Restart? || AppliesNothing(sys.servers[Actor(ev)], React(sys, ev).server)
  {
    hide ElectionTimeout, ProcessReq, HandlePeerResp, ClientReq, ApplyNext;
    var s := Ready(sys.servers[Actor(ev)]);
    match ev
    case Timeout(_) => TimeoutKeepsSaved(s);
    case Deliver(m) =>
      if m.AppendReq? || m.VoteReq? {
        ReqKeepsSaved(s, m);
      } else {
        RespKeepsSaved(s, m);
      }
    case Client(_, payloads, expired) => ClientKeepsSaved(s, payloads, expired);
    case ApplyDue(_) => ApplyKeepsSaved(s);
    case _ =>
  }

  lemma TimeoutKeepsSaved(s: Server)
    requires Saved(s)
    ensures Saved(ElectionTimeout(s).server) && Continues(s, ElectionTimeout(s).server)
    ensures AppliesNothing(s, ElectionTimeout(s).server)
  {
    hide RequestVote;
    if !s.role.Leader? {
      RequestVoteKeepsSaved(Save(s.(term := s.term + 1, votedFor := NONE, role := Candidate, votesGranted := 0,
                                    votedServers := {}, electionCompleted := false)));
    }
  }

  lemma ReqKeepsSaved(s: Server, m: Msg)
    requires Saved(s) && (m.AppendReq? || m.VoteReq?)
    ensures Saved(ProcessReq(s, m).server) && Continues(s, ProcessReq(s, m).server)
    ensures AppliesNothing(s, ProcessReq(s, m).server)
  {
    hide HandleAppendEntries;
    if m.AppendReq? {
      AppendShape(UpdateTerm(s, m.term), m);
    }
  }

  lemma RespKeepsSaved(s: Server, m: Msg)
    requires Saved(s) && (m.AppendResp? || m.VoteResp?)
    ensures Saved(HandlePeerResp(s, m).server) && Continues(s, HandlePeerResp(s, m).server)
    ensures AppliesNothing(s, HandlePeerResp(s, m).server)
  {
    hide HandleAppendResp, HandleVotingResp;
    if m.VoteResp? {
      VotingKeepsSaved(s, m);
    } else {
      AppendRespShape(SetFree(s, m.src), m);
    }
  }

  lemma VotingKeepsSaved(s: Server, m: Msg)
    requires Saved(s) && m.VoteResp?
    ensures Saved(HandleVotingResp(s, m).server) && Continues(s, HandleVotingResp(s, m).server)
    ensures AppliesNothing(s, HandleVotingResp(s, m).server)
  {
    hide BecomeLeader;
    BecomeLeaderKeepsSaved(Counted(s, m).(electionCompleted := true));
  }

  lemma ClientKeepsSaved(s: Server, payloads: seq<Payload>, expired: bool)
    requires Saved(s)
    ensures Saved(ClientReq(s, payloads, expired).server) && Continues(s, ClientReq(s, payloads, expired).server)
    ensures AppliesNothing(s, ClientReq(s, payloads, expired).server)
  {
  }

  lemma ApplyKeepsSaved(s: Server)
    requires CanApply(s) && KeepsMembers(s) && Saved(s)
    ensures Saved(ApplyNext(s)) && Continues(s, ApplyNext(s)) && NodeOf(ApplyNext(s)) == NodeOf(s)
  {
    hide MemberIds;
  }

  lemma RequestVoteKeepsSaved(s: Server)
    ensures Saved(RequestVote(s).server) && Continues(s, RequestVote(s).server)
    ensures AppliesNothing(s, RequestVote(s).server)
  {
    BecomeLeaderKeepsSaved(Save(s.(votedFor := s.id)).(votesGranted := s.votesGranted + 1,
                                                       votedServers := s.votedServers + {s.id},
                                                       electionCompleted := true));
  }

  lemma BecomeLeaderKeepsSaved(s: Server)
    ensures Saved(s) ==> Saved(BecomeLeader(s).server)
    ensures Continues(s, BecomeLeader(s).server) && AppliesNothing(s, BecomeLeader(s).server)
  {
  }

  /** What a step does to the server that made it, and to the network. */
  lemma StepFacts(a: System, ev: Event, b: System)
    requires Next(a, ev, b)
    ensures var i, t := Actor(ev), React(a, ev).server;
            && i in a.servers && i in b.servers && b.servers == a.servers[i := b.servers[i]]
            && NodeOf(b.servers[i]) == NodeOf(t) && (Saved(t) ==> Saved(b.servers[i]))
            && b.servers[i].id == t.id && b.servers[i].peers.Keys == t.peers.Keys
    ensures b.net - a.net <= React(a, ev).sent && a.net + (b.net - a.net) == b.net
  {
    hide React;
  }

  lemma StepView(a: System, b: System, i: Id, t: Server, r: Record, st: State)
    requires i in a.servers && i in b.servers && b.servers == a.servers[i := b.servers[i]]
    requires NodeOf(b.servers[i]) == NodeOf(t) && a.net <= b.net && After(View(a, r), i, t, b.net - a.net, st)
    ensures View(b, Record(st.leaders, st.votes)) == st && Grows(View(a, r), st)
  {
    hide Grows, NodeOf;
    assert View(b, r).nodes == View(a, r).nodes[i := NodeOf(b.servers[i])];
    assert a.net + (b.net - a.net) == b.net;
  }

  lemma StepLocal(a: System, ev: Event, b: System)
    requires Next(a, ev, b) && Local(a)
    ensures Local(b)
  {
    hide Next, React, Saved;
    StepFacts(a, ev, b);
    assert ServerOk(a, Actor(ev), a.servers[Actor(ev)]);
    NextEnabled(a, ev, b);
    ReactKeepsSaved(a, ev);
    assert b.servers.Keys == a.servers.Keys;
    forall j | j in b.servers ensures ServerOk(b, j, b.servers[j]) {
      assert ServerOk(a, j, a.servers[j]);
    }
  }

  lemma NextEnabled(a: System, ev: Event, b: System)
    requires Next(a, ev, b)
    ensures Enabled(a, ev) && Actor(ev) in a.servers && a.net <= b.net
  {
    hide React;
  }

  lemma StepSim(a: System, ev: Event, b: System, r: Record) returns (r': Record)
    requires Next(a, ev, b) && Local(a) && Inv(View(a, r))
    ensures Local(b) && Inv(View(b, r')) && Grows(View(a, r), View(b, r'))
  {
    hide Next, Inv, React, Grows, Local, View, After, NodeOf, Saved;
    StepLocal(a, ev, b);
    NextEnabled(a, ev, b);
    StepFacts(a, ev, b);
    var st := EventSim(a, ev, r, b.net - a.net);
    StepView(a, b, Actor(ev), React(a, ev).server, r, st);
    r' := Record(st.leaders, st.votes);
  }

  lemma InitSim(sys: System) returns (r: Record)
    requires Init(sys)
    ensures Local(sys) && Inv(View(sys, r))
  {
    hide Inv;
    r := Record(map[], map[]);
    var st := View(sys, r);
    forall i | i in sys.servers
      ensures ServerOk(sys, i, sys.servers[i]) && NodeOf(sys.servers[i]) == Node(0, NONE, Follower, [], true, 0, {})
    {
    }
    assert Kept(st) by {
      assert forall j, t, n :: AckKept(st, j, t, n);
      assert forall j, u, t, n :: BallotKept(st, j, u, t, n);
    }
    Open(st);
  }

  /** All states of a run keep the invariant. */
  lemma {:induction false} RunSim(run: seq<System>, evs: seq<Event>) returns (rs: seq<Record>)
    requires IsRun(run, evs)
    ensures |rs| == |run|
    ensures forall k | 0 <= k < |run| :: Local(run[k]) && Inv(View(run[k], rs[k]))
    ensures forall k | 0 <= k < |evs| :: Grows(View(run[k], rs[k]), View(run[k + 1], rs[k + 1]))
    decreases |run|
  {
    hide Inv, View, Local, Grows, Next, Init;
    if |evs| == 0 {
      var r := InitSim(run[0]);
      rs := [r];
    } else {
      var n := |evs|;
      var before := RunSim(run[..n], evs[..n - 1]);
      assert Next(run[n - 1], evs[n - 1], run[n]);
      var r := StepSim(run[n - 1], evs[n - 1], run[n], before[n - 1]);
      rs := before + [r];
    }
  }
}
