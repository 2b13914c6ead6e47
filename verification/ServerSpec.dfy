/**
 What each handler of a server does, as a function from the server's state to
 its next state and the messages it sends. Membership is fixed and the log is
 not compacted.
 */
module ServerSpec {
  import opened Types
  import opened Bytes
  import opened Codec
  import Quorum

  /** What a leader keeps about a peer: replication progress and the two flow-control flags. */
  datatype Peer = Peer(next: nat, matched: nat, busy: bool, pending: bool)

  datatype Persisted = Persisted(term: nat, votedFor: Id)

  datatype Server = Server(
    id: Id, peers: map<Id, Peer>, maxAppend: nat,
    term: nat, votedFor: Id, saved: Option<Persisted>,
    role: Role, leader: Id,
    votesGranted: int, votedServers: set<Id>, electionCompleted: bool,
    log: seq<Entry>, quickCommit: nat, smCommit: nat, config: ClusterConfig,
    bootCommit: nat, applied: seq<Entry>, exited: bool)

  datatype Outcome = Outcome(server: Server, sent: set<Msg>)

  /** Cluster size, and the number of votes that is more than half of it. */
  function ClusterSize(s: Server): nat { |s.peers| + 1 }

  predicate Wins(s: Server) { s.votesGranted > ClusterSize(s) / 2 }

  /** Index arithmetic is unsigned and 64 bits wide. */
  function Dec(n: nat): nat { if n == 0 then TWO_64 - 1 else n - 1 }

  // ----- start-up

  function Boot(id: Id, peers: set<Id>, maxAppend: nat, saved: Option<Persisted>, log: seq<Entry>,
                lastCommit: nat, config: ClusterConfig): Server
  {
    var p := if saved.Some? then saved.value else Persisted(0, NONE);
    Server(id, map j | j in peers :: Peer(0, 0, false, false), maxAppend,
           p.term, p.votedFor, saved, Follower, NONE, 0, {}, true,
           log, lastCommit, lastCommit, config, lastCommit, [], false)
  }

  // ----- sending

  /** What stays when a server only sends: everything the protocol argument looks at. */
  ghost predicate SameCore(s: Server, t: Server) {
    && t.id == s.id && t.peers.Keys == s.peers.Keys && t.maxAppend == s.maxAppend
    && t.term == s.term && t.votedFor == s.votedFor && t.saved == s.saved
    && t.role == s.role && t.leader == s.leader
    && t.votesGranted == s.votesGranted && t.votedServers == s.votedServers
    && t.electionCompleted == s.electionCompleted
    && t.log == s.log && t.smCommit == s.smCommit && t.config == s.config
    && t.bootCommit == s.bootCommit && t.applied == s.applied
  }

  /** An append request that states a slice of the sender's log. */
  ghost predicate StatesSlice(s: Server, m: Msg) {
    && m.AppendReq? && m.src == s.id && m.dst in s.peers && m.term == s.term
    && m.lastLogIdx + |m.entries| <= |s.log|
    && m.entries == s.log[m.lastLogIdx..m.lastLogIdx + |m.entries|]
    && m.lastLogTerm == TermAt(s.log, m.lastLogIdx)
  }

  /** The peer's next index; 0 means "not known yet" and stands for the end of the log. */
  function NextFor(s: Server, j: Id): nat
    requires j in s.peers
  {
    if s.peers[j].next == 0 then |s.log| + 1 else s.peers[j].next
  }

  /** The leader gives up when a peer's index lies beyond its own log. */
  predicate TooLarge(s: Server, j: Id)
    requires j in s.peers
  {
    NextFor(s, j) > |s.log| + 1
  }

  function CreateAppendReq(s: Server, j: Id): (m: Msg)
    requires j in s.peers && !TooLarge(s, j)
    ensures StatesSlice(s, m) && m.dst == j && m.commitIdx == s.quickCommit
    ensures |m.entries| == Min(|s.log| - m.lastLogIdx, s.maxAppend)
  {
    var prev := NextFor(s, j) - 1;
    var end := Min(|s.log|, prev + s.maxAppend);
    AppendReq(s.id, j, s.term, TermAt(s.log, prev), prev, s.quickCommit, s.log[prev..end])
  }

  /** A request goes out to a peer that has none outstanding. */
  function TrySend(s: Server, j: Id): (o: Outcome)
    requires j in s.peers
    ensures SameCore(s, o.server) && o.server.quickCommit == s.quickCommit
    ensures forall m | m in o.sent :: StatesSlice(s, m) && m.commitIdx == s.quickCommit
  {
    if s.peers[j].busy then Outcome(s, {})
    else
      var s1 := s.(peers := s.peers[j := s.peers[j].(busy := true, next := NextFor(s, j))]);
      if TooLarge(s, j) then Outcome(s1.(exited := true), {})
      else Outcome(s1, {CreateAppendReq(s, j)})
  }

  /** The same for all peers; when a commit is announced, busy peers are marked for later. */
  ghost function SendAll(s: Server, announce: bool): (o: Outcome)
    ensures SameCore(s, o.server) && o.server.quickCommit == s.quickCommit
    ensures forall m | m in o.sent :: StatesSlice(s, m) && m.commitIdx == s.quickCommit
  {
    var peers := map j | j in s.peers ::
                   if s.peers[j].busy then (if announce then s.peers[j].(pending := true) else s.peers[j])
                   else s.peers[j].(busy := true, next := NextFor(s, j));
    var sent := set j | j in s.peers && !s.peers[j].busy && !TooLarge(s, j) :: CreateAppendReq(s, j);
    Outcome(s.(peers := peers, exited := s.exited || exists j :: j in s.peers && !s.peers[j].busy && TooLarge(s, j)),
            sent)
  }

  /** The commit index only moves forward, and a leader announces it. */
  ghost function Commit(s: Server, target: nat): (o: Outcome)
    ensures SameCore(s, o.server) && o.server.quickCommit == Max(s.quickCommit, target)
    ensures forall m | m in o.sent ::
              s.role.Leader? && StatesSlice(s, m) && m.commitIdx == o.server.quickCommit
  {
    if target > s.quickCommit then
      var s1 := s.(quickCommit := target);
      if s.role.Leader? then SendAll(s1, true) else Outcome(s1, {})
    else Outcome(s, {})
  }

  ghost function RequestAll(s: Server): (o: Outcome)
    requires s.role.Leader?
    ensures SameCore(s, o.server) && o.server.quickCommit >= s.quickCommit
    ensures forall m | m in o.sent :: StatesSlice(s, m) && m.commitIdx == o.server.quickCommit
  {
    if s.peers == map[] then Commit(s, |s.log|) else SendAll(s, false)
  }

  // ----- elections

  function Save(s: Server): Server { s.(saved := Some(Persisted(s.term, s.votedFor))) }

  function BecomeFollower(s: Server): Server { s.(role := Follower) }

  function UpdateTerm(s: Server, term: nat): Server {
    if term > s.term then
      BecomeFollower(Save(s.(term := term, votedFor := NONE, electionCompleted := false,
                             votesGranted := 0, votedServers := {})))
    else s
  }

  /** The new leader's state: fresh indexes, and the initial configuration logged if it never was. */
  function Crown(s: Server): Server {
    var s1 := s.(role := Leader, leader := s.id,
                 peers := map j | j in s.peers :: s.peers[j].(next := |s.log| + 1, busy := false));
    if s.config.logIdx != 0 then s1
    else
      var conf := s.config.(logIdx := |s.log| + 1, prevLogIdx := s.config.logIdx);
      s1.(config := conf, log := s.log + [Entry(s.term, CONF, EncodeConfig(conf))])
  }

  ghost function BecomeLeader(s: Server): Outcome { RequestAll(Crown(s)) }

  function VoteReqFor(s: Server, j: Id): Msg {
    VoteReq(s.id, j, s.term, TermAt(s.log, |s.log|), |s.log|, s.quickCommit)
  }

  /** Vote for oneself; the only server of a cluster wins at once. */
  ghost function RequestVote(s: Server): Outcome {
    var s1 := Save(s.(votedFor := s.id)).(votesGranted := s.votesGranted + 1,
                                          votedServers := s.votedServers + {s.id});
    if Wins(s1) then BecomeLeader(s1.(electionCompleted := true))
    else Outcome(s1, set j | j in s.peers :: VoteReqFor(s1, j))
  }

  /** A candidate after it voted for itself. */
  function Standing(s: Server): Server {
    s.(term := s.term + 1, votedFor := s.id, saved := Some(Persisted(s.term + 1, s.id)), role := Candidate,
       votesGranted := 1, votedServers := {s.id}, electionCompleted := false)
  }

  ghost function ElectionTimeout(s: Server): Outcome {
    if s.role.Leader? then Outcome(s.(exited := true), {})
    else RequestVote(Save(s.(term := s.term + 1, votedFor := NONE, role := Candidate, votesGranted := 0,
                             votedServers := {}, electionCompleted := false)))
  }

  // ----- requests

  predicate LogOkay(log: seq<Entry>, m: Msg)
    requires m.AppendReq?
  {
    m.lastLogIdx == 0 || (m.lastLogIdx <= |log| && m.lastLogTerm == TermAt(log, m.lastLogIdx))
  }

  /** The entries go into the log, the sender is the leader, and its commit index is taken over. */
  ghost function AcceptEntries(s: Server, m: Msg): Outcome
    requires m.AppendReq? && m.lastLogIdx <= |s.log|
  {
    var o := Commit(s.(log := Merge(s.log, m.lastLogIdx, m.entries), leader := m.src), m.commitIdx);
    Outcome(o.server, o.sent + {AppendResp(s.id, m.src, s.term, m.lastLogIdx + |m.entries| + 1, true)})
  }

  ghost function HandleAppendEntries(s: Server, m: Msg): Outcome
    requires m.AppendReq?
  {
    if m.term == s.term && s.role.Leader? then Outcome(s.(exited := true), {})
    else
      var s1 := if m.term == s.term && s.role.Candidate? then BecomeFollower(s) else s;
      if m.term < s.term || !LogOkay(s.log, m) then
        Outcome(s1, {AppendResp(s.id, m.src, s.term, |s.log| + 1, false)})
      else AcceptEntries(s1, m)
  }

  predicate Grants(s: Server, m: Msg)
    requires m.VoteReq?
  {
    && m.term == s.term && UpToDate(m.lastLogTerm, m.lastLogIdx, s.log)
    && (s.votedFor == m.src || s.votedFor == NONE)
  }

  function HandleVoteReq(s: Server, m: Msg): Outcome
    requires m.VoteReq?
  {
    if Grants(s, m) then
      Outcome(Save(s.(votedFor := m.src)), {VoteResp(s.id, m.src, s.term, |s.log| + 1, true)})
    else Outcome(s, {VoteResp(s.id, m.src, s.term, 0, false)})
  }

  ghost function ProcessReq(s: Server, m: Msg): Outcome
    requires m.AppendReq? || m.VoteReq?
  {
    var s1 := UpdateTerm(s, m.term);
    if m.AppendReq? then HandleAppendEntries(s1, m) else HandleVoteReq(s1, m)
  }

  /** What a client wants logged; the leader supplies the term. */
  datatype Payload = Payload(kind: byte, data: seq<byte>)

  /** A client's request counts only at a leader that a majority answered lately. */
  predicate ClientAccepted(s: Server, expired: bool) { s.role.Leader? && (s.peers == map[] || !expired) }

  function ClientEntries(term: nat, payloads: seq<Payload>): seq<Entry> {
    seq(|payloads|, k requires 0 <= k < |payloads| => Entry(term, payloads[k].kind, payloads[k].data))
  }

  ghost function ClientReq(s: Server, payloads: seq<Payload>, expired: bool): Outcome {
    if ClientAccepted(s, expired) then RequestAll(s.(log := s.log + ClientEntries(s.term, payloads)))
    else Outcome(s, {})
  }

  // ----- responses

  ghost function HandleVotingResp(s: Server, m: Msg): Outcome
    requires m.VoteResp?
  {
    if m.term != s.term || s.electionCompleted || m.src in s.votedServers then Outcome(s, {})
    else
      var s1 := s.(votedServers := s.votedServers + {m.src},
                   votesGranted := s.votesGranted + if m.accepted then 1 else 0);
      var s2 := s1.(electionCompleted := |s1.votedServers| >= ClusterSize(s) || Wins(s1));
      if Wins(s2) then BecomeLeader(s2) else Outcome(s2, {})
  }

  function Matched(s: Server): map<Id, nat> { map j | j in s.peers :: s.peers[j].matched }

  /** The largest index that a strict majority of matched indexes, this server's own log included, reaches. */
  ghost function CommitTarget(s: Server): nat { Quorum.QuorumIndex(|s.log|, Matched(s)) }

  /** The peer took the entries: note its progress, commit what a majority now holds, and go on if there is more. */
  ghost function PeerAccepted(s: Server, m: Msg): Outcome
    requires m.AppendResp? && m.src in s.peers
  {
    var s1 := s.(peers := s.peers[m.src := s.peers[m.src].(next := m.nextIdx, matched := Dec(m.nextIdx))]);
    var o := Commit(s1, CommitTarget(s1));
    var p := o.server.peers[m.src];
    var s2 := o.server.(peers := o.server.peers[m.src := p.(pending := false)]);
    if s.role.Leader? && !s2.exited && (p.pending || m.nextIdx <= |s.log|) then
      var o2 := TrySend(s2, m.src);
      Outcome(o2.server, o.sent + o2.sent)
    else Outcome(s2, o.sent)
  }

  /** The peer refused: step back, to the index it named if that is nearer the front. */
  function PeerRefused(s: Server, m: Msg): Outcome
    requires m.AppendResp? && m.src in s.peers
  {
    var p := s.peers[m.src];
    var next := if m.nextIdx > 0 && p.next > m.nextIdx then m.nextIdx else Dec(p.next);
    var s1 := s.(peers := s.peers[m.src := p.(next := next)]);
    if s.role.Leader? then TrySend(s1, m.src) else Outcome(s1, {})
  }

  ghost function HandleAppendResp(s: Server, m: Msg): Outcome
    requires m.AppendResp?
  {
    if m.src !in s.peers then Outcome(s, {})
    else if m.accepted then PeerAccepted(s, m)
    else PeerRefused(s, m)
  }

  function SetFree(s: Server, j: Id): Server {
    if j in s.peers then s.(peers := s.peers[j := s.peers[j].(busy := false)]) else s
  }

  ghost function HandlePeerResp(s: Server, m: Msg): Outcome
    requires m.AppendResp? || m.VoteResp?
  {
    var s0 := if m.AppendResp? then SetFree(s, m.src) else s;
    if m.term > s.term then Outcome(UpdateTerm(s0, m.term), {})
    else if m.VoteResp? then HandleVotingResp(s0, m)
    else HandleAppendResp(s0, m)
  }

  // ----- timers and background work

  function Heartbeat(s: Server, j: Id): Outcome
    requires j in s.peers
  {
    if s.role.Leader? then TrySend(s, j) else Outcome(s, {})
  }

  /** The background thread has work: something committed is not yet applied. */
  predicate CanApply(s: Server) { s.smCommit < s.quickCommit && s.smCommit < |s.log| }

  function MemberIds(c: ClusterConfig): set<Id> { set k | 0 <= k < |c.servers| :: c.servers[k].id }

  /** Does a configuration name exactly the servers this one knows? */
  predicate SameMembers(s: Server, c: ClusterConfig) { MemberIds(c) == s.peers.Keys + {s.id} }

  /** The next entry to apply is not a configuration with other members. */
  predicate KeepsMembers(s: Server)
    requires CanApply(s)
  {
    var e := s.log[s.smCommit];
    var c := DecodeConfig(e.data);
    e.kind == CONF && c.Some? ==> SameMembers(s, c.value.0)
  }

  /**
   A newer configuration: its other members become the peers, those already
   known with their records; a server that it does not list keeps its own.
   */
  function WithConfig(s: Server, c: ClusterConfig): Server {
    var peers := if SameMembers(s, c) then s.peers
                 else map j | j in MemberIds(c) - {s.id} ::
                        if j in s.peers then s.peers[j] else Peer(|s.log| + 1, 0, false, false);
    s.(peers := peers, config := if s.id in MemberIds(c) then c else s.config)
  }

  /** One iteration: apply the next entry; a newer configuration takes effect. */
  function ApplyNext(s: Server): Server
    requires CanApply(s)
  {
    var e := s.log[s.smCommit];
    var s1 := s.(smCommit := s.smCommit + 1, applied := s.applied + [e]);
    if e.kind != CONF then s1
    else
      match DecodeConfig(e.data)
      case None => s1.(exited := true)
      case Some((c, _)) => if s.config.logIdx < c.logIdx then WithConfig(s1, c) else s1
  }
}
