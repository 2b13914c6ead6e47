/**
 The server as an object: its handlers change fields, the log store and the
 peers step by step, and each does what the corresponding function of
 `ServerSpec` says.
 */
module ServerNode {
  import opened Types
  import opened Bytes
  import opened Codec
  import opened Buffers
  import opened Entries
  import opened LogStore
  import opened LogMerge
  import opened Serializer
  import opened ServerSpec
  import opened Membership
  import opened Protocol
  import Lease

  /** One idle peer for every other server of a configuration. */
  method PeersOf(id: int32, c: ClusterConfig) returns (peers: map<Id, Peer>)
    ensures peers == map j | j in MemberIds(c) - {id} :: Peer(0, 0, false, false)
  {
    peers := map[];
    for k := 0 to |c.servers|
      invariant peers == map j | j in MemberIds(c.(servers := c.servers[..k])) - {id} :: Peer(0, 0, false, false)
    {
      MembersMore(c, k);
      if c.servers[k].id != id {
        peers := peers[c.servers[k].id := Peer(0, 0, false, false)];
      }
    }
    assert c.servers[..|c.servers|] == c.servers;
  }

  class RaftServer {
    const id: int32
    const maxAppend: nat
    const store: Store
    var peers: map<Id, Peer>
    var term: nat
    var votedFor: Id
    var saved: Option<Persisted>
    var role: Role
    var leader: Id
    var votesGranted: int
    var votedServers: set<Id>
    var electionCompleted: bool
    var quickCommit: nat
    var smCommit: nat
    var config: ClusterConfig
    var exited: bool
    ghost var bootCommit: nat
    ghost var applied: seq<Entry>

    ghost predicate Valid()
      reads this, store, store.repr
    {
      && store.Valid() && store.start == 1 && this !in store.repr
      && term < TWO_64 && -TWO_31 <= votedFor < TWO_31
      && 20 + |EncodeServers(config.servers)| < TWO_31
    }

    /** The server as a value. */
    ghost function View(): Server
      reads this, store
    {
      Server(id, peers, maxAppend, term, votedFor, saved, role, leader, votesGranted, votedServers,
             electionCompleted, store.entries, quickCommit, smCommit, config, bootCommit, applied, exited)
    }

    lemma Fits()
      requires Valid()
      ensures store.Valid() && store.start == 1 && term < TWO_64 && -TWO_31 <= votedFor < TWO_31
    {
    }

    lemma ViewShows()
      ensures var s := View();
              && s.id == id && s.peers == peers && s.maxAppend == maxAppend && s.saved == saved && s.term == term
              && s.votedFor == votedFor && s.role == role && s.log == store.entries && s.smCommit == smCommit
              && s.applied == applied && s.bootCommit == bootCommit && s.quickCommit == quickCommit
    {
    }

    /**
     The server did what `o` says. When a handler is cut short by an error exit,
     the records of its peers and some of the messages may be missing.
     */
    ghost predicate Did(o: Outcome, out: set<Msg>)
      reads this, store
    {
      Settles(o, View()) && (if o.server.exited then out <= o.sent else out == o.sent)
    }

    /** Start-up: the saved state, the log and the cluster's other members are taken over. */
    constructor (id: int32, maxAppend: nat, saved: Option<Persisted>, store: Store, lastCommit: nat,
                 config: ClusterConfig)
      requires store.Valid() && store.start == 1 && 20 + |EncodeServers(config.servers)| < TWO_31
      requires saved.Some? ==> saved.value.term < TWO_64 && -TWO_31 <= saved.value.votedFor < TWO_31
      ensures Valid() && this.store == store
      ensures View() == Boot(id, MemberIds(config) - {id}, maxAppend, saved, store.entries, lastCommit, config)
    {
      hide Contiguous, LogEntry.Holds, EncodeServers;
      this.id, this.maxAppend, this.saved, this.store, this.config := id, maxAppend, saved, store, config;
      term, votedFor := if saved.Some? then saved.value.term else 0, if saved.Some? then saved.value.votedFor else NONE;
      role, leader, exited := Follower, NONE, false;
      votesGranted, votedServers, electionCompleted := 0, {}, true;
      quickCommit, smCommit, bootCommit, applied := lastCommit, lastCommit, lastCommit, [];
      var ps := PeersOf(id, config);
      peers := ps;
    }

    /** The next call finds the server as the last one left it, but with no error pending. */
    method Resume()
      requires Valid()
      modifies this`exited
      ensures Valid() && View() == Ready(old(View()))
    {
      hide Store.Valid, EncodeServers;
      exited := false;
    }

    // ----- sending

    /** The term of the entry at an index of the log, 0 in front of it. */
    method TermBefore(index: nat) returns (t: nat)
      requires Valid() && index <= |store.entries|
      ensures Valid() && t == TermAt(store.entries, index)
    {
      hide Store.Valid, EncodeServers;
      return if index == 0 then 0 else store.TermAtIndex(index);
    }

    /** What a request carries behind index `prev`. */
    method EntriesBehind(prev: nat) returns (es: seq<Entry>)
      requires Valid() && prev <= |store.entries|
      ensures Valid() && es == store.entries[prev..Min(|store.entries|, prev + maxAppend)]
    {
      hide Store.Valid, EncodeServers;
      var next := store.NextSlot();
      var end := if next < prev + 1 + maxAppend then next else prev + 1 + maxAppend;
      es := [];
      if prev + 1 < next {
        es := store.ReadOut(prev + 1, end);
      }
    }

    /** The request for a peer whose next index is known; none if the index lies beyond the log. */
    method CreateRequest(j: Id) returns (m: Option<Msg>)
      requires Valid() && j in peers && peers[j].next > 0
      ensures Valid()
      ensures m == if TooLarge(View(), j) then None else Some(CreateAppendReq(View(), j))
    {
      hide Valid;
      var prev := peers[j].next - 1;
      if prev > LogEnd() {
        return None;
      }
      var prevTerm := TermBefore(prev);
      var es := EntriesBehind(prev);
      return Some(AppendReq(id, j, term, prevTerm, prev, quickCommit, es));
    }

    /** A request goes out unless one is outstanding. */
    method Request(j: Id) returns (free: bool, out: set<Msg>)
      requires Valid() && j in peers
      modifies this`peers, this`exited
      ensures Valid() && free == !old(peers[j].busy) && peers.Keys == old(peers.Keys)
      ensures View() == TrySend(old(View()), j).server && out == TrySend(old(View()), j).sent
    {
      hide Valid, TooLarge, CreateAppendReq, TrySend;
      TrySendIs(View(), j);
      out := {};
      free := !peers[j].busy;
      if free {
        var p := peers[j];
        SetPeer(j, p.(busy := true, next := if p.next == 0 then LogEnd() + 1 else p.next));
        var m := CreateRequest(j);
        if m.None? {
          Stop();
        } else {
          out := {m.value};
        }
      }
    }

    method MarkPending(j: Id)
      requires Valid() && j in peers
      modifies this`peers
      ensures Valid() && View() == Marked(old(View()), j)
    {
      hide Store.Valid, EncodeServers;
      peers := peers[j := peers[j].(pending := true)];
    }

    /** The request to the next peer, after those to `done`; a busy peer is marked when a commit is announced. */
    method RequestNext(j: Id, announce: bool, out: set<Msg>, ghost s: Server, ghost done: set<Id>)
      returns (more: set<Msg>)
      requires Valid() && !exited && j in s.peers && j !in done && !s.exited && SentTo(s, View(), done, announce, out)
      modifies this`peers, this`exited
      ensures Valid()
      ensures if exited then Did(SendAll(s, announce), more) else SentTo(s, View(), done + {j}, announce, more)
    {
      hide Valid, SentTo, SendAll, Settles, TrySend, Marked, TooLarge, CreateAppendReq;
      SentStep(s, View(), done, announce, out, j);
      var free, o := Request(j);
      if exited {
        return out;
      }
      if announce && !free {
        MarkPending(j);
      }
      more := out + o;
    }

    /** A request to every peer in turn; when a commit is announced, busy peers are marked instead. */
    method RequestEach(announce: bool) returns (out: set<Msg>)
      requires Valid() && !exited
      modifies this`peers, this`exited
      ensures Valid() && Did(SendAll(old(View()), announce), out)
    {
      hide Valid, SentTo, SendAll, Settles, Splits;
      ghost var s := View();
      SentNone(s, announce);
      var todo := peers.Keys;
      ghost var done: set<Id> := {};
      Walk(s.peers.Keys, done, todo);
      out := {};
      while todo != {}
        invariant Valid() && Splits(s.peers.Keys, done, todo) && !exited
        invariant SentTo(s, View(), done, announce, out)
        decreases |todo|
      {
        assert (forall j :: j !in todo) ==> todo == {};
        var j :| j in todo;
        Walk(s.peers.Keys, done, todo);
        out := RequestNext(j, announce, out, s, done);
        if exited {
          return;
        }
        todo, done := todo - {j}, done + {j};
      }
      Walk(s.peers.Keys, done, todo);
      SentAll(s, View(), announce, out);
    }

    method SetQuickCommit(target: nat)
      requires Valid()
      modifies this`quickCommit
      ensures Valid() && View() == old(View()).(quickCommit := target)
    {
      hide Store.Valid, EncodeServers;
      quickCommit := target;
    }

    /** The commit index only moves forward; a leader tells its peers. */
    method CommitTo(target: nat) returns (out: set<Msg>)
      requires Valid() && !exited
      modifies this`quickCommit, this`peers, this`exited
      ensures Valid() && Did(Commit(old(View()), target), out)
    {
      hide Valid, SendAll, SameCore;
      out := {};
      if target > quickCommit {
        SetQuickCommit(target);
        if role.Leader? {
          out := RequestEach(true);
        }
      }
    }

    /** A leader without peers commits at once. */
    method RequestAppendEntries() returns (out: set<Msg>)
      requires Valid() && !exited && role.Leader?
      modifies this`quickCommit, this`peers, this`exited
      ensures Valid() && Did(RequestAll(old(View())), out)
    {
      hide SendAll, Commit, SameCore, Store.Valid, EncodeServers;
      if peers == map[] {
        out := CommitTo(store.NextSlot() - 1);
      } else {
        out := RequestEach(false);
      }
    }

    // ----- the persisted state

    /** Term and vote are saved through their byte form. */
    method SaveState()
      requires Valid()
      modifies this`saved
      ensures Valid() && View() == Save(old(View()))
    {
      hide Store.Valid, EncodeServers, Buffer.Has, EncodeState, DecodeState;
      var b := SerializeState(SrvState(term, votedFor));
      b.HasIs(EncodeState(SrvState(term, votedFor)));
      var s := DeserializeState(b);
      StateRoundTrip(SrvState(term, votedFor));
      saved := Some(Persisted(s.value.term, s.value.votedFor));
    }

    // ----- elections

    method ResetVotes(t: nat, completed: bool)
      requires Valid() && t < TWO_64
      modifies this`term, this`votedFor, this`electionCompleted, this`votesGranted, this`votedServers
      ensures Valid()
      ensures View() == old(View()).(term := t, votedFor := NONE, electionCompleted := completed,
                                     votesGranted := 0, votedServers := {})
    {
      hide Store.Valid, EncodeServers;
      term, votedFor := t, NONE;
      electionCompleted := completed;
      votesGranted, votedServers := 0, {};
    }

    method SetRole(r: Role)
      requires Valid()
      modifies this`role
      ensures Valid() && View() == old(View()).(role := r)
    {
      hide Store.Valid, EncodeServers;
      role := r;
    }

    /** A newer term makes a follower that has not voted. */
    method UpdateTermTo(t: nat) returns (newer: bool)
      requires Valid() && t < TWO_64
      modifies this`term, this`votedFor, this`electionCompleted, this`votesGranted, this`votedServers
      modifies this`saved, this`role
      ensures Valid() && newer == (t > old(term)) && View() == UpdateTerm(old(View()), t)
    {
      hide Valid;
      newer := t > term;
      if newer {
        ResetVotes(t, false);
        SaveState();
        SetRole(Follower);
      }
    }

    method TakeOffice()
      requires Valid()
      modifies this`role, this`leader, this`peers
      ensures Valid()
      ensures View() == old(View()).(role := Leader, leader := id,
                                     peers := map j | j in old(peers) ::
                                                old(peers)[j].(next := |store.entries| + 1, busy := false))
    {
      hide Store.Valid, EncodeServers;
      role, leader := Leader, id;
      peers := Restarted(peers, store.NextSlot());
    }

    /** A configuration that was never logged becomes an entry of the new leader's term. */
    method LogConfig()
      requires Valid()
      modifies this`config, store
      ensures Valid()
      ensures var conf := old(config).(logIdx := |old(store.entries)| + 1, prevLogIdx := old(config.logIdx));
              View() == old(View()).(config := conf,
                                     log := old(store.entries) + [Entry(term, CONF, EncodeConfig(conf))])
      ensures fresh(store.repr - old(store.repr))
    {
      hide Store.Valid, LogEntry.Valid, LogEntry.Value, EncodeServers, EncodeConfig;
      var conf := config.(logIdx := store.NextSlot(), prevLogIdx := config.logIdx);
      ConfigLength(conf);
      var e := ConfigEntry(term, conf);
      var at := store.Append(e);
      config := conf;
    }

    /** The winner takes office, logs the first configuration and turns to its peers. */
    method BecomeLeaderNow() returns (out: set<Msg>)
      requires Valid() && !exited
      modifies this`role, this`leader, this`peers, this`config, this`quickCommit, this`exited, store
      ensures Valid() && Did(BecomeLeader(old(View())), out)
      ensures fresh(store.repr - old(store.repr))
    {
      hide Valid, RequestAll, SameCore, EncodeConfig;
      TakeOffice();
      if config.logIdx == 0 {
        LogConfig();
      }
      out := RequestAppendEntries();
    }

    method CountVote(granted: int, voters: set<Id>, completed: bool)
      requires Valid()
      modifies this`votesGranted, this`votedServers, this`electionCompleted
      ensures Valid()
      ensures View() == old(View()).(votesGranted := granted, votedServers := voters, electionCompleted := completed)
    {
      hide Store.Valid, EncodeServers;
      votesGranted, votedServers, electionCompleted := granted, voters, completed;
    }

    method CastVote(candidate: int32)
      requires Valid()
      modifies this`votedFor
      ensures Valid() && View() == old(View()).(votedFor := candidate)
    {
      hide Store.Valid, EncodeServers;
      votedFor := candidate;
    }

    method AskForVotes() returns (out: set<Msg>)
      requires Valid()
      ensures Valid() && out == set j | j in peers :: VoteReqFor(View(), j)
    {
      hide Store.Valid, EncodeServers;
      out := {};
      var last := store.NextSlot() - 1;
      var lastTerm := if last == 0 then 0 else store.TermAtIndex(last);
      var todo := peers.Keys;
      while todo != {}
        invariant todo <= peers.Keys
        invariant out == set j | j in peers && j !in todo :: VoteReqFor(View(), j)
        decreases |todo|
      {
        assert (forall j :: j !in todo) ==> todo == {};
        var j :| j in todo;
        out := out + {VoteReq(id, j, term, lastTerm, last, quickCommit)};
        todo := todo - {j};
      }
    }

    /** Vote for oneself, and lead at once when that is enough. */
    method RequestVotes() returns (out: set<Msg>)
      requires Valid() && !exited
      modifies this, store
      ensures Valid() && Did(RequestVote(old(View())), out)
      ensures fresh(store.repr - old(store.repr))
    {
      hide Valid, BecomeLeader, SameCore, VoteReqFor;
      CastVote(id);
      SaveState();
      CountVote(votesGranted + 1, votedServers + {id}, electionCompleted);
      if votesGranted > (|peers| + 1) / 2 {
        CountVote(votesGranted, votedServers, true);
        out := BecomeLeaderNow();
      } else {
        out := AskForVotes();
      }
    }

    /** The election timer: a leader must not see it; anyone else stands for the next term. */
    method HandleElectionTimeout() returns (out: set<Msg>)
      requires Valid() && term + 1 < TWO_64
      modifies this, store
      ensures Valid() && Did(ElectionTimeout(Ready(old(View()))), out)
      ensures fresh(store.repr - old(store.repr))
    {
      hide Valid, RequestVote;
      Resume();
      if role.Leader? {
        Stop();
        return {};
      }
      ResetVotes(term + 1, false);
      SetRole(Candidate);
      SaveState();
      out := RequestVotes();
    }

    method Stop()
      requires Valid()
      modifies this`exited
      ensures Valid() && View() == old(View()).(exited := true)
    {
      hide Store.Valid, EncodeServers;
      exited := true;
    }

    // ----- requests

    /** A vote goes to the first candidate of the term whose log is current enough. */
    method AnswerVote(m: Msg) returns (out: set<Msg>)
      requires Valid() && m.VoteReq? && -TWO_31 <= m.src < TWO_31
      modifies this`votedFor, this`saved
      ensures Valid() && View() == HandleVoteReq(old(View()), m).server && out == HandleVoteReq(old(View()), m).sent
    {
      hide Valid;
      var last := LastLogTerm();
      var next := LogEnd() + 1;
      var okay := m.lastLogTerm > last || (m.lastLogTerm == last && next - 1 <= m.lastLogIdx);
      if m.term == term && okay && (votedFor == m.src || votedFor == NONE) {
        CastVote(m.src);
        SaveState();
        return {VoteResp(id, m.src, term, next, true)};
      }
      return {VoteResp(id, m.src, term, 0, false)};
    }

    method LastLogTerm() returns (t: nat)
      requires Valid()
      ensures Valid() && t == LastTerm(store.entries)
    {
      hide Store.Valid, EncodeServers, LogEntry.Holds;
      var e := store.LastEntry();
      store.DummyTerm();
      e.HoldsValue(if store.entries != [] then store.entries[|store.entries| - 1] else store.dummy);
      return e.term;
    }

    function LogEnd(): (n: nat)
      requires Valid()
      reads this, store, store.repr
      ensures n == |store.entries|
    {
      store.NextSlot() - 1
    }

    /** The store takes the request's entries, the sender is the leader. */
    method TakeEntries(m: Msg, es: seq<LogEntry>)
      requires Valid() && m.AppendReq? && m.lastLogIdx <= |store.entries| && Values(es, m.entries)
      modifies this`leader, store
      ensures Valid()
      ensures View() == old(View()).(log := Merge(old(store.entries), m.lastLogIdx, m.entries), leader := m.src)
      ensures fresh(store.repr - old(store.repr))
    {
      hide Store.Valid, EncodeServers, Values;
      if es != [] {
        MergeEntries(store, m.lastLogIdx, es, m.entries);
      } else {
        NoValues(es, m.entries);
        MergeAtEnd(store.entries, m.lastLogIdx, m.entries);
      }
      leader := m.src;
    }

    method CheckLog(m: Msg) returns (okay: bool)
      requires Valid() && m.AppendReq?
      ensures okay == LogOkay(store.entries, m)
    {
      hide Store.Valid, EncodeServers;
      return m.lastLogIdx == 0 || (m.lastLogIdx < store.NextSlot() && m.lastLogTerm == store.TermAtIndex(m.lastLogIdx));
    }

    method AcceptAppend(m: Msg, es: seq<LogEntry>) returns (out: set<Msg>)
      requires Valid() && !exited && m.AppendReq? && m.lastLogIdx <= |store.entries| && Values(es, m.entries)
      modifies this`exited, this`leader, this`quickCommit, this`peers, store
      ensures Valid() && Did(AcceptEntries(old(View()), m), out)
      ensures fresh(store.repr - old(store.repr))
    {
      hide Valid, Merge, SendAll;
      TakeEntries(m, es);
      out := CommitTo(m.commitIdx);
      out := out + {AppendResp(id, m.src, term, m.lastLogIdx + |es| + 1, true)};
    }

    /** Append entries, after the term has been brought up to the request's. */
    method AnswerAppend(m: Msg, es: seq<LogEntry>) returns (out: set<Msg>)
      requires Valid() && !exited && m.AppendReq? && m.term <= term && Values(es, m.entries)
      modifies this`role, this`exited, this`leader, this`quickCommit, this`peers, store
      ensures Valid() && Did(HandleAppendEntries(old(View()), m), out)
      ensures fresh(store.repr - old(store.repr))
    {
      hide Valid, LogOkay, AcceptEntries;
      if m.term == term {
        if role.Candidate? {
          SetRole(Follower);
        } else if role.Leader? {
          Stop();
          return {};
        }
      }
      var next := LogEnd() + 1;
      var okay := CheckLog(m);
      if m.term < term || !okay {
        return {AppendResp(id, m.src, term, next, false)};
      }
      LogOkayBound(store.entries, m);
      out := AcceptAppend(m, es);
    }

    method ProcessRequest(m: Msg, es: seq<LogEntry>) returns (out: set<Msg>)
      requires Valid() && (m.AppendReq? || m.VoteReq?)
      requires m.term < TWO_64 && -TWO_31 <= m.src < TWO_31 && Values(es, if m.AppendReq? then m.entries else [])
      modifies this, store
      ensures Valid() && Did(ProcessReq(Ready(old(View())), m), out)
      ensures fresh(store.repr - old(store.repr))
    {
      hide Valid, HandleAppendEntries, SameCore, Values;
      Resume();
      var newer := UpdateTermTo(m.term);
      if m.AppendReq? {
        out := AnswerAppend(m, es);
      } else {
        out := AnswerVote(m);
      }
    }

    // ----- clients

    /** The leader gives each entry its own term and appends it. */
    method TakeClientEntries(es: seq<LogEntry>, ghost payloads: seq<Payload>)
      requires Valid() && Payloads(es, payloads) && Objects(es) !! store.repr
      modifies store, Objects(es)
      ensures Valid()
      ensures View() == old(View()).(log := old(store.entries) + ClientEntries(term, payloads))
      ensures fresh(store.repr - old(store.repr))
    {
      hide Store.Valid, EncodeServers, Buffer.Valid, Buffer.Rest;
      for i := 0 to |es|
        invariant store.Valid() && store.start == 1 && fresh(store.repr - old(store.repr))
        invariant Payloads(es, payloads) && unchanged(this)
        invariant store.entries == old(store.entries) + ClientEntries(term, payloads)[..i]
      {
        assert es[i] in es && es[i] in Objects(es);
        es[i].term := term;
        var at := store.Append(es[i]);
      }
    }

    /**
     A client's entries. `clock` is what the leader remembers of its last look at
     `times`, when its peers last answered.
     */
    method HandleClient(es: seq<LogEntry>, clock: Lease.Clock, times: seq<int>, now: int, limit: int32,
                        ghost payloads: seq<Payload>)
      returns (out: set<Msg>)
      requires Valid() && Payloads(es, payloads) && Objects(es) !! store.repr
      requires |times| == |peers| && clock !in store.repr
      modifies this, store, clock, Objects(es)
      ensures Valid()
      ensures var lease := old(clock.elapsed);
              var asked := old(role.Leader? && peers != map[]);
              && clock.elapsed == (if asked then Lease.Looked(lease, times, now, limit) else lease)
              && Did(ClientReq(Ready(old(View())), payloads, asked && Lease.Expired(lease, times, now, limit)), out)
      ensures fresh(store.repr - old(store.repr))
    {
      hide Valid, RequestAll, SameCore, Payloads, ClientEntries, Lease.Expired, Lease.Looked;
      Resume();
      if role.Leader? && peers != map[] {
        assert |peers| > 0 by { SomePeer(peers); }
        var expired := clock.Check(times, now, limit);
        if expired {
          return {};
        }
      }
      if !role.Leader? {
        return {};
      }
      TakeClientEntries(es, payloads);
      out := RequestAppendEntries();
    }

    // ----- responses

    method CountResponse(m: Msg) returns (out: set<Msg>)
      requires Valid() && !exited && m.VoteResp?
      modifies this, store
      ensures Valid() && Did(HandleVotingResp(old(View()), m), out)
      ensures fresh(store.repr - old(store.repr))
    {
      hide Valid, BecomeLeader, SameCore;
      out := {};
      if m.term != term || electionCompleted || m.src in votedServers {
        return;
      }
      CountVote(votesGranted + (if m.accepted then 1 else 0), votedServers + {m.src}, electionCompleted);
      if |votedServers| >= |peers| + 1 {
        CountVote(votesGranted, votedServers, true);
      }
      if votesGranted > (|peers| + 1) / 2 {
        CountVote(votesGranted, votedServers, true);
        out := BecomeLeaderNow();
      }
    }

    /** The matched indexes and this server's own, sorted, and the middle one of them. */
    method QuorumTarget() returns (target: nat)
      requires Valid()
      ensures Valid() && target == CommitTarget(View())
    {
      hide Store.Valid, EncodeServers, Quorum.Sort, Quorum.Lists, Quorum.IsQuorumIndex, CommitTarget;
      var xs := ListMatched(peers);
      ghost var matched := Matched(View());
      assert matched.Keys == peers.Keys;
      Quorum.ListsSize(xs, matched);
      Quorum.CommitPick(LogEnd(), xs, matched);
      target := Quorum.Sort([LogEnd()] + xs, true)[(|peers| + 1) / 2];
      TargetUnique(View(), target);
    }

    method SetPeer(j: Id, p: Peer)
      requires Valid() && j in peers
      modifies this`peers
      ensures Valid() && View() == old(View()).(peers := old(peers)[j := p])
    {
      hide Store.Valid, EncodeServers;
      peers := peers[j := p];
    }

    method NoteAccepted(m: Msg) returns (out: set<Msg>)
      requires Valid() && !exited && m.AppendResp? && m.src in peers
      modifies this`peers, this`quickCommit, this`exited
      ensures Valid() && Did(PeerAccepted(old(View()), m), out)
    {
      hide Valid, Commit, CommitTarget, TrySend;
      SetPeer(m.src, peers[m.src].(next := m.nextIdx, matched := Dec(m.nextIdx)));
      var target := QuorumTarget();
      out := CommitTo(target);
      if exited {
        return;
      }
      var p := peers[m.src];
      SetPeer(m.src, p.(pending := false));
      if role.Leader? && (p.pending || m.nextIdx <= LogEnd()) {
        var free, o := Request(m.src);
        out := out + o;
      }
    }

    method NoteRefused(m: Msg) returns (out: set<Msg>)
      requires Valid() && !exited && m.AppendResp? && m.src in peers
      modifies this`peers, this`exited
      ensures Valid() && Did(PeerRefused(old(View()), m), out)
    {
      hide Valid, TrySend;
      out := {};
      var p := peers[m.src];
      SetPeer(m.src, p.(next := if m.nextIdx > 0 && p.next > m.nextIdx then m.nextIdx else Dec(p.next)));
      if role.Leader? {
        var free, o := Request(m.src);
        out := o;
      }
    }

    method HandleResponse(m: Msg) returns (out: set<Msg>)
      requires Valid() && (m.AppendResp? || m.VoteResp?) && m.term < TWO_64
      modifies this, store
      ensures Valid() && Did(HandlePeerResp(Ready(old(View())), m), out)
      ensures fresh(store.repr - old(store.repr))
    {
      hide Valid, HandleVotingResp, PeerAccepted, PeerRefused, SameCore;
      Resume();
      if m.AppendResp? && m.src in peers {
        SetPeer(m.src, peers[m.src].(busy := false));
      }
      out := {};
      var newer := UpdateTermTo(m.term);
      if newer {
        return;
      }
      if m.VoteResp? {
        out := CountResponse(m);
      } else if m.src in peers {
        if m.accepted {
          out := NoteAccepted(m);
        } else {
          out := NoteRefused(m);
        }
      }
    }

    /** A request could not be delivered: the peer is free for the next one. */
    method HandleRpcFailure(j: Id)
      requires Valid()
      modifies this`peers, this`exited
      ensures Valid() && View() == SetFree(Ready(old(View())), j)
    {
      hide Valid;
      Resume();
      if j in peers {
        SetPeer(j, peers[j].(busy := false));
      }
    }

    method HandleHeartbeat(j: Id) returns (out: set<Msg>)
      requires Valid() && j in peers
      modifies this`peers, this`exited
      ensures Valid() && Did(Heartbeat(Ready(old(View())), j), out)
    {
      hide Valid, TrySend;
      Resume();
      out := {};
      if role.Leader? {
        var free, o := Request(j);
        out := o;
      }
    }

    // ----- the background thread

    /** The entry behind the last applied one, in a copy of its own. */
    method NextToApply() returns (e: LogEntry)
      requires Valid() && CanApply(View())
      ensures Valid() && fresh(e) && fresh(e.buf.raw)
      ensures e.Holds(store.entries[smCommit]) && e.kind == store.entries[smCommit].kind
    {
      hide Store.Valid, EncodeServers, LogEntry.Holds, LogEntry.Valid, LogEntry.Value, LogEntry.Whole;
      e := store.EntryAt(smCommit + 1);
      e.HoldsKind(store.entries[smCommit]);
    }

    /** Is the next entry to apply a configuration, and which one? */
    method ReadNext() returns (conf: bool, c: Option<ClusterConfig>)
      requires Valid() && CanApply(View())
      ensures Valid() && (conf <==> store.entries[smCommit].kind == CONF)
      ensures conf ==>
                match DecodeConfig(store.entries[smCommit].data)
                case None => c == None
                case Some((x, _)) => c == Some(x) && 20 + |EncodeServers(x.servers)| < TWO_31
    {
      hide Valid, DecodeConfig, EncodeServers, LogEntry.Holds, LogEntry.Valid;
      var e := NextToApply();
      conf, c := e.kind == CONF, None;
      if conf {
        c := ReadConfig(e, store.entries[smCommit]);
      }
    }

    method Advance(ghost v: Entry)
      requires Valid()
      modifies this`smCommit, this`applied
      ensures Valid() && View() == old(View()).(smCommit := old(smCommit) + 1, applied := old(applied) + [v])
    {
      hide Store.Valid, EncodeServers;
      smCommit, applied := smCommit + 1, applied + [v];
    }

    /** The configuration's other members become the peers. */
    method TakeConfig(c: ClusterConfig)
      requires Valid() && id !in peers && 20 + |EncodeServers(c.servers)| < TWO_31
      modifies this`config, this`peers
      ensures Valid() && View() == WithConfig(old(View()), c)
    {
      hide Store.Valid, EncodeServers, MemberIds;
      var gone, ps := Reconfigure(id, peers, c, store.NextSlot(), role.Leader?, None, false);
      NewPeers(View(), c, ps);
      peers := ps;
      if !gone {
        config := c;
      }
    }

    /** One iteration: the next committed entry is applied; a configuration that is newer takes effect. */
    method ApplyOne()
      requires Valid() && id !in peers && CanApply(View())
      modifies this`smCommit, this`applied, this`config, this`peers, this`exited
      ensures Valid() && View() == ApplyNext(Ready(old(View())))
    {
      hide Valid, DecodeConfig, EncodeServers, WithConfig;
      Resume();
      var conf, c := ReadNext();
      Advance(store.entries[smCommit]);
      if conf {
        if c.None? {
          Stop();
        } else if config.logIdx < c.value.logIdx {
          TakeConfig(c.value);
        }
      }
    }
  }

  /** The peers' matched indexes, in some order. */
  method ListMatched(peers: map<Id, Peer>) returns (xs: seq<int>)
    ensures Quorum.Lists(xs, map j | j in peers :: peers[j].matched)
    ensures forall k | 0 <= k < |xs| :: xs[k] >= 0
  {
    hide Quorum.Lists;
    xs := [];
    var todo := peers.Keys;
    ghost var seen: map<Id, nat> := map[];
    Quorum.ListsNone();
    while todo != {}
      invariant todo <= peers.Keys && Quorum.Lists(xs, seen)
      invariant seen == map j | j in peers && j !in todo :: peers[j].matched
      invariant forall k | 0 <= k < |xs| :: xs[k] >= 0
      decreases |todo|
    {
      assert (forall j :: j !in todo) ==> todo == {};
      var j :| j in todo;
      Quorum.ListsOne(xs, seen, j, peers[j].matched);
      xs, seen, todo := [peers[j].matched] + xs, seen[j := peers[j].matched], todo - {j};
    }
    assert seen == map j | j in peers :: peers[j].matched;
  }

  lemma TargetUnique(s: Server, target: nat)
    requires Quorum.IsQuorumIndex(|s.log|, Matched(s), target)
    ensures target == CommitTarget(s)
  {
    Quorum.QuorumIndexUnique(|s.log|, Matched(s), target, CommitTarget(s));
  }

  ghost function Objects(es: seq<LogEntry>): set<object> { set e | e in es :: e as object }

  /** Entries of a client, of any kind. */
  ghost predicate Payloads(es: seq<LogEntry>, payloads: seq<Payload>)
    reads set e | e in es :: e.buf.raw
  {
    |es| == |payloads| &&
    forall i | 0 <= i < |es| ::
      es[i].buf.Valid() && es[i].kind == payloads[i].kind && es[i].buf.Rest() == payloads[i].data
  }

  lemma SomePeer(peers: map<Id, Peer>)
    requires peers != map[]
    ensures |peers| > 0
  {
  }

  /** A handler that did what `React` says has made a step of the protocol, whatever became of its messages. */
  lemma HandlerSteps(a: System, ev: Event, server: RaftServer, out: set<Msg>, kept: set<Msg>)
    requires Enabled(a, ev) && server.Did(React(a, ev), out) && kept <= out
    ensures Next(a, ev, System(a.servers[Actor(ev) := server.View()], a.net + kept))
  {
    hide React, Enabled;
  }

  lemma NewPeers(s: Server, c: ClusterConfig, ps: map<Id, Peer>)
    requires s.id !in s.peers && Reconfigured(s.id, s.peers, c, |s.log| + 1, s.role.Leader?, None, ps)
    ensures WithConfig(s, c).peers == ps
  {
    hide MemberIds;
    if SameMembers(s, c) {
      SamePeers(s.id, s.peers, c, |s.log| + 1, s.role.Leader?, None, ps);
    } else {
      var peers := WithConfig(s, c).peers;
      assert peers.Keys == ps.Keys;
      assert forall j | j in ps :: peers[j] == ps[j];
    }
  }

  lemma NoValues(es: seq<LogEntry>, vs: seq<Entry>)
    requires Values(es, vs) && es == []
    ensures vs == []
  {
  }

  lemma LogOkayBound(log: seq<Entry>, m: Msg)
    requires m.AppendReq? && LogOkay(log, m)
    ensures m.lastLogIdx <= |log|
  {
  }

  method ConfigEntry(term: nat, conf: ClusterConfig) returns (e: LogEntry)
    requires |EncodeConfig(conf)| < TWO_31
    ensures fresh(e) && fresh(e.buf.raw) && e.Valid() && e.Value() == Entry(term, CONF, EncodeConfig(conf))
  {
    hide EncodeConfig, Buffer.Has, Buffer.Valid, Buffer.Data, Buffer.Pos;
    var b := SerializeConfig(conf);
    b.value.HasIs(EncodeConfig(conf));
    e := new LogEntry(term, CONF, b.value);
  }

  method Restarted(peers: map<Id, Peer>, next: nat) returns (ps: map<Id, Peer>)
    ensures ps == map j | j in peers :: peers[j].(next := next, busy := false)
  {
    ps := peers;
    var todo := peers.Keys;
    while todo != {}
      invariant todo <= peers.Keys && ps.Keys == peers.Keys
      invariant forall j | j in peers :: ps[j] == if j in todo then peers[j] else peers[j].(next := next, busy := false)
      decreases |todo|
    {
      assert (forall j :: j !in todo) ==> todo == {};
      var j :| j in todo;
      ps := ps[j := ps[j].(next := next, busy := false)];
      todo := todo - {j};
    }
    assert forall j | j in peers :: ps[j] == peers[j].(next := next, busy := false);
  }

  /** A walk over `all`: some are done, the others still to do. */
  ghost predicate Splits(all: set<Id>, done: set<Id>, todo: set<Id>) { done + todo == all && done !! todo }

  lemma Walk(all: set<Id>, done: set<Id>, todo: set<Id>)
    ensures Splits(all, {}, all)
    ensures Splits(all, done, todo) && todo == {} ==> done == all
    ensures Splits(all, done, todo) ==>
              forall j | j in todo :: j in all && j !in done && Splits(all, done + {j}, todo - {j})
  {
  }

  /** The peer's record after a request to it was due. */
  function Sent(s: Server, j: Id, announce: bool): Peer
    requires j in s.peers
  {
    if s.peers[j].busy then (if announce then s.peers[j].(pending := true) else s.peers[j])
    else s.peers[j].(busy := true, next := NextFor(s, j))
  }

  /** `t` is `s` after requests to the peers in `done`, and `out` are those requests. */
  ghost predicate SentTo(s: Server, t: Server, done: set<Id>, announce: bool, out: set<Msg>) {
    && t == s.(peers := map j | j in s.peers :: if j in done then Sent(s, j, announce) else s.peers[j])
    && (forall j | j in done && j in s.peers :: s.peers[j].busy || !TooLarge(s, j))
    && out == set j | j in done && j in s.peers && !s.peers[j].busy && !TooLarge(s, j) :: CreateAppendReq(s, j)
  }

  function Marked(s: Server, j: Id): Server
    requires j in s.peers
  {
    s.(peers := s.peers[j := s.peers[j].(pending := true)])
  }

  /** Sending to a free peer looks at its record only for the next index. */
  lemma TrySendIs(s: Server, j: Id)
    requires j in s.peers
    ensures var s1 := s.(peers := s.peers[j := s.peers[j].(busy := true, next := NextFor(s, j))]);
            && s1.peers[j].next > 0 && s1.peers.Keys == s.peers.Keys
            && TrySend(s, j) ==
               if s.peers[j].busy then Outcome(s, {})
               else if TooLarge(s1, j) then Outcome(s1.(exited := true), {})
               else Outcome(s1, {CreateAppendReq(s1, j)})
  {
  }

  lemma SentNone(s: Server, announce: bool)
    ensures SentTo(s, s, {}, announce, {})
  {
  }

  /** The next peer's request does not depend on what was sent to the others. */
  lemma SameRequest(s: Server, t: Server, done: set<Id>, announce: bool, out: set<Msg>, j: Id)
    requires SentTo(s, t, done, announce, out) && j in s.peers && j !in done
    ensures j in t.peers && t.peers[j] == s.peers[j] && t.exited == s.exited
    ensures NextFor(t, j) == NextFor(s, j) && TooLarge(t, j) == TooLarge(s, j)
    ensures !TooLarge(s, j) ==> CreateAppendReq(t, j) == CreateAppendReq(s, j)
  {
  }

  /** A peer whose index lies beyond the log cuts the walk short. */
  lemma SentStops(s: Server, t: Server, done: set<Id>, announce: bool, out: set<Msg>, j: Id)
    requires SentTo(s, t, done, announce, out) && j in s.peers && j !in done && !s.exited
    requires !s.peers[j].busy && TooLarge(s, j) && j in t.peers
    ensures var all := SendAll(s, announce);
            all.server.exited && Settles(all, TrySend(t, j).server) && out <= all.sent
  {
    hide CreateAppendReq, TooLarge;
    SameRequest(s, t, done, announce, out, j);
  }

  lemma SentGoesOn(s: Server, t: Server, done: set<Id>, announce: bool, out: set<Msg>, j: Id)
    requires SentTo(s, t, done, announce, out) && j in s.peers && j !in done && !s.exited
    requires (s.peers[j].busy || !TooLarge(s, j)) && j in t.peers
    ensures var o := TrySend(t, j);
            SentTo(s, if announce && s.peers[j].busy then Marked(o.server, j) else o.server, done + {j}, announce,
                   out + o.sent)
  {
    hide CreateAppendReq, TooLarge;
    SameRequest(s, t, done, announce, out, j);
  }

  lemma SentStep(s: Server, t: Server, done: set<Id>, announce: bool, out: set<Msg>, j: Id)
    requires SentTo(s, t, done, announce, out) && j in s.peers && j !in done && !s.exited
    ensures j in t.peers && t.peers[j] == s.peers[j]
    ensures var o := TrySend(t, j);
            && (o.server.exited <==> !s.peers[j].busy && TooLarge(s, j))
            && (o.server.exited ==>
                  var all := SendAll(s, announce);
                  all.server.exited && Settles(all, o.server) && out <= all.sent)
            && (!o.server.exited ==>
                  SentTo(s, if announce && s.peers[j].busy then Marked(o.server, j) else o.server, done + {j}, announce,
                         out + o.sent))
  {
    hide SentTo, SendAll, Settles, CreateAppendReq, TooLarge, Marked;
    SameRequest(s, t, done, announce, out, j);
    if !s.peers[j].busy && TooLarge(s, j) {
      SentStops(s, t, done, announce, out, j);
    } else {
      SentGoesOn(s, t, done, announce, out, j);
    }
  }

  lemma SentAll(s: Server, t: Server, announce: bool, out: set<Msg>)
    requires SentTo(s, t, s.peers.Keys, announce, out) && !s.exited
    ensures SendAll(s, announce) == Outcome(t, out) && Settles(Outcome(t, out), t) && !t.exited
  {
    hide CreateAppendReq, TooLarge;
  }
}
