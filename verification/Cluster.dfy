/**
 The servers as objects, and the network between them. Whatever happens to them,
 one call of a handler after the other, is a run of `Protocol`: so what holds of
 every run holds of the objects.
 */
module Cluster {
  import opened Types
  import opened Bytes
  import opened Codec
  import opened Entries
  import opened LogStore
  import opened LogMerge
  import opened Membership
  import opened ServerSpec
  import opened Protocol
  import opened ServerNode
  import CommitSafety
  import Safety
  import Simulation

  class Fleet {
    var nodes: map<Id, RaftServer>
    var net: set<Msg>
    ghost var run: seq<System>
    ghost var evs: seq<Event>

    /** The servers and their stores. */
    ghost function Parts(): set<object>
      reads this
    {
      (set i | i in nodes :: nodes[i] as object) + (set i | i in nodes :: nodes[i].store as object)
    }

    ghost function Footprint(): set<object>
      reads this, Parts()
    {
      Parts() + set i, o | i in nodes && o in nodes[i].store.repr :: o
    }

    ghost function Now(): System
      reads this, Parts()
    {
      System(map i | i in nodes :: nodes[i].View(), net)
    }

    /** No two servers share anything. */
    ghost predicate Apart()
      reads this, Parts()
    {
      && (forall i | i in nodes :: this !in nodes[i].store.repr)
      && forall i, j | i in nodes && j in nodes && i != j ::
        && nodes[i] != nodes[j] && nodes[i].store != nodes[j].store
        && nodes[j] !in nodes[i].store.repr && nodes[j].store !in nodes[i].store.repr
    }

    ghost predicate Sound()
      reads this, Footprint()
    {
      Apart() && forall i | i in nodes :: nodes[i].id == i && nodes[i].Valid()
    }

    ghost predicate Valid()
      reads this, Footprint()
    {
      Sound() && IsRun(run, evs) && run[|run| - 1] == Now()
    }

    method AddNode(i: int32, config: ClusterConfig, maxAppend: nat)
      requires Sound() && i !in nodes && 20 + |EncodeServers(config.servers)| < TWO_31
      requires forall j | j in nodes :: Started(nodes[j].View(), j, config, maxAppend)
      modifies this`nodes
      ensures Sound() && nodes.Keys == old(nodes.Keys) + {i}
      ensures forall j | j in nodes :: Started(nodes[j].View(), j, config, maxAppend)
    {
      hide RaftServer.Valid, RaftServer.View, EncodeServers, Started;
      var s := NewNode(i, config, maxAppend);
      nodes := nodes[i := s];
      assert Apart();
    }

    method AddAll(config: ClusterConfig, maxAppend: nat)
      requires nodes == map[] && 20 + |EncodeServers(config.servers)| < TWO_31
      modifies this`nodes
      ensures Sound() && nodes.Keys == MemberIds(config)
      ensures forall i | i in nodes :: Started(nodes[i].View(), i, config, maxAppend)
    {
      hide RaftServer.Valid, RaftServer.View, EncodeServers, MemberIds, Started;
      NoMembers(config);
      for k := 0 to |config.servers|
        invariant Sound() && nodes.Keys == MemberIds(config.(servers := config.servers[..k]))
        invariant forall i | i in nodes :: Started(nodes[i].View(), i, config, maxAppend)
      {
        MembersMore(config, k);
        var i := config.servers[k].id;
        if i !in nodes {
          AddNode(i, config, maxAppend);
        }
      }
    }

    ghost method Begin(config: ClusterConfig, maxAppend: nat)
      requires Sound() && nodes.Keys == MemberIds(config) && NONE !in nodes && net == {}
      requires forall i | i in nodes :: Started(nodes[i].View(), i, config, maxAppend)
      modifies this`run, this`evs
      ensures Valid() && run == [Now()] && evs == []
    {
      hide RaftServer.Valid, RaftServer.View, MemberIds, Started, IsRun;
      ghost var a := Now();
      FreshStart(a, config, maxAppend);
      run, evs := [a], [];
      assert Sound();
      assert Now().servers == a.servers;
    }

    /** One new server for every id that the configuration lists. */
    constructor (config: ClusterConfig, maxAppend: nat)
      requires NONE !in MemberIds(config) && 20 + |EncodeServers(config.servers)| < TWO_31
      ensures Valid() && nodes.Keys == MemberIds(config) && run == [Now()] && evs == []
    {
      nodes, net := map[], {};
      new;
      hide RaftServer.Valid, RaftServer.View, EncodeServers, MemberIds, Started, IsRun, Fleet.Sound;
      AddAll(config, maxAppend);
      Begin(config, maxAppend);
    }

    /** The step that a handler has just made goes on record, and of what it sent, `kept` is under way. */
    method Record(ghost ev: Event, kept: set<Msg>)
      requires Sound() && IsRun(run, evs) && Next(run[|run| - 1], ev, System(Now().servers, net + kept))
      modifies this`net, this`run, this`evs
      ensures Valid() && nodes == old(nodes) && net == old(net) + kept
      ensures run == old(run) + [Now()] && evs == old(evs) + [ev]
    {
      hide IsRun, Next, RaftServer.Valid, RaftServer.View;
      ghost var b := System(Now().servers, net + kept);
      LongerRun(run, evs, ev, b);
      net := net + kept;
      run, evs := run + [b], evs + [ev];
      assert Sound();
      assert IsRun(run, evs);
      assert Now().servers == b.servers;
    }

    method Timeout(i: Id, lost: set<Msg>)
      requires Valid() && i in nodes && nodes[i].term + 1 < TWO_64
      modifies this, nodes[i], nodes[i].store
      ensures Valid() && nodes == old(nodes)
      ensures run == old(run) + [Now()] && evs == old(evs) + [Event.Timeout(i)]
    {
      hide RaftServer.Valid, RaftServer.View, RaftServer.Did, Next, IsRun, ElectionTimeout;
      ghost var a := Now();
      var s := nodes[i];
      var out := s.HandleElectionTimeout();
      assert Sound();
      Changed(a, i);
      HandlerSteps(a, Event.Timeout(i), s, out, out - lost);
      Record(Event.Timeout(i), out - lost);
    }

    /** A request arrives; `es` are its entries as read from the wire. */
    method DeliverRequest(m: Msg, es: seq<LogEntry>, lost: set<Msg>)
      requires Valid() && m in net && m.dst in nodes && (m.AppendReq? || m.VoteReq?)
      requires m.term < TWO_64 && -TWO_31 <= m.src < TWO_31 && Values(es, if m.AppendReq? then m.entries else [])
      modifies this, nodes[m.dst], nodes[m.dst].store
      ensures Valid() && nodes == old(nodes)
      ensures run == old(run) + [Now()] && evs == old(evs) + [Deliver(m)]
    {
      hide RaftServer.Valid, RaftServer.View, RaftServer.Did, Next, IsRun, ProcessReq, Values;
      ghost var a := Now();
      var s := nodes[m.dst];
      var out := s.ProcessRequest(m, es);
      assert Sound();
      Changed(a, m.dst);
      HandlerSteps(a, Deliver(m), s, out, out - lost);
      Record(Deliver(m), out - lost);
    }

    method DeliverResponse(m: Msg, lost: set<Msg>)
      requires Valid() && m in net && m.dst in nodes && (m.AppendResp? || m.VoteResp?) && m.term < TWO_64
      modifies this, nodes[m.dst], nodes[m.dst].store
      ensures Valid() && nodes == old(nodes)
      ensures run == old(run) + [Now()] && evs == old(evs) + [Deliver(m)]
    {
      hide RaftServer.Valid, RaftServer.View, RaftServer.Did, Next, IsRun, HandlePeerResp;
      ghost var a := Now();
      var s := nodes[m.dst];
      var out := s.HandleResponse(m);
      assert Sound();
      Changed(a, m.dst);
      HandlerSteps(a, Deliver(m), s, out, out - lost);
      Record(Deliver(m), out - lost);
    }

    /** A client's entries, which nobody has stored yet. */
    method Serve(i: Id, es: seq<LogEntry>, clock: Lease.Clock, times: seq<int>, now: int, limit: int32,
                 ghost payloads: seq<Payload>, lost: set<Msg>)
      requires Valid() && i in nodes && Payloads(es, payloads) && |times| == |nodes[i].peers|
      requires forall j | j in nodes :: clock !in nodes[j].store.repr && Objects(es) !! nodes[j].store.repr
      modifies this, nodes[i], nodes[i].store, clock, Objects(es)
      ensures Valid() && nodes == old(nodes) && run == old(run) + [Now()]
      ensures var asked := old(nodes[i].role.Leader? && nodes[i].peers != map[]);
              var expired := asked && Lease.Expired(old(clock.elapsed), times, now, limit);
              evs == old(evs) + [Client(i, payloads, expired)]
    {
      hide RaftServer.Valid, RaftServer.View, RaftServer.Did, Next, IsRun;
      hide ClientReq, Payloads, Lease.Expired, Lease.Looked;
      ghost var a := Now();
      var s := nodes[i];
      ghost var asked := s.role.Leader? && s.peers != map[];
      ghost var ev := Client(i, payloads, asked && Lease.Expired(clock.elapsed, times, now, limit));
      var out := s.HandleClient(es, clock, times, now, limit, payloads);
      assert Sound();
      Changed(a, i);
      HandlerSteps(a, ev, s, out, out - lost);
      Record(ev, out - lost);
    }

    method Heartbeat(i: Id, j: Id, lost: set<Msg>)
      requires Valid() && i in nodes && j in nodes[i].peers
      modifies this, nodes[i]
      ensures Valid() && nodes == old(nodes)
      ensures run == old(run) + [Now()] && evs == old(evs) + [HeartbeatDue(i, j)]
    {
      hide RaftServer.Valid, RaftServer.View, RaftServer.Did, Next, IsRun, ServerSpec.Heartbeat;
      ghost var a := Now();
      var s := nodes[i];
      s.ViewShows();
      var out := s.HandleHeartbeat(j);
      assert Sound();
      Changed(a, i);
      HandlerSteps(a, HeartbeatDue(i, j), s, out, out - lost);
      Record(HeartbeatDue(i, j), out - lost);
    }

    method FailCall(i: Id, j: Id)
      requires Valid() && i in nodes
      modifies this, nodes[i]
      ensures Valid() && nodes == old(nodes)
      ensures run == old(run) + [Now()] && evs == old(evs) + [RpcFailed(i, j)]
    {
      hide RaftServer.Valid, RaftServer.View, Next, IsRun, SetFree;
      ghost var a := Now();
      var s := nodes[i];
      s.HandleRpcFailure(j);
      assert Sound();
      Changed(a, i);
      HandlerSteps(a, RpcFailed(i, j), s, {}, {});
      Record(RpcFailed(i, j), {});
    }

    /** The background thread goes on by one entry. */
    method Apply(i: Id)
      requires Valid() && i in nodes && CanApply(nodes[i].View()) && KeepsMembers(nodes[i].View())
      modifies this, nodes[i]
      ensures Valid() && nodes == old(nodes)
      ensures run == old(run) + [Now()] && evs == old(evs) + [ApplyDue(i)]
    {
      hide RaftServer.Valid, RaftServer.View, Next, IsRun, CanApply, KeepsMembers, ApplyNext;
      ghost var a := Now();
      var s := nodes[i];
      s.ViewShows();
      OtherPeers(run, evs, i);
      s.ApplyOne();
      assert Sound();
      Changed(a, i);
      HandlerSteps(a, ApplyDue(i), s, {}, {});
      Record(ApplyDue(i), {});
    }

    /** What server `i` has saved, its log and a configuration make another server. */
    method Reboot(i: Id, lastCommit: nat, config: ClusterConfig, ghost a: System) returns (t: RaftServer)
      requires Valid() && a == Now() && i in nodes && lastCommit <= nodes[i].smCommit
      requires MemberIds(config) == nodes.Keys && 20 + |EncodeServers(config.servers)| < TWO_31
      ensures fresh(t) && t.Valid() && t.id == i && t.store == nodes[i].store
      ensures Enabled(a, Event.Restart(i, lastCommit, config))
      ensures t.Did(React(a, Event.Restart(i, lastCommit, config)), {})
    {
      hide RaftServer.Valid, RaftServer.View, Next, IsRun, EncodeServers, MemberIds, Boot, RaftServer.Did;
      var s := nodes[i];
      s.ViewShows();
      s.Fits();
      OtherPeers(run, evs, i);
      t := new RaftServer(s.id, s.maxAppend, s.saved, s.store, lastCommit, config);
      assert MemberIds(config) - {s.id} == a.servers[i].peers.Keys;
      Rebooted(a, i, lastCommit, config, t);
    }

    /**
     A server is started again with what it had saved, its log and a
     configuration that lists the same members; `lastCommit` is what its state
     machine remembers.
     */
    method Restart(i: Id, lastCommit: nat, config: ClusterConfig)
      requires Valid() && i in nodes && lastCommit <= nodes[i].smCommit
      requires MemberIds(config) == nodes.Keys && 20 + |EncodeServers(config.servers)| < TWO_31
      modifies this
      ensures Valid() && i in nodes && nodes == old(nodes)[i := nodes[i]] && fresh(nodes[i])
      ensures run == old(run) + [Now()] && evs == old(evs) + [Event.Restart(i, lastCommit, config)]
    {
      hide RaftServer.Valid, RaftServer.View, RaftServer.Did, Next, IsRun, EncodeServers, MemberIds, React, Enabled;
      ghost var a := Now();
      var t := Reboot(i, lastCommit, config, a);
      nodes := nodes[i := t];
      assert Apart();
      assert Sound();
      Changed(a, i);
      HandlerSteps(a, Event.Restart(i, lastCommit, config), t, {}, {});
      Record(Event.Restart(i, lastCommit, config), {});
    }

    // ----- what holds of the objects

    /** At most one of them leads in a term. */
    lemma OneLeader(i: Id, j: Id)
      requires Valid() && i in nodes && j in nodes && nodes[i].role.Leader? && nodes[j].role.Leader?
      requires nodes[i].term == nodes[j].term
      ensures i == j
    {
      hide RaftServer.Valid, RaftServer.View, IsRun;
      nodes[i].ViewShows();
      nodes[j].ViewShows();
      NotEmpty(run, evs);
      Safety.ElectionSafety(run, evs, |run| - 1, |run| - 1, i, j);
    }

    /** Logs in two stores that carry the same term at an index are the same up to it. */
    lemma LogsMatch(i: Id, j: Id, k: nat)
      requires Valid() && i in nodes && j in nodes
      requires k < |nodes[i].store.entries| && k < |nodes[j].store.entries|
      requires nodes[i].store.entries[k].term == nodes[j].store.entries[k].term
      ensures nodes[i].store.entries[..k + 1] == nodes[j].store.entries[..k + 1]
    {
      hide RaftServer.Valid, RaftServer.View, IsRun;
      nodes[i].ViewShows();
      nodes[j].ViewShows();
      NotEmpty(run, evs);
      Safety.LogMatching(run, evs, |run| - 1, |run| - 1, i, j, k);
    }

    /** If every commit so far met the conditions, no two have applied different entries at one index. */
    lemma AppliedAlike(i: Id, j: Id, p: nat, q: nat)
      requires Valid() && CommitSafety.GuardedRun(run, evs) && i in nodes && j in nodes
      requires p < |nodes[i].applied| && q < |nodes[j].applied|
      requires nodes[i].bootCommit + p == nodes[j].bootCommit + q
      ensures nodes[i].applied[p] == nodes[j].applied[q]
    {
      hide RaftServer.Valid, RaftServer.View, IsRun, CommitSafety.GuardedRun;
      nodes[i].ViewShows();
      nodes[j].ViewShows();
      NotEmpty(run, evs);
      CommitSafety.StateMachineSafety(run, evs, |run| - 1, |run| - 1, i, j, p, q);
    }

    /** Only server `i` is not what it was. */
    lemma Changed(a: System, i: Id)
      requires i in nodes && a.servers.Keys == nodes.Keys && net == a.net
      requires forall j | j in nodes && j != i :: nodes[j].View() == a.servers[j]
      ensures Now() == System(a.servers[i := nodes[i].View()], a.net)
    {
      hide RaftServer.View;
      var b := a.servers[i := nodes[i].View()];
      assert Now().servers.Keys == b.Keys;
      forall j | j in b ensures Now().servers[j] == b[j] {
        assert j == i || nodes[j].View() == a.servers[j];
      }
    }
  }

  ghost predicate Started(s: Server, i: Id, config: ClusterConfig, maxAppend: nat) {
    s == Boot(i, MemberIds(config) - {i}, maxAppend, None, [], 0, config)
  }

  method NewNode(i: int32, config: ClusterConfig, maxAppend: nat) returns (s: RaftServer)
    requires 20 + |EncodeServers(config.servers)| < TWO_31
    ensures fresh(s) && fresh(s.store) && fresh(s.store.repr)
    ensures s.Valid() && s.id == i && Started(s.View(), i, config, maxAppend)
  {
    hide RaftServer.Valid, RaftServer.View, EncodeServers, MemberIds, Store.Valid, Boot;
    var store := new Store();
    s := new RaftServer(i, maxAppend, None, store, 0, config);
    s.ViewShows();
    BootsAs(i, config, maxAppend);
  }

  lemma FreshStart(sys: System, config: ClusterConfig, maxAppend: nat)
    requires sys.servers.Keys == MemberIds(config) && NONE !in sys.servers && sys.net == {}
    requires forall i | i in sys.servers :: Started(sys.servers[i], i, config, maxAppend)
    ensures IsRun([sys], [])
  {
    hide Boot, Next, MemberIds;
    assert forall i | i in sys.servers :: Started(sys.servers[i], i, config, maxAppend);
  }

  lemma BootsAs(i: Id, config: ClusterConfig, maxAppend: nat)
    ensures Boot(i, MemberIds(config) - {i}, maxAppend, None, [], 0, config).id == i
  {
  }

  lemma NoMembers(c: ClusterConfig)
    ensures MemberIds(c.(servers := c.servers[..0])) == {}
    ensures c.(servers := c.servers[..|c.servers|]) == c
  {
    assert c.servers[..|c.servers|] == c.servers;
  }

  lemma NotEmpty(run: seq<System>, evs: seq<Event>)
    requires IsRun(run, evs)
    ensures |run| == |evs| + 1
  {
  }

  lemma LongerRun(run: seq<System>, evs: seq<Event>, ev: Event, b: System)
    requires IsRun(run, evs) && Next(run[|run| - 1], ev, b)
    ensures IsRun(run + [b], evs + [ev])
  {
    hide Next, Init;
  }

  lemma Rebooted(a: System, i: Id, lastCommit: nat, config: ClusterConfig, t: RaftServer)
    requires i in a.servers && lastCommit <= a.servers[i].smCommit
    requires var s := a.servers[i];
             t.View() == Boot(s.id, s.peers.Keys, s.maxAppend, s.saved, s.log, lastCommit, config)
    ensures t.id == a.servers[i].id && t.Did(React(a, Restart(i, lastCommit, config)), {})
  {
  }

  /** In a run every server has all others as peers, and has saved its term and vote. */
  lemma OtherPeers(run: seq<System>, evs: seq<Event>, i: Id)
    requires IsRun(run, evs) && i in run[|run| - 1].servers
    ensures var sys := run[|run| - 1];
            sys.servers[i].peers.Keys == sys.servers.Keys - {i} && Simulation.Saved(sys.servers[i])
  {
    hide Next, Init;
    var rs := Simulation.RunSim(run, evs);
    assert Simulation.ServerOk(run[|run| - 1], i, run[|run| - 1].servers[i]);
  }
}
