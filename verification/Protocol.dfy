/**
 A cluster of servers and the messages between them. Messages may be delayed,
 reordered, repeated or lost; every handler and every background iteration is
 one step of one server.
 */
module Protocol {
  import opened Types
  import opened Codec
  import opened ServerSpec

  datatype System = System(servers: map<Id, Server>, net: set<Msg>)

  datatype Event =
    | Timeout(i: Id)
    | Deliver(m: Msg)
    | Client(i: Id, payloads: seq<Payload>, expired: bool)
    | HeartbeatDue(i: Id, peer: Id)
    | RpcFailed(i: Id, peer: Id)
    | ApplyDue(i: Id)
    | Restart(i: Id, lastCommit: nat, config: ClusterConfig)

  function Actor(ev: Event): Id {
    if ev.Deliver? then ev.m.dst else ev.i
  }

  /** All servers start empty, in term 0, and know the same cluster. */
  ghost predicate Init(sys: System) {
    && NONE !in sys.servers && sys.net == {}
    && (forall i | i in sys.servers ::
          exists maxAppend, config ::
            sys.servers[i] == Boot(i, sys.servers.Keys - {i}, maxAppend, None, [], 0, config))
  }

  /** What can happen; no committed configuration changes the membership. */
  ghost predicate Enabled(sys: System, ev: Event) {
    var i := Actor(ev);
    i in sys.servers &&
    var s := sys.servers[i];
    match ev
    case Deliver(m) => m in sys.net
    case HeartbeatDue(_, peer) => peer in s.peers
    case ApplyDue(_) => CanApply(s) && KeepsMembers(s)
    case Restart(_, lastCommit, _) => lastCommit <= s.smCommit
    case _ => true
  }

  /** A handler starts without an error pending, whatever the last one ended with. */
  function Ready(s: Server): Server { s.(exited := false) }

  ghost function React(sys: System, ev: Event): Outcome
    requires Enabled(sys, ev)
  {
    var s := Ready(sys.servers[Actor(ev)]);
    match ev
    case Timeout(_) => ElectionTimeout(s)
    case Deliver(m) => if m.AppendReq? || m.VoteReq? then ProcessReq(s, m) else HandlePeerResp(s, m)
    case Client(_, payloads, expired) => ClientReq(s, payloads, expired)
    case HeartbeatDue(_, peer) => Heartbeat(s, peer)
    case RpcFailed(_, peer) => Outcome(SetFree(s, peer), {})
    case ApplyDue(_) => Outcome(ApplyNext(s), {})
    case Restart(_, lastCommit, config) =>
      Outcome(Boot(s.id, s.peers.Keys, s.maxAppend, s.saved, s.log, lastCommit, config), {})
  }

  /**
   What an outcome may leave behind. A handler that runs into an error exit is
   cut short there, in the middle of its work on the peers: its decisions stand,
   the records of the peers may not. The server then stops, and is perhaps
   started again, or simply goes on; both are runs.
   */
  ghost predicate Settles(o: Outcome, t: Server) {
    if o.server.exited then t.exited && SameCore(o.server, t) && t.quickCommit == o.server.quickCommit
    else t == o.server
  }

  /** One step; any of the messages sent may be lost. */
  ghost predicate Next(a: System, ev: Event, b: System) {
    && Enabled(a, ev)
    && Actor(ev) in b.servers && Settles(React(a, ev), b.servers[Actor(ev)])
    && b.servers == a.servers[Actor(ev) := b.servers[Actor(ev)]]
    && a.net <= b.net <= a.net + React(a, ev).sent
  }

  /** A run: states joined by events. */
  ghost predicate IsRun(run: seq<System>, evs: seq<Event>) {
    && |run| == |evs| + 1 && Init(run[0])
    && (forall k | 0 <= k < |evs| :: Next(run[k], evs[k], run[k + 1]))
  }
}
