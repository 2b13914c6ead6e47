/**
 What holds over every run of the cluster, whatever the network does and
 whoever stops and starts again.
 */
module Safety {
  import opened Types
  import opened Protocol
  import opened Raft
  import opened Simulation

  /** Records of an earlier state are part of those of a later one. */
  lemma {:induction false} GrowsOver(run: seq<System>, rs: seq<Record>, a: nat, b: nat)
    requires |rs| == |run| && a <= b < |run|
    requires forall k | 0 <= k < |run| - 1 :: Grows(View(run[k], rs[k]), View(run[k + 1], rs[k + 1]))
    ensures Grows(View(run[a], rs[a]), View(run[b], rs[b]))
    decreases b - a
  {
    if a < b {
      GrowsOver(run, rs, a, b - 1);
      assert Grows(View(run[b - 1], rs[b - 1]), View(run[b - 1 + 1], rs[b - 1 + 1]));
      GrowsTwice(View(run[a], rs[a]), View(run[b - 1], rs[b - 1]), View(run[b], rs[b]));
    }
  }

  lemma GrowsTwice(a: State, b: State, c: State)
    requires Grows(a, b) && Grows(b, c)
    ensures Grows(a, c)
  {
    ExtendsTwice(a.leaders, b.leaders, c.leaders);
  }

  /** A leader in a reachable state is the leader on record, with the log on record. */
  lemma LeaderOnRecord(sys: System, r: Record, x: Id)
    requires Inv(View(sys, r)) && x in sys.servers && sys.servers[x].role.Leader?
    ensures var t := sys.servers[x].term;
            t in r.leaders && r.leaders[t].id == x && r.leaders[t].log == sys.servers[x].log
  {
    hide Inv;
    Open(View(sys, r));
    assert View(sys, r).nodes[x].role.Leader?;
  }

  /** Election Safety: over a whole run, at most one server leads in any term. */
  lemma ElectionSafety(run: seq<System>, evs: seq<Event>, a: nat, b: nat, x: Id, y: Id)
    requires IsRun(run, evs) && a < |run| && b < |run|
    requires x in run[a].servers && run[a].servers[x].role.Leader?
    requires y in run[b].servers && run[b].servers[y].role.Leader?
    requires run[a].servers[x].term == run[b].servers[y].term
    ensures x == y
  {
    hide Inv;
    var rs := RunSim(run, evs);
    LeaderOnRecord(run[a], rs[a], x);
    LeaderOnRecord(run[b], rs[b], y);
    GrowsOver(run, rs, Min(a, b), Max(a, b));
  }

  /** So a leader never receives an append request of its own term, and the exit for that case is dead code. */
  lemma NoRivalLeader(run: seq<System>, evs: seq<Event>, k: nat, m: Msg)
    requires IsRun(run, evs) && k < |run|
    requires m in run[k].net && m.AppendReq? && m.dst in run[k].servers
    ensures !(run[k].servers[m.dst].role.Leader? && run[k].servers[m.dst].term == m.term)
  {
    hide Inv;
    var rs := RunSim(run, evs);
    var st := View(run[k], rs[k]);
    Open(st);
    assert SliceOf(m, st.leaders[m.term]);
    if run[k].servers[m.dst].role.Leader? {
      LeaderOnRecord(run[k], rs[k], m.dst);
    }
  }

  /** The log of a server in a run is a patchwork of leader logs, by the record of any later state. */
  lemma LogTraced(run: seq<System>, rs: seq<Record>, a: nat, b: nat, x: Id)
    requires |rs| == |run| && a <= b < |run| && x in run[a].servers
    requires forall k | 0 <= k < |run| :: Inv(View(run[k], rs[k]))
    requires forall k | 0 <= k < |run| - 1 :: Grows(View(run[k], rs[k]), View(run[k + 1], rs[k + 1]))
    ensures Traced(rs[b].leaders, run[a].servers[x].log)
  {
    hide Inv;
    Open(View(run[a], rs[a]));
    GrowsOver(run, rs, a, b);
    assert View(run[a], rs[a]).nodes[x].log == run[a].servers[x].log;
    TracedExtends(rs[a].leaders, rs[b].leaders, run[a].servers[x].log);
  }

  /** Log Matching: logs that agree on the term at an index are the same up to it, even at different times. */
  lemma LogMatching(run: seq<System>, evs: seq<Event>, a: nat, b: nat, x: Id, y: Id, k: nat)
    requires IsRun(run, evs) && a < |run| && b < |run| && x in run[a].servers && y in run[b].servers
    requires k < |run[a].servers[x].log| && k < |run[b].servers[y].log|
    requires run[a].servers[x].log[k].term == run[b].servers[y].log[k].term
    ensures run[a].servers[x].log[..k + 1] == run[b].servers[y].log[..k + 1]
  {
    hide Inv;
    var rs := RunSim(run, evs);
    LogTraced(run, rs, a, Max(a, b), x);
    LogTraced(run, rs, b, Max(a, b), y);
    SameTermSamePrefix(rs[Max(a, b)].leaders, run[a].servers[x].log, run[b].servers[y].log, k);
  }

  /** An accepted answer to an append request. */
  predicate Accepted(m: Msg) { m.AppendResp? && m.accepted }

  /**
   Acknowledgement stability: while the follower stays in the term it
   acknowledged in, and at whatever moment one looks at that term's leader, the
   two agree on everything acknowledged - which at the time of the answer, and
   ever after, the leader's log reaches.
   */
  lemma AckStability(run: seq<System>, evs: seq<Event>, k: nat, m: Msg, a: nat, b: nat, l: Id)
    requires IsRun(run, evs) && k <= a < |run| && b < |run|
    requires m in run[k].net && Accepted(m) && m.src in run[a].servers && run[a].servers[m.src].term == m.term
    requires l in run[b].servers && run[b].servers[l].role.Leader? && run[b].servers[l].term == m.term
    requires b < k ==> m.nextIdx <= |run[b].servers[l].log| + 1
    ensures 1 <= m.nextIdx <= |run[a].servers[m.src].log| + 1 && m.nextIdx <= |run[b].servers[l].log| + 1
    ensures run[a].servers[m.src].log[..m.nextIdx - 1] == run[b].servers[l].log[..m.nextIdx - 1]
  {
    hide Inv, Next, Init, Local;
    var rs := RunSim(run, evs);
    var n, st := m.nextIdx, View(run[a], rs[a]);
    GrowsOver(run, rs, k, a);
    LeaderOnRecord(run[b], rs[b], l);
    GrowsOver(run, rs, Min(a, b), Max(a, b));
    AckedPrefix(st, m);
    if k <= b {
      GrowsOver(run, rs, k, b);
      AckedReach(View(run[b], rs[b]), m);
    }
    assert st.leaders[m.term].log[..n - 1] == run[b].servers[l].log[..n - 1];
  }

  lemma AckedReach(st: State, m: Msg)
    requires Inv(st) && m in st.net && Accepted(m)
    ensures m.term in st.leaders && m.nextIdx <= |st.leaders[m.term].log| + 1
  {
  }

  lemma AckedPrefix(st: State, m: Msg)
    requires Inv(st) && m in st.net && Accepted(m) && m.src in st.nodes && st.nodes[m.src].term == m.term
    ensures m.term in st.leaders && m.nextIdx >= 1
    ensures HasPrefix(st.nodes[m.src].log, st.leaders[m.term].log, m.nextIdx - 1)
  {
    hide Inv;
    Open(st);
    assert IsAck(m, m.src, m.term, m.nextIdx - 1);
    assert AckKept(st, m.src, m.term, m.nextIdx - 1);
  }

  /** Entry `n` is one that `l` leads with: an entry of its own term. */
  ghost predicate OwnEntry(sys: System, l: Id, n: nat) {
    && l in sys.servers && sys.servers[l].role.Leader?
    && 1 <= n <= |sys.servers[l].log| && sys.servers[l].log[n - 1].term == sys.servers[l].term
  }

  /** Leader `l` has the first `n` entries acknowledged in its own term by the majority `q`. */
  ghost predicate AckedBy(sys: System, l: Id, n: nat, q: set<Id>) {
    && l in sys.servers && sys.servers[l].role.Leader? && Majority(q, sys.servers.Keys) && l in q
    && (forall j | j in q && j != l :: exists m :: m in sys.net && IsAck(m, j, sys.servers[l].term, n))
  }

  ghost predicate Replicated(sys: System, l: Id, n: nat, q: set<Id>) { OwnEntry(sys, l, n) && AckedBy(sys, l, n, q) }

  lemma ReplicatedChosen(sys: System, r: Record, l: Id, n: nat, q: set<Id>)
    requires Inv(View(sys, r)) && Replicated(sys, l, n, q)
    ensures Chosen(View(sys, r), sys.servers[l].term, n, q)
  {
    hide Inv;
    LeaderOnRecord(sys, r, l);
    var st := View(sys, r);
    assert st.nodes.Keys == sys.servers.Keys;
    forall j | j in q ensures Acked(st, j, sys.servers[l].term, n) {
    }
  }

  lemma ChosenGrows(a: State, b: State, t: nat, n: nat, q: set<Id>)
    requires Chosen(a, t, n, q) && Grows(a, b) && b.nodes.Keys == a.nodes.Keys
    ensures Chosen(b, t, n, q) && b.leaders[t].log[..n] == a.leaders[t].log[..n]
  {
    forall j | j in q ensures Acked(b, j, t, n) {
      assert Acked(a, j, t, n);
      if a.leaders[t].id != j {
        var m :| m in a.net && IsAck(m, j, t, n);
        assert m in b.net;
      }
    }
  }

  lemma {:induction false} SameServers(run: seq<System>, evs: seq<Event>, a: nat, b: nat)
    requires IsRun(run, evs) && a <= b < |run|
    ensures run[b].servers.Keys == run[a].servers.Keys
    decreases b - a
  {
    if a < b {
      SameServers(run, evs, a, b - 1);
      assert Next(run[b - 1], evs[b - 1], run[b - 1 + 1]);
    }
  }

  /**
   Leader Completeness: once a leader's own-term entry is acknowledged in that
   term by a majority, every leader of every later term, at any moment of the
   run, holds the same entries up to it.
   */
  lemma LeaderCompleteness(run: seq<System>, evs: seq<Event>, k: nat, l: Id, n: nat, q: set<Id>, b: nat, y: Id)
    requires IsRun(run, evs) && k < |run| && b < |run| && Replicated(run[k], l, n, q)
    requires y in run[b].servers && run[b].servers[y].role.Leader?
    requires run[b].servers[y].term > run[k].servers[l].term
    ensures |run[b].servers[y].log| >= n
    ensures run[b].servers[y].log[..n] == run[k].servers[l].log[..n]
  {
    hide Inv;
    var rs := RunSim(run, evs);
    var t, u, z := run[k].servers[l].term, run[b].servers[y].term, Max(k, b);
    var now, later := View(run[k], rs[k]), View(run[z], rs[z]);
    LeaderOnRecord(run[k], rs[k], l);
    LeaderOnRecord(run[b], rs[b], y);
    ReplicatedChosen(run[k], rs[k], l, n, q);
    GrowsOver(run, rs, k, z);
    GrowsOver(run, rs, b, z);
    SameServers(run, evs, k, z);
    assert now.nodes.Keys == later.nodes.Keys;
    ChosenGrows(now, later, t, n, q);
    LaterLeadersHoldChosen(later, t, n, q, u);
    HeldBefore(later, t, n, q, u, rs[b].leaders);
  }

  /** A later leader held the chosen entries from the start, not only after it appended its own. */
  lemma HeldBefore(st: State, t: nat, n: nat, q: set<Id>, u: nat, before: map<nat, Leadership>)
    requires Inv(st) && Chosen(st, t, n, q) && t < u && u in before && Extends(before, st.leaders)
    requires HasPrefix(st.leaders[u].log, st.leaders[t].log, n)
    ensures HasPrefix(before[u].log, st.leaders[t].log, n)
  {
    hide Inv;
    Open(st);
    assert LeaderLogOk(st.leaders, t, st.leaders[t]);
    var after, l := st.leaders[u].log, st.leaders[t].log;
    assert forall k | 0 <= k < n :: after[k] == after[..n][k] == l[..n][k] == l[k];
    assert |before[u].log| < |after| ==> after[|before[u].log|].term == u;
  }
}
