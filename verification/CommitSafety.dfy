/**
 State Machine Safety. The code commits whatever a majority of matched indexes
 reaches, and a follower whatever the leader names; that is safe in the runs
 where each advance is one the protocol allows.
 */
module CommitSafety {
  import opened Types
  import opened ServerSpec
  import opened Protocol
  import opened Raft
  import opened Simulation
  import opened Safety
  import opened Durable

  // ----- the guard

  /** What the protocol asks of an advance of the commit index and the code does not look at. */
  datatype Condition =
    | OwnTerm       // a leader goes to an entry of its own term
    | Acknowledged  // that a majority has acknowledged in that term
    | Capped        // and a follower not beyond the entries the request vouches for

  ghost predicate Meets(c: Condition, a: System, ev: Event, b: System) {
    var x := Actor(ev);
    x in a.servers && x in b.servers && b.servers[x].quickCommit > a.servers[x].quickCommit ==>
      if ev.Deliver? && ev.m.AppendReq? then
        c.Capped? ==> ev.m.commitIdx <= ev.m.lastLogIdx + |ev.m.entries|
      else
        && (c.OwnTerm? ==> OwnEntry(b, x, b.servers[x].quickCommit))
        && (c.Acknowledged? ==> exists q :: AckedBy(b, x, b.servers[x].quickCommit, q))
  }

  ghost predicate Guarded(a: System, ev: Event, b: System) {
    Meets(OwnTerm, a, ev, b) && Meets(Acknowledged, a, ev, b) && Meets(Capped, a, ev, b)
  }

  ghost predicate GuardedRun(run: seq<System>, evs: seq<Event>) {
    IsRun(run, evs) && forall k | 0 <= k < |evs| :: Guarded(run[k], evs[k], run[k + 1])
  }

  // ----- the invariant of guarded runs

  /** `xs` is the beginning of something chosen in a term up to `u`. */
  ghost predicate Committed(st: State, xs: seq<Entry>, u: nat) {
    xs == [] ||
    exists t: nat, n: nat, q :: t <= u && Chosen(st, t, n, q) && HasPrefix(xs, st.leaders[t].log, |xs|) && |xs| <= n
  }

  /** Entry `e` at position `k` has been chosen. */
  ghost predicate CommittedAt(st: State, k: nat, e: Entry) {
    exists t: nat, n: nat, q :: Chosen(st, t, n, q) && k < n && st.leaders[t].log[k] == e
  }

  ghost predicate ServerCommits(st: State, s: Server) {
    && s.quickCommit <= |s.log| && Committed(st, s.log[..s.quickCommit], s.term)
    && (forall p | 0 <= p < |s.applied| :: CommittedAt(st, s.bootCommit + p, s.applied[p]))
  }

  ghost predicate RequestCommits(st: State, m: Msg)
    requires m.AppendReq?
  {
    && m.term in st.leaders && m.commitIdx <= |st.leaders[m.term].log|
    && Committed(st, st.leaders[m.term].log[..m.commitIdx], m.term)
  }

  ghost predicate CommitInv(sys: System, r: Record) {
    && (forall x | x in sys.servers :: ServerCommits(View(sys, r), sys.servers[x]))
    && (forall m | m in sys.net && m.AppendReq? :: RequestCommits(View(sys, r), m))
  }

  // ----- committed stays committed

  lemma CommittedGrows(a: State, b: State, xs: seq<Entry>, u: nat, v: nat)
    requires Committed(a, xs, u) && u <= v && Grows(a, b) && b.nodes.Keys == a.nodes.Keys
    ensures Committed(b, xs, v)
  {
    if xs != [] {
      var t: nat, n: nat, q :| t <= u && Chosen(a, t, n, q) && HasPrefix(xs, a.leaders[t].log, |xs|) && |xs| <= n;
      ChosenGrows(a, b, t, n, q);
      assert Chosen(b, t, n, q) && HasPrefix(xs, b.leaders[t].log, |xs|);
    }
  }

  lemma CommittedAtGrows(a: State, b: State, k: nat, e: Entry)
    requires CommittedAt(a, k, e) && Grows(a, b) && b.nodes.Keys == a.nodes.Keys
    ensures CommittedAt(b, k, e)
  {
    var t: nat, n: nat, q :| Chosen(a, t, n, q) && k < n && a.leaders[t].log[k] == e;
    ChosenGrows(a, b, t, n, q);
    assert Chosen(b, t, n, q) && b.leaders[t].log[k] == e;
  }

  /** A leader holds everything that was committed in its term or before. */
  lemma LeaderHoldsCommitted(st: State, xs: seq<Entry>, u: nat)
    requires Inv(st) && Committed(st, xs, u) && u in st.leaders
    ensures HasPrefix(st.leaders[u].log, xs, |xs|)
  {
    hide Inv;
    if xs != [] {
      var t: nat, n: nat, q :| t <= u && Chosen(st, t, n, q) && HasPrefix(xs, st.leaders[t].log, |xs|) && |xs| <= n;
      if t < u {
        LaterLeadersHoldChosen(st, t, n, q, u);
        assert st.leaders[u].log[..n][..|xs|] == st.leaders[t].log[..n][..|xs|];
      }
    }
  }

  /** Accepting a leader's entries never disturbs what a follower has committed, and matches the leader's log. */
  lemma MergeKeepsCommitted(st: State, log: seq<Entry>, c: nat, m: Msg)
    requires Inv(st) && m in st.net && m.AppendReq? && LogOkay(log, m)
    requires Traced(st.leaders, log) && c <= |log| && Committed(st, log[..c], m.term)
    ensures m.term in st.leaders
    ensures HasPrefix(Merge(log, m.lastLogIdx, m.entries), log, c)
    ensures HasPrefix(Merge(log, m.lastLogIdx, m.entries), st.leaders[m.term].log, m.lastLogIdx + |m.entries|)
  {
    hide Inv, Traced, Committed, Merge;
    RequestSlice(st, m);
    var l, p := st.leaders[m.term].log, m.lastLogIdx;
    if p > 0 {
      SameTermSamePrefix(st.leaders, log, l, p - 1);
    }
    LeaderHoldsCommitted(st, log[..c], m.term);
    assert HasPrefix(l, log, c);
    MergeAgrees(st.leaders, log, l, p, p + |m.entries|);
  }

  lemma RequestSlice(st: State, m: Msg)
    requires Inv(st) && m in st.net && m.AppendReq?
    ensures m.term in st.leaders && SliceOf(m, st.leaders[m.term]) && Traced(st.leaders, st.leaders[m.term].log)
  {
    hide Inv;
    Open(st);
    assert LeaderLogOk(st.leaders, m.term, st.leaders[m.term]);
  }

  // ----- what one step does to log and commit index

  /** Other than by accepting a leader's entries, a log only gets longer. */
  ghost predicate LogMoves(s: Server, ev: Event, t: Server) {
    || s.log <= t.log
    || (ev.Deliver? && ev.m.AppendReq? && TakesOver(s, ev.m, t))
  }

  ghost predicate TakesOver(s: Server, m: Msg, t: Server)
    requires m.AppendReq?
  {
    && LogOkay(s.log, m) && s.term <= m.term == t.term
    && t.log == Merge(s.log, m.lastLogIdx, m.entries)
    && t.quickCommit == Max(s.quickCommit, m.commitIdx)
  }

  /** A leader names its own commit index. */
  ghost predicate NamesCommit(t: Server, m: Msg) {
    m.AppendReq? ==> t.role.Leader? && m.src == t.id && m.term == t.term && m.commitIdx == t.quickCommit
  }

  lemma AppendMoves(s: Server, m: Msg)
    requires m.AppendReq?
    ensures var o := ProcessReq(s, m);
            && (TakesOver(s, m, o.server) || (o.server.log == s.log && o.server.quickCommit == s.quickCommit))
            && (forall r | r in o.sent :: !r.AppendReq?)
  {
    AppendShape(UpdateTerm(s, m.term), m);
    AppendCommits(UpdateTerm(s, m.term), m);
  }

  lemma AppendCommits(s: Server, m: Msg)
    requires m.AppendReq? && m.term <= s.term
    ensures HandleAppendEntries(s, m).server.quickCommit ==
            if Accepts(s, m) then Max(s.quickCommit, m.commitIdx) else s.quickCommit
  {
  }

  lemma ReactMoves(sys: System, ev: Event)
    requires Enabled(sys, ev)
    ensures var s, o := sys.servers[Actor(ev)], React(sys, ev);
            LogMoves(s, ev, o.server) && forall m | m in o.sent :: NamesCommit(o.server, m)
    ensures ev.Deliver? && ev.m.AppendReq? ==>
              var s, t := sys.servers[Actor(ev)], React(sys, ev).server;
              TakesOver(s, ev.m, t) || (t.log == s.log && t.quickCommit == s.quickCommit)
  {
    hide ElectionTimeout, ProcessReq, HandlePeerResp, ClientReq, TrySend;
    var s := Ready(sys.servers[Actor(ev)]);
    match ev
    case Timeout(_) => TimeoutMoves(s);
    case Deliver(m) =>
      if m.AppendReq? {
        AppendMoves(s, m);
      } else if m.VoteReq? {
        VoteMoves(s, m);
      } else {
        RespMoves(s, m);
      }
    case Client(_, payloads, expired) => ClientMoves(s, payloads, expired);
    case _ =>
  }

  lemma TimeoutMoves(s: Server)
    ensures var o := ElectionTimeout(s);
            s.log <= o.server.log && forall m | m in o.sent :: NamesCommit(o.server, m)
  {
    hide BecomeLeader;
    BecomeLeaderMoves(Standing(s).(electionCompleted := true));
    assert {} + {s.id} == {s.id};
  }

  lemma BecomeLeaderMoves(s: Server)
    ensures var o := BecomeLeader(s);
            s.log <= o.server.log && forall m | m in o.sent :: NamesCommit(o.server, m)
  {
    hide RequestAll;
  }

  lemma VoteMoves(s: Server, m: Msg)
    requires m.VoteReq?
    ensures var o := ProcessReq(s, m); o.server.log == s.log && forall r | r in o.sent :: !r.AppendReq?
  {
  }

  lemma RespMoves(s: Server, m: Msg)
    requires m.AppendResp? || m.VoteResp?
    ensures var o := HandlePeerResp(s, m);
            s.log <= o.server.log && forall r | r in o.sent :: NamesCommit(o.server, r)
  {
    hide HandleAppendResp, BecomeLeader;
    if m.AppendResp? {
      AppendRespMoves(SetFree(s, m.src), m);
    } else {
      BecomeLeaderMoves(Counted(s, m).(electionCompleted := true));
    }
  }

  lemma AppendRespMoves(s: Server, m: Msg)
    requires m.AppendResp?
    ensures var o := HandleAppendResp(s, m);
            s.log == o.server.log && forall r | r in o.sent :: NamesCommit(o.server, r)
  {
    hide Commit, TrySend, CommitTarget;
  }

  lemma ClientMoves(s: Server, payloads: seq<Payload>, expired: bool)
    ensures var o := ClientReq(s, payloads, expired);
            s.log <= o.server.log && forall m | m in o.sent :: NamesCommit(o.server, m)
  {
    hide RequestAll;
  }

  // ----- every guarded step keeps it

  lemma ServerCommitsGrows(a: State, b: State, s: Server)
    requires ServerCommits(a, s) && Grows(a, b) && b.nodes.Keys == a.nodes.Keys
    ensures ServerCommits(b, s)
  {
    CommittedGrows(a, b, s.log[..s.quickCommit], s.term, s.term);
    forall p | 0 <= p < |s.applied| ensures CommittedAt(b, s.bootCommit + p, s.applied[p]) {
      CommittedAtGrows(a, b, s.bootCommit + p, s.applied[p]);
    }
  }

  lemma RequestCommitsGrows(a: State, b: State, m: Msg)
    requires m.AppendReq? && RequestCommits(a, m) && Grows(a, b) && b.nodes.Keys == a.nodes.Keys
    ensures RequestCommits(b, m)
  {
    CommittedGrows(a, b, a.leaders[m.term].log[..m.commitIdx], m.term, m.term);
    assert b.leaders[m.term].log[..m.commitIdx] == a.leaders[m.term].log[..m.commitIdx];
  }

  lemma CommittedPrefix(st: State, xs: seq<Entry>, k: nat, u: nat, v: nat)
    requires Committed(st, xs, u) && k <= |xs| && u <= v
    ensures Committed(st, xs[..k], v)
  {
    if k > 0 {
      var t: nat, n: nat, q :| t <= u && Chosen(st, t, n, q) && HasPrefix(xs, st.leaders[t].log, |xs|) && |xs| <= n;
      assert HasPrefix(xs[..k], st.leaders[t].log, |xs[..k]|);
    }
  }

  /** A log that only got longer, and a commit index that did not advance. */
  lemma LongerLog(st: State, s: Server, t: Server)
    requires ServerCommits(st, s) && s.log <= t.log && t.quickCommit <= s.quickCommit && s.term <= t.term
    ensures t.quickCommit <= |t.log| && Committed(st, t.log[..t.quickCommit], t.term)
  {
    CommittedPrefix(st, s.log[..s.quickCommit], t.quickCommit, s.term, t.term);
    assert s.log[..s.quickCommit][..t.quickCommit] == t.log[..t.quickCommit];
  }

  /** A follower that took over entries: guarded, its commit index covers only what the leader had committed. */
  lemma FollowerLog(st: State, s: Server, m: Msg, t: Server)
    requires Inv(st) && m in st.net && m.AppendReq? && RequestCommits(st, m)
    requires Traced(st.leaders, s.log) && ServerCommits(st, s) && TakesOver(s, m, t)
    requires t.quickCommit > s.quickCommit ==> m.commitIdx <= m.lastLogIdx + |m.entries|
    ensures t.quickCommit <= |t.log| && Committed(st, t.log[..t.quickCommit], t.term)
  {
    hide Inv, Traced;
    var c, l := s.quickCommit, st.leaders[m.term].log;
    CommittedPrefix(st, s.log[..c], c, s.term, m.term);
    assert s.log[..c][..c] == s.log[..c];
    MergeKeepsCommitted(st, s.log, c, m);
    if t.quickCommit > c {
      assert t.log[..m.commitIdx] == t.log[..m.lastLogIdx + |m.entries|][..m.commitIdx] == l[..m.commitIdx];
    }
  }

  lemma LeaderLog(sys: System, r: Record, x: Id, n: nat, q: set<Id>)
    requires Inv(View(sys, r)) && Replicated(sys, x, n, q)
    ensures n <= |sys.servers[x].log| && Committed(View(sys, r), sys.servers[x].log[..n], sys.servers[x].term)
  {
    hide Inv;
    ReplicatedChosen(sys, r, x, n, q);
    LeaderOnRecord(sys, r, x);
    var xs := sys.servers[x].log[..n];
    assert HasPrefix(xs, r.leaders[sys.servers[x].term].log, |xs|);
  }

  lemma ServerTraced(sys: System, r: Record, x: Id)
    requires Inv(View(sys, r)) && x in sys.servers
    ensures Traced(r.leaders, sys.servers[x].log)
  {
    hide Inv;
    Open(View(sys, r));
    assert View(sys, r).nodes[x] == NodeOf(sys.servers[x]);
  }

  lemma SameKeys(a: System, ev: Event, b: System, r: Record, r': Record)
    requires Next(a, ev, b)
    ensures View(b, r').nodes.Keys == View(a, r).nodes.Keys
  {
    hide React;
    assert View(a, r).nodes.Keys == a.servers.Keys && View(b, r').nodes.Keys == b.servers.Keys;
  }

  /** The server that acted: its commit index still lies in its log, over chosen entries. */
  lemma ActorLog(a: System, ev: Event, b: System, r: Record, r': Record)
    requires Next(a, ev, b) && Guarded(a, ev, b) && CommitInv(a, r)
    requires Inv(View(a, r)) && Inv(View(b, r')) && Grows(View(a, r), View(b, r'))
    requires Saved(a.servers[Actor(ev)]) && InOrder(a.servers[Actor(ev)])
    ensures var t := b.servers[Actor(ev)];
            t.quickCommit <= |t.log| && Committed(View(b, r'), t.log[..t.quickCommit], t.term)
  {
    hide React, Inv, Grows, Traced, Committed, Saved;
    var st, st', x := View(a, r), View(b, r'), Actor(ev);
    var s, t := a.servers[x], b.servers[x];
    ReactMoves(a, ev);
    ReactKeepsSaved(a, ev);
    SameKeys(a, ev, b, r, r');
    assert ServerCommits(st, s);
    if ev.Deliver? && ev.m.AppendReq? && TakesOver(s, ev.m, t) {
      ServerTraced(a, r, x);
      FollowerLog(st, s, ev.m, t);
      CommittedGrows(st, st', t.log[..t.quickCommit], t.term, t.term);
    } else if t.quickCommit > s.quickCommit {
      assert OwnEntry(b, x, t.quickCommit);
      var q :| AckedBy(b, x, t.quickCommit, q);
      LeaderLog(b, r', x, t.quickCommit, q);
    } else {
      LongerLog(st, s, t);
      CommittedGrows(st, st', t.log[..t.quickCommit], t.term, t.term);
    }
  }

  /** What it has applied is chosen. */
  lemma ActorApplied(a: System, ev: Event, b: System, r: Record, r': Record, p: nat)
    requires Next(a, ev, b) && CommitInv(a, r) && Grows(View(a, r), View(b, r'))
    requires Saved(a.servers[Actor(ev)]) && InOrder(a.servers[Actor(ev)]) && p < |b.servers[Actor(ev)].applied|
    ensures var t := b.servers[Actor(ev)]; CommittedAt(View(b, r'), t.bootCommit + p, t.applied[p])
  {
    hide Inv, ElectionTimeout, ProcessReq, HandlePeerResp, ClientReq, Grows, Saved, CommittedAt, Committed;
    var st, st', x := View(a, r), View(b, r'), Actor(ev);
    var s, t := a.servers[x], b.servers[x];
    SameKeys(a, ev, b, r, r');
    assert ServerCommits(st, s);
    if !ev.Restart? {
      ReactApplies(a, ev);
      if p < |s.applied| {
        assert CommittedAt(st, s.bootCommit + p, s.applied[p]);
      } else {
        CommittedEntry(st, s.log[..s.quickCommit], s.term, s.smCommit);
      }
      CommittedAtGrows(st, st', t.bootCommit + p, t.applied[p]);
    }
  }

  lemma CommittedEntry(st: State, xs: seq<Entry>, u: nat, k: nat)
    requires Committed(st, xs, u) && k < |xs|
    ensures CommittedAt(st, k, xs[k])
  {
    var t: nat, n: nat, q :| t <= u && Chosen(st, t, n, q) && HasPrefix(xs, st.leaders[t].log, |xs|) && |xs| <= n;
    assert st.leaders[t].log[k] == st.leaders[t].log[..|xs|][k] == xs[..|xs|][k] == xs[k];
  }

  lemma NewRequest(b: System, r: Record, m: Msg)
    requires Inv(View(b, r)) && m.AppendReq? && m.src in b.servers && b.servers[m.src].id == m.src
    requires NamesCommit(b.servers[m.src], m) && b.servers[m.src].quickCommit <= |b.servers[m.src].log|
    requires Committed(View(b, r), b.servers[m.src].log[..b.servers[m.src].quickCommit], b.servers[m.src].term)
    ensures RequestCommits(View(b, r), m)
  {
    hide Inv;
    LeaderOnRecord(b, r, m.src);
  }

  lemma GuardedStep(a: System, ev: Event, b: System, r: Record, r': Record)
    requires Next(a, ev, b) && Guarded(a, ev, b) && CommitInv(a, r) && Local(a) && Local(b)
    requires Inv(View(a, r)) && Inv(View(b, r')) && Grows(View(a, r), View(b, r'))
    requires InOrder(a.servers[Actor(ev)])
    ensures CommitInv(b, r')
  {
    hide React, Inv, Grows, ServerCommits, RequestCommits, Committed;
    var st, st', x := View(a, r), View(b, r'), Actor(ev);
    assert ServerOk(a, x, a.servers[x]) && ServerOk(b, x, b.servers[x]);
    SameKeys(a, ev, b, r, r');
    ActorCommits(a, ev, b, r, r');
    forall y | y in b.servers ensures ServerCommits(st', b.servers[y]) {
      if y != x {
        ServerCommitsGrows(st, st', a.servers[y]);
      }
    }
    forall m | m in b.net && m.AppendReq? ensures RequestCommits(st', m) {
      if m in a.net {
        RequestCommitsGrows(st, st', m);
      } else {
        ReactMoves(a, ev);
        ActorLog(a, ev, b, r, r');
        NewRequest(b, r', m);
      }
    }
  }

  lemma ActorCommits(a: System, ev: Event, b: System, r: Record, r': Record)
    requires Next(a, ev, b) && Guarded(a, ev, b) && CommitInv(a, r)
    requires Inv(View(a, r)) && Inv(View(b, r')) && Grows(View(a, r), View(b, r'))
    requires Saved(a.servers[Actor(ev)]) && InOrder(a.servers[Actor(ev)])
    ensures ServerCommits(View(b, r'), b.servers[Actor(ev)])
  {
    hide React, Inv, Grows, CommitInv, Guarded, Committed, CommittedAt;
    ActorLog(a, ev, b, r, r');
    var t := b.servers[Actor(ev)];
    forall p | 0 <= p < |t.applied| ensures CommittedAt(View(b, r'), t.bootCommit + p, t.applied[p]) {
      ActorApplied(a, ev, b, r, r', p);
    }
  }

  lemma {:induction false} GuardedRunCommits(run: seq<System>, evs: seq<Event>, rs: seq<Record>, k: nat)
    requires GuardedRun(run, evs) && |rs| == |run| && k < |run|
    requires forall j | 0 <= j < |run| :: Local(run[j]) && Inv(View(run[j], rs[j]))
    requires forall j | 0 <= j < |evs| :: Grows(View(run[j], rs[j]), View(run[j + 1], rs[j + 1]))
    ensures CommitInv(run[k], rs[k])
    decreases k
  {
    hide Inv, Local, Grows, Next, Guarded, View, React;
    if k == 0 {
      InitCommits(run[0], rs[0]);
    } else {
      GuardedRunCommits(run, evs, rs, k - 1);
      var x := Actor(evs[k - 1]);
      assert Next(run[k - 1], evs[k - 1], run[k - 1 + 1]);
      assert Guarded(run[k - 1], evs[k - 1], run[k - 1 + 1]);
      assert Grows(View(run[k - 1], rs[k - 1]), View(run[k - 1 + 1], rs[k - 1 + 1]));
      ActorThere(run[k - 1], evs[k - 1], run[k]);
      AppliedInOrder(run, evs, k - 1, x);
      GuardedStep(run[k - 1], evs[k - 1], run[k], rs[k - 1], rs[k]);
    }
  }

  lemma ActorThere(a: System, ev: Event, b: System)
    requires Next(a, ev, b)
    ensures Actor(ev) in a.servers
  {
  }

  lemma InitCommits(sys: System, r: Record)
    requires Init(sys)
    ensures CommitInv(sys, r)
  {
    hide Inv;
    forall x | x in sys.servers ensures ServerCommits(View(sys, r), sys.servers[x]) {
      assert sys.servers[x].quickCommit == 0 && sys.servers[x].applied == [];
    }
  }

  // ----- the theorem

  lemma ChosenAgree(st: State, k: nat, e: Entry, f: Entry)
    requires Inv(st) && CommittedAt(st, k, e) && CommittedAt(st, k, f)
    ensures e == f
  {
    hide Inv;
    var t: nat, n: nat, q :| Chosen(st, t, n, q) && k < n && st.leaders[t].log[k] == e;
    var u: nat, o: nat, p :| Chosen(st, u, o, p) && k < o && st.leaders[u].log[k] == f;
    if t < u {
      LaterLeadersHoldChosen(st, t, n, q, u);
      assert st.leaders[u].log[..n][k] == st.leaders[t].log[..n][k];
    } else if u < t {
      LaterLeadersHoldChosen(st, u, o, p, t);
      assert st.leaders[t].log[..o][k] == st.leaders[u].log[..o][k];
    }
  }

  /** State Machine Safety: in a guarded run no two servers, at whatever times, apply different entries at one index. */
  lemma StateMachineSafety(run: seq<System>, evs: seq<Event>, a: nat, b: nat, x: Id, y: Id, p: nat, q: nat)
    requires GuardedRun(run, evs) && a < |run| && b < |run| && x in run[a].servers && y in run[b].servers
    requires p < |run[a].servers[x].applied| && q < |run[b].servers[y].applied|
    requires run[a].servers[x].bootCommit + p == run[b].servers[y].bootCommit + q
    ensures run[a].servers[x].applied[p] == run[b].servers[y].applied[q]
  {
    hide Inv, Local, Grows, Next, Guarded, CommittedAt;
    var rs := RunSim(run, evs);
    var z, k := Max(a, b), run[a].servers[x].bootCommit + p;
    AppliedIsChosen(run, evs, rs, a, z, x, p);
    AppliedIsChosen(run, evs, rs, b, z, y, q);
    ChosenAgree(View(run[z], rs[z]), k, run[a].servers[x].applied[p], run[b].servers[y].applied[q]);
  }

  lemma AppliedIsChosen(run: seq<System>, evs: seq<Event>, rs: seq<Record>, a: nat, z: nat, x: Id, p: nat)
    requires GuardedRun(run, evs) && |rs| == |run| && a <= z < |run| && x in run[a].servers
    requires forall j | 0 <= j < |run| :: Local(run[j]) && Inv(View(run[j], rs[j]))
    requires forall j | 0 <= j < |evs| :: Grows(View(run[j], rs[j]), View(run[j + 1], rs[j + 1]))
    requires p < |run[a].servers[x].applied|
    ensures CommittedAt(View(run[z], rs[z]), run[a].servers[x].bootCommit + p, run[a].servers[x].applied[p])
  {
    hide Inv, Local, Grows, Next, Guarded, CommittedAt;
    GuardedRunCommits(run, evs, rs, a);
    assert ServerCommits(View(run[a], rs[a]), run[a].servers[x]);
    GrowsOver(run, rs, a, z);
    SameServers(run, evs, a, z);
    assert View(run[z], rs[z]).nodes.Keys == View(run[a], rs[a]).nodes.Keys;
    CommittedAtGrows(View(run[a], rs[a]), View(run[z], rs[z]), run[a].servers[x].bootCommit + p,
                     run[a].servers[x].applied[p]);
  }
}
