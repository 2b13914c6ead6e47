/**
 What single servers keep over every run: the saved vote, and the order in
 which committed entries reach the state machine.
 */
module Durable {
  import opened Types
  import opened ServerSpec
  import opened Protocol
  import opened Raft
  import opened Simulation
  import opened Safety

  /** The live vote is the one on record. */
  lemma VoteOnRecord(sys: System, r: Record, x: Id)
    requires Inv(View(sys, r)) && x in sys.servers && sys.servers[x].votedFor != NONE
    ensures VotedFor(r.votes, x, sys.servers[x].term, sys.servers[x].votedFor)
  {
    hide Inv;
    Open(View(sys, r));
    assert View(sys, r).nodes[x] == NodeOf(sys.servers[x]);
  }

  /**
   Terms never go back, a vote is never changed within its term, and what is
   saved at the end of a step is the live pair - so that starting again from it
   cannot vote twice.
   */
  lemma VotesOnce(run: seq<System>, evs: seq<Event>, a: nat, b: nat, x: Id)
    requires IsRun(run, evs) && a <= b < |run| && x in run[a].servers && x in run[b].servers
    ensures Saved(run[b].servers[x])
    ensures run[a].servers[x].term <= run[b].servers[x].term
    ensures run[a].servers[x].term == run[b].servers[x].term && run[a].servers[x].votedFor != NONE ==>
              run[b].servers[x].votedFor == run[a].servers[x].votedFor
  {
    hide Inv;
    var rs := RunSim(run, evs);
    assert ServerOk(run[b], x, run[b].servers[x]);
    GrowsOver(run, rs, a, b);
    TermsGrow(run, evs, a, b, x);
    if run[a].servers[x].votedFor != NONE && run[a].servers[x].term == run[b].servers[x].term {
      VoteOnRecord(run[a], rs[a], x);
      LiveVote(run[b], rs[b], x);
    }
  }

  lemma LiveVote(sys: System, r: Record, x: Id)
    requires Inv(View(sys, r)) && x in sys.servers && (x, sys.servers[x].term) in r.votes
    ensures sys.servers[x].votedFor == r.votes[(x, sys.servers[x].term)].candidate
  {
    hide Inv;
    Open(View(sys, r));
    assert View(sys, r).nodes[x] == NodeOf(sys.servers[x]);
  }

  lemma {:induction false} TermsGrow(run: seq<System>, evs: seq<Event>, a: nat, b: nat, x: Id)
    requires IsRun(run, evs) && a <= b < |run| && x in run[a].servers
    ensures x in run[b].servers && run[a].servers[x].term <= run[b].servers[x].term
    decreases b - a
  {
    hide React, Saved;
    if a < b {
      TermsGrow(run, evs, a, b - 1, x);
      var s, ev := run[b - 1], evs[b - 1];
      assert Next(s, ev, run[b - 1 + 1]);
      if Actor(ev) == x {
        LocalAt(run, evs, b - 1, x);
        ReactKeepsSaved(s, ev);
      }
    }
  }

  // ----- applying

  /** Applied so far is what lies between the index at start and the applied index; nothing uncommitted is applied. */
  ghost predicate InOrder(s: Server) {
    s.smCommit == s.bootCommit + |s.applied| && s.smCommit <= s.quickCommit
  }

  lemma ReactInOrder(sys: System, ev: Event)
    requires Enabled(sys, ev) && Saved(sys.servers[Actor(ev)]) && InOrder(sys.servers[Actor(ev)])
    ensures InOrder(React(sys, ev).server)
  {
    hide ElectionTimeout, ProcessReq, HandlePeerResp, ClientReq;
    ReactKeepsSaved(sys, ev);
  }

  /**
   In every state of every run, each server has applied its entries one after
   the other, never past its commit index.
   */
  lemma {:induction false} AppliedInOrder(run: seq<System>, evs: seq<Event>, k: nat, x: Id)
    requires IsRun(run, evs) && k < |run| && x in run[k].servers
    ensures InOrder(run[k].servers[x])
    decreases k
  {
    hide React, Local;
    if k > 0 {
      var s, ev := run[k - 1], evs[k - 1];
      assert Next(s, ev, run[k - 1 + 1]);
      AppliedInOrder(run, evs, k - 1, x);
      if Actor(ev) == x {
        LocalAt(run, evs, k - 1, x);
        ReactInOrder(s, ev);
      }
    }
  }

  lemma LocalAt(run: seq<System>, evs: seq<Event>, k: nat, x: Id)
    requires IsRun(run, evs) && k < |run| && x in run[k].servers
    ensures Saved(run[k].servers[x])
  {
    hide Inv;
    var rs := RunSim(run, evs);
    assert ServerOk(run[k], x, run[k].servers[x]);
  }

  /** Server `x` is not started again between states `a` and `b`. */
  ghost predicate StaysUp(evs: seq<Event>, a: nat, b: nat, x: Id) {
    forall k | a <= k < b && k < |evs| :: !(evs[k].Restart? && evs[k].i == x)
  }

  /** What a server that stays up has applied, it has applied for good. */
  lemma {:induction false} AppliedGrows(run: seq<System>, evs: seq<Event>, a: nat, b: nat, x: Id)
    requires IsRun(run, evs) && a <= b < |run| && x in run[a].servers && StaysUp(evs, a, b, x)
    ensures x in run[b].servers && run[a].servers[x].applied <= run[b].servers[x].applied
    ensures run[b].servers[x].bootCommit == run[a].servers[x].bootCommit
    decreases b - a
  {
    hide React;
    if a < b {
      AppliedGrows(run, evs, a, b - 1, x);
      var s, ev := run[b - 1], evs[b - 1];
      assert Next(s, ev, run[b - 1 + 1]);
      if Actor(ev) == x {
        LocalAt(run, evs, b - 1, x);
        ReactApplies(s, ev);
      }
    }
  }

  /** A step applies nothing, or the next entry of the log, which exists and is committed. */
  ghost predicate AppliesNext(s: Server, t: Server) {
    && s.smCommit < |s.log| && s.smCommit < s.quickCommit && t.bootCommit == s.bootCommit
    && t.smCommit == s.smCommit + 1 && t.applied == s.applied + [s.log[s.smCommit]]
  }

  lemma ReactApplies(sys: System, ev: Event)
    requires Enabled(sys, ev) && Saved(sys.servers[Actor(ev)]) && !ev.Restart?
    ensures var s, t := sys.servers[Actor(ev)], React(sys, ev).server;
            if ev.ApplyDue? then AppliesNext(s, t) else AppliesNothing(s, t)
  {
    hide ElectionTimeout, ProcessReq, HandlePeerResp, ClientReq;
    ReactKeepsSaved(sys, ev);
  }

  /**
   Each entry that a server has applied since it was last started was applied by
   exactly one background step, at its own index, from the log as it stood then.
   */
  lemma {:induction false} AppliedExactlyOnce(run: seq<System>, evs: seq<Event>, b: nat, x: Id, p: nat) returns (c: nat)
    requires IsRun(run, evs) && b < |run| && x in run[b].servers && p < |run[b].servers[x].applied|
    ensures c < b && evs[c] == ApplyDue(x) && StaysUp(evs, c, b, x) && x in run[c].servers
    ensures var k := run[b].servers[x].bootCommit + p;
            && run[c].servers[x].smCommit == k < run[c].servers[x].quickCommit
            && k < |run[c].servers[x].log| && run[c].servers[x].log[k] == run[b].servers[x].applied[p]
            && (forall d | c < d <= b && x in run[d].servers :: run[d].servers[x].smCommit > k)
    decreases b
  {
    hide React, Saved;
    c := 0;
    NothingAppliedYet(run, evs, b, x);
    var s, ev := run[b - 1], evs[b - 1];
    assert Next(s, ev, run[b - 1 + 1]);
    AppliedInOrder(run, evs, b - 1, x);
    AppliedInOrder(run, evs, b, x);
    if p < |s.servers[x].applied| {
      c := AppliedExactlyOnce(run, evs, b - 1, x, p);
      AppliedGrows(run, evs, b - 1, b, x);
    } else {
      c := b - 1;
      LocalAt(run, evs, b - 1, x);
      ReactApplies(s, ev);
    }
  }

  /** A server that has just been started, at the beginning or again, has applied nothing. */
  lemma NothingAppliedYet(run: seq<System>, evs: seq<Event>, b: nat, x: Id)
    requires IsRun(run, evs) && b < |run| && x in run[b].servers && run[b].servers[x].applied != []
    ensures b > 0 && x in run[b - 1].servers && !(evs[b - 1].Restart? && evs[b - 1].i == x)
  {
    if b > 0 {
      assert Next(run[b - 1], evs[b - 1], run[b - 1 + 1]);
    }
  }
}
