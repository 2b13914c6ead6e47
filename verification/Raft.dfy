/**
 The protocol argument: election, replication and acknowledgement over an
 abstract view of the cluster, with a record of all votes and leaderships.
 */
module Raft {
  import opened Types

  /** What one server contributes to the argument. */
  datatype Node = Node(term: nat, votedFor: Id, role: Role, log: seq<Entry>,
                       completed: bool, granted: int, voted: set<Id>)

  /** Who led a term, who had voted for it when it won, its log when it won, and its log since. */
  datatype Leadership = Leadership(id: Id, voters: set<Id>, won: seq<Entry>, log: seq<Entry>)

  /** Whom a server voted for in a term, and its own log at that moment. */
  datatype Ballot = Ballot(candidate: Id, log: seq<Entry>)

  datatype State = State(nodes: map<Id, Node>, net: set<Msg>,
                         leaders: map<nat, Leadership>, votes: map<(Id, nat), Ballot>)

  // ----- vocabulary

  ghost predicate HasPrefix(log: seq<Entry>, other: seq<Entry>, n: nat) {
    n <= |log| && n <= |other| && log[..n] == other[..n]
  }

  ghost predicate VotedFor(votes: map<(Id, nat), Ballot>, j: Id, t: nat, c: Id) {
    (j, t) in votes && votes[(j, t)].candidate == c
  }

  /** Those among `voted` whose vote in term `t` went to `c`. */
  ghost function Supporters(votes: map<(Id, nat), Ballot>, voted: set<Id>, t: nat, c: Id): set<Id> {
    set j | j in voted && VotedFor(votes, j, t, c)
  }

  /** The entry at `k` fixes everything up to `k`: it is what its term's leader holds. */
  ghost predicate TracedAt(leaders: map<nat, Leadership>, log: seq<Entry>, k: nat)
    requires k < |log|
  {
    log[k].term in leaders && HasPrefix(log, leaders[log[k].term].log, k + 1)
  }

  ghost predicate Traced(leaders: map<nat, Leadership>, log: seq<Entry>) {
    forall k | 0 <= k < |log| :: TracedAt(leaders, log, k)
  }

  ghost predicate TermsAtMost(log: seq<Entry>, t: nat) {
    forall k | 0 <= k < |log| :: log[k].term <= t
  }

  /** Does the leader of every term strictly between `t` and `u` hold the first `n` entries of term `t`'s leader? */
  ghost predicate Safe(leaders: map<nat, Leadership>, t: nat, n: nat, u: nat)
    requires t in leaders
  {
    forall v | v in leaders && t < v < u :: HasPrefix(leaders[v].log, leaders[t].log, n)
  }

  /** Server `j` has acknowledged the first `n` entries in term `t`; the term's leader acknowledges its own log. */
  ghost predicate Acked(st: State, j: Id, t: nat, n: nat) {
    t in st.leaders && n <= |st.leaders[t].log| &&
    (st.leaders[t].id == j || exists m :: m in st.net && IsAck(m, j, t, n))
  }

  ghost predicate IsAck(m: Msg, j: Id, t: nat, n: nat) {
    m.AppendResp? && m.accepted && m.src == j && m.term == t && n < m.nextIdx
  }

  // ----- the invariant

  /** Votes belong to terms already reached, and the live vote is the recorded one. */
  ghost predicate Voting(st: State) {
    && NONE !in st.nodes
    && (forall j, t | (j, t) in st.votes ::
          && j in st.nodes && 1 <= t <= st.nodes[j].term
          && st.votes[(j, t)].candidate in st.nodes
          && t <= st.nodes[st.votes[(j, t)].candidate].term)
    && (forall j | j in st.nodes ::
          st.nodes[j].votedFor ==
          if (j, st.nodes[j].term) in st.votes then st.votes[(j, st.nodes[j].term)].candidate else NONE)
  }

  /** A granted vote was cast; a vote request states the candidate's log as it stood and still stands. */
  ghost predicate Polling(st: State) {
    && (forall m | m in st.net && m.VoteResp? && m.accepted ::
          VotedFor(st.votes, m.src, m.term, m.dst))
    && (forall m | m in st.net && m.VoteResp? :: m.src in st.nodes)
    && (forall m | m in st.net && m.VoteReq? ::
          && m.src in st.nodes && m.dst != m.src && 1 <= m.term <= st.nodes[m.src].term
          && (m.term in st.leaders && st.leaders[m.term].id == m.src ==>
                Describes(m, st.leaders[m.term].won))
          && (m.term !in st.leaders && m.term == st.nodes[m.src].term ==>
                Describes(m, st.nodes[m.src].log)))
  }

  ghost predicate Describes(m: Msg, log: seq<Entry>)
    requires m.VoteReq?
  {
    m.lastLogIdx == |log| && m.lastLogTerm == LastTerm(log)
  }

  /** A candidate never counts more votes than it was given. */
  ghost predicate Counting(st: State) {
    forall i | i in st.nodes ::
      && st.nodes[i].voted <= st.nodes.Keys
      && st.nodes[i].granted <=
         |Supporters(st.votes, st.nodes[i].voted, st.nodes[i].term, i)|
  }

  /** Leaders have majorities, win once, and hold the log on record. */
  ghost predicate Leading(st: State) {
    && (forall t | t in st.leaders :: LeadershipOk(st, t, st.leaders[t]))
    && (forall i | i in st.nodes && st.nodes[i].role.Leader? ::
          && st.nodes[i].term in st.leaders
          && st.leaders[st.nodes[i].term].id == i
          && st.leaders[st.nodes[i].term].log == st.nodes[i].log)
  }

  ghost predicate LeadershipOk(st: State, t: nat, l: Leadership) {
    && l.id in st.nodes && 1 <= t <= st.nodes[l.id].term
    && Majority(l.voters, st.nodes.Keys)
    && (forall j | j in l.voters :: VotedFor(st.votes, j, t, l.id))
    && (st.nodes[l.id].term == t ==> st.nodes[l.id].completed && !st.nodes[l.id].role.Candidate?)
  }

  /** Every log, past or present, is a patchwork of leader logs; a leader only appends its own term. */
  ghost predicate Logs(st: State) {
    && (forall i | i in st.nodes ::
          Traced(st.leaders, st.nodes[i].log) && TermsAtMost(st.nodes[i].log, st.nodes[i].term))
    && (forall t | t in st.leaders :: LeaderLogOk(st.leaders, t, st.leaders[t]))
    && (forall b | b in st.votes :: Traced(st.leaders, st.votes[b].log))
  }

  ghost predicate LeaderLogOk(leaders: map<nat, Leadership>, t: nat, l: Leadership) {
    && Traced(leaders, l.log)
    && l.won <= l.log
    && (forall k | 0 <= k < |l.log| :: if k < |l.won| then l.log[k].term < t else l.log[k].term == t)
  }

  /** An append request is a slice of its term's leader log. */
  ghost predicate Requests(st: State) {
    forall m | m in st.net && m.AppendReq? ::
      m.term in st.leaders && SliceOf(m, st.leaders[m.term])
  }

  ghost predicate SliceOf(m: Msg, l: Leadership)
    requires m.AppendReq?
  {
    && m.src == l.id && m.dst != m.src
    && m.lastLogIdx + |m.entries| <= |l.log|
    && m.entries == l.log[m.lastLogIdx..m.lastLogIdx + |m.entries|]
    && m.lastLogTerm == TermAt(l.log, m.lastLogIdx)
  }

  /** Accepted acknowledgements come from servers that reached the term, and speak of entries that exist. */
  ghost predicate Acks(st: State) {
    forall m | m in st.net && m.AppendResp? && m.accepted ::
      && m.src in st.nodes && m.term <= st.nodes[m.src].term
      && m.term in st.leaders && 1 <= m.nextIdx <= |st.leaders[m.term].log| + 1
  }

  /** What was acknowledged is still there, unless a later leader lacked it. */
  ghost predicate AckKept(st: State, j: Id, t: nat, n: nat) {
    j in st.nodes && Acked(st, j, t, n) && Safe(st.leaders, t, n, st.nodes[j].term + 1) ==>
      HasPrefix(st.nodes[j].log, st.leaders[t].log, n)
  }

  /** The same for the log a server had when it helped to elect the leader of `u`. */
  ghost predicate BallotKept(st: State, j: Id, u: nat, t: nat, n: nat) {
    && (j, u) in st.votes && t < u
    && (u in st.leaders ==> j in st.leaders[u].voters)
    && Acked(st, j, t, n) && Safe(st.leaders, t, n, u)
    ==> HasPrefix(st.votes[(j, u)].log, st.leaders[t].log, n)
  }

  ghost predicate Kept(st: State) {
    && (forall j, t, n :: AckKept(st, j, t, n))
    && (forall j, u, t, n :: BallotKept(st, j, u, t, n))
  }

  /** The winner of a term, or a candidate that may still win it, is at least as current as its voters were. */
  ghost predicate Current(st: State) {
    forall j, t | (j, t) in st.votes :: CurrentAt(st, j, t, st.votes[(j, t)])
  }

  ghost predicate CurrentAt(st: State, j: Id, t: nat, b: Ballot) {
    if t in st.leaders then
      j in st.leaders[t].voters ==> UpToDate(LastTerm(st.leaders[t].won), |st.leaders[t].won|, b.log)
    else
      b.candidate in st.nodes && st.nodes[b.candidate].term == t ==>
        UpToDate(LastTerm(st.nodes[b.candidate].log), |st.nodes[b.candidate].log|, b.log)
  }

  ghost predicate Inv(st: State) {
    && Voting(st) && Polling(st) && Counting(st) && Leading(st)
    && Logs(st) && Requests(st) && Acks(st) && Kept(st) && Current(st)
  }

  /** The parts of the invariant, for proofs that keep it hidden otherwise. */
  lemma Open(st: State)
    ensures Inv(st) <==>
              && Voting(st) && Polling(st) && Counting(st) && Leading(st)
              && Logs(st) && Requests(st) && Acks(st) && Kept(st) && Current(st)
  {
  }

  // ----- the steps

  lemma SubsetSize<T>(a: set<T>, b: set<T>)
    requires a <= b
    ensures |a| <= |b|
  {
    assert b == a + (b - a);
  }

  /** One server changes everything but its log: a higher term, a closed election, one more vote counted. */
  ghost function Adjust(st: State, i: Id, n: Node): State {
    st.(nodes := st.nodes[i := n])
  }

  ghost predicate Adjusts(st: State, i: Id, n: Node)
    requires i in st.nodes
  {
    var o := st.nodes[i];
    && n.log == o.log
    && (if n.term > o.term then n.votedFor == NONE && n.role.Follower?
        else n.term == o.term && n.votedFor == o.votedFor && (n.role == o.role || n.role.Follower?)
             && (o.completed ==> n.completed))
    && n.voted <= st.nodes.Keys
    && n.granted <= |Supporters(st.votes, n.voted, n.term, i)|
  }

  lemma AdjustKeeps(st: State, i: Id, n: Node)
    requires Inv(st) && i in st.nodes && Adjusts(st, i, n)
    ensures Inv(Adjust(st, i, n))
  {
    hide Inv, Polling, Counting, Leading, Logs, Requests, Acks, Kept, Current;
    Open(st);
    Open(Adjust(st, i, n));
    var st' := Adjust(st, i, n);
    assert st'.nodes.Keys == st.nodes.Keys;
    assert Voting(st') && Counting(st') by { AdjustVoting(st, i, n); }
    assert Polling(st') && Logs(st') && Requests(st') && Acks(st') by { AdjustFrame(st, i, n); }
    assert Leading(st') by { LeadingFrame(st, st'); }
    assert Kept(st') by { KeptFrame(st, st'); }
    assert Current(st') by { CurrentFrame(st, st'); }
  }

  lemma CountNow(st: State, i: Id)
    requires Inv(st) && i in st.nodes
    ensures st.nodes[i].voted <= st.nodes.Keys
    ensures st.nodes[i].granted <= |Supporters(st.votes, st.nodes[i].voted, st.nodes[i].term, i)|
  {
    Open(st);
  }

  lemma AdjustVoting(st: State, i: Id, n: Node)
    requires Voting(st) && Counting(st) && i in st.nodes && Adjusts(st, i, n)
    ensures Voting(Adjust(st, i, n)) && Counting(Adjust(st, i, n))
  {
    assert Adjust(st, i, n).nodes.Keys == st.nodes.Keys;
  }

  lemma AdjustFrame(st: State, i: Id, n: Node)
    requires Polling(st) && Logs(st) && Requests(st) && Acks(st) && i in st.nodes && Adjusts(st, i, n)
    ensures var st' := Adjust(st, i, n); Polling(st') && Logs(st') && Requests(st') && Acks(st')
  {
  }

  /** Currency survives if no log changes in a term that may still be won, and nobody reaches a term it stood in. */
  lemma CurrentFrame(st: State, st': State)
    requires Current(st) && st'.votes == st.votes && st'.leaders == st.leaders
    requires st'.nodes.Keys == st.nodes.Keys
    requires forall j, t | (j, t) in st.votes && st.votes[(j, t)].candidate in st.nodes ::
               t <= st.nodes[st.votes[(j, t)].candidate].term <= st'.nodes[st.votes[(j, t)].candidate].term
    requires forall j | j in st.nodes && st.nodes[j].term !in st.leaders :: st'.nodes[j].log == st.nodes[j].log
    ensures Current(st')
  {
    forall j, t | (j, t) in st'.votes ensures CurrentAt(st', j, t, st'.votes[(j, t)]) {
      assert CurrentAt(st, j, t, st.votes[(j, t)]);
    }
  }

  lemma LeadingFrame(st: State, st': State)
    requires Leading(st) && st'.nodes.Keys == st.nodes.Keys && st'.leaders == st.leaders
    requires forall b | b in st.votes :: b in st'.votes && st'.votes[b] == st.votes[b]
    requires forall j | j in st.nodes ::
               && st'.nodes[j].log == st.nodes[j].log && st'.nodes[j].term >= st.nodes[j].term
               && (st'.nodes[j].role.Leader? ==> st.nodes[j].role.Leader? && st'.nodes[j].term == st.nodes[j].term)
               && (st.nodes[j].completed && st'.nodes[j].term == st.nodes[j].term ==>
                     st'.nodes[j].completed && (st'.nodes[j].role.Candidate? ==> st.nodes[j].role.Candidate?))
    ensures Leading(st')
  {
    forall t | t in st'.leaders ensures LeadershipOk(st', t, st'.leaders[t]) {
      assert LeadershipOk(st, t, st.leaders[t]);
    }
  }

  /** Steps that change neither messages, votes nor leaders keep `Kept` if no log changes and terms only grow. */
  lemma KeptFrame(st: State, st': State)
    requires Kept(st)
    requires st'.net == st.net && st'.votes == st.votes && st'.leaders == st.leaders
    requires st'.nodes.Keys == st.nodes.Keys
    requires forall j | j in st.nodes ::
               st'.nodes[j].log == st.nodes[j].log && st'.nodes[j].term >= st.nodes[j].term
    ensures Kept(st')
  {
    forall j, t, n ensures AckKept(st', j, t, n) {
      assert AckKept(st, j, t, n);
    }
    forall j, u, t, n ensures BallotKept(st', j, u, t, n) {
      assert BallotKept(st, j, u, t, n);
    }
  }

  /** A server that has not voted in its term votes for `c`, or stands for election itself. */
  ghost function Cast(st: State, i: Id, c: Id): State
    requires i in st.nodes
  {
    var n := st.nodes[i];
    var n' := if c == i then n.(votedFor := i, role := Candidate, granted := 1, voted := {i})
              else n.(votedFor := c);
    st.(nodes := st.nodes[i := n'], votes := st.votes[(i, n.term) := Ballot(c, n.log)])
  }

  ghost predicate MayCast(st: State, i: Id, c: Id) {
    && i in st.nodes && c in st.nodes
    && st.nodes[i].votedFor == NONE && 1 <= st.nodes[i].term <= st.nodes[c].term
    && (c == i ==> !st.nodes[i].completed && !st.nodes[i].role.Leader?)
    && (st.nodes[c].term == st.nodes[i].term && st.nodes[i].term !in st.leaders ==>
          UpToDate(LastTerm(st.nodes[c].log), |st.nodes[c].log|, st.nodes[i].log))
  }

  lemma NotVotedYet(st: State, i: Id)
    requires Inv(st) && i in st.nodes && st.nodes[i].votedFor == NONE
    ensures (i, st.nodes[i].term) !in st.votes
  {
    Open(st);
    assert Voting(st);
  }

  lemma CastKeeps(st: State, i: Id, c: Id)
    requires Inv(st) && MayCast(st, i, c)
    ensures Inv(Cast(st, i, c))
  {
    hide Inv, Polling, Counting, Logs, Requests, Acks, Kept, Current;
    Open(st);
    Open(Cast(st, i, c));
    var st' := Cast(st, i, c);
    assert st'.nodes.Keys == st.nodes.Keys;
    assert (i, st.nodes[i].term) !in st.votes;
    assert Voting(st') by { CastVoting(st, i, c); }
    assert Polling(st') by { CastPolling(st, i, c); }
    assert Counting(st') by { CastCounting(st, i, c); }
    assert Leading(st') by { LeadingFrame(st, st'); }
    assert Logs(st') && Requests(st') && Acks(st') by { CastFrame(st, i, c); }
    assert Kept(st') by { CastKept(st, i, c); }
    assert Current(st') by { CastCurrent(st, i, c); }
  }

  lemma CastFrame(st: State, i: Id, c: Id)
    requires Logs(st) && Requests(st) && Acks(st) && i in st.nodes
    ensures Logs(Cast(st, i, c)) && Requests(Cast(st, i, c)) && Acks(Cast(st, i, c))
  {
  }

  lemma CastVoting(st: State, i: Id, c: Id)
    requires Voting(st) && MayCast(st, i, c)
    ensures Voting(Cast(st, i, c))
  {
  }

  lemma CastPolling(st: State, i: Id, c: Id)
    requires Polling(st) && i in st.nodes && (i, st.nodes[i].term) !in st.votes
    ensures Polling(Cast(st, i, c))
  {
  }

  lemma CastCounting(st: State, i: Id, c: Id)
    requires Counting(st) && i in st.nodes && (i, st.nodes[i].term) !in st.votes
    ensures Counting(Cast(st, i, c))
  {
    var st' := Cast(st, i, c);
    forall k | k in st'.nodes
      ensures st'.nodes[k].granted <= |Supporters(st'.votes, st'.nodes[k].voted, st'.nodes[k].term, k)|
    {
      if k == i == c {
        assert Supporters(st'.votes, {i}, st.nodes[i].term, i) == {i};
      } else {
        SubsetSize(Supporters(st.votes, st.nodes[k].voted, st.nodes[k].term, k),
                   Supporters(st'.votes, st'.nodes[k].voted, st'.nodes[k].term, k));
      }
    }
  }

  lemma CastCurrent(st: State, i: Id, c: Id)
    requires Current(st) && Leading(st) && MayCast(st, i, c) && (i, st.nodes[i].term) !in st.votes
    ensures Current(Cast(st, i, c))
  {
    var st', t := Cast(st, i, c), st.nodes[i].term;
    forall j, u | (j, u) in st'.votes ensures CurrentAt(st', j, u, st'.votes[(j, u)]) {
      if (j, u) != (i, t) {
        assert CurrentAt(st, j, u, st.votes[(j, u)]);
      } else if t in st.leaders {
        assert LeadershipOk(st, t, st.leaders[t]);
      }
    }
  }

  lemma CastKept(st: State, i: Id, c: Id)
    requires Kept(st) && Leading(st) && i in st.nodes && (i, st.nodes[i].term) !in st.votes
    ensures Kept(Cast(st, i, c))
  {
    var st', t := Cast(st, i, c), st.nodes[i].term;
    forall j, u, n ensures AckKept(st', j, u, n) {
      assert AckKept(st, j, u, n);
    }
    forall j, u: nat, v: nat, n: nat ensures BallotKept(st', j, u, v, n) {
      if (j, u) != (i, t) {
        assert BallotKept(st, j, u, v, n);
      } else {
        assert AckKept(st, i, v, n);
        assert t in st.leaders ==> LeadershipOk(st, t, st.leaders[t]);
      }
    }
  }

  // ----- leaders and their logs

  /** Leader logs only grow, and only by entries of the leader's own term. */
  ghost predicate Extends(a: map<nat, Leadership>, b: map<nat, Leadership>) {
    forall t | t in a ::
      && t in b && b[t].id == a[t].id && b[t].voters == a[t].voters && b[t].won == a[t].won
      && a[t].log <= b[t].log
      && (forall k | |a[t].log| <= k < |b[t].log| :: b[t].log[k].term == t)
  }

  lemma TracedExtends(a: map<nat, Leadership>, b: map<nat, Leadership>, log: seq<Entry>)
    requires Extends(a, b) && Traced(a, log)
    ensures Traced(b, log)
  {
    forall k | 0 <= k < |log| ensures TracedAt(b, log, k) {
      assert TracedAt(a, log, k);
    }
  }

  /** If all leaders between `t` and `u` hold a prefix after growing, they held it before. */
  lemma SafeBefore(a: map<nat, Leadership>, b: map<nat, Leadership>, t: nat, n: nat, u: nat)
    requires Extends(a, b) && t in a && n <= |a[t].log|
    requires LeaderLogOk(a, t, a[t])
    requires Safe(b, t, n, u)
    ensures Safe(a, t, n, u)
  {
    forall v | v in a && t < v < u ensures HasPrefix(a[v].log, a[t].log, n) {
      assert HasPrefix(b[v].log, b[t].log, n);
      assert forall k | 0 <= k < n :: b[v].log[k] == b[v].log[..n][k] == b[t].log[..n][k] == a[t].log[k];
      assert |a[v].log| < |b[v].log| ==> b[v].log[|a[v].log|].term == v;
    }
  }

  lemma MajoritiesMeet(a: set<Id>, b: set<Id>, ids: set<Id>) returns (j: Id)
    requires Majority(a, ids) && Majority(b, ids)
    ensures j in a && j in b
  {
    SubsetSize(a + b, ids);
    assert |a + b| + |a * b| == |a| + |b|;
    var both := a * b;
    assert (forall k :: k !in both) ==> both == {};
    j :| j in both;
  }

  /** A server whose votes add up cannot win a term that has a leader already. */
  lemma WinsOnce(st: State, i: Id)
    requires Inv(st) && i in st.nodes
    requires !st.nodes[i].completed && 2 * st.nodes[i].granted > |st.nodes|
    ensures st.nodes[i].term !in st.leaders
  {
    hide Inv;
    Open(st);
    var n := st.nodes[i];
    if n.term in st.leaders {
      var l := st.leaders[n.term];
      assert LeadershipOk(st, n.term, l);
      var j := MajoritiesMeet(Supporters(st.votes, n.voted, n.term, i), l.voters, st.nodes.Keys);
    }
  }

  /** Server `i` leads its term, newly elected or not, with `es` appended to its log. */
  ghost function Lead(st: State, i: Id, es: seq<Entry>): State
    requires i in st.nodes
  {
    var n := st.nodes[i];
    var l := if n.term in st.leaders then st.leaders[n.term]
             else Leadership(i, Supporters(st.votes, st.nodes.Keys, n.term, i), n.log, n.log);
    st.(nodes := st.nodes[i := n.(role := Leader, completed := true, log := n.log + es)],
        leaders := st.leaders[n.term := l.(log := n.log + es)])
  }

  /** It is leading already, or has just won. */
  ghost predicate MayLead(st: State, i: Id, es: seq<Entry>) {
    && i in st.nodes
    && (forall e | e in es :: e.term == st.nodes[i].term)
    && (st.nodes[i].role.Leader? ||
        (!st.nodes[i].completed && 2 * st.nodes[i].granted > |st.nodes| && st.nodes[i].term !in st.leaders))
  }

  lemma LeadKeeps(st: State, i: Id, es: seq<Entry>)
    requires Inv(st) && MayLead(st, i, es)
    ensures Inv(Lead(st, i, es)) && Extends(st.leaders, Lead(st, i, es).leaders)
  {
    hide Inv;
    Open(st);
    Open(Lead(st, i, es));
    var st' := Lead(st, i, es);
    assert st'.nodes.Keys == st.nodes.Keys;
    assert Extends(st.leaders, st'.leaders) by { LeadExtends(st, i, es); }
    assert Voting(st') && Counting(st') && Acks(st') by { LeadFrame(st, i, es); }
    assert Polling(st') by { LeadPolling(st, i, es); }
    assert Leading(st') by { LeadLeading(st, i, es); }
    assert Logs(st') by { LeadLogs(st, i, es); }
    assert Requests(st') by { LeadRequests(st, st'); }
    assert Kept(st') by { LeadKept(st, i, es); }
    assert Current(st') by { LeadCurrent(st, i, es); }
  }

  lemma LeadExtends(st: State, i: Id, es: seq<Entry>)
    requires Leading(st) && MayLead(st, i, es)
    ensures Extends(st.leaders, Lead(st, i, es).leaders)
  {
    var n := st.nodes[i];
    forall k | |n.log| <= k < |n.log + es| ensures (n.log + es)[k].term == n.term {
      assert (n.log + es)[k] in es;
    }
  }

  lemma LeadFrame(st: State, i: Id, es: seq<Entry>)
    requires Voting(st) && Counting(st) && Acks(st) && i in st.nodes
    requires Extends(st.leaders, Lead(st, i, es).leaders)
    ensures Voting(Lead(st, i, es)) && Counting(Lead(st, i, es)) && Acks(Lead(st, i, es))
  {
    assert Lead(st, i, es).nodes.Keys == st.nodes.Keys;
  }

  lemma LeadPolling(st: State, i: Id, es: seq<Entry>)
    requires Polling(st) && Leading(st) && MayLead(st, i, es)
    ensures Polling(Lead(st, i, es))
  {
  }

  /** A new leader has the majority it counted. */
  lemma NewLeadership(st: State, i: Id, es: seq<Entry>)
    requires Leading(st) && Counting(st) && Voting(st) && MayLead(st, i, es) && st.nodes[i].term !in st.leaders
    ensures var st', t := Lead(st, i, es), st.nodes[i].term; LeadershipOk(st', t, st'.leaders[t])
  {
    var st', t := Lead(st, i, es), st.nodes[i].term;
    assert st'.nodes.Keys == st.nodes.Keys;
    var q := Supporters(st.votes, st.nodes[i].voted, t, i);
    SubsetSize(q, st'.leaders[t].voters);
    var j :| j in q;
  }

  lemma LeadLeading(st: State, i: Id, es: seq<Entry>)
    requires Leading(st) && Counting(st) && Voting(st) && MayLead(st, i, es)
    ensures Leading(Lead(st, i, es))
  {
    hide Counting, Voting, Supporters;
    var st' := Lead(st, i, es);
    assert st'.nodes.Keys == st.nodes.Keys;
    forall u | u in st'.leaders ensures LeadershipOk(st', u, st'.leaders[u]) {
      if u in st.leaders {
        assert LeadershipOk(st, u, st.leaders[u]);
      } else {
        NewLeadership(st, i, es);
      }
    }
  }

  lemma LeadLogs(st: State, i: Id, es: seq<Entry>)
    requires Logs(st) && Leading(st) && MayLead(st, i, es)
    ensures Logs(Lead(st, i, es))
  {
    var st', n := Lead(st, i, es), st.nodes[i];
    LeadExtends(st, i, es);
    assert Traced(st'.leaders, n.log + es) by {
      TracedExtends(st.leaders, st'.leaders, n.log);
      forall k | 0 <= k < |n.log + es| ensures TracedAt(st'.leaders, n.log + es, k) {
        if k < |n.log| {
          assert TracedAt(st'.leaders, n.log, k);
        } else {
          assert (n.log + es)[k] in es;
        }
      }
    }
    forall j | j in st'.nodes
      ensures Traced(st'.leaders, st'.nodes[j].log) && TermsAtMost(st'.nodes[j].log, st'.nodes[j].term)
    {
      TracedExtends(st.leaders, st'.leaders, st.nodes[j].log);
    }
    forall u | u in st'.leaders ensures LeaderLogOk(st'.leaders, u, st'.leaders[u]) {
      if u != n.term {
        assert LeaderLogOk(st.leaders, u, st.leaders[u]);
        TracedExtends(st.leaders, st'.leaders, st.leaders[u].log);
      } else {
        var l := st'.leaders[u];
        forall k | 0 <= k < |l.log| ensures if k < |l.won| then l.log[k].term < u else l.log[k].term == u {
          if k >= |n.log| {
            assert (n.log + es)[k] in es;
          } else if u in st.leaders {
            assert LeaderLogOk(st.leaders, u, st.leaders[u]);
          } else {
            assert TracedAt(st.leaders, n.log, k);
          }
        }
      }
    }
    forall b | b in st'.votes ensures Traced(st'.leaders, st'.votes[b].log) {
      TracedExtends(st.leaders, st'.leaders, st.votes[b].log);
    }
  }

  lemma LeadRequests(st: State, st': State)
    requires Requests(st) && st'.net == st.net && Extends(st.leaders, st'.leaders)
    ensures Requests(st')
  {
  }

  lemma LeadKept(st: State, i: Id, es: seq<Entry>)
    requires Kept(st) && Leading(st) && Logs(st) && Acks(st) && Voting(st) && MayLead(st, i, es)
    ensures Kept(Lead(st, i, es))
  {
    var st' := Lead(st, i, es);
    LeadExtends(st, i, es);
    forall j, u: nat, n: nat ensures AckKept(st', j, u, n) {
      LeadAckKept(st, i, es, j, u, n);
    }
    forall j, w: nat, u: nat, n: nat ensures BallotKept(st', j, w, u, n) {
      if (j, w) in st.votes && u < w && Acked(st, j, u, n) && Safe(st'.leaders, u, n, w) {
        SafeBefore(st.leaders, st'.leaders, u, n, w);
      }
      assert BallotKept(st, j, w, u, n);
    }
  }

  lemma LeadAckKept(st: State, i: Id, es: seq<Entry>, j: Id, u: nat, n: nat)
    requires AckKept(st, j, u, n) && Leading(st) && Logs(st) && Acks(st) && MayLead(st, i, es)
    requires Extends(st.leaders, Lead(st, i, es).leaders)
    ensures AckKept(Lead(st, i, es), j, u, n)
  {
    var st' := Lead(st, i, es);
    if Acked(st, j, u, n) && j in st.nodes && Safe(st'.leaders, u, n, st'.nodes[j].term + 1) {
      SafeBefore(st.leaders, st'.leaders, u, n, st.nodes[j].term + 1);
    }
  }

  lemma LeadCurrent(st: State, i: Id, es: seq<Entry>)
    requires Current(st) && Leading(st) && MayLead(st, i, es)
    ensures Current(Lead(st, i, es))
  {
    var st' := Lead(st, i, es);
    forall j, u | (j, u) in st'.votes ensures CurrentAt(st', j, u, st'.votes[(j, u)]) {
      assert CurrentAt(st, j, u, st.votes[(j, u)]);
    }
  }

  // ----- replication

  /** Two logs that agree on a term at one index agree up to that index. */
  lemma SameTermSamePrefix(leaders: map<nat, Leadership>, a: seq<Entry>, b: seq<Entry>, k: nat)
    requires Traced(leaders, a) && Traced(leaders, b)
    requires k < |a| && k < |b| && a[k].term == b[k].term
    ensures HasPrefix(a, b, k + 1)
  {
    assert TracedAt(leaders, a, k) && TracedAt(leaders, b, k);
  }

  /** Merging a slice of a log `l` leaves a log that agrees with `l` there and keeps what both had. */
  lemma {:induction false} MergeAgrees(leaders: map<nat, Leadership>, log: seq<Entry>, l: seq<Entry>, p: nat, q: nat)
    requires Traced(leaders, log) && Traced(leaders, l)
    requires p <= q <= |l| && HasPrefix(log, l, p)
    ensures var r := Merge(log, p, l[p..q]);
            HasPrefix(r, l, q) && (r == log || r == l[..q])
    ensures forall other, n | HasPrefix(log, other, n) && HasPrefix(l, other, n) ::
              HasPrefix(Merge(log, p, l[p..q]), other, n)
    decreases q - p
  {
    if p < q {
      var es := l[p..q];
      if p < |log| && log[p].term == es[0].term {
        SameTermSamePrefix(leaders, log, l, p);
        assert es[1..] == l[p + 1..q];
        MergeAgrees(leaders, log, l, p + 1, q);
      } else {
        assert log[..p] + es == l[..q];
        forall other, n: nat | HasPrefix(log, other, n) && HasPrefix(l, other, n) ensures HasPrefix(l[..q], other, n) {
          assert forall k | 0 <= k < n :: log[k] == log[..n][k] == l[..n][k] == l[k];
          assert l[..q][..n] == l[..n];
        }
      }
    }
  }

  /** A follower takes over the entries of an append request. */
  ghost function Accept(st: State, i: Id, m: Msg): State
    requires i in st.nodes && m.AppendReq? && m.lastLogIdx <= |st.nodes[i].log|
  {
    var n := st.nodes[i];
    st.(nodes := st.nodes[i := n.(log := Merge(n.log, m.lastLogIdx, m.entries))])
  }

  ghost predicate MayAccept(st: State, i: Id, m: Msg) {
    && m in st.net && m.AppendReq? && i in st.nodes && m.dst == i
    && m.term == st.nodes[i].term
    && m.lastLogIdx <= |st.nodes[i].log| && m.lastLogTerm == TermAt(st.nodes[i].log, m.lastLogIdx)
  }

  /** What the follower holds afterwards is what the leader of the request's term holds. */
  lemma AcceptAgrees(st: State, i: Id, m: Msg)
    requires Logs(st) && Requests(st) && MayAccept(st, i, m)
    ensures var l, r, q := st.leaders[m.term].log, Accept(st, i, m).nodes[i].log, m.lastLogIdx + |m.entries|;
            && HasPrefix(r, l, q) && (r == st.nodes[i].log || r == l[..q])
            && (forall other, n | HasPrefix(st.nodes[i].log, other, n) && HasPrefix(l, other, n) ::
                  HasPrefix(r, other, n))
  {
    var n, l, p := st.nodes[i], st.leaders[m.term].log, m.lastLogIdx;
    assert SliceOf(m, st.leaders[m.term]);
    assert LeaderLogOk(st.leaders, m.term, st.leaders[m.term]);
    if p > 0 {
      SameTermSamePrefix(st.leaders, n.log, l, p - 1);
    }
    MergeAgrees(st.leaders, n.log, l, p, p + |m.entries|);
  }

  /** The follower's own test of a request is enough. */
  lemma OkayMayAccept(st: State, i: Id, m: Msg)
    requires Inv(st) && m in st.net && m.AppendReq? && i in st.nodes && m.dst == i && m.term == st.nodes[i].term
    requires m.lastLogIdx == 0 ||
             (m.lastLogIdx <= |st.nodes[i].log| && m.lastLogTerm == TermAt(st.nodes[i].log, m.lastLogIdx))
    ensures MayAccept(st, i, m) && m.term in st.leaders
  {
    Open(st);
    assert SliceOf(m, st.leaders[m.term]);
  }

  lemma AcceptedPrefix(st: State, i: Id, m: Msg)
    requires Inv(st) && MayAccept(st, i, m) && m.term in st.leaders
    ensures HasPrefix(Accept(st, i, m).nodes[i].log, st.leaders[m.term].log, m.lastLogIdx + |m.entries|)
  {
    Open(st);
    AcceptAgrees(st, i, m);
  }

  lemma AcceptKeeps(st: State, i: Id, m: Msg)
    requires Inv(st) && MayAccept(st, i, m) && !st.nodes[i].role.Leader?
    ensures Inv(Accept(st, i, m))
  {
    hide Inv, Polling, Counting, Leading, Logs, Requests, Acks, Kept, Current;
    Open(st);
    Open(Accept(st, i, m));
    var st' := Accept(st, i, m);
    assert m.term in st.leaders by { RequestHasLeader(st, m); }
    assert Voting(st') && Polling(st') && Counting(st') && Acks(st') by { AcceptFrame(st, i, m); }
    assert Leading(st') by { AcceptLeading(st, i, m); }
    assert Logs(st') && Requests(st') by { AcceptLogs(st, i, m); }
    assert Kept(st') by { AcceptKept(st, i, m); }
    assert Current(st') by { AcceptCurrent(st, i, m); }
  }

  lemma RequestHasLeader(st: State, m: Msg)
    requires Requests(st) && m in st.net && m.AppendReq?
    ensures m.term in st.leaders
  {
  }

  lemma AcceptCurrent(st: State, i: Id, m: Msg)
    requires Current(st) && Voting(st) && MayAccept(st, i, m) && m.term in st.leaders
    ensures Current(Accept(st, i, m))
  {
    hide Current;
    var st' := Accept(st, i, m);
    assert st'.nodes.Keys == st.nodes.Keys;
    CurrentFrame(st, st');
  }

  lemma AcceptFrame(st: State, i: Id, m: Msg)
    requires Voting(st) && Polling(st) && Counting(st) && Acks(st)
    requires MayAccept(st, i, m) && m.term in st.leaders
    ensures var st' := Accept(st, i, m); Voting(st') && Polling(st') && Counting(st') && Acks(st')
  {
    hide Voting, Polling, Counting, Acks;
    AcceptVotes(st, i, m);
    AcceptAcks(st, i, m);
  }

  lemma AcceptVotes(st: State, i: Id, m: Msg)
    requires Voting(st) && Polling(st) && Counting(st) && MayAccept(st, i, m) && m.term in st.leaders
    ensures var st' := Accept(st, i, m); Voting(st') && Polling(st') && Counting(st')
  {
    assert Accept(st, i, m).nodes.Keys == st.nodes.Keys;
  }

  lemma AcceptAcks(st: State, i: Id, m: Msg)
    requires Acks(st) && MayAccept(st, i, m) && m.term in st.leaders
    ensures Acks(Accept(st, i, m))
  {
  }

  lemma AcceptLeading(st: State, i: Id, m: Msg)
    requires Leading(st) && MayAccept(st, i, m) && !st.nodes[i].role.Leader?
    ensures Leading(Accept(st, i, m))
  {
    var st' := Accept(st, i, m);
    assert st'.nodes.Keys == st.nodes.Keys;
    forall t | t in st'.leaders ensures LeadershipOk(st', t, st'.leaders[t]) {
      assert LeadershipOk(st, t, st.leaders[t]);
    }
  }

  lemma AcceptLogs(st: State, i: Id, m: Msg)
    requires Logs(st) && Requests(st) && MayAccept(st, i, m)
    ensures Logs(Accept(st, i, m)) && Requests(Accept(st, i, m))
  {
    AcceptAgrees(st, i, m);
    var l, q := st.leaders[m.term].log, m.lastLogIdx + |m.entries|;
    assert LeaderLogOk(st.leaders, m.term, st.leaders[m.term]);
    forall k | 0 <= k < q ensures TracedAt(st.leaders, l[..q], k) {
      assert TracedAt(st.leaders, l, k);
      assert l[..q][..k + 1] == l[..k + 1];
    }
  }

  lemma AcceptKept(st: State, i: Id, m: Msg)
    requires Kept(st) && Logs(st) && Requests(st) && Acks(st) && Leading(st) && MayAccept(st, i, m)
    ensures Kept(Accept(st, i, m))
  {
    var st' := Accept(st, i, m);
    AcceptAgrees(st, i, m);
    forall j, t: nat, n: nat ensures AckKept(st', j, t, n) {
      assert AckKept(st, j, t, n);
      if j == i && Acked(st, j, t, n) && Safe(st.leaders, t, n, st.nodes[i].term + 1) {
        assert LeadershipOk(st, t, st.leaders[t]);
        assert HasPrefix(st.leaders[m.term].log, st.leaders[t].log, n);
      }
    }
    forall j, u, t, n ensures BallotKept(st', j, u, t, n) {
      assert BallotKept(st, j, u, t, n);
    }
  }

  /** New messages; the network keeps every message it was ever given. */
  ghost function Send(st: State, ms: set<Msg>): State {
    st.(net := st.net + ms)
  }

  /** What the code may put on the network. */
  ghost predicate Sendable(st: State, m: Msg) {
    match m
    case VoteReq(src, dst, term, _, _, _) =>
      src in st.nodes && dst != src && st.nodes[src].role.Candidate? && term == st.nodes[src].term
      && term >= 1 && Describes(m, st.nodes[src].log)
    case VoteResp(src, dst, term, _, accepted) =>
      src in st.nodes && (accepted ==> VotedFor(st.votes, src, term, dst))
    case AppendReq(src, _, term, _, _, _, _) =>
      src in st.nodes && st.nodes[src].role.Leader? && term == st.nodes[src].term
      && term in st.leaders && SliceOf(m, st.leaders[term])
    case AppendResp(src, _, term, nextIdx, accepted) =>
      accepted ==>
        src in st.nodes && st.nodes[src].term == term && term in st.leaders && nextIdx >= 1
        && HasPrefix(st.nodes[src].log, st.leaders[term].log, nextIdx - 1)
  }

  lemma SendKeeps(st: State, ms: set<Msg>)
    requires Inv(st) && forall m | m in ms :: Sendable(st, m)
    ensures Inv(Send(st, ms))
  {
    hide Inv;
    Open(st);
    Open(Send(st, ms));
    var st' := Send(st, ms);
    assert Polling(st') by { SendPolling(st, ms); }
    assert Leading(st') by { LeadingFrame(st, st'); }
    assert Kept(st') by { SendKept(st, ms); }
    assert Current(st') by { CurrentFrame(st, st'); }
  }

  lemma SendPolling(st: State, ms: set<Msg>)
    requires Polling(st) && Leading(st) && forall m | m in ms :: Sendable(st, m)
    ensures Polling(Send(st, ms))
  {
    assert forall t | t in st.leaders :: LeadershipOk(st, t, st.leaders[t]);
  }

  lemma SendKept(st: State, ms: set<Msg>)
    requires Kept(st) && Voting(st) && forall m | m in ms :: Sendable(st, m)
    ensures Kept(Send(st, ms))
  {
    var st' := Send(st, ms);
    forall j, t: nat, n: nat ensures AckKept(st', j, t, n) {
      assert AckKept(st, j, t, n);
      if j in st.nodes && Acked(st', j, t, n) && !Acked(st, j, t, n) {
        var m :| m in st'.net && IsAck(m, j, t, n);
        assert Sendable(st, m);
        assert st.nodes[j].log[..m.nextIdx - 1][..n] == st.nodes[j].log[..n];
      }
    }
    forall j, u: nat, t: nat, n: nat ensures BallotKept(st', j, u, t, n) {
      assert BallotKept(st, j, u, t, n);
      if (j, u) in st.votes && Acked(st', j, t, n) && !Acked(st, j, t, n) {
        var m :| m in st'.net && IsAck(m, j, t, n);
        assert Sendable(st, m);
      }
    }
  }

  // ----- what the invariant gives

  /** Entries of a log never go down in term. */
  lemma TermsSorted(st: State, log: seq<Entry>, a: nat, b: nat)
    requires Logs(st) && Traced(st.leaders, log) && a <= b < |log|
    ensures log[a].term <= log[b].term
  {
    var t := log[b].term;
    assert TracedAt(st.leaders, log, b);
    assert LeaderLogOk(st.leaders, t, st.leaders[t]);
    assert log[a] == log[..b + 1][a] == st.leaders[t].log[a];
  }

  /** A majority `q` has acknowledged the first `n` entries in term `t`, and the last of them is of that term. */
  ghost predicate Chosen(st: State, t: nat, n: nat, q: set<Id>) {
    && t in st.leaders && 1 <= n <= |st.leaders[t].log| && st.leaders[t].log[n - 1].term == t
    && Majority(q, st.nodes.Keys)
    && (forall j | j in q :: Acked(st, j, t, n))
  }

  /** A log that ends at least as current as one with a chosen prefix has that prefix, if the leaders before it do. */
  lemma CurrentHasChosen(st: State, t: nat, n: nat, q: set<Id>, u: nat, won: seq<Entry>, b: seq<Entry>)
    requires Logs(st) && Chosen(st, t, n, q) && t >= 1
    requires Traced(st.leaders, won) && Traced(st.leaders, b)
    requires HasPrefix(b, st.leaders[t].log, n) && UpToDate(LastTerm(won), |won|, b)
    requires LastTerm(won) < u && Safe(st.leaders, t, n, u)
    ensures HasPrefix(won, st.leaders[t].log, n)
  {
    var l := st.leaders[t].log;
    assert b[n - 1] == b[..n][n - 1] == l[n - 1];
    TermsSorted(st, b, n - 1, |b| - 1);
    var w, k := LastTerm(won), |won| - 1;
    assert TracedAt(st.leaders, won, k);
    if w == t {
      assert won == st.leaders[w].log[..|won|];
    } else {
      var lw := st.leaders[w].log;
      assert HasPrefix(lw, l, n);
      assert lw[n - 1] == lw[..n][n - 1] == l[n - 1];
      assert LeaderLogOk(st.leaders, w, st.leaders[w]);
      assert won[..k + 1][k] == lw[..k + 1][k];
      assert won[..n] == won[..k + 1][..n] == lw[..n];
    }
  }

  /** Every later leader holds what was chosen. */
  lemma {:induction false} LaterLeadersHoldChosen(st: State, t: nat, n: nat, q: set<Id>, u: nat)
    requires Inv(st) && Chosen(st, t, n, q) && u in st.leaders && t < u
    ensures HasPrefix(st.leaders[u].log, st.leaders[t].log, n)
    decreases u
  {
    hide Inv;
    Open(st);
    forall v | v in st.leaders && t < v < u ensures HasPrefix(st.leaders[v].log, st.leaders[t].log, n) {
      LaterLeadersHoldChosen(st, t, n, q, v);
    }
    var l := st.leaders[u];
    assert LeadershipOk(st, u, l) && LeadershipOk(st, t, st.leaders[t]);
    assert LeaderLogOk(st.leaders, u, l);
    var j := MajoritiesMeet(q, l.voters, st.nodes.Keys);
    assert BallotKept(st, j, u, t, n);
    assert CurrentAt(st, j, u, st.votes[(j, u)]);
    forall k | 0 <= k < |l.won| ensures TracedAt(st.leaders, l.won, k) {
      assert TracedAt(st.leaders, l.log, k);
      assert l.won[..k + 1] == l.log[..k + 1];
    }
    assert l.won != [] ==> l.won[|l.won| - 1] == l.log[|l.won| - 1];
    CurrentHasChosen(st, t, n, q, u, l.won, st.votes[(j, u)].log);
    assert l.log[..n] == l.won[..n];
  }
}
