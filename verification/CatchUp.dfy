/**
 How a new server catches up: the leader sends packs of committed entries from
 the index the newcomer last named, until the gap is small enough. Requests and
 answers may arrive late or more than once, and the leader's log goes on growing.
 */
module CatchUp {
  import opened Types
  import opened Bytes
  import opened Codec
  import opened Buffers
  import opened LogStore

  // ----- one round over real stores

  /** How far the newcomer is behind, as a 32-bit number. */
  function Gap(commit: nat, next: nat): int32 { ToInt32(commit - next) }

  /** How many entries the next pack holds; none is sent below the stop gap. */
  function BatchSize(commit: nat, next: nat, batch: int32): int { Min(Gap(commit, next), batch) }

  /** What a pack from `next` on carries. */
  function Batch(log: seq<Entry>, commit: nat, next: nat, batch: int32): seq<Entry>
    requires next >= 1 && BatchSize(commit, next, batch) >= 0 && next - 1 + BatchSize(commit, next, batch) <= |log|
  {
    log[next - 1..next - 1 + BatchSize(commit, next, batch)]
  }

  /**
   A pack made from one store and applied to another: through both byte formats
   the entries arrive as they were, behind what the newcomer already had.
   */
  method SyncRound(leader: Store, newcomer: Store, commit: nat, batch: int32) returns (ok: bool)
    requires leader.Valid() && leader.start == 1 && commit <= |leader.entries|
    requires newcomer.Valid() && newcomer.start == 1 && newcomer.entries <= leader.entries
    requires leader != newcomer && leader.repr !! newcomer.repr && newcomer !in leader.repr && leader !in newcomer.repr
    requires 0 <= BatchSize(commit, |newcomer.entries| + 1, batch) && TermsFit(leader.entries)
    requires |newcomer.entries| + BatchSize(commit, |newcomer.entries| + 1, batch) <= |leader.entries|
    modifies leader.repr, newcomer
    ensures leader.Valid() && unchanged(leader)
    ensures var es := Batch(leader.entries, commit, |old(newcomer.entries)| + 1, batch);
            && (ok <==> |EncodePack(es)| < TWO_31)
            && (ok ==> newcomer.Valid() && newcomer.start == 1 && newcomer.entries == old(newcomer.entries) + es)
  {
    hide Store.Valid, EncodePack, DecodePack, Buffer.Valid, Buffer.Data, Buffer.Pos;
    var next := newcomer.NextSlot();
    var size := BatchSize(commit, next, batch);
    ghost var es := Batch(leader.entries, commit, next, batch);
    var pack := leader.Pack(next, size, es);
    ok := pack.Some?;
    if ok {
      assert TermsFit(es);
      PackRoundTrip(es);
      ok := newcomer.ApplyPack(next, pack.value);
    }
  }

  // ----- whole runs

  datatype SyncReq = SyncReq(prev: nat, entries: seq<Entry>)

  /** The leader's log and commit index, the newcomer's, and all that was ever sent either way. */
  datatype State = State(log: seq<Entry>, commit: nat, start: nat, joined: seq<Entry>, joinedCommit: nat,
                         sent: set<SyncReq>, acks: set<nat>)

  datatype Params = Params(batch: int32, stop: int32)

  datatype Event =
    | Grow(more: seq<Entry>, commit: nat)
    | Answer(next: nat)
    | Take(r: SyncReq)

  /** The newcomer has accepted the invitation with an empty log. */
  predicate Init(s: State) {
    && s.commit <= |s.log| && s.start == 1 && s.joined == [] && s.joinedCommit == 0 && s.sent == {} && s.acks == {1}
  }

  predicate Done(p: Params, s: State, next: nat) { Gap(s.commit, next) < p.stop }

  predicate Enabled(p: Params, s: State, ev: Event) {
    match ev
    case Grow(more, commit) => s.commit <= commit <= |s.log + more|
    case Answer(next) =>
      && next in s.acks
      && (!Done(p, s, next) ==>
            var size := BatchSize(s.commit, next, p.batch); next >= 1 && size >= 0 && next - 1 + size <= |s.log|)
    case Take(r) => r in s.sent && (s.joined == [] || s.start <= r.prev + 1 <= s.start + |s.joined|)
  }

  /** What one event makes of the state; a leader that is done sends nothing more. */
  function Step(p: Params, s: State, ev: Event): State
    requires Enabled(p, s, ev)
  {
    match ev
    case Grow(more, commit) => s.(log := s.log + more, commit := commit)
    case Answer(next) =>
      if Done(p, s, next) then s
      else s.(sent := s.sent + {SyncReq(next - 1, Batch(s.log, s.commit, next, p.batch))})
    case Take(r) =>
      var joined := AppliedEntries(s.start, s.joined, r.prev + 1, r.entries);
      var start := AppliedStart(s.start, s.joined, r.prev + 1, r.entries);
      s.(start := start, joined := joined, joinedCommit := Max(s.joinedCommit, start + |joined| - 1),
         acks := s.acks + {start + |joined|})
  }

  ghost predicate IsRun(p: Params, run: seq<State>, evs: seq<Event>) {
    && |run| == |evs| + 1 && Init(run[0])
    && (forall k | 0 <= k < |evs| :: Enabled(p, run[k], evs[k]) && run[k + 1] == Step(p, run[k], evs[k]))
  }

  /** A request repeats what is in the leader's committed log and leaves no hole in the newcomer's. */
  predicate GoodReq(s: State, r: SyncReq) {
    && r.prev <= |s.joined| && r.prev + |r.entries| <= s.commit <= |s.log|
    && r.entries == s.log[r.prev..r.prev + |r.entries|]
  }

  ghost predicate Inv(s: State) {
    && s.commit <= |s.log| && s.start == 1 && |s.joined| <= s.commit && s.joined == s.log[..|s.joined|]
    && s.joinedCommit <= |s.joined|
    && (forall r | r in s.sent :: GoodReq(s, r))
    && (forall n | n in s.acks :: 1 <= n <= |s.joined| + 1)
  }

  lemma StepKeeps(p: Params, s: State, ev: Event)
    requires Inv(s) && Enabled(p, s, ev) && p.stop >= 0
    ensures var t := Step(p, s, ev); Inv(t) && s.joined <= t.joined && s.log <= t.log
  {
    hide Inv, Enabled, Step;
    match ev
    case Grow(more, commit) => GrowKeeps(p, s, more, commit);
    case Answer(next) => AnswerKeeps(p, s, next);
    case Take(r) => TakeStepKeeps(p, s, r);
  }

  lemma GrowKeeps(p: Params, s: State, more: seq<Entry>, commit: nat)
    requires Inv(s) && Enabled(p, s, Grow(more, commit))
    ensures var t := Step(p, s, Grow(more, commit)); Inv(t) && s.joined <= t.joined && s.log <= t.log
  {
    hide Gap;
    var t := Step(p, s, Grow(more, commit));
    forall r | r in t.sent ensures GoodReq(t, r) {
      assert GoodReq(s, r);
    }
  }

  lemma AnswerKeeps(p: Params, s: State, next: nat)
    requires Inv(s) && Enabled(p, s, Answer(next)) && p.stop >= 0
    ensures var t := Step(p, s, Answer(next)); Inv(t) && s.joined <= t.joined && s.log <= t.log
  {
    if !Done(p, s, next) {
      GapBound(s.commit, next);
      assert GoodReq(s, SyncReq(next - 1, Batch(s.log, s.commit, next, p.batch)));
    }
  }

  lemma GapBound(commit: nat, next: nat)
    requires next <= commit + 1
    ensures Gap(commit, next) >= 0 ==> Gap(commit, next) <= commit - next
  {
  }

  lemma TakeStepKeeps(p: Params, s: State, r: SyncReq)
    requires Inv(s) && Enabled(p, s, Take(r))
    ensures var t := Step(p, s, Take(r)); Inv(t) && s.joined <= t.joined && s.log <= t.log
  {
    hide AppliedEntries, AppliedStart;
    assert GoodReq(s, r);
    TakeKeeps(s.log, s.joined, r);
    var t := Step(p, s, Take(r));
    forall q | q in t.sent ensures GoodReq(t, q) {
      assert GoodReq(s, q);
    }
  }

  /** Old or repeated packs lie inside what is already there, new ones extend it. */
  lemma TakeKeeps(log: seq<Entry>, joined: seq<Entry>, r: SyncReq)
    requires |joined| <= |log| && joined == log[..|joined|]
    requires r.prev <= |joined| && r.prev + |r.entries| <= |log| && r.entries == log[r.prev..r.prev + |r.entries|]
    ensures AppliedStart(1, joined, r.prev + 1, r.entries) == 1
    ensures AppliedEntries(1, joined, r.prev + 1, r.entries) == log[..Max(|joined|, r.prev + |r.entries|)]
  {
  }

  /**
   In every state of every run the newcomer's log is a prefix of what the leader
   has committed, it starts at 1, and its commit index is not ahead.
   */
  lemma {:induction false} PrefixAlways(p: Params, run: seq<State>, evs: seq<Event>, k: nat)
    requires IsRun(p, run, evs) && k < |run| && p.stop >= 0
    ensures var s := run[k];
            && Inv(s) && s.start == 1 && s.commit <= |s.log| && s.joined <= s.log[..s.commit]
            && s.joinedCommit <= |s.joined| <= s.commit
  {
    if k > 0 {
      PrefixAlways(p, run, evs, k - 1);
      StepKeeps(p, run[k - 1], evs[k - 1]);
    }
  }

  /** Every answer can be acted on and every pack can be applied: the guards of `Enabled` exclude nothing. */
  lemma NothingBlocks(p: Params, s: State)
    requires Inv(s) && p.stop >= 0 && p.batch >= 0
    ensures forall n | n in s.acks :: Enabled(p, s, Answer(n))
    ensures forall r | r in s.sent :: Enabled(p, s, Take(r))
  {
  }

  // ----- progress

  function Remaining(s: State): int32 { Gap(s.commit, |s.joined| + 1) }

  /** The newcomer's latest answer reaches the leader and the next pack reaches the newcomer. */
  lemma Round(p: Params, s: State) returns (t: State)
    requires Inv(s) && |s.joined| + 1 in s.acks && p.stop >= 0 && p.batch >= 0 && s.commit < TWO_31
    requires !Done(p, s, |s.joined| + 1)
    ensures Enabled(p, s, Answer(|s.joined| + 1))
    ensures var a := Step(p, s, Answer(|s.joined| + 1));
            var r := SyncReq(|s.joined|, Batch(s.log, s.commit, |s.joined| + 1, p.batch));
            Enabled(p, a, Take(r)) && t == Step(p, a, Take(r))
    ensures Inv(t) && |t.joined| + 1 in t.acks && t.commit == s.commit
    ensures Remaining(t) == Remaining(s) - Min(Remaining(s), p.batch)
    ensures Remaining(t) < Remaining(s) <==> Remaining(s) > 0 && p.batch > 0
  {
    StepKeeps(p, s, Answer(|s.joined| + 1));
    var a := Step(p, s, Answer(|s.joined| + 1));
    var r := SyncReq(|s.joined|, Batch(s.log, s.commit, |s.joined| + 1, p.batch));
    StepKeeps(p, a, Take(r));
    TakeKeeps(a.log, a.joined, r);
    t := Step(p, a, Take(r));
  }

  ghost predicate Path(p: Params, s: State, evs: seq<Event>, t: State)
    decreases |evs|
  {
    if evs == [] then s == t else Enabled(p, s, evs[0]) && Path(p, Step(p, s, evs[0]), evs[1..], t)
  }

  /** While the commit index stands still, at most one round per missing entry brings the gap below the stop gap. */
  lemma {:induction false} Finishes(p: Params, s: State) returns (evs: seq<Event>, t: State)
    requires Inv(s) && |s.joined| + 1 in s.acks && p.stop >= 1 && p.batch >= 1 && s.commit < TWO_31
    ensures Path(p, s, evs, t) && t.commit == s.commit && |t.joined| + 1 in t.acks && Done(p, t, |t.joined| + 1)
    ensures |evs| <= 2 * Max(Remaining(s), 0)
    decreases Max(Remaining(s), 0)
  {
    hide Inv, Gap, Batch, Enabled, Step;
    if Done(p, s, |s.joined| + 1) {
      evs, t := [], s;
    } else {
      var n := |s.joined| + 1;
      var u := Round(p, s);
      var more;
      more, t := Finishes(p, u);
      var a := Step(p, s, Answer(n));
      var r := SyncReq(|s.joined|, Batch(s.log, s.commit, n, p.batch));
      evs := [Answer(n), Take(r)] + more;
      assert evs[1..] == [Take(r)] + more && evs[1..][1..] == more;
      assert Path(p, a, evs[1..], t);
    }
  }

  // ----- the last committed entry

  /** The newcomer lacks the last committed entry, and no pack under way holds it. */
  ghost predicate Behind(s: State) {
    Inv(s) && |s.joined| < s.commit && forall r | r in s.sent :: r.prev + |r.entries| < s.commit
  }

  /** The gap does not count the entry that the newcomer asks for, so a pack always ends before the commit index. */
  lemma StepKeepsBehind(p: Params, s: State, ev: Event)
    requires Behind(s) && Enabled(p, s, ev) && p.stop >= 0
    ensures var t := Step(p, s, ev); Behind(t) && s.commit <= t.commit
  {
    StepKeeps(p, s, ev);
    match ev
    case Grow(_, _) =>
    case Answer(next) => GapBound(s.commit, next);
    case Take(r) =>
      assert GoodReq(s, r);
      TakeKeeps(s.log, s.joined, r);
  }

  /** No answer of a newcomer that is behind lets the leader stop, if it waits for a negative gap. */
  lemma BehindIsNotDone(p: Params, s: State, next: nat)
    requires Behind(s) && next in s.acks && p.stop == 0 && s.commit < TWO_31
    ensures !Done(p, s, next)
  {
  }

  lemma {:induction false} StaysBehind(p: Params, s: State, evs: seq<Event>, t: State)
    requires Behind(s) && Path(p, s, evs, t) && p.stop >= 0
    ensures Behind(t)
    decreases |evs|
  {
    hide Behind, Enabled, Step;
    if evs != [] {
      StepKeepsBehind(p, s, evs[0]);
      StaysBehind(p, Step(p, s, evs[0]), evs[1..], t);
    }
  }

  /** The leader has an answer in hand at which it ends the catch-up. */
  ghost predicate Ends(p: Params, s: State) { exists n :: n in s.acks && Done(p, s, n) }

  lemma AnswerEnds(p: Params, s: State)
    requires |s.joined| + 1 in s.acks && Done(p, s, |s.joined| + 1)
    ensures Ends(p, s)
  {
  }

  /**
   With a stop gap of 0 the catch-up never ends, however the events fall, whether
   or not the leader's log goes on growing: the newcomer lacks the last committed
   entry in every state.
   */
  lemma Stalls(p: Params, s: State, evs: seq<Event>, t: State)
    requires Init(s) && s.commit >= 1 && Path(p, s, evs, t) && p.stop == 0 && t.commit < TWO_31
    ensures |t.joined| < t.commit && !Ends(p, t)
  {
    hide Path;
    StaysBehind(p, s, evs, t);
    forall n | n in t.acks ensures !Done(p, t, n) {
      BehindIsNotDone(p, t, n);
    }
  }

  ghost predicate CanEnd(p: Params, s: State) {
    exists evs, t :: Path(p, s, evs, t) && t.commit < TWO_31 && Ends(p, t)
  }

  /** The catch-up can end exactly if the stop gap is at least 1. */
  lemma StopGapExact(p: Params, s: State)
    requires Init(s) && 1 <= s.commit < TWO_31 && p.stop >= 0 && p.batch >= 1
    ensures CanEnd(p, s) <==> p.stop >= 1
  {
    hide Done, Ends;
    if p.stop >= 1 {
      var evs, t := Finishes(p, s);
      AnswerEnds(p, t);
      assert Path(p, s, evs, t) && Ends(p, t);
    } else {
      forall evs, t | Path(p, s, evs, t) && t.commit < TWO_31 ensures !Ends(p, t) {
        Stalls(p, s, evs, t);
      }
    }
  }

  // ----- commit indexes beyond 32 bits

  /** The leader stops exactly by the low 32 bits of the gap, also when they would be negative as a signed number. */
  lemma DoneExact(p: Params, s: State, next: nat)
    requires p.stop >= 0
    ensures var low := (s.commit - next) % TWO_32; Done(p, s, next) <==> low < p.stop || low >= TWO_31
  {
  }

  /** So from 2^31 missing entries on, a catch-up can end before it has begun, whatever the stop gap. */
  lemma EndsTooSoon(p: Params, s: State)
    requires Init(s) && p.stop >= 0 && TWO_31 < s.commit <= TWO_32
    ensures Ends(p, s) && s.joined == []
  {
    DoneExact(p, s, 1);
    assert 1 in s.acks;
  }
}
