/**
 Sending a snapshot block by block, with one block in flight. The receiver
 writes each block at its offset and answers with the end of the block; the last
 block makes it compact its log, apply the snapshot and move its commit index.
 Blocks and answers may be lost, and what is not answered is sent again. When
 the leader has taken a newer snapshot in the meantime, the next block it sends
 is the first one of that.
 */
module SnapshotTransfer {
  import opened Types
  import opened Bytes

  const DEFAULT_BLOCK := 4096

  datatype Snap = Snap(bytes: seq<byte>, lastIdx: nat)

  datatype Block = Block(offset: nat, data: seq<byte>, done: bool)

  datatype Flight = Nothing | Going(block: Block) | Answered(next: nat) | Declined

  /**
   `latest` is the leader's last snapshot, `snap` the one it is sending. The
   sender keeps an offset while the transfer lasts and the peer's matched index;
   the receiver its file of `snap` and the index up to which its state machine
   has gone.
   */
  datatype State = State(latest: Snap, snap: Snap, offset: nat, finished: bool, matched: nat,
                         file: seq<byte>, smCommit: nat, flight: Flight)

  datatype Event = SendDue | BlockArrives | AnswerArrives | Lost | Taken(snap: Snap)

  function BlockSize(param: int32): int32 { if param == 0 then DEFAULT_BLOCK else param }

  /** The next block: from the offset on, as much as fits. */
  function NextBlock(s: State, param: int32): Block
    requires s.offset <= |s.snap.bytes| && BlockSize(param) >= 0
  {
    var size := Min(BlockSize(param), |s.snap.bytes| - s.offset);
    Block(s.offset, s.snap.bytes[s.offset..s.offset + size], s.offset + size >= |s.snap.bytes|)
  }

  /** Writes a block over a file, keeping what lies around it. */
  function Write(file: seq<byte>, offset: nat, data: seq<byte>): seq<byte>
    requires offset <= |file|
  {
    file[..offset] + data + if offset + |data| <= |file| then file[offset + |data|..] else []
  }

  /** A snapshot that is not ahead of the state machine is declined. */
  predicate Old(s: State) { s.snap.lastIdx <= s.smCommit }

  predicate Outdated(s: State) { s.latest.lastIdx > s.snap.lastIdx }

  /** A newer snapshot is sent from its beginning; the receiver has nothing of it yet. */
  function Renewed(s: State): State {
    if Outdated(s) then s.(snap := s.latest, offset := 0, file := []) else s
  }

  predicate Enabled(s: State, ev: Event, param: int32) {
    match ev
    case SendDue =>
      var r := Renewed(s); !s.finished && s.flight.Nothing? && r.offset <= |r.snap.bytes| && BlockSize(param) >= 0
    case BlockArrives => s.flight.Going? && (Old(s) || s.flight.block.offset <= |s.file|)
    case AnswerArrives => s.flight.Answered? || s.flight.Declined?
    case Lost => !s.flight.Nothing?
    case Taken(snap) => snap.lastIdx > s.latest.lastIdx && 0 < |snap.bytes| < TWO_31
  }

  function Step(s: State, ev: Event, param: int32): State
    requires Enabled(s, ev, param)
  {
    match ev
    case SendDue => var r := Renewed(s); r.(flight := Going(NextBlock(r, param)))
    case BlockArrives =>
      var b := s.flight.block;
      if Old(s) then s.(flight := Declined)
      else
        s.(file := Write(s.file, b.offset, b.data), smCommit := if b.done then s.snap.lastIdx else s.smCommit,
           flight := Answered(b.offset + |b.data|))
    case AnswerArrives =>
      if s.flight.Declined? then s.(flight := Nothing)
      else if s.flight.next >= |s.snap.bytes| then s.(flight := Nothing, finished := true, matched := s.snap.lastIdx)
      else s.(flight := Nothing, offset := s.flight.next)
    case Lost => s.(flight := Nothing)
    case Taken(snap) => s.(latest := snap)
  }

  predicate Init(s: State) {
    && 0 < |s.snap.bytes| < TWO_31 && s.latest == s.snap && s.offset == 0 && !s.finished && s.matched < s.snap.lastIdx
    && s.file == [] && s.smCommit < s.snap.lastIdx && s.flight == Nothing
  }

  ghost predicate IsRun(param: int32, run: seq<State>, evs: seq<Event>) {
    && |run| == |evs| + 1 && Init(run[0])
    && (forall k | 0 <= k < |evs| :: Enabled(run[k], evs[k], param) && run[k + 1] == Step(run[k], evs[k], param))
  }

  /**
   The file is a prefix of the snapshot that reaches the sender's offset and at
   most one block beyond; it is complete exactly when the snapshot was applied.
   */
  ghost predicate Inv(s: State, param: int32) {
    && 0 < |s.snap.bytes| < TWO_31 && s.offset < |s.snap.bytes|
    && s.offset <= |s.file| <= |s.snap.bytes| && s.file == s.snap.bytes[..|s.file|]
    && s.smCommit <= s.snap.lastIdx && (s.smCommit == s.snap.lastIdx <==> |s.file| == |s.snap.bytes|)
    && |s.file| <= s.offset + BlockSize(param)
    && s.snap.lastIdx <= s.latest.lastIdx && (!Outdated(s) ==> s.latest == s.snap) && 0 < |s.latest.bytes| < TWO_31
    && (s.finished ==> s.file == s.snap.bytes && s.smCommit == s.snap.lastIdx && s.matched == s.snap.lastIdx)
    && match s.flight
       case Nothing => true
       case Going(b) => !s.finished && BlockSize(param) > 0 && b == NextBlock(s, param)
       case Answered(next) => !s.finished && s.offset < next == |s.file| <= |s.snap.bytes|
       case Declined => !s.finished && s.smCommit == s.snap.lastIdx
  }

  lemma InitInv(s: State, param: int32)
    requires Init(s) && BlockSize(param) > 0
    ensures Inv(s, param)
  {
  }

  /** Writing the same block again changes nothing. */
  lemma RetryIdempotent(s: State, param: int32)
    requires Inv(s, param) && s.flight.Going? && |s.file| >= s.flight.block.offset + |s.flight.block.data|
    ensures Write(s.file, s.flight.block.offset, s.flight.block.data) == s.file
  {
  }

  /** A block that is not declined extends the file, or repeats what is there. */
  lemma BlockKeeps(s: State, param: int32)
    requires Inv(s, param) && Enabled(s, BlockArrives, param) && BlockSize(param) > 0 && !Old(s)
    ensures Inv(Step(s, BlockArrives, param), param)
  {
    hide Write;
    var b := s.flight.block;
    assert Write(s.file, b.offset, b.data) == s.snap.bytes[..b.offset + |b.data|] by { Extends(s, param); }
  }

  lemma Extends(s: State, param: int32)
    requires Inv(s, param) && s.flight.Going? && !Old(s)
    ensures var b := s.flight.block; Write(s.file, b.offset, b.data) == s.snap.bytes[..b.offset + |b.data|]
  {
  }

  lemma SendKeeps(s: State, param: int32)
    requires Inv(s, param) && Enabled(s, SendDue, param) && BlockSize(param) > 0
    ensures Inv(Step(s, SendDue, param), param)
  {
    assert Inv(Renewed(s), param);
  }

  lemma AnswerKeeps(s: State, param: int32)
    requires Inv(s, param) && Enabled(s, AnswerArrives, param) && BlockSize(param) > 0
    ensures Inv(Step(s, AnswerArrives, param), param)
  {
    hide NextBlock;
  }

  lemma StepKeeps(s: State, ev: Event, param: int32)
    requires Inv(s, param) && Enabled(s, ev, param) && BlockSize(param) > 0
    ensures Inv(Step(s, ev, param), param)
  {
    match ev
    case SendDue => SendKeeps(s, param);
    case BlockArrives => if !Old(s) { BlockKeeps(s, param); }
    case AnswerArrives => AnswerKeeps(s, param);
    case Lost =>
    case Taken(_) =>
  }

  lemma {:induction false} Always(param: int32, run: seq<State>, evs: seq<Event>, k: nat)
    requires IsRun(param, run, evs) && k < |run| && BlockSize(param) > 0
    ensures Inv(run[k], param)
  {
    if k == 0 {
      InitInv(run[0], param);
    } else {
      Always(param, run, evs, k - 1);
      StepKeeps(run[k - 1], evs[k - 1], param);
    }
  }

  /**
   Accepted blocks tile the snapshot: each starts where the acknowledged ones
   end, and the last one completes the file.
   */
  lemma BlocksTile(param: int32, run: seq<State>, evs: seq<Event>, k: nat)
    requires IsRun(param, run, evs) && k < |evs| && BlockSize(param) > 0 && evs[k].BlockArrives? && !Old(run[k])
    ensures var s, t, b := run[k], run[k + 1], run[k].flight.block;
            var end := b.offset + |b.data|;
            && b.offset == s.offset && |b.data| > 0 && end <= |s.snap.bytes| && b.data == s.snap.bytes[b.offset..end]
            && t.file == s.snap.bytes[..end] && t.flight == Answered(end)
            && (b.done <==> t.file == s.snap.bytes) && (b.done <==> t.smCommit == t.snap.lastIdx)
  {
    Always(param, run, evs, k);
    Always(param, run, evs, k + 1);
  }

  /** Every answer that is not the last brings the sender strictly closer to the end. */
  lemma AnswersAdvance(param: int32, run: seq<State>, evs: seq<Event>, k: nat)
    requires IsRun(param, run, evs) && k < |evs| && BlockSize(param) > 0
    requires evs[k].AnswerArrives? && run[k].flight.Answered?
    ensures var s, t := run[k], run[k + 1];
            && t.snap == s.snap
            && if t.finished then t.file == t.snap.bytes && t.matched == t.snap.lastIdx
               else |t.snap.bytes| - t.offset < |s.snap.bytes| - s.offset
  {
    Always(param, run, evs, k);
    Always(param, run, evs, k + 1);
  }

  /** The sender believes the transfer done only when the receiver holds exactly the snapshot's bytes. */
  lemma FinishedMeansSaved(param: int32, run: seq<State>, evs: seq<Event>, k: nat)
    requires IsRun(param, run, evs) && k < |run| && BlockSize(param) > 0 && run[k].finished
    ensures run[k].file == run[k].snap.bytes && run[k].smCommit == run[k].snap.lastIdx
  {
    Always(param, run, evs, k);
  }

  // ----- the last answer

  /** The receiver has applied the leader's latest snapshot and no answer says so any more. */
  predicate Stuck(s: State) {
    !s.finished && s.smCommit == s.snap.lastIdx && !s.flight.Answered? && !Outdated(s)
  }

  /** One byte, one block, and its answer is lost: the receiver is done and the sender does not know. */
  lemma StuckRun(x: byte, n: nat) returns (run: seq<State>, evs: seq<Event>)
    requires n > 0
    ensures IsRun(1, run, evs) && Stuck(run[|run| - 1]) && run[|run| - 1].file == run[|run| - 1].snap.bytes == [x]
  {
    var s := State(Snap([x], n), Snap([x], n), 0, false, 0, [], 0, Nothing);
    var t := s.(flight := Going(Block(0, [x], true)));
    var u := t.(file := [x], smCommit := n, flight := Answered(1));
    run, evs := [s, t, u, u.(flight := Nothing)], [SendDue, BlockArrives, Lost];
    assert [x][0..1] == [x];
    assert Write([], 0, [x]) == [x];
  }

  ghost predicate Path(param: int32, s: State, evs: seq<Event>, t: State)
    decreases |evs|
  {
    if evs == [] then s == t
    else Enabled(s, evs[0], param) && Path(param, Step(s, evs[0], param), evs[1..], t)
  }

  predicate TakesNone(evs: seq<Event>) { forall k | 0 <= k < |evs| :: !evs[k].Taken? }

  lemma {:induction false} StaysStuck(param: int32, s: State, evs: seq<Event>, t: State)
    requires Stuck(s) && Path(param, s, evs, t) && TakesNone(evs)
    ensures Stuck(t)
    decreases |evs|
  {
    if evs != [] {
      var u := Step(s, evs[0], param);
      assert Stuck(u);
      StaysStuck(param, u, evs[1..], t);
    }
  }

  // ----- progress

  /** The event that brings the transfer on. */
  function Helpful(s: State): Event {
    if Outdated(s) && !s.flight.Nothing? then Lost
    else match s.flight
      case Nothing => SendDue
      case Going(_) => BlockArrives
      case Answered(_) => AnswerArrives
      case Declined => Lost
  }

  /** What is left to do: the bytes to come, and the stages of a block. */
  function Work(s: State): int {
    if Outdated(s) then 4 * |s.latest.bytes| + (if s.flight.Nothing? then 4 else 5)
    else
      var stage := match s.flight case Nothing => 2 case Going(_) => 1 case Answered(_) => 0 case Declined => 3;
      4 * (|s.snap.bytes| - s.offset) + stage
  }

  lemma Helps(param: int32, s: State)
    requires Inv(s, param) && BlockSize(param) > 0 && !s.finished && !Stuck(s)
    ensures Enabled(s, Helpful(s), param) && !Helpful(s).Taken?
    ensures var t := Step(s, Helpful(s), param); Inv(t, param) && !Stuck(t) && (t.finished || 0 <= Work(t) < Work(s))
  {
    StepKeeps(s, Helpful(s), param);
  }

  lemma {:induction false} Finishes(param: int32, s: State) returns (evs: seq<Event>, t: State)
    requires Inv(s, param) && BlockSize(param) > 0 && !Stuck(s)
    ensures Path(param, s, evs, t) && TakesNone(evs) && t.finished
    decreases !s.finished, Work(s)
  {
    hide Inv, Stuck, Enabled, Step, Work;
    if s.finished {
      evs, t := [], s;
    } else {
      Helps(param, s);
      var u := Step(s, Helpful(s), param);
      evs, t := Finishes(param, u);
      assert ([Helpful(s)] + evs)[1..] == evs;
      evs := [Helpful(s)] + evs;
    }
  }

  /** The transfer can still finish without the leader taking another snapshot. */
  ghost predicate CanFinish(param: int32, s: State) {
    exists evs, t :: Path(param, s, evs, t) && TakesNone(evs) && t.finished
  }

  lemma FinishExact(param: int32, s: State)
    requires Inv(s, param) && BlockSize(param) > 0
    ensures CanFinish(param, s) <==> !Stuck(s)
  {
    hide Inv, TakesNone;
    if Stuck(s) {
      forall evs, t | Path(param, s, evs, t) && TakesNone(evs) ensures !t.finished {
        StaysStuck(param, s, evs, t);
      }
    } else {
      var evs, t := Finishes(param, s);
      assert Path(param, s, evs, t) && TakesNone(evs);
    }
  }

  /**
   The last block of the latest snapshot is applied. From then on the transfer
   can finish exactly if its answer arrives: otherwise every retry is declined
   as old, for as long as this snapshot is the leader's latest.
   */
  lemma LastAnswerDecides(param: int32, run: seq<State>, evs: seq<Event>, k: nat)
    requires IsRun(param, run, evs) && k < |evs| && BlockSize(param) > 0
    requires run[k].flight.Answered? && run[k].smCommit == run[k].snap.lastIdx && !Outdated(run[k]) && !evs[k].Taken?
    ensures CanFinish(param, run[k + 1]) <==> evs[k].AnswerArrives?
  {
    hide CanFinish;
    Always(param, run, evs, k);
    Always(param, run, evs, k + 1);
    FinishExact(param, run[k + 1]);
  }

  /** A newer snapshot is what helps: it is sent from its beginning, and not declined. */
  lemma NewerHelps(param: int32, s: State, snap: Snap)
    requires Inv(s, param) && BlockSize(param) > 0 && Stuck(s) && Enabled(s, Taken(snap), param)
    ensures !CanFinish(param, s) && CanFinish(param, Step(s, Taken(snap), param))
  {
    hide CanFinish;
    StepKeeps(s, Taken(snap), param);
    FinishExact(param, s);
    FinishExact(param, Step(s, Taken(snap), param));
  }
}
