/**
 The leader's check, before it takes a client's entries, that a majority of the
 cluster has answered it lately. The outcome of the last look is remembered, and
 the leader looks again only while that outcome is too old.
 */
module Lease {
  import opened Bytes
  import opened Quorum

  /** The middle one of the times at which the peers last answered. */
  function Middle(times: seq<int>): int
    requires times != []
  {
    SortSorts(times, false);
    Sort(times, false)[|times| / 2]
  }

  /** What is remembered after a look: milliseconds, cut down to 32 bits. */
  function Looked(elapsed: int32, times: seq<int>, now: int, limit: int32): int32
    requires times != []
  {
    if elapsed > limit then ToInt32(now - Middle(times)) else elapsed
  }

  predicate Expired(elapsed: int32, times: seq<int>, now: int, limit: int32)
    requires times != []
  {
    Looked(elapsed, times, now, limit) > limit
  }

  /** Nothing has been seen yet: longer ago than any limit. */
  const NEVER: int32 := TWO_31 - 1

  class Clock {
    var elapsed: int32

    constructor ()
      ensures elapsed == NEVER
    {
      elapsed := NEVER;
    }

    method Check(times: seq<int>, now: int, limit: int32) returns (expired: bool)
      requires times != []
      modifies this
      ensures elapsed == Looked(old(elapsed), times, now, limit)
      ensures expired == Expired(old(elapsed), times, now, limit)
    {
      hide ToInt32;
      if elapsed > limit {
        SortSorts(times, false);
        elapsed := ToInt32(now - Sort(times, false)[|times| / 2]);
        if elapsed > limit {
          return true;
        }
      }
      return false;
    }
  }

  // ----- what one look finds out

  /** A strict majority of the cluster, the leader included, has answered at time `u` or later. */
  predicate Answered(times: seq<int>, u: int) { 2 * (CountGE(times, u) + 1) > |times| + 1 }

  datatype Look = Look(times: seq<int>, now: int)

  predicate Timely(x: Look, limit: int32) { Answered(x.times, x.now - limit) }

  /** How long ago the middle one of the peers answered. */
  function Age(x: Look): int
    requires x.times != []
  {
    x.now - Middle(x.times)
  }

  /** The low 32 bits of the age, read as a signed number, do not exceed the limit. */
  predicate Passes(x: Look, limit: int32)
    requires x.times != []
  {
    var low := Age(x) % TWO_32;
    if limit >= 0 then low <= limit || low >= TWO_31 else TWO_31 <= low <= TWO_32 + limit
  }

  lemma {:induction false} CountShrinks(s: seq<int>, u: int, v: int)
    requires u <= v
    ensures CountGE(s, u) >= CountGE(s, v)
  {
    if s != [] {
      CountShrinks(s[1..], u, v);
    }
  }

  /** A majority has answered since `u` exactly if the middle one of the peers has. */
  lemma AnsweredSince(times: seq<int>, u: int)
    requires times != []
    ensures Answered(times, u) <==> Middle(times) >= u
  {
    hide Sort, CountGE;
    LeasePick(times);
    if Middle(times) >= u {
      CountShrinks(times, u, Middle(times));
    }
  }

  /** A look passes exactly by the low 32 bits of the age. */
  lemma LookPasses(x: Look, limit: int32)
    requires x.times != []
    ensures ToInt32(Age(x)) <= limit <==> Passes(x, limit)
  {
    hide Middle;
  }

  /**
   Below 2^31 milliseconds a look passes exactly if a majority has answered
   within the limit. From there on none has, so every pass is a wrong one.
   */
  lemma LookIsMajority(x: Look, limit: int32)
    requires x.times != []
    ensures -TWO_31 <= Age(x) < TWO_31 ==> (Passes(x, limit) <==> Timely(x, limit))
    ensures Age(x) >= TWO_31 ==> !Timely(x, limit)
    ensures Age(x) < -TWO_31 ==> Timely(x, limit)
  {
    hide Middle, Answered;
    AnsweredSince(x.times, x.now - limit);
  }

  /** Right after an election: when a majority has never answered, the clock alone decides. */
  lemma NeverAnswered(x: Look, limit: int32)
    requires x.times != [] && 0 <= limit < NEVER && x.now > limit
    requires (forall k | 0 <= k < |x.times| :: x.times[k] >= 0) && !Answered(x.times, 1)
    ensures !Timely(x, limit)
    ensures Passes(x, limit) <==> x.now % TWO_32 <= limit || x.now % TWO_32 >= TWO_31
  {
    hide Middle, Answered;
    AllGE(x.times, 0);
    assert Answered(x.times, 0) by { AllAnswered(x.times); }
    AnsweredSince(x.times, 0);
    AnsweredSince(x.times, 1);
    AnsweredSince(x.times, x.now - limit);
  }

  lemma AllAnswered(times: seq<int>)
    requires CountGE(times, 0) == |times|
    ensures Answered(times, 0)
  {
  }

  // ----- what a series of looks amounts to

  predicate AllAsked(xs: seq<Look>) { forall k | 0 <= k < |xs| :: xs[k].times != [] }

  /** What is remembered after a series of looks. */
  function After(elapsed: int32, xs: seq<Look>, limit: int32): int32
    requires AllAsked(xs)
  {
    if xs == [] then elapsed
    else
      var last := xs[|xs| - 1];
      Looked(After(elapsed, xs[..|xs| - 1], limit), last.times, last.now, limit)
  }

  lemma {:induction false} Remembered(xs: seq<Look>, limit: int32)
    requires AllAsked(xs) && limit < NEVER
    ensures After(NEVER, xs, limit) <= limit <==> exists j | 0 <= j < |xs| :: Passes(xs[j], limit)
  {
    hide Middle, Passes, ToInt32;
    if xs != [] {
      var n := |xs| - 1;
      Remembered(xs[..n], limit);
      LookPasses(xs[n], limit);
      assert forall j | 0 <= j < n :: xs[..n][j] == xs[j];
    }
  }

  /**
   The leader takes a client's entries exactly if this look or any earlier one
   passes: one that has passed is never revoked.
   */
  lemma GrantedExactly(xs: seq<Look>, limit: int32, k: nat)
    requires AllAsked(xs) && limit < NEVER && k < |xs|
    ensures !Expired(After(NEVER, xs[..k], limit), xs[k].times, xs[k].now, limit) <==>
            exists j | 0 <= j <= k :: Passes(xs[j], limit)
  {
    hide Looked, Passes;
    Remembered(xs[..k + 1], limit);
    assert xs[..k + 1][..k] == xs[..k] && xs[..k + 1][k] == xs[k];
    assert forall j | 0 <= j <= k :: xs[..k + 1][j] == xs[j];
  }

  /** The middle answer lies in the past, and not so far that the difference leaves 32 bits. */
  predicate InRange(x: Look) { x.times != [] && 0 <= Age(x) < TWO_31 }

  /** What the check is for holds exactly while no look has been timely. */
  lemma LeaseExact(elapsed: int32, limit: int32)
    requires 0 <= limit < NEVER
    ensures (forall x | InRange(x) && !Expired(elapsed, x.times, x.now, limit) :: Timely(x, limit)) <==> elapsed > limit
  {
    hide Middle, Timely, ToInt32;
    if elapsed > limit {
      forall x | InRange(x) && !Expired(elapsed, x.times, x.now, limit) ensures Timely(x, limit) {
        LookPasses(x, limit);
        LookIsMajority(x, limit);
      }
    } else {
      var x := Look([0], limit + 1);
      SilentPeer(limit);
      assert !Expired(elapsed, x.times, x.now, limit);
    }
  }

  /** The only peer has been silent for longer than the limit. */
  lemma SilentPeer(limit: int32)
    requires 0 <= limit < NEVER
    ensures InRange(Look([0], limit + 1)) && !Timely(Look([0], limit + 1), limit)
  {
    assert Sort([0], false) == [0];
    assert CountGE([0], 1) == 0 by { assert CountGE([0][1..], 1) == 0; }
  }

  /** Out of range the cut to 32 bits lets a leader pass at its first look whose only peer has never answered. */
  lemma CutShort(limit: int32)
    requires 0 <= limit < NEVER
    ensures var x := Look([0], TWO_31); !Expired(NEVER, x.times, x.now, limit) && !Timely(x, limit)
  {
    assert Sort([0], false) == [0];
    assert CountGE([0], TWO_31 - limit) == 0 by { assert CountGE([0][1..], TWO_31 - limit) == 0; }
  }
}
