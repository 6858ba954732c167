/** The phase-preserving frame rate limiter. */
module Limiter {
  import opened Basics

  datatype Phase = Phase(next: Option<u64>, last: u64)

  const FRESH := Phase(None, 0)

  function Tolerance(interval: u64): u64 {
    interval / 20
  }

  /** `accept`, without the timestamps and intervals that switch the limiter off. */
  function Accepts(p: Phase, t: u64, interval: u64): bool {
    t < p.last || p.next.None? || SatAdd(t, Tolerance(interval)) >= p.next.value
  }

  /** The state after a timestamp. */
  function Advance(p: Phase, t: u64, interval: u64): Phase {
    if !Accepts(p, t, interval) then p.(last := t)
    else if t < p.last || p.next.None? || t > SatAdd(p.next.value, interval) then Phase(Some(SatAdd(t, interval)), t)
    else Phase(Some(SatAdd(p.next.value, interval)), t)
  }

  class FrameRateLimiter {
    var next: Option<u64>
    var last: u64

    function Current(): Phase
      reads this
    {
      Phase(next, last)
    }

    constructor ()
      ensures Current() == FRESH
    {
      next, last := None, 0;
    }

    method Accept(t: u64, interval: u64) returns (accepted: bool)
      modifies this
      ensures interval == 0 || t == 0 ==> accepted && Current() == old(Current())
      ensures interval != 0 && t != 0 ==>
                accepted == Accepts(old(Current()), t, interval) && Current() == Advance(old(Current()), t, interval)
    {
      if interval == 0 || t == 0 {
        return true;
      }
      if t < last {
        next := None;
      }
      last := t;
      var tolerance := interval / 20;
      if next.Some? {
        if SatAdd(t, tolerance) < next.value {
          return false;
        }
        next := Some(if t > SatAdd(next.value, interval) then SatAdd(t, interval) else SatAdd(next.value, interval));
      } else {
        next := Some(SatAdd(t, interval));
      }
      accepted := true;
    }
  }

  // ----- Streams of timestamps with one interval -----

  /** The limiter after a stream of timestamps, the last one last. */
  function After(times: seq<u64>, interval: u64): Phase {
    if times == [] then FRESH
    else Advance(After(times[..|times| - 1], interval), times[|times| - 1], interval)
  }

  /** Whether timestamp number `i` of the stream is accepted. */
  predicate Kept(times: seq<u64>, interval: u64, i: nat)
    requires i < |times|
  {
    Accepts(After(times[..i], interval), times[i], interval)
  }

  /** The timestamps accepted since the clock last went back, the newest last. */
  function Accepted(times: seq<u64>, interval: u64): seq<u64> {
    if times == [] then []
    else
      var n := |times| - 1;
      var before := if n > 0 && times[n] < times[n - 1] then [] else Accepted(times[..n], interval);
      if Kept(times, interval, n) then before + [times[n]] else before
  }

  predicate Positive(times: seq<u64>) {
    forall i :: 0 <= i < |times| ==> 0 < times[i]
  }

  /** The time `k` intervals after `a`, as far as the clock goes. */
  function Paced(a: u64, k: nat, interval: u64): int {
    Min(a + k * interval, U64_LIMIT - 1)
  }

  lemma PacedNext(a: u64, k: nat, interval: u64)
    ensures Paced(a, 0, interval) == a && Paced(a, k + 1, interval) == Min(Paced(a, k, interval) + interval, U64_LIMIT - 1)
  {
  }

  /** When the next frame is due, from the timestamps accepted so far. */
  predicate Due(p: Phase, kept: seq<u64>, interval: u64) {
    && kept != [] && p.next.Some?
    && kept[|kept| - 1] <= p.last && kept[|kept| - 1] <= p.next.value
    && p.next.value <= SatAdd(kept[|kept| - 1], interval + Tolerance(interval))
    && Paced(kept[0], |kept|, interval) <= p.next.value
  }

  predicate Spread(kept: seq<u64>, interval: u64) {
    forall k :: 0 <= k < |kept| ==> Paced(kept[0], k, interval) <= kept[k] + Tolerance(interval)
  }

  /** The accepted timestamps after one more. */
  function Keep(p: Phase, kept: seq<u64>, t: u64, interval: u64): seq<u64> {
    var before := if t < p.last then [] else kept;
    if Accepts(p, t, interval) then before + [t] else before
  }

  /** The first timestamp, and any after a clock reset, starts a new phase. */
  lemma NewPhase(p: Phase, t: u64, interval: u64)
    requires t < p.last || p.next.None?
    ensures Due(Advance(p, t, interval), [t], interval) && Spread([t], interval)
  {
    PacedNext(t, 0, interval);
  }

  lemma OldPhase(p: Phase, kept: seq<u64>, t: u64, interval: u64)
    requires p.last <= t && Due(p, kept, interval) && Spread(kept, interval)
    ensures Due(Advance(p, t, interval), Keep(p, kept, t, interval), interval)
    ensures Spread(Keep(p, kept, t, interval), interval)
  {
    PacedNext(kept[0], |kept|, interval);
    hide Paced;
  }

  /** What the state says about the timestamps accepted so far. */
  predicate PhaseInv(times: seq<u64>, interval: u64) {
    var p, kept := After(times, interval), Accepted(times, interval);
    if times == [] then p == FRESH && kept == []
    else p.last == times[|times| - 1] && Due(p, kept, interval) && Spread(kept, interval)
  }

  lemma {:induction false} PhaseHolds(times: seq<u64>, interval: u64)
    requires Positive(times) && 0 < interval
    ensures PhaseInv(times, interval)
  {
    if times != [] {
      var n := |times| - 1;
      PhaseHolds(times[..n], interval);
      var p, t, before := After(times[..n], interval), times[n], Accepted(times[..n], interval);
      assert n > 0 ==> times[..n][n - 1] == times[n - 1];
      if t < p.last || p.next.None? {
        NewPhase(p, t, interval);
        assert Accepted(times, interval) == [t];
      } else {
        OldPhase(p, before, t, interval);
        assert Accepted(times, interval) == Keep(p, before, t, interval);
      }
    }
  }

  /** After an accepted timestamp the next one is due between it and an interval and a tolerance later. */
  lemma NextIsDue(times: seq<u64>, interval: u64)
    requires Positive(times) && 0 < interval && times != [] && Kept(times, interval, |times| - 1)
    ensures After(times, interval).next.Some?
    ensures var t, next := times[|times| - 1], After(times, interval).next.value;
            t <= next <= SatAdd(t, interval + interval / 20)
  {
    PhaseHolds(times, interval);
  }

  /** A frame is only rejected when less than an interval has passed since the last accepted one. */
  lemma RejectedIsEarly(times: seq<u64>, interval: u64)
    requires Positive(times) && 0 < interval && times != [] && !Kept(times, interval, |times| - 1)
    ensures Accepted(times, interval) != []
    ensures var kept := Accepted(times, interval); kept[|kept| - 1] <= times[|times| - 1] < kept[|kept| - 1] + interval
  {
    PhaseHolds(times[..|times| - 1], interval);
    PhaseHolds(times, interval);
  }

  lemma AcceptedLast(times: seq<u64>, interval: u64)
    requires times != [] && Kept(times, interval, |times| - 1)
    ensures Accepted(times, interval) != []
    ensures Accepted(times, interval)[|Accepted(times, interval)| - 1] == times[|times| - 1]
  {
  }

  lemma KeptPrefix(times: seq<u64>, interval: u64, i: nat)
    requires i < |times|
    ensures Kept(times, interval, i) == Kept(times[..i + 1], interval, i)
  {
    assert times[..i + 1][..i] == times[..i];
  }

  /** Timestamp number `k` comes at least an interval after the one before it. */
  predicate Gap(times: seq<u64>, interval: u64, k: nat)
    requires 0 < k < |times|
  {
    times[k - 1] + interval <= times[k]
  }

  /** A stream that is never faster than the interval loses nothing. */
  lemma {:induction false} SlowStreamsPass(times: seq<u64>, interval: u64, i: nat)
    requires Positive(times) && 0 < interval && i < |times|
    requires forall k :: 0 < k < |times| ==> Gap(times, interval, k)
    ensures Kept(times, interval, i)
  {
    if i == 0 {
      assert times[..0] == [];
    } else {
      hide Kept, Accepted, After;
      assert Gap(times, interval, i);
      SlowStreamsPass(times, interval, i - 1);
      KeptPrefix(times, interval, i - 1);
      AcceptedLast(times[..i], interval);
      assert times[..i + 1][..i] == times[..i] && times[..i][i - 1] == times[i - 1];
      NotEarly(times[..i + 1], interval);
      KeptPrefix(times, interval, i);
    }
  }

  /** A timestamp an interval after an accepted one is accepted. */
  lemma NotEarly(times: seq<u64>, interval: u64)
    requires Positive(times) && 0 < interval && |times| > 1
    requires var n := |times| - 1;
             && Accepted(times[..n], interval) != []
             && Accepted(times[..n], interval)[|Accepted(times[..n], interval)| - 1] + interval <= times[n]
    ensures Kept(times, interval, |times| - 1)
  {
    PhaseHolds(times[..|times| - 1], interval);
  }

  /** Without a clock reset the frame accepted `k` after the first comes at least `k` intervals later, but
      for one tolerance: the limiter keeps its phase. */
  lemma PhaseIsKept(times: seq<u64>, interval: u64, k: nat)
    requires Positive(times) && 0 < interval && k < |Accepted(times, interval)|
    requires Accepted(times, interval)[0] + k * interval < U64_LIMIT
    ensures Accepted(times, interval)[0] + k * interval <= Accepted(times, interval)[k] + interval / 20
  {
    PhaseHolds(times, interval);
  }
}
