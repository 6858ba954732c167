/** Metrics of one epoch, and when a burst of damaged frames asks for recovery. */
module HubMetrics {
  import opened Basics
  import opened HubState
  import opened HubEpochs

  /** The epoch that the metrics belong to: the one being started while `start` holds the pool. */
  function MetricsEpoch(s: Hub): nat {
    if s.starting.Idle? then s.watch.session else s.starting.session
  }

  /** Leases of the metrics' epoch that may still be charged as published. */
  ghost function Chargeable(s: Hub): set<nat> {
    set l | l in s.pool.leases && s.pool.leases[l].session == MetricsEpoch(s) && !s.pool.leases[l].phase.Finished?
  }

  /** Every frame of the epoch that was published or dropped had been received in the epoch. */
  ghost predicate ReceivedInv(s: Hub) {
    s.pool.metrics.published + s.pool.metrics.poolDrops + |Chargeable(s)| <= s.pool.metrics.received
  }

  /** Errors charged since the last charged publication or the beginning of the epoch. */
  function Burst(charges: seq<Charge>): nat {
    if charges == [] || !charges[|charges| - 1].ErrorCharged? then 0
    else 1 + Burst(charges[..|charges| - 1])
  }

  /** Errors charged since the beginning of the epoch. */
  function EpochErrors(charges: seq<Charge>): nat {
    if charges == [] || charges[|charges| - 1].EpochBegun? then 0
    else EpochErrors(charges[..|charges| - 1]) + if charges[|charges| - 1].ErrorCharged? then 1 else 0
  }

  /** The longest burst since the beginning of the epoch. */
  function LongestBurst(charges: seq<Charge>): nat {
    if charges == [] || charges[|charges| - 1].EpochBegun? then 0
    else Max(Burst(charges), LongestBurst(charges[..|charges| - 1]))
  }

  /** Publications charged since the beginning of the epoch. */
  function EpochPublished(charges: seq<Charge>): nat {
    if charges == [] || charges[|charges| - 1].EpochBegun? then 0
    else EpochPublished(charges[..|charges| - 1]) + if charges[|charges| - 1].PublicationCharged? then 1 else 0
  }

  /** The counters are what the log of charges says. */
  ghost predicate Counts(m: Metrics, charges: seq<Charge>) {
    && m.errors == EpochErrors(charges)
    && m.consecutive == Burst(charges)
    && m.maxConsecutive == LongestBurst(charges)
    && m.published == EpochPublished(charges)
  }

  ghost predicate CountersInv(s: Hub) {
    Counts(s.pool.metrics, s.charges)
  }

  ghost predicate MetricsInv(s: Hub) {
    ReceivedInv(s) && CountersInv(s)
  }

  lemma {:induction false} BurstsOrdered(charges: seq<Charge>)
    ensures Burst(charges) <= LongestBurst(charges) <= EpochErrors(charges)
  {
    if charges != [] && !charges[|charges| - 1].EpochBegun? {
      BurstsOrdered(charges[..|charges| - 1]);
    }
  }

  // ----- Counters -----

  lemma ReserveCounters(p: Pool, pick: Option<nat>, session: nat, kind: Kind, length: nat, spare: Id, lease: nat)
    requires pick.Some? ==> pick.value < |p.slots|
    ensures var m, n := p.metrics, PoolReserve(p, pick, session, kind, length, spare, lease).metrics;
            && n.(received := m.received, poolDrops := m.poolDrops) == m
            && n.received == m.received + 1
            && (n.poolDrops == m.poolDrops || n.poolDrops == m.poolDrops + 1)
            && (n.poolDrops == m.poolDrops + 1 ==>
                  PoolReserve(p, pick, session, kind, length, spare, lease).leases == p.leases)
            && (n.poolDrops == m.poolDrops ==>
                  exists l: Lease :: PoolReserve(p, pick, session, kind, length, spare, lease).leases == p.leases[lease := l]
                    && l.session == session && l.phase.Filling?)
  {
  }

  lemma ErrorCounts(m: Metrics, charges: seq<Charge>)
    requires Counts(m, charges)
    ensures Counts(ChargeError(m), charges + [ErrorCharged])
  {
    assert (charges + [ErrorCharged])[..|charges|] == charges;
  }

  lemma PublicationCounts(m: Metrics, charges: seq<Charge>)
    requires Counts(m, charges)
    ensures Counts(ChargePublished(m), charges + [PublicationCharged])
  {
    assert (charges + [PublicationCharged])[..|charges|] == charges;
  }

  lemma EpochCounts(charges: seq<Charge>)
    ensures Counts(ZeroMetrics, charges + [EpochBegun])
  {
  }

  lemma ChargePendingCounters(s: Hub, token: nat)
    requires CountersInv(s) && token in s.pending
    ensures CountersInv(ApplyChargePending(s, token))
  {
    hide EpochErrors, Burst, LongestBurst, EpochPublished;
    ErrorCounts(s.pool.metrics, s.charges);
    ErrorCounts(ChargeReceived(s.pool.metrics), s.charges);
  }

  lemma ChargeCommitCounters(s: Hub, lease: nat)
    requires CountersInv(s) && lease in s.pool.leases
    ensures CountersInv(ApplyChargeCommit(s, lease))
  {
    hide EpochErrors, Burst, LongestBurst, EpochPublished;
    PublicationCounts(s.pool.metrics, s.charges);
  }

  lemma ResetCounters(s: Hub, step: Step)
    requires Enabled(s, step) && step.StartReset?
    ensures CountersInv(Apply(s, step))
  {
    EpochCounts(s.charges);
  }

  lemma ReserveCountersStep(s: Hub, step: Step)
    requires CountersInv(s) && Enabled(s, step) && step.Reserve?
    ensures CountersInv(Apply(s, step))
  {
    hide PoolReserve, Unique, EpochErrors, Burst, LongestBurst, EpochPublished;
    ReserveCounters(s.pool, step.pick, step.session, step.kind, step.length, step.spare, step.lease);
  }

  lemma CountersStep(s: Hub, step: Step)
    requires CountersInv(s) && Enabled(s, step)
    ensures CountersInv(Apply(s, step))
  {
    hide Enabled, Apply, Counts, ApplyChargeCommit, ApplyChargePending;
    if step.StartReset? { ResetCounters(s, step); }
    else if step.ChargePending? { PendingFrame(s, step); ChargePendingCounters(s, step.token); }
    else if OfCounter(step) { CounterFrame(s, step); }
    else if step.ChargeCommit? { ChargeFrame(s, step); ChargeCommitCounters(s, step.lease); }
    else if step.Reserve? { ReserveCountersStep(s, step); }
    else if step.Commit? { CommitFrame(s, step); }
    else if OfPool(step) { PoolFrame(s, step); }
    else if OfWatch(step) { WatchFrame(s, step); }
    else { ReaderFrame(s, step); }
  }

  // ----- Received frames -----

  lemma ReserveReceived(s: Hub, step: Step)
    requires ReceivedInv(s) && Enabled(s, step) && step.Reserve?
    ensures ReceivedInv(Apply(s, step))
  {
    var t := Apply(s, step);
    ReserveCounters(s.pool, step.pick, step.session, step.kind, step.length, step.spare, step.lease);
    if t.pool.metrics.poolDrops == s.pool.metrics.poolDrops {
      assert Chargeable(t) == Chargeable(s) + {step.lease};
    } else {
      assert Chargeable(t) == Chargeable(s);
    }
  }

  lemma SubsetSize<T>(a: set<T>, b: set<T>)
    requires a <= b
    ensures |a| <= |b|
  {
    if a != {} {
      var x :| x in a;
      SubsetSize(a - {x}, b - {x});
    }
  }

  lemma ChargeReceived'(s: Hub, step: Step)
    requires ReceivedInv(s) && Enabled(s, step) && step.ChargeCommit?
    ensures ReceivedInv(Apply(s, step))
  {
    var t := Apply(s, step);
    assert Chargeable(t) == Chargeable(s) - {step.lease};
    if s.watch.session == s.pool.leases[step.lease].session {
      assert step.lease in Chargeable(s);
    }
  }

  /** A new epoch has no leases yet. */
  lemma StartReceived(s: Hub, step: Step)
    requires EpochInv(s) && Enabled(s, step) && step.StartReset?
    ensures ReceivedInv(Apply(s, step))
  {
    assert Chargeable(Apply(s, step)) == {};
  }

  lemma WatchEpoch(s: Hub, step: Step)
    requires Enabled(s, step) && OfWatch(step)
    ensures MetricsEpoch(Apply(s, step)) == MetricsEpoch(s)
  {
    hide MapClear;
  }

  lemma ResetEpoch(s: Hub, step: Step)
    requires SessionsInv(s) && Enabled(s, step) && step.StartReset?
    ensures MetricsEpoch(Apply(s, step)) > MetricsEpoch(s)
  {
  }

  /** Only the first section of `start` moves the metrics on to another epoch. */
  lemma EpochMoves(s: Hub, step: Step)
    requires SessionsInv(s) && Enabled(s, step)
    ensures if step.StartReset? then MetricsEpoch(Apply(s, step)) > MetricsEpoch(s)
            else MetricsEpoch(Apply(s, step)) == MetricsEpoch(s)
  {
    hide Enabled, Apply;
    if step.StartReset? { ResetEpoch(s, step); }
    else if OfWatch(step) { WatchEpoch(s, step); }
    else { SessionFrame(s, step); }
  }

  lemma PendingReceived(s: Hub, token: nat)
    requires token in s.pending
    ensures var m, n := s.pool.metrics, ApplyChargePending(s, token).pool.metrics;
            n.published + n.poolDrops - m.published - m.poolDrops <= n.received - m.received
  {
  }

  /** Every other section charges no publication, and for each frame that it drops it receives one. */
  lemma OtherReceived(s: Hub, step: Step)
    requires Enabled(s, step) && !step.Reserve? && !step.ChargeCommit? && !step.StartReset?
    ensures var m, n := s.pool.metrics, Apply(s, step).pool.metrics;
            n.published + n.poolDrops - m.published - m.poolDrops <= n.received - m.received
  {
    hide Enabled, Apply, ApplyChargePending;
    if step.ChargePending? { PendingFrame(s, step); PendingReceived(s, step.token); }
    else if OfCounter(step) { CounterFrame(s, step); }
    else if step.Commit? { CommitFrame(s, step); }
    else if OfPool(step) { PoolFrame(s, step); }
    else if OfWatch(step) { WatchFrame(s, step); }
    else { ReaderFrame(s, step); }
  }

  lemma ChargeableShrinks(s: Hub, step: Step)
    requires SessionsInv(s) && Enabled(s, step) && !step.Reserve? && !step.StartReset?
    ensures Chargeable(Apply(s, step)) <= Chargeable(s)
  {
    hide Enabled, Apply, SessionsInv, MetricsEpoch;
    EpochMoves(s, step);
    forall l | l in Chargeable(Apply(s, step)) ensures l in Chargeable(s) {
      StepKeepsLease(s, step, l);
    }
  }

  lemma ReceivedStep(s: Hub, step: Step)
    requires EpochInv(s) && ReceivedInv(s) && Enabled(s, step)
    ensures ReceivedInv(Apply(s, step))
  {
    hide Enabled, Apply, Chargeable, LogInv, SessionsInv;
    if step.Reserve? { ReserveReceived(s, step); }
    else if step.ChargeCommit? { ChargeReceived'(s, step); }
    else if step.StartReset? { StartReceived(s, step); }
    else {
      OtherReceived(s, step);
      ChargeableShrinks(s, step);
      SubsetSize(Chargeable(Apply(s, step)), Chargeable(s));
    }
  }

  lemma MetricsStep(s: Hub, step: Step)
    requires EpochInv(s) && MetricsInv(s) && Enabled(s, step)
    ensures MetricsInv(Apply(s, step))
  {
    CountersStep(s, step);
    ReceivedStep(s, step);
  }

  /** `FRAME_ERROR_RECOVERY_THRESHOLD`. */
  const RECOVERY_THRESHOLD: nat := 8

  datatype Trigger = SourceStopped | FrameErrors(consecutive: nat) | SourceStalled

  /** `recovery_trigger`; `stalled` says that the stall timeout has passed without activity. */
  function RecoveryTrigger(s: Hub, stalled: bool): Option<Trigger> {
    if !s.watch.active then Some(SourceStopped)
    else if s.pool.metrics.consecutive >= RECOVERY_THRESHOLD then Some(FrameErrors(s.pool.metrics.consecutive))
    else if stalled then Some(SourceStalled)
    else None
  }

  /** While active, recovery is asked for over damaged frames exactly after 8 of them in a row. */
  lemma TriggerIffBurst(s: Hub, stalled: bool)
    requires MetricsInv(s) && s.watch.active
    ensures RecoveryTrigger(s, stalled) == Some(FrameErrors(Burst(s.charges))) <==> Burst(s.charges) >= 8
    ensures Burst(s.charges) >= 8
            <==> |s.charges| >= 8 && forall i :: |s.charges| - 8 <= i < |s.charges| ==> s.charges[i].ErrorCharged?
  {
    BurstIsSuffix(s.charges, 8);
  }

  ghost predicate EightErrors(charges: seq<Charge>) {
    |charges| >= 8 && forall i :: |charges| - 8 <= i < |charges| ==> charges[i].ErrorCharged?
  }

  /** What asks for recovery, in this order: an inactive source, eight errors as the last charges, a stall. */
  lemma TriggerIs(s: Hub, stalled: bool)
    requires MetricsInv(s)
    ensures RecoveryTrigger(s, stalled)
            == if !s.watch.active then Some(SourceStopped)
               else if EightErrors(s.charges) then Some(FrameErrors(Burst(s.charges)))
               else if stalled then Some(SourceStalled) else None
  {
    BurstIsSuffix(s.charges, 8);
  }

  lemma {:induction false} BurstIsSuffix(charges: seq<Charge>, n: nat)
    ensures Burst(charges) >= n
            <==> |charges| >= n && forall i :: |charges| - n <= i < |charges| ==> charges[i].ErrorCharged?
  {
    if n > 0 && charges != [] && charges[|charges| - 1].ErrorCharged? {
      BurstIsSuffix(charges[..|charges| - 1], n - 1);
    }
  }
}
