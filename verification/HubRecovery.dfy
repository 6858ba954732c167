/** The recovery waiter beside the hub: why `wait_for_recovery_trigger` does not sleep through a trigger. */
module HubRecovery {
  import opened Basics
  import opened HubState
  import opened HubEpochs
  import opened HubMetrics

  /** Where the waiter is in its loop; `seen` is the generation of the wake channel that it last looked at. */
  datatype Waiter =
    | Away
    | Looking(seen: nat)
    | SeenActive(seen: nat)
    | Asleep(seen: nat)
    | Triggered(trigger: Trigger)

  /** `generation` is the value of the wake channel, and `owed` the calls that are about to raise it: `stop` does
      so after it has ended the epoch, `record_conversion_error` after it has let go of the pool. */
  datatype Watched = Watched(hub: Hub, generation: nat, owed: nat, waiter: Waiter)

  datatype Move =
    | HubMoves(step: Step)
    | Wakes
    | Arms
    | ChecksActive
    | ChecksPool(stalled: bool)
    | WokenUp
    | TimesOut
    | Cancelled

  /** The error that makes it eight in a row, and every `stop`, wake the recovery loop. */
  ghost predicate Notifies(s: Hub, step: Step, t: Hub) {
    || step.StopSend?
    || (step.ChargePending? && t.pool.metrics.errors > s.pool.metrics.errors
        && t.pool.metrics.consecutive == RECOVERY_THRESHOLD)
  }

  ghost predicate CanMove(w: Watched, move: Move) {
    match move
    case HubMoves(step) => Enabled(w.hub, step)
    case Wakes => w.owed > 0
    case Arms => w.waiter.Away?
    case ChecksActive => w.waiter.Looking?
    case ChecksPool(_) => w.waiter.SeenActive? && w.hub.starting.Idle?
    case WokenUp => w.waiter.Asleep? && w.waiter.seen != w.generation
    case TimesOut => w.waiter.Asleep?
    case Cancelled => true
  }

  ghost function Moved(w: Watched, move: Move): Watched
    requires CanMove(w, move)
  {
    match move
    case HubMoves(step) =>
      var t := Apply(w.hub, step);
      w.(hub := t, owed := w.owed + if Notifies(w.hub, step, t) then 1 else 0)
    case Wakes => w.(generation := w.generation + 1, owed := w.owed - 1)
    case Arms => w.(waiter := Looking(w.generation))
    case ChecksActive =>
      w.(waiter := if w.hub.watch.active then SeenActive(w.waiter.seen) else Triggered(SourceStopped))
    case ChecksPool(stalled) =>
      var consecutive := w.hub.pool.metrics.consecutive;
      w.(waiter := if consecutive >= RECOVERY_THRESHOLD then Triggered(FrameErrors(consecutive))
                   else if stalled then Triggered(SourceStalled)
                   else Asleep(w.waiter.seen))
    case WokenUp => w.(waiter := Looking(w.generation))
    case TimesOut => w.(waiter := Looking(w.waiter.seen))
    case Cancelled => w.(waiter := Away)
  }

  ghost predicate IsWatchedRun(run: seq<Watched>, moves: seq<Move>) {
    && |run| == |moves| + 1
    && Init(run[0].hub) && run[0] == Watched(run[0].hub, 0, 0, Away)
    && forall k :: 0 <= k < |moves| ==> CanMove(run[k], moves[k]) && run[k + 1] == Moved(run[k], moves[k])
  }

  // ----- What a section of the hub does to the two tests -----

  lemma ActiveEnds(s: Hub, step: Step)
    requires Enabled(s, step) && s.watch.active && !step.StopSend?
    ensures Apply(s, step).watch.active
  {
    hide Enabled, Apply;
    if OfWatch(step) { WatchStaysActive(s, step); }
    else if step.StartReset? { CounterFrame(s, step); }
    else { SessionFrame(s, step); }
  }

  lemma WatchStaysActive(s: Hub, step: Step)
    requires Enabled(s, step) && OfWatch(step) && !step.StopSend? && s.watch.active
    ensures Apply(s, step).watch.active
  {
    hide MapClear;
  }

  /** Errors in a row reach the threshold one by one. */
  lemma PendingRises(s: Hub, token: nat)
    requires token in s.pending
    ensures var m, n := s.pool.metrics, ApplyChargePending(s, token).pool.metrics;
            n.consecutive == m.consecutive || (n.consecutive == m.consecutive + 1 && n.errors > m.errors)
  {
  }

  lemma ChargeFalls(s: Hub, step: Step)
    requires Enabled(s, step) && step.ChargeCommit?
    ensures Apply(s, step).pool.metrics.consecutive <= s.pool.metrics.consecutive
  {
  }

  lemma ReserveSame(s: Hub, step: Step)
    requires Enabled(s, step) && step.Reserve?
    ensures Apply(s, step).pool.metrics.consecutive == s.pool.metrics.consecutive
  {
    hide PoolReserve, Unique;
    ReserveCounters(s.pool, step.pick, step.session, step.kind, step.length, step.spare, step.lease);
  }

  lemma ResetFalls(s: Hub, step: Step)
    requires Enabled(s, step) && step.StartReset?
    ensures Apply(s, step).pool.metrics.consecutive == 0
  {
  }

  lemma BurstIsNotified(s: Hub, step: Step)
    requires Enabled(s, step) && s.pool.metrics.consecutive < RECOVERY_THRESHOLD
    requires !Notifies(s, step, Apply(s, step))
    ensures Apply(s, step).pool.metrics.consecutive < RECOVERY_THRESHOLD
  {
    hide Enabled, Apply, ApplyChargePending, ApplyCommit;
    if step.ChargePending? { PendingFrame(s, step); PendingRises(s, step.token); }
    else if step.StartReset? { ResetFalls(s, step); }
    else if OfCounter(step) { CounterFrame(s, step); }
    else if step.ChargeCommit? { ChargeFalls(s, step); }
    else if step.Reserve? { ReserveSame(s, step); }
    else if OfPool(step) { PoolFrame(s, step); }
    else if step.Commit? { CommitFrame(s, step); }
    else if OfReader(step) { ReaderFrame(s, step); }
    else { WatchFrame(s, step); }
  }

  // ----- The waiter -----

  predicate Armed(waiter: Waiter) {
    waiter.Looking? || waiter.SeenActive? || waiter.Asleep?
  }

  /** With no wake-up under way or owed, what the waiter has found out still holds. */
  ghost predicate WaiterInv(w: Watched) {
    && (Armed(w.waiter) ==> w.waiter.seen <= w.generation)
    && (Armed(w.waiter) && w.waiter.seen == w.generation && w.owed == 0 ==>
          && (!w.waiter.Looking? ==> w.hub.watch.active)
          && (w.waiter.Asleep? ==> w.hub.pool.metrics.consecutive < RECOVERY_THRESHOLD))
  }

  lemma MoveKeeps(w: Watched, move: Move)
    requires WaiterInv(w) && CanMove(w, move)
    ensures WaiterInv(Moved(w, move))
  {
    hide Enabled, Apply;
    if move.HubMoves? {
      var s, step := w.hub, move.step;
      if !Notifies(s, step, Apply(s, step)) {
        if s.watch.active { ActiveEnds(s, step); }
        if s.pool.metrics.consecutive < RECOVERY_THRESHOLD { BurstIsNotified(s, step); }
      }
    }
  }

  lemma {:induction false} RunKeeps(run: seq<Watched>, moves: seq<Move>, k: nat)
    requires IsWatchedRun(run, moves) && k < |run|
    ensures WaiterInv(run[k])
  {
    hide CanMove, Moved, Init;
    if k > 0 {
      RunKeeps(run, moves, k - 1);
      MoveKeeps(run[k - 1], moves[k - 1]);
    }
  }

  /** The waiter never sleeps through a trigger: when the source has stopped or eight errors or more have been
      charged in a row, a sleeping waiter has a wake-up that it has not looked at, or one is about to come. */
  lemma NoSleptThroughTrigger(run: seq<Watched>, moves: seq<Move>, k: nat)
    requires IsWatchedRun(run, moves) && k < |run| && run[k].waiter.Asleep?
    requires RecoveryTrigger(run[k].hub, false).Some?
    ensures run[k].waiter.seen < run[k].generation || run[k].owed > 0
  {
    RunKeeps(run, moves, k);
  }
}
