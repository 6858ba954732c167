/** Every stopped session is released: what is still to come, in how many segments, and why it cannot get stuck. */
module LifecycleEnds {
  import opened Basics
  import opened Lifecycle
  import opened LifecycleRuns

  // ----- Somebody will close it -----

  predicate Pending(task: StopTask) {
    task.detached && !task.phase.Over?
  }

  predicate StopPending(stops: seq<StopTask>) {
    exists i :: 0 <= i < |stops| && Pending(stops[i])
  }

  /** Somebody who cannot be cancelled is still going to close the session. */
  predicate HasCloser(x: Session) {
    StopPending(x.stops) || x.start.Failing? || x.recovery.GivingUp?
  }

  predicate EndInv(x: Session) {
    && (x.stopping && !x.closed ==> HasCloser(x))
    && (x.owner.Gone? ==> x.stopping)
    && (x.stops != [] ==> x.stopping)
  }

  lemma PendingPush(stops: seq<StopTask>, task: StopTask)
    ensures StopPending(stops) || Pending(task) ==> StopPending(stops + [task])
  {
    var longer := stops + [task];
    assert longer[|stops|] == task;
    if StopPending(stops) {
      var i :| 0 <= i < |stops| && Pending(stops[i]);
      assert Pending(longer[i]);
    }
  }

  /** Only the end of a detached task takes one away. */
  lemma PendingUpdate(stops: seq<StopTask>, task: nat, phase: StopPhase)
    requires task < |stops| && StopPending(stops) && (!stops[task].detached || !phase.Over?)
    ensures StopPending(WithPhase(stops, task, phase))
  {
    var i :| 0 <= i < |stops| && Pending(stops[i]);
    assert Pending(WithPhase(stops, task, phase)[i]);
  }

  lemma RequestEnds(x: Session)
    requires EndInv(x) || (x.owner.Gone? && EndInv(x.(owner := Live)))
    ensures EndInv(RequestStop(x)) && RequestStop(x).stopping
  {
    PendingPush(x.stops, StopTask(true, Wanting));
    hide StopPending;
  }

  lemma OwnerEnds(x: Session, seg: Segment)
    requires SessionInv(x) && EndInv(x) && Can(x, seg) && OfOwner(seg)
    ensures EndInv(ActOwner(x, seg))
  {
    RequestEnds(x);
    RequestEnds(x.(owner := Gone));
    RequestEnds(x.(owner := Gone, receiving := false));
    PendingPush(RequestStop(x).stops, StopTask(false, Wanting));
    hide StopPending, LockInv;
  }

  lemma StartEnds(x: Session, seg: Segment)
    requires SessionInv(x) && EndInv(x) && Can(x, seg) && OfStart(seg)
    ensures EndInv(ActStart(x, seg))
  {
    hide StopPending, LockInv;
  }

  lemma StopEnds(x: Session, seg: Segment)
    requires SessionInv(x) && EndInv(x) && Can(x, seg) && OfStop(seg)
    ensures EndInv(ActStop(x, seg))
  {
    if seg.StopLock? && !x.closed && StopPending(x.stops) { PendingUpdate(x.stops, seg.task, Awaiting); }
    if seg.StopCancelled? && StopPending(x.stops) { PendingUpdate(x.stops, seg.task, Over); }
    hide StopPending, LockInv;
  }

  lemma RecoveryEnds(x: Session, seg: Segment)
    requires SessionInv(x) && EndInv(x) && Can(x, seg) && OfRecovery(seg)
    ensures EndInv(ActRecovery(x, seg))
  {
    hide StopPending, LockInv;
  }

  lemma SegmentEnds(x: Session, seg: Segment)
    requires SessionInv(x) && EndInv(x) && Can(x, seg)
    ensures EndInv(Act(x, seg))
  {
    hide SessionInv, EndInv, Can, ActOwner, ActStart, ActStop, ActRecovery;
    if OfOwner(seg) { OwnerEnds(x, seg); }
    else if OfStart(seg) { StartEnds(x, seg); }
    else if OfStop(seg) { StopEnds(x, seg); }
    else { RecoveryEnds(x, seg); }
  }

  predicate EndsInv(c: Camera) {
    forall i :: 0 <= i < |c.sessions| ==> EndInv(c.sessions[i])
  }

  lemma StepEnds(c: Camera, step: Step)
    requires SessionsInv(c) && EndsInv(c) && Enabled(c, step)
    ensures EndsInv(Apply(c, step))
  {
    hide SessionInv, HasCloser, Act, Can;
    if step.Run? {
      SegmentEnds(c.sessions[step.session], step.segment);
    }
  }

  lemma {:induction false} RunEnds(run: seq<Camera>, steps: seq<Step>, n: nat)
    requires IsRun(run, steps) && n <= |steps|
    ensures EndsInv(run[n])
  {
    hide SessionsInv, Enabled, Apply, EndInv;
    if n > 0 {
      RunEnds(run, steps, n - 1);
      RunSessions(run, steps, n - 1);
      StepEnds(run[n - 1], steps[n - 1]);
    }
  }

  /** Whoever the owner was, start future or handle, and however it went: its session has been asked to stop,
      and it has been released, or somebody who cannot be cancelled is still going to release it. */
  lemma GoneMeansReleased(run: seq<Camera>, steps: seq<Step>, n: nat, i: nat)
    requires IsRun(run, steps) && n <= |steps| && i < |run[n].sessions|
    ensures var x := run[n].sessions[i];
            && (x.owner.Gone? ==> x.stopping)
            && (x.stopping ==> (x.closed && 0 < x.released) || HasCloser(x))
  {
    hide SessionsInv, Enabled, Apply, HasCloser, LateOf;
    RunEnds(run, steps, n);
    assert EndInv(run[n].sessions[i]);
    ReleasesCounted(run, steps, n, i);
  }

  /** A session that is closed, or stopping with nobody left to close it, has given the camera back exactly once if
      and only if its start task did not come late. */
  lemma ReleasedExactlyOnceIff(run: seq<Camera>, steps: seq<Step>, n: nat, i: nat)
    requires IsRun(run, steps) && n <= |steps| && i < |run[n].sessions|
    requires run[n].sessions[i].closed || (run[n].sessions[i].stopping && !HasCloser(run[n].sessions[i]))
    ensures run[n].sessions[i].released == 1 <==> forall k :: 0 <= k < n ==> !LateOf(run[k], steps[k], i)
  {
    hide Enabled, Apply, HasCloser, LateOf;
    GoneMeansReleased(run, steps, n, i);
    ReleasesCounted(run, steps, n, i);
  }

  // ----- It takes boundedly many segments -----

  function TaskRank(task: StopTask): nat {
    match task.phase
    case Wanting => 2
    case Awaiting => 1
    case Over => 0
  }

  function StopsRank(stops: seq<StopTask>): nat {
    if stops == [] then 0 else StopsRank(stops[..|stops| - 1]) + TaskRank(stops[|stops| - 1])
  }

  function StartRank(start: StartTask): nat {
    match start
    case Queued(_) => 4
    case Trying(_) => 3
    case Cleaning(_) => 2
    case Failing(_) => 1
    case NotSpawned => 0
    case Finished(_) => 0
  }

  function RecoveryRank(recovery: Recovery): nat {
    match recovery
    case SourceStopping => 4
    case Reopening => 3
    case SourceStarting => 2
    case FailStopping => 2
    case NoRecovery => 0
    case Ended => 0
    case _ => 1
  }

  /** At most how many segments a stopping session still has to take. */
  function Rank(x: Session): nat {
    StartRank(x.start) + StopsRank(x.stops) + RecoveryRank(x.recovery) + if x.holder.ByNative? then 1 else 0
  }

  /** Neither a segment of the owner nor the attempt of a device operation to begin. */
  predicate Works(seg: Segment) {
    !OfOwner(seg) && !seg.NativeLock?
  }

  lemma StopsRankPush(stops: seq<StopTask>, task: StopTask)
    ensures StopsRank(stops + [task]) == StopsRank(stops) + TaskRank(task)
  {
    assert (stops + [task])[..|stops|] == stops;
  }

  lemma {:induction false} StopsRankUpdate(stops: seq<StopTask>, task: nat, phase: StopPhase)
    requires task < |stops|
    ensures StopsRank(WithPhase(stops, task, phase)) + TaskRank(stops[task])
            == StopsRank(stops) + TaskRank(stops[task].(phase := phase))
  {
    var n := |stops| - 1;
    var after := WithPhase(stops, task, phase);
    if task < n {
      StopsRankUpdate(stops[..n], task, phase);
      assert after[..n] == WithPhase(stops[..n], task, phase);
    } else {
      assert after[..n] == stops[..n];
    }
  }

  lemma StartFalls(x: Session, seg: Segment)
    requires x.stopping && LockInv(x) && Can(x, seg) && OfStart(seg)
    ensures Rank(ActStart(x, seg)) < Rank(x)
  {
    hide StopsRank;
  }

  lemma StopFalls(x: Session, seg: Segment)
    requires x.stopping && LockInv(x) && Can(x, seg) && OfStop(seg) && !seg.NativeLock?
    ensures Rank(ActStop(x, seg)) < Rank(x)
  {
    hide StopsRank;
    if seg.StopLock? || seg.StopFinish? || seg.StopCancelled? {
      StopsRankUpdate(x.stops, seg.task, Awaiting);
      StopsRankUpdate(x.stops, seg.task, Over);
    }
  }

  lemma RecoveryFalls(x: Session, seg: Segment)
    requires x.stopping && LockInv(x) && Can(x, seg) && OfRecovery(seg)
    ensures Rank(ActRecovery(x, seg)) < Rank(x)
  {
    hide StopsRank;
  }

  lemma RankFalls(x: Session, seg: Segment)
    requires x.stopping && SessionInv(x) && Can(x, seg) && Works(seg)
    ensures Rank(Act(x, seg)) < Rank(x)
  {
    hide Rank, LockInv, FlagsInv, OwnerInv, Can, ActOwner, ActStart, ActStop, ActRecovery;
    if OfStart(seg) { StartFalls(x, seg); }
    else if OfStop(seg) { StopFalls(x, seg); }
    else { RecoveryFalls(x, seg); }
  }

  /** The owner can only add calls of `close`, and a device operation does not begin any more. */
  lemma RankElse(x: Session, seg: Segment)
    requires x.stopping && SessionInv(x) && Can(x, seg) && !Works(seg)
    ensures Rank(Act(x, seg)) <= Rank(x) + if seg.CloseHandle? then 2 else 0
  {
    hide StopsRank, LockInv, FlagsInv;
    StopsRankPush(x.stops, StopTask(false, Wanting));
  }

  predicate WorksFor(step: Step, i: nat) {
    step.Run? && step.session == i && Works(step.segment)
  }

  /** How many segments session `i` takes between steps `a` and `b`, those of its owner left out. */
  function Worked(steps: seq<Step>, a: nat, b: nat, i: nat): nat
    requires a <= b <= |steps|
  {
    if a == b then 0 else Worked(steps, a, b - 1, i) + if WorksFor(steps[b - 1], i) then 1 else 0
  }

  /** How often its handle is closed between them. */
  function Closings(steps: seq<Step>, a: nat, b: nat, i: nat): nat
    requires a <= b <= |steps|
  {
    if a == b then 0 else Closings(steps, a, b - 1, i) + if steps[b - 1] == Run(i, CloseHandle) then 1 else 0
  }

  lemma StepRank(c: Camera, step: Step, i: nat)
    requires SessionsInv(c) && Enabled(c, step) && i < |c.sessions| && c.sessions[i].stopping
    ensures i < |Apply(c, step).sessions| && Apply(c, step).sessions[i].stopping
    ensures Rank(Apply(c, step).sessions[i]) + (if WorksFor(step, i) then 1 else 0)
            <= Rank(c.sessions[i]) + if step == Run(i, CloseHandle) then 2 else 0
  {
    hide SessionInv, Act, Can, Rank, OfOwner;
    if step.Run? && step.session == i {
      OnlyUp(c.sessions[i], step.segment);
      if Works(step.segment) { RankFalls(c.sessions[i], step.segment); } else { RankElse(c.sessions[i], step.segment); }
    }
  }

  /** Once a session is stopping it takes no more segments than its rank, and two for every further call of
      `close`. */
  lemma {:induction false} StopIsBounded(run: seq<Camera>, steps: seq<Step>, a: nat, b: nat, i: nat)
    requires IsRun(run, steps) && a <= b <= |steps| && i < |run[a].sessions| && run[a].sessions[i].stopping
    ensures i < |run[b].sessions| && run[b].sessions[i].stopping
    ensures Rank(run[b].sessions[i]) + Worked(steps, a, b, i) <= Rank(run[a].sessions[i]) + 2 * Closings(steps, a, b, i)
  {
    hide SessionsInv, Enabled, Apply, Rank, WorksFor;
    if a < b {
      StopIsBounded(run, steps, a, b - 1, i);
      RunSessions(run, steps, b - 1);
      StepRank(run[b - 1], steps[b - 1], i);
    }
  }

  lemma PendingRanks(stops: seq<StopTask>)
    requires StopsRank(stops) == 0
    ensures !StopPending(stops)
  {
    if StopPending(stops) {
      var i :| 0 <= i < |stops| && Pending(stops[i]);
      StopsRankUpdate(stops, i, Over);
    }
  }

  /** So a stopping session that has taken that many segments is closed, and the camera has been given back. */
  lemma StopIsFinished(run: seq<Camera>, steps: seq<Step>, a: nat, b: nat, i: nat)
    requires IsRun(run, steps) && a <= b <= |steps| && i < |run[a].sessions| && run[a].sessions[i].stopping
    requires Worked(steps, a, b, i) >= Rank(run[a].sessions[i]) + 2 * Closings(steps, a, b, i)
    ensures i < |run[b].sessions| && run[b].sessions[i].closed && 0 < run[b].sessions[i].released
  {
    hide Enabled, Apply, StopsRank, StopPending, Worked, Closings;
    StopIsBounded(run, steps, a, b, i);
    GoneMeansReleased(run, steps, b, i);
    PendingRanks(run[b].sessions[i].stops);
  }

  // ----- It does not get stuck -----

  /** The segment with which whoever has the lock goes on. */
  function HolderGoes(x: Session): Segment
    requires LockInv(x) && !x.holder.Free?
    ensures Can(x, HolderGoes(x)) && Works(HolderGoes(x)) && !HolderGoes(x).StopCancelled?
  {
    match x.holder
    case ByStart =>
      if x.start.Trying? then CandidateFails else if x.start.Cleaning? then CandidateStopped else StartFails
    case ByStop(task) => StopFinish(task, true)
    case ByNative => NativeUnlock
    case _ =>
      if x.recovery.SourceStopping? then SourceStops(false, true)
      else if x.recovery.Reopening? then Reopens(true)
      else if x.recovery.SourceStarting? then SourceStarts(true)
      else if x.recovery.Quitting? then Quits
      else if x.recovery.FailStopping? then FailureStopped
      else GivesUp
  }

  /** There is no deadlock: a session that is stopping and open can always take one more of the segments that are
      bounded, and no cancellation is needed for it. */
  lemma StopNeverStuck(run: seq<Camera>, steps: seq<Step>, n: nat, i: nat) returns (seg: Segment)
    requires IsRun(run, steps) && n <= |steps| && i < |run[n].sessions|
    requires run[n].sessions[i].stopping && !run[n].sessions[i].closed
    ensures Works(seg) && !seg.StopCancelled? && !seg.Vanishes? && Enabled(run[n], Run(i, seg))
    ensures Rank(Act(run[n].sessions[i], seg)) < Rank(run[n].sessions[i])
  {
    hide Rank, Act, FlagsInv, OwnerInv;
    RunSessions(run, steps, n);
    RunEnds(run, steps, n);
    var x := run[n].sessions[i];
    assert SessionInv(x) && EndInv(x);
    if !x.holder.Free? {
      seg := HolderGoes(x);
    } else {
      var task :| 0 <= task < |x.stops| && Pending(x.stops[task]);
      assert !x.stops[task].phase.Awaiting?;
      seg := StopLock(task);
    }
    RankFalls(x, seg);
  }
}
