/** What the state of a session says about it, over every run: how it starts, where it is, and how it ends. */
module LifecycleStages {
  import opened Basics
  import opened Lifecycle
  import opened LifecycleRuns
  import opened LifecycleEnds
  import opened RecoveryRuns

  // ----- The state while the session is open -----

  /** An open session is Starting, then Streaming or in a numbered attempt to recover, and Stopping once it has been
      asked to stop, unless recovery has just given up. */
  predicate StageInv(x: Session) {
    && (!x.stopping && Starts(x.owner) ==> x.state.Starting? && x.attempt == 0)
    && (!x.stopping && x.owner.Live? ==> x.state == if x.attempt == 0 then Streaming else Recovering(x.attempt))
    && (x.stopping && !x.closed ==> if x.recovery.GivingUp? then x.state.Failed? else x.state.Stopping?)
  }

  lemma OwnerStage(x: Session, seg: Segment)
    requires SessionInv(x) && EndInv(x) && StageInv(x) && Can(x, seg) && OfOwner(seg)
    ensures StageInv(ActOwner(x, seg))
  {
    hide HasCloser;
  }

  lemma StartStage(x: Session, seg: Segment)
    requires SessionInv(x) && EndInv(x) && StageInv(x) && Can(x, seg) && OfStart(seg)
    ensures StageInv(ActStart(x, seg))
  {
    hide HasCloser;
  }

  lemma StopStage(x: Session, seg: Segment)
    requires SessionInv(x) && EndInv(x) && StageInv(x) && Can(x, seg) && OfStop(seg)
    ensures StageInv(ActStop(x, seg))
  {
    hide HasCloser;
  }

  lemma RecoveryStage(x: Session, seg: Segment)
    requires SessionInv(x) && EndInv(x) && StageInv(x) && Can(x, seg) && OfRecovery(seg)
    ensures StageInv(ActRecovery(x, seg))
  {
    hide HasCloser;
  }

  lemma SegmentStage(x: Session, seg: Segment)
    requires SessionInv(x) && EndInv(x) && StageInv(x) && Can(x, seg)
    ensures StageInv(Act(x, seg))
  {
    hide SessionInv, EndInv, StageInv, Can, ActOwner, ActStart, ActStop, ActRecovery;
    if OfOwner(seg) { OwnerStage(x, seg); }
    else if OfStart(seg) { StartStage(x, seg); }
    else if OfStop(seg) { StopStage(x, seg); }
    else { RecoveryStage(x, seg); }
  }

  predicate StagesInv(c: Camera) {
    forall i :: 0 <= i < |c.sessions| ==> StageInv(c.sessions[i])
  }

  lemma StepStages(c: Camera, step: Step)
    requires SessionsInv(c) && EndsInv(c) && StagesInv(c) && Enabled(c, step)
    ensures StagesInv(Apply(c, step))
  {
    hide SessionInv, EndInv, Act, Can;
    if step.Run? {
      SegmentStage(c.sessions[step.session], step.segment);
    }
  }

  lemma {:induction false} RunStages(run: seq<Camera>, steps: seq<Step>, n: nat)
    requires IsRun(run, steps) && n <= |steps|
    ensures StagesInv(run[n])
  {
    hide SessionsInv, EndsInv, StageInv, Enabled, Apply;
    if n > 0 {
      RunStages(run, steps, n - 1);
      RunSessions(run, steps, n - 1);
      RunEnds(run, steps, n - 1);
      StepStages(run[n - 1], steps[n - 1]);
    }
  }

  /** At every moment of a run the state of an open session tells where it is. */
  lemma StateTellsTheStage(run: seq<Camera>, steps: seq<Step>, n: nat, i: nat)
    requires IsRun(run, steps) && n <= |steps| && i < |run[n].sessions| && !run[n].sessions[i].closed
    ensures var x := run[n].sessions[i];
            && (x.state.Starting? <==> !x.stopping && Starts(x.owner))
            && (x.state.Streaming? <==> !x.stopping && x.owner.Live? && x.attempt == 0)
            && (x.state.Recovering? <==> !x.stopping && x.owner.Live? && 0 < x.attempt)
            && (x.state.Recovering? ==> x.state.attempt == x.attempt)
            && (x.state.Stopping? <==> x.stopping && !x.recovery.GivingUp?)
            && (x.state.Failed? <==> x.recovery.GivingUp?)
            && !x.state.Stopped?
  {
    hide Enabled, Apply, LockInv, HasCloser;
    RunStages(run, steps, n);
    RunSessions(run, steps, n);
    RunEnds(run, steps, n);
    assert SessionInv(run[n].sessions[i]) && EndInv(run[n].sessions[i]) && StageInv(run[n].sessions[i]);
  }

  // ----- The state in which it closes -----

  lemma ClosingActs(x: Session, seg: Segment)
    requires SessionInv(x) && Can(x, seg) && !x.closed && Act(x, seg).closed
    ensures seg.StartFails? || seg.StopFinish? || seg.GivesUp?
    ensures Act(x, seg).state == if seg.StartFails? || (seg.StopFinish? && seg.ok) then Stopped else Failed
  {
    hide LockInv, OwnerInv;
  }

  /** The step that closes a session leaves it Stopped exactly when the start failed or the source reported that it
      stopped, and Failed exactly when the source failed to stop or the permitted recovery attempts were used up. */
  lemma ClosingStateIs(run: seq<Camera>, steps: seq<Step>, k: nat)
    requires IsRun(run, steps) && k < |steps| && steps[k].Run?
    requires !run[k].sessions[steps[k].session].closed && run[k + 1].sessions[steps[k].session].closed
    ensures var x, seg := run[k].sessions[steps[k].session], steps[k].segment;
            var state := run[k + 1].sessions[steps[k].session].state;
            && (state.Stopped? <==> seg.StartFails? || (seg.StopFinish? && seg.ok))
            && (state.Failed? <==> (seg.StopFinish? && !seg.ok) || (seg.GivesUp? && x.maxAttempts == Some(Failures(x.log))))
  {
    hide Act, SessionInv, WellNumbered, Failures, Streak;
    RunSessions(run, steps, k);
    RunAttempts(run, steps, k);
    ClosingActs(run[k].sessions[steps[k].session], steps[k].segment);
    assert AttemptInv(run[k].sessions[steps[k].session]);
  }

  // ----- How it starts -----

  predicate Fails(step: Step, i: nat) {
    step == Run(i, CandidateFails)
  }

  /** How many candidates of session `i` have failed in the first `n` steps. */
  function Tried(steps: seq<Step>, n: nat, i: nat): nat
    requires n <= |steps|
  {
    if n == 0 then 0 else Tried(steps, n - 1, i) + if Fails(steps[n - 1], i) then 1 else 0
  }

  /** How many candidates it was given. */
  function Given(steps: seq<Step>, n: nat, i: nat): nat
    requires n <= |steps|
  {
    if n == 0 then 0
    else if steps[n - 1].Run? && steps[n - 1].session == i && steps[n - 1].segment.OptionsApplied? then
      steps[n - 1].segment.candidates
    else Given(steps, n - 1, i)
  }

  /** Whether one of them worked. */
  ghost predicate SomeWorked(steps: seq<Step>, n: nat, i: nat)
    requires n <= |steps|
  {
    exists k :: 0 <= k < n && steps[k] == Run(i, CandidateWorks)
  }

  ghost predicate StartCounts(x: Session, tried: nat, given: nat, worked: bool) {
    && (x.start.NotSpawned? ==> tried == 0)
    && (x.start.Queued? || x.start.Cleaning? ==> tried + x.start.left == given)
    && (x.start.Trying? ==> tried + x.start.left + 1 == given)
    && (x.start == Finished(true) ==> worked)
    && (x.start == Failing(true) ==> worked)
  }

  lemma SegmentCounts(x: Session, seg: Segment, tried: nat, given: nat, worked: bool)
    requires SessionInv(x) && StartCounts(x, tried, given, worked) && Can(x, seg)
    ensures StartCounts(Act(x, seg), tried + (if seg.CandidateFails? then 1 else 0),
                        if seg.OptionsApplied? then seg.candidates else given, worked || seg.CandidateWorks?)
  {
    hide LockInv, FlagsInv, WithPhase;
  }

  lemma NextCounts(run: seq<Camera>, steps: seq<Step>, n: nat, i: nat)
    requires IsRun(run, steps) && 0 < n <= |steps| && i < |run[n - 1].sessions| && SessionsInv(run[n - 1])
    requires StartCounts(run[n - 1].sessions[i], Tried(steps, n - 1, i), Given(steps, n - 1, i), SomeWorked(steps, n - 1, i))
    ensures i < |run[n].sessions|
    ensures StartCounts(run[n].sessions[i], Tried(steps, n, i), Given(steps, n, i), SomeWorked(steps, n, i))
  {
    hide SessionInv, Act, Can, StartCounts;
    var step := steps[n - 1];
    assert run[n] == Apply(run[n - 1], step) && Enabled(run[n - 1], step);
    if step.Run? && step.session == i {
      SegmentCounts(run[n - 1].sessions[i], step.segment, Tried(steps, n - 1, i), Given(steps, n - 1, i), SomeWorked(steps, n - 1, i));
    }
  }

  lemma {:induction false} NotYetGiven(run: seq<Camera>, steps: seq<Step>, n: nat, i: nat)
    requires IsRun(run, steps) && n <= |steps| && |run[n].sessions| <= i
    ensures Tried(steps, n, i) == 0
  {
    hide Act, Can;
    if n > 0 {
      assert run[n] == Apply(run[n - 1], steps[n - 1]) && Enabled(run[n - 1], steps[n - 1]);
      NotYetGiven(run, steps, n - 1, i);
    }
  }

  lemma {:induction false} RunCounts(run: seq<Camera>, steps: seq<Step>, n: nat, i: nat)
    requires IsRun(run, steps) && n <= |steps| && i < |run[n].sessions|
    ensures StartCounts(run[n].sessions[i], Tried(steps, n, i), Given(steps, n, i), SomeWorked(steps, n, i))
  {
    hide SessionsInv, StartCounts, Enabled, Apply;
    assert n > 0;
    if i < |run[n - 1].sessions| {
      RunCounts(run, steps, n - 1, i);
      RunSessions(run, steps, n - 1);
      NextCounts(run, steps, n, i);
    } else {
      NotYetGiven(run, steps, n - 1, i);
      NewCounts(run[n - 1], steps[n - 1], i, Given(steps, n, i), SomeWorked(steps, n, i));
    }
  }

  lemma NewCounts(c: Camera, step: Step, i: nat, given: nat, worked: bool)
    requires Enabled(c, step) && |c.sessions| <= i < |Apply(c, step).sessions|
    ensures StartCounts(Apply(c, step).sessions[i], 0, given, worked) && !Fails(step, i)
  {
    hide Act, Can;
  }

  lemma GivesUpStarting(x: Session, seg: Segment)
    requires Can(x, seg) && (seg.StartLock? || seg.CandidateStopped?) && Act(x, seg).start.Failing?
    requires !x.stopping && x.receiving
    ensures x.start.left == 0
  {
  }

  /** A start that nobody stopped gives up only when every candidate it was given has been tried. */
  lemma StartTriesAll(run: seq<Camera>, steps: seq<Step>, k: nat)
    requires IsRun(run, steps) && k < |steps| && steps[k].Run? && (steps[k].segment.StartLock? || steps[k].segment.CandidateStopped?)
    requires run[k + 1].sessions[steps[k].session].start.Failing?
    requires !run[k].sessions[steps[k].session].stopping && run[k].sessions[steps[k].session].receiving
    ensures Tried(steps, k, steps[k].session) == Given(steps, k, steps[k].session)
  {
    hide Act;
    RunCounts(run, steps, k, steps[k].session);
    GivesUpStarting(run[k].sessions[steps[k].session], steps[k].segment);
  }

  /** A handle is only ever returned for a session of which a candidate worked. */
  lemma HandleMeansWorked(run: seq<Camera>, steps: seq<Step>, n: nat, i: nat)
    requires IsRun(run, steps) && n <= |steps| && i < |run[n].sessions| && run[n].sessions[i].owner.Live?
    ensures exists k :: 0 <= k < n && steps[k] == Run(i, CandidateWorks)
  {
    hide Enabled, Apply, LockInv, FlagsInv;
    RunCounts(run, steps, n, i);
    RunSessions(run, steps, n);
    assert SessionInv(run[n].sessions[i]);
  }

  // ----- The device -----

  lemma DeviceStays(c: Camera, step: Step)
    requires Enabled(c, step) && (c.closed || step.CloseDevice?)
    ensures Apply(c, step).closed && !step.Begin?
  {
    hide Act, Can;
  }

  lemma NoBegin(c: Camera)
    requires c.closed
    ensures forall maxAttempts :: !Enabled(c, Begin(maxAttempts))
  {
  }

  /** A closed device stays closed, and no session begins on it. */
  lemma {:induction false} ClosedDeviceStaysClosed(run: seq<Camera>, steps: seq<Step>, a: nat, b: nat)
    requires IsRun(run, steps) && a < b <= |steps| && steps[a].CloseDevice?
    ensures run[b].closed && (forall k :: a <= k < b ==> !steps[k].Begin?)
    ensures forall maxAttempts :: !Enabled(run[b], Begin(maxAttempts))
  {
    hide Enabled, Apply;
    if a + 1 < b {
      ClosedDeviceStaysClosed(run, steps, a, b - 1);
    }
    DeviceStays(run[b - 1], steps[b - 1]);
    NoBegin(run[b]);
  }
}
