/** The recovery loop over whole runs: how attempts are numbered, and when the session gives up. */
module RecoveryRuns {
  import opened Basics
  import opened Lifecycle

  /** Attempts since the last success. */
  function Streak(log: seq<Event>): nat {
    if log == [] || log[|log| - 1].Succeeded? then 0
    else Streak(log[..|log| - 1]) + if log[|log| - 1].Attempted? then 1 else 0
  }

  /** Failed attempts since the last success. */
  function Failures(log: seq<Event>): nat {
    if log == [] || log[|log| - 1].Succeeded? then 0
    else Failures(log[..|log| - 1]) + if log[|log| - 1].AttemptFailed? then 1 else 0
  }

  /** Attempts are numbered 1, 2, 3, ... since the last success, and giving up comes after exactly the
      permitted number of failures in a row. */
  ghost predicate WellNumbered(log: seq<Event>, maxAttempts: Option<nat>) {
    && (forall p :: 0 <= p < |log| && log[p].Attempted? ==> log[p].number == Streak(log[..p]) + 1)
    && (forall p :: 0 <= p < |log| && log[p].Attempted? && maxAttempts.Some? ==> log[p].number <= maxAttempts.value)
    && (forall p :: 0 <= p < |log| && log[p].GaveUp? ==> maxAttempts == Some(Failures(log[..p])))
  }

  predicate Working(r: Recovery) {
    r.SourceStopping? || r.Reopening? || r.SourceStarting? || r.Quitting? || r.FailStopping?
  }

  predicate Idle(r: Recovery) {
    r.NoRecovery? || r.Watching? || r == Wanted(false)
  }

  predicate Retrying(r: Recovery) {
    r.Sleeping? || r == Wanted(true)
  }

  ghost predicate AttemptInv(x: Session) {
    && WellNumbered(x.log, x.maxAttempts)
    && (x.maxAttempts.Some? ==> 0 < x.maxAttempts.value)
    && (Starts(x.owner) ==> x.recovery.NoRecovery?)
    && (x.recovery.NoRecovery? ==> x.log == [])
    && (!x.recovery.Ended? ==> x.attempt == Streak(x.log))
    && (Idle(x.recovery) ==> x.attempt == 0 && Failures(x.log) == 0)
    && (Retrying(x.recovery) ==> 0 < x.attempt == Failures(x.log))
    && (Working(x.recovery) ==> x.attempt == Failures(x.log) + 1)
    && (x.recovery.GivingUp? ==> x.maxAttempts == Some(Failures(x.log)))
    && (x.maxAttempts.Some? && Retrying(x.recovery) ==> x.attempt < x.maxAttempts.value)
    && (x.maxAttempts.Some? && Working(x.recovery) ==> x.attempt <= x.maxAttempts.value)
  }

  lemma Logged(log: seq<Event>, e: Event, maxAttempts: Option<nat>)
    requires WellNumbered(log, maxAttempts)
    requires e.Attempted? ==> e.number == Streak(log) + 1 && (maxAttempts.Some? ==> e.number <= maxAttempts.value)
    requires e.GaveUp? ==> maxAttempts == Some(Failures(log))
    ensures WellNumbered(log + [e], maxAttempts)
    ensures Streak(log + [e]) == if e.Succeeded? then 0 else Streak(log) + if e.Attempted? then 1 else 0
    ensures Failures(log + [e]) == if e.Succeeded? then 0 else Failures(log) + if e.AttemptFailed? then 1 else 0
  {
    var longer := log + [e];
    assert longer[..|log|] == log;
    forall p | 0 <= p < |longer| ensures p < |log| ==> longer[..p] == log[..p] {
    }
  }

  lemma QuietAttempts(x: Session, seg: Segment)
    requires AttemptInv(x) && Can(x, seg) && (seg.Triggered? || seg.Slept? || seg.Vanishes?)
    ensures AttemptInv(ActRecovery(x, seg))
  {
    hide WellNumbered, Streak, Failures;
  }

  lemma WorkAttempts(x: Session, seg: Segment)
    requires AttemptInv(x) && Can(x, seg) && (seg.SourceStops? || seg.Reopens? || seg.Quits?)
    ensures AttemptInv(ActRecovery(x, seg))
  {
    hide WellNumbered, Streak, Failures;
  }

  lemma LockAttempts(x: Session, seg: Segment)
    requires AttemptInv(x) && Can(x, seg) && seg.RecoveryLock?
    ensures AttemptInv(ActRecovery(x, seg))
  {
    hide WellNumbered, Streak, Failures;
    Logged(x.log, Attempted(Streak(x.log) + 1), x.maxAttempts);
  }

  lemma StartAttempts(x: Session, seg: Segment)
    requires AttemptInv(x) && Can(x, seg) && seg.SourceStarts?
    ensures AttemptInv(ActRecovery(x, seg))
  {
    hide WellNumbered, Streak, Failures;
    Logged(x.log, Succeeded, x.maxAttempts);
  }

  lemma FailedAttempts(x: Session, seg: Segment)
    requires AttemptInv(x) && Can(x, seg) && (seg.FailureStopped? || seg.GivesUp?)
    ensures AttemptInv(ActRecovery(x, seg))
  {
    hide WellNumbered, Streak, Failures;
    Logged(x.log, if seg.FailureStopped? then AttemptFailed else GaveUp, x.maxAttempts);
  }

  lemma RecoveryAttempts(x: Session, seg: Segment)
    requires AttemptInv(x) && Can(x, seg) && OfRecovery(seg)
    ensures AttemptInv(ActRecovery(x, seg))
  {
    hide AttemptInv, ActRecovery;
    if seg.RecoveryLock? { LockAttempts(x, seg); }
    else if seg.SourceStarts? { StartAttempts(x, seg); }
    else if seg.FailureStopped? || seg.GivesUp? { FailedAttempts(x, seg); }
    else if seg.SourceStops? || seg.Reopens? || seg.Quits? { WorkAttempts(x, seg); }
    else { QuietAttempts(x, seg); }
  }

  lemma OtherAttempts(x: Session, seg: Segment)
    requires AttemptInv(x) && Can(x, seg) && !OfRecovery(seg)
    ensures AttemptInv(Act(x, seg))
  {
    hide WellNumbered, Streak, Failures;
    NothingLogged();
  }

  lemma NothingLogged()
    ensures Streak([]) == 0 && Failures([]) == 0 && forall m :: WellNumbered([], m)
  {
  }

  ghost predicate AttemptsOk(c: Camera) {
    forall i :: 0 <= i < |c.sessions| ==> AttemptInv(c.sessions[i])
  }

  lemma StepAttempts(c: Camera, step: Step)
    requires AttemptsOk(c) && Enabled(c, step)
    ensures AttemptsOk(Apply(c, step))
  {
    hide AttemptInv, Act, Can;
    if step.Run? {
      var x := c.sessions[step.session];
      if OfRecovery(step.segment) {
        RecoveryAttempts(x, step.segment);
        ActsByRecovery(x, step.segment);
      } else {
        OtherAttempts(x, step.segment);
      }
    } else if step.Begin? {
      NewAttempts(step.maxAttempts);
    }
  }

  lemma ActsByRecovery(x: Session, seg: Segment)
    requires Can(x, seg) && OfRecovery(seg)
    ensures Act(x, seg) == ActRecovery(x, seg)
  {
  }

  lemma NewAttempts(maxAttempts: Option<nat>)
    requires maxAttempts.Some? ==> 0 < maxAttempts.value
    ensures AttemptInv(NewSession(maxAttempts))
  {
  }

  lemma {:induction false} RunAttempts(run: seq<Camera>, steps: seq<Step>, n: nat)
    requires IsRun(run, steps) && n <= |steps|
    ensures AttemptsOk(run[n])
  {
    hide Enabled, Apply, AttemptInv;
    if n > 0 {
      RunAttempts(run, steps, n - 1);
      StepAttempts(run[n - 1], steps[n - 1]);
    }
  }

  /** In every run, late start tasks or not: attempts are numbered since the last success, they never exceed
      the permitted number, and a session that gave up had failed exactly that often in a row. */
  lemma AttemptsAreNumbered(run: seq<Camera>, steps: seq<Step>, n: nat, i: nat, p: nat)
    requires IsRun(run, steps) && n <= |steps| && i < |run[n].sessions| && p < |run[n].sessions[i].log|
    ensures var x := run[n].sessions[i];
            && (x.log[p].Attempted? ==> x.log[p].number == Streak(x.log[..p]) + 1)
            && (x.log[p].Attempted? && x.maxAttempts.Some? ==> x.log[p].number <= x.maxAttempts.value)
            && (x.log[p].GaveUp? ==> x.maxAttempts == Some(Failures(x.log[..p])))
  {
    hide Enabled, Apply;
    RunAttempts(run, steps, n);
  }

  /** A failure makes the session Failed exactly when it is the last one permitted in a row; otherwise fewer
      are left than before. */
  lemma FailureEndsIff(run: seq<Camera>, steps: seq<Step>, n: nat)
    requires IsRun(run, steps) && n < |steps| && steps[n].Run? && steps[n].segment.FailureStopped?
    ensures var x, y := run[n].sessions[steps[n].session], run[n + 1].sessions[steps[n].session];
            && Failures(y.log) == Failures(x.log) + 1
            && (y.recovery.GivingUp? && y.state.Failed? && y.stopping <==> x.maxAttempts == Some(Failures(y.log)))
            && (x.maxAttempts.Some? ==> Failures(y.log) <= x.maxAttempts.value)
  {
    hide WellNumbered, Streak, Failures;
    RunAttempts(run, steps, n);
    var x := run[n].sessions[steps[n].session];
    assert AttemptInv(x);
    Logged(x.log, AttemptFailed, x.maxAttempts);
  }

  /** The loop begins an attempt, numbered after the failures in a row, exactly when nobody stops the session and there is
      a trigger or the attempt before it failed; otherwise it logs nothing. */
  lemma AttemptBeginsIff(run: seq<Camera>, steps: seq<Step>, n: nat)
    requires IsRun(run, steps) && n < |steps| && steps[n].Run? && steps[n].segment.RecoveryLock?
    ensures var x, y := run[n].sessions[steps[n].session], run[n + 1].sessions[steps[n].session];
            if !x.stopping && (steps[n].segment.trigger || 0 < Failures(x.log)) then
              y.log == x.log + [Attempted(Failures(x.log) + 1)] && y.state == Recovering(Failures(x.log) + 1)
            else y.log == x.log && y.state == x.state && y.holder == x.holder
  {
    hide WellNumbered, Streak, Failures;
    RunAttempts(run, steps, n);
    assert AttemptInv(run[n].sessions[steps[n].session]);
  }

  /** What an attempt does after each operation on its source: it is left for good once the session is stopping, it has
      failed when the operation did, and it ends well when the source has started. */
  lemma AttemptGoesOn(x: Session, seg: Segment)
    requires Can(x, seg) && (seg.SourceStops? || seg.Reopens? || seg.SourceStarts?)
    ensures Act(x, seg).recovery
            == if seg.SourceStops? && seg.reopen then Reopening
               else if x.stopping then Quitting
               else if !seg.ok then FailStopping
               else if seg.SourceStarts? then Watching else SourceStarting
    ensures (Act(x, seg).log == x.log + [Succeeded] && Act(x, seg).state.Streaming?)
            <==> Act(x, seg).recovery.Watching?
  {
  }

  /** `recovery_retry_delay`, in milliseconds. */
  function RetryDelay(configured: nat, failedAttempts: nat): nat {
    Min(configured,
        if failedAttempts <= 1 then 100 else if failedAttempts == 2 then 200 else if failedAttempts == 3 then 400
        else configured)
  }

  /** The delay is 100 milliseconds at first, doubles twice and then is the policy's; it never exceeds the policy's and
      never shrinks as failures pile up. */
  lemma RetryDelayGrows(configured: nat, a: nat, b: nat)
    requires a <= b
    ensures RetryDelay(configured, a) <= RetryDelay(configured, b) <= configured
    ensures 4 <= b ==> RetryDelay(configured, b) == configured
    ensures 0 < configured ==> 0 < RetryDelay(configured, a)
    ensures RetryDelay(configured, 0) == RetryDelay(configured, 1) == Min(configured, 100)
    ensures 1 <= a < 3 ==> RetryDelay(configured, a + 1) == Min(configured, 2 * RetryDelay(configured, a))
  {
  }
}
