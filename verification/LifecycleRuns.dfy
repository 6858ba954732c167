/** What holds in every run of the lifecycle, and what exactly one missing test of the start task breaks. */
module LifecycleRuns {
  import opened Basics
  import opened Lifecycle

  // ----- One segment -----

  lemma OwnerKeeps(x: Session, seg: Segment)
    requires SessionInv(x) && Can(x, seg) && OfOwner(seg)
    ensures SessionInv(ActOwner(x, seg))
  {
  }

  lemma StartKeeps(x: Session, seg: Segment)
    requires SessionInv(x) && Can(x, seg) && OfStart(seg)
    ensures SessionInv(ActStart(x, seg))
  {
  }

  lemma StopKeeps(x: Session, seg: Segment)
    requires SessionInv(x) && Can(x, seg) && OfStop(seg)
    ensures SessionInv(ActStop(x, seg))
  {
  }

  /** The segments with which the recovery loop lets go of the lock, or of the session. */
  predicate Leaves(seg: Segment) {
    seg.SourceStarts? || seg.Quits? || seg.FailureStopped? || seg.GivesUp? || seg.Vanishes?
  }

  lemma AttemptKeeps(x: Session, seg: Segment)
    requires SessionInv(x) && Can(x, seg) && OfRecovery(seg) && !Leaves(seg)
    ensures SessionInv(ActRecovery(x, seg))
  {
  }

  lemma LeavingKeeps(x: Session, seg: Segment)
    requires SessionInv(x) && Can(x, seg) && OfRecovery(seg) && Leaves(seg)
    ensures SessionInv(ActRecovery(x, seg))
  {
  }

  /** Every segment of every task keeps the lock and the flags, that of a late start task included. */
  lemma SegmentKeeps(x: Session, seg: Segment)
    requires SessionInv(x) && Can(x, seg)
    ensures SessionInv(Act(x, seg))
  {
    hide SessionInv, Can, ActOwner, ActStart, ActStop, ActRecovery;
    if OfOwner(seg) { OwnerKeeps(x, seg); }
    else if OfStart(seg) { StartKeeps(x, seg); }
    else if OfStop(seg) { StopKeeps(x, seg); }
    else if Leaves(seg) { LeavingKeeps(x, seg); }
    else { AttemptKeeps(x, seg); }
  }

  /** Counts and flags only go up, and only a release closes. */
  predicate Up(x: Session, seg: Segment, y: Session) {
    && y.released == x.released + (if Releases(seg) then 1 else 0)
    && y.closed == (x.closed || Releases(seg))
    && (Starts(y.owner) ==> Starts(x.owner))
    && (x.stopping ==> y.stopping)
  }

  lemma OwnerUp(x: Session, seg: Segment)
    requires Can(x, seg) && OfOwner(seg)
    ensures Up(x, seg, ActOwner(x, seg))
  {
  }

  lemma StartUp(x: Session, seg: Segment)
    requires Can(x, seg) && OfStart(seg)
    ensures Up(x, seg, ActStart(x, seg))
  {
  }

  lemma StopUp(x: Session, seg: Segment)
    requires Can(x, seg) && OfStop(seg)
    ensures Up(x, seg, ActStop(x, seg))
  {
  }

  lemma RecoveryUp(x: Session, seg: Segment)
    requires Can(x, seg) && OfRecovery(seg)
    ensures Up(x, seg, ActRecovery(x, seg))
  {
  }

  lemma OnlyUp(x: Session, seg: Segment)
    requires Can(x, seg)
    ensures Up(x, seg, Act(x, seg))
  {
    hide Up, Can, ActOwner, ActStart, ActStop, ActRecovery;
    if OfOwner(seg) { OwnerUp(x, seg); }
    else if OfStart(seg) { StartUp(x, seg); }
    else if OfStop(seg) { StopUp(x, seg); }
    else { RecoveryUp(x, seg); }
  }

  /** Only a late start task releases a session that is closed already. */
  lemma ReleaseCloses(x: Session, seg: Segment)
    requires SessionInv(x) && Can(x, seg) && Releases(seg) && x.closed
    ensures seg.StartFails?
  {
  }

  /** A terminal state is only ever overwritten by a late start task, and that makes it Stopped. */
  lemma TerminalStays(x: Session, seg: Segment)
    requires SessionInv(x) && Can(x, seg) && Terminal(x.state)
    ensures seg.StartFails? ==> x.closed
    ensures Act(x, seg).state == if seg.StartFails? then Stopped else x.state
  {
  }

  /** The source is only started for a session that is neither stopping nor closed. */
  lemma SourceGuard(x: Session, seg: Segment)
    requires SessionInv(x) && Can(x, seg) && BeginsSource(x, seg)
    ensures !x.stopping && !x.closed
  {
  }

  // ----- The camera -----

  predicate SessionsInv(c: Camera) {
    forall i :: 0 <= i < |c.sessions| ==> SessionInv(c.sessions[i])
  }

  /** All but the newest session are closed and have no start future; `busy` says whether that one is open,
      and a closed camera has none. */
  predicate BusyInv(c: Camera) {
    && (forall i :: 0 <= i < |c.sessions| - 1 ==> c.sessions[i].closed && !Starts(c.sessions[i].owner))
    && (c.busy <==> |c.sessions| > 0 && !c.sessions[|c.sessions| - 1].closed)
    && (c.closed ==> !c.busy)
  }

  lemma {:induction false} RunSessions(run: seq<Camera>, steps: seq<Step>, n: nat)
    requires IsRun(run, steps) && n <= |steps|
    ensures SessionsInv(run[n])
  {
    hide SessionsInv, Enabled, Apply;
    if n == 0 {
      OpenedHolds();
    } else {
      RunSessions(run, steps, n - 1);
      StepSessions(run[n - 1], steps[n - 1]);
    }
  }

  lemma StepSessions(c: Camera, step: Step)
    requires SessionsInv(c) && Enabled(c, step)
    ensures SessionsInv(Apply(c, step))
  {
    hide SessionInv, Act, Can;
    if step.Run? {
      SegmentKeeps(c.sessions[step.session], step.segment);
    } else if step.Begin? {
      NewKeeps(step.maxAttempts);
    }
  }

  lemma NewKeeps(maxAttempts: Option<nat>)
    ensures SessionInv(NewSession(maxAttempts))
  {
  }

  lemma OpenedHolds()
    ensures SessionsInv(OPENED) && BusyInv(OPENED)
  {
  }

  // ----- One session at a time -----

  lemma StepBusy(c: Camera, step: Step)
    requires SessionsInv(c) && BusyInv(c) && Enabled(c, step) && !Untimely(c, step)
    ensures BusyInv(Apply(c, step))
  {
    hide SessionInv, Act, Can;
    if step.Run? {
      var x := c.sessions[step.session];
      OnlyUp(x, step.segment);
      if Releases(step.segment) && x.closed {
        ReleaseCloses(x, step.segment);
        assert c.busy ==> IsLive(c, |c.sessions| - 1);
      }
    }
  }

  lemma {:induction false} RunBusy(run: seq<Camera>, steps: seq<Step>, n: nat)
    requires IsRun(run, steps) && n <= |steps| && Timely(run, steps, n)
    ensures BusyInv(run[n])
  {
    hide BusyInv, Enabled, Apply, Untimely, SessionsInv;
    if n == 0 {
      OpenedHolds();
    } else {
      RunBusy(run, steps, n - 1);
      RunSessions(run, steps, n - 1);
      StepBusy(run[n - 1], steps[n - 1]);
    }
  }

  lemma BusyIsExclusive(c: Camera)
    requires BusyInv(c)
    ensures Exclusive(c)
  {
    if c.busy {
      assert IsLive(c, |c.sessions| - 1);
    }
  }

  /** After an untimely step the camera is free under an open session. */
  lemma UntimelyBreaks(c: Camera, step: Step)
    requires Enabled(c, step) && Untimely(c, step)
    ensures !Exclusive(Apply(c, step))
  {
    hide Act, Can;
    var i :| 0 <= i < |c.sessions| && IsLive(c, i);
    assert IsLive(Apply(c, step), i);
  }

  /** At every moment of a run `busy` holds exactly while a session is open, there is never a second one, and a
      closed device has none: exactly when no start task cleans up a closed session while another is open. */
  lemma AtMostOneSessionIff(run: seq<Camera>, steps: seq<Step>, n: nat)
    requires IsRun(run, steps) && n <= |steps|
    ensures (forall m :: 0 <= m <= n ==> Exclusive(run[m])) <==> Timely(run, steps, n)
  {
    hide Exclusive, BusyInv, Enabled, Apply, Untimely;
    if Timely(run, steps, n) {
      forall m | 0 <= m <= n ensures Exclusive(run[m]) {
        RunBusy(run, steps, m);
        BusyIsExclusive(run[m]);
      }
    } else {
      var k :| 0 <= k < n && Untimely(run[k], steps[k]);
      UntimelyBreaks(run[k], steps[k]);
      assert !Exclusive(run[k + 1]);
    }
  }

  /** Up to the first untimely step the device is released only when no session is open. */
  lemma DeviceReleaseIsAlone(run: seq<Camera>, steps: seq<Step>, k: nat)
    requires IsRun(run, steps) && k < |steps| && Timely(run, steps, k) && steps[k].CloseDevice?
    ensures forall i :: 0 <= i < |run[k].sessions| ==> !IsLive(run[k], i)
  {
    hide Untimely;
    AtMostOneSessionIff(run, steps, k);
    assert Exclusive(run[k]) && Enabled(run[k], steps[k]);
  }

  // ----- No source starts after a stop -----

  /** In every run, late start tasks or not, a source is never started for a session that is stopping or
      closed. */
  lemma SourceNeverStartsAfterStop(run: seq<Camera>, steps: seq<Step>, k: nat)
    requires IsRun(run, steps) && k < |steps|
    requires steps[k].Run? && BeginsSource(run[k].sessions[steps[k].session], steps[k].segment)
    ensures var x := run[k].sessions[steps[k].session]; !x.stopping && !x.closed
  {
    hide BeginsSource, SessionInv;
    RunSessions(run, steps, k);
    SourceGuard(run[k].sessions[steps[k].session], steps[k].segment);
  }

  /** Up to the first untimely step that session is the only open one, and the device has not been released. */
  lemma SourceStartsAlone(run: seq<Camera>, steps: seq<Step>, k: nat)
    requires IsRun(run, steps) && k < |steps| && Timely(run, steps, k)
    requires steps[k].Run? && BeginsSource(run[k].sessions[steps[k].session], steps[k].segment)
    ensures run[k].busy && !run[k].closed
    ensures forall i :: 0 <= i < |run[k].sessions| ==> (IsLive(run[k], i) <==> i == steps[k].session)
  {
    hide BeginsSource, Untimely;
    SourceNeverStartsAfterStop(run, steps, k);
    AtMostOneSessionIff(run, steps, k);
    assert Exclusive(run[k]) && IsLive(run[k], steps[k].session);
  }

  // ----- Finality -----

  /** The late start task of session `i` runs. */
  predicate LateOf(c: Camera, step: Step, i: nat)
    requires Enabled(c, step)
  {
    Late(c, step) && step.session == i
  }

  lemma NextFinal(c: Camera, step: Step, i: nat)
    requires SessionsInv(c) && Enabled(c, step) && i < |c.sessions| && Terminal(c.sessions[i].state)
    ensures i < |Apply(c, step).sessions|
    ensures Apply(c, step).sessions[i].state == if LateOf(c, step, i) then Stopped else c.sessions[i].state
  {
    hide SessionInv, Act, Can;
    if step.Run? && step.session == i {
      TerminalStays(c.sessions[i], step.segment);
    }
  }

  /** A terminal state of a session stays exactly when it is Stopped or the start task does not come late.
      So Stopped is final in every run, and Failed turns into Stopped exactly when the start task comes late.
      As everywhere in this model a segment is one step: the recovery loop sets Failed and then `stopping`, and
      a `request_stop` on another thread between the two stores is below this grain. */
  lemma {:induction false} TerminalIsFinalIff(run: seq<Camera>, steps: seq<Step>, a: nat, b: nat, i: nat)
    requires IsRun(run, steps) && a <= b <= |steps|
    requires i < |run[a].sessions| && Terminal(run[a].sessions[i].state)
    ensures i < |run[b].sessions| && Terminal(run[b].sessions[i].state)
    ensures run[b].sessions[i].state == run[a].sessions[i].state
            <==> run[a].sessions[i].state == Stopped || forall k :: a <= k < b ==> !LateOf(run[k], steps[k], i)
  {
    hide SessionsInv, Enabled, Apply, LateOf;
    if a < b {
      TerminalIsFinalIff(run, steps, a, b - 1, i);
      RunSessions(run, steps, b - 1);
      NextFinal(run[b - 1], steps[b - 1], i);
    }
  }

  // ----- Single release -----

  predicate ReleasedOnce(c: Camera) {
    forall i :: 0 <= i < |c.sessions| ==> c.sessions[i].released == if IsLive(c, i) then 0 else 1
  }

  lemma StepGrows(c: Camera, step: Step)
    requires Enabled(c, step)
    ensures |c.sessions| <= |Apply(c, step).sessions|
  {
    hide Act, Can;
  }

  lemma {:induction false} SessionsGrow(run: seq<Camera>, steps: seq<Step>, a: nat, b: nat)
    requires IsRun(run, steps) && a <= b <= |steps|
    ensures |run[a].sessions| <= |run[b].sessions|
  {
    hide Enabled, Apply;
    if a < b {
      SessionsGrow(run, steps, a, b - 1);
      StepGrows(run[b - 1], steps[b - 1]);
    }
  }

  predicate CountedAs(x: Session, late: bool) {
    (x.closed <==> 0 < x.released) && (x.released <= 1 <==> !late)
  }

  lemma NextCounted(c: Camera, step: Step, i: nat, late: bool)
    requires SessionsInv(c) && Enabled(c, step) && i < |c.sessions| && CountedAs(c.sessions[i], late)
    ensures i < |Apply(c, step).sessions| && CountedAs(Apply(c, step).sessions[i], late || LateOf(c, step, i))
  {
    hide SessionInv, Act, Can;
    if step.Run? && step.session == i {
      OnlyUp(c.sessions[i], step.segment);
      if Releases(step.segment) && c.sessions[i].closed {
        ReleaseCloses(c.sessions[i], step.segment);
      }
    }
  }

  lemma FirstCounted(c: Camera, step: Step, i: nat)
    requires Enabled(c, step) && |c.sessions| <= i < |Apply(c, step).sessions|
    ensures CountedAs(Apply(c, step).sessions[i], false)
  {
    hide Act, Can;
  }

  /** A session is closed exactly when it has been released, and released more than once exactly when its start
      task came late. */
  lemma {:induction false} ReleasesCounted(run: seq<Camera>, steps: seq<Step>, n: nat, i: nat)
    requires IsRun(run, steps) && n <= |steps| && i < |run[n].sessions|
    ensures CountedAs(run[n].sessions[i], exists k :: 0 <= k < n && LateOf(run[k], steps[k], i))
  {
    hide SessionsInv, Enabled, Apply, LateOf, CountedAs;
    assert n > 0;
    if i < |run[n - 1].sessions| {
      ReleasesCounted(run, steps, n - 1, i);
      RunSessions(run, steps, n - 1);
      var before := exists k :: 0 <= k < n - 1 && LateOf(run[k], steps[k], i);
      NextCounted(run[n - 1], steps[n - 1], i, before);
    } else {
      FirstCounted(run[n - 1], steps[n - 1], i);
      forall k | 0 <= k < n ensures !LateOf(run[k], steps[k], i) {
        SessionsGrow(run, steps, k, n - 1);
        NotYet(run[k], steps[k], i);
      }
    }
  }

  lemma NotYet(c: Camera, step: Step, i: nat)
    requires Enabled(c, step) && |c.sessions| <= i
    ensures !LateOf(c, step, i)
  {
  }

  /** Every session is released when it closes and never again exactly when no start task cleans up a session
      that a stop task had already closed. */
  lemma ReleasedOnceIff(run: seq<Camera>, steps: seq<Step>, n: nat)
    requires IsRun(run, steps) && n <= |steps|
    ensures ReleasedOnce(run[n]) <==> Prompt(run, steps, n)
  {
    hide Enabled, Apply, Late;
    if Prompt(run, steps, n) {
      forall i | 0 <= i < |run[n].sessions| ensures run[n].sessions[i].released == if IsLive(run[n], i) then 0 else 1 {
        ReleasesCounted(run, steps, n, i);
      }
    } else {
      var k :| 0 <= k < n && Late(run[k], steps[k]);
      LateRuns(run[k], steps[k]);
      SessionsGrow(run, steps, k, n);
      assert LateOf(run[k], steps[k], steps[k].session);
      ReleasesCounted(run, steps, n, steps[k].session);
    }
  }

  lemma LateRuns(c: Camera, step: Step)
    requires Enabled(c, step) && Late(c, step)
    ensures step.Run? && step.session < |c.sessions|
  {
  }

  const LATE_STEPS: seq<Step> := [
    Begin(None), Run(0, OptionsApplied(1)), Run(0, Abandon), Run(0, StopLock(0)), Run(0, StopFinish(0, false)),
    Run(0, StartLock), Begin(None), Run(1, OptionsApplied(1)), Run(1, StartLock), Run(1, CandidateWorks),
    Run(1, Resume(false)), Run(0, StartFails)]

  /** The first session of the example: abandoned, stopped with an error, then cleaned up too late. */
  function First(n: nat): Session {
    var x := NewSession(None);
    if n <= 1 then x
    else if n == 2 then x.(owner := Waiting, start := Queued(1))
    else
      var y := x.(owner := Gone, start := Queued(1), receiving := false, stopping := true, state := Stopping);
      if n == 3 then y.(stops := [StopTask(true, Wanting)])
      else if n == 4 then y.(stops := [StopTask(true, Awaiting)], holder := ByStop(0))
      else
        var z := y.(stops := [StopTask(true, Over)], closed := true, state := Failed, released := 1);
        if n == 5 then z
        else if n <= 11 then z.(holder := ByStart, start := Failing(false))
        else z.(start := Finished(false), state := Stopped, released := 2)
  }

  /** The second session, which streams. */
  function Second(n: nat): Session {
    var x := NewSession(None);
    if n <= 7 then x
    else if n == 8 then x.(owner := Waiting, start := Queued(1))
    else if n == 9 then x.(owner := Waiting, start := Trying(0), holder := ByStart)
    else if n == 10 then x.(owner := Waiting, start := Finished(true))
    else x.(owner := Live, start := Finished(true), state := Streaming)
  }

  function LateAt(n: nat): Camera {
    Camera(1 <= n <= 4 || 7 <= n <= 11, false,
           if n == 0 then [] else if n <= 6 then [First(n)] else [First(n), Second(n)])
  }

  lemma FirstActs(n: nat)
    requires 1 <= n <= 5 || n == 11
    ensures LATE_STEPS[n].Run? && Can(First(n), LATE_STEPS[n].segment)
    ensures Act(First(n), LATE_STEPS[n].segment) == First(n + 1)
  {
    var wanting, awaiting, over := StopTask(true, Wanting), StopTask(true, Awaiting), StopTask(true, Over);
    if n == 2 { assert [] + [wanting] == [wanting]; }
    if n == 3 { assert [wanting][0 := awaiting] == [awaiting]; }
    if n == 4 { assert [awaiting][0 := over] == [over]; }
  }

  lemma SecondActs(n: nat)
    requires 7 <= n <= 10
    ensures LATE_STEPS[n].Run? && Can(Second(n), LATE_STEPS[n].segment)
    ensures Act(Second(n), LATE_STEPS[n].segment) == Second(n + 1) && First(n) == First(n + 1)
  {
  }

  lemma LateStep(n: nat)
    requires n < 12
    ensures Enabled(LateAt(n), LATE_STEPS[n]) && Apply(LateAt(n), LATE_STEPS[n]) == LateAt(n + 1)
  {
    hide Act, Can;
    if 1 <= n <= 5 || n == 11 {
      FirstActs(n);
    } else if 7 <= n {
      SecondActs(n);
    }
  }

  /** A start future is dropped right after it has spawned its task, the stop task wins the lock, the source
      reports an error, and a second session begins to stream: the first session's late task then turns its
      state from Failed to Stopped and gives the camera back under the second one, so that the device can be
      released. */
  lemma LateStartExample() returns (run: seq<Camera>)
    ensures IsRun(run, LATE_STEPS)
    ensures run[11].sessions[0].state == Failed && run[12].sessions[0].state == Stopped
    ensures !run[12].busy && |run[12].sessions| == 2 && IsLive(run[12], 1) && run[12].sessions[1].state == Streaming
    ensures Enabled(run[12], CloseDevice) && Enabled(run[12], Begin(None))
  {
    hide Apply, Enabled, Act, Can;
    run := seq(13, n requires 0 <= n < 13 => LateAt(n));
    forall k | 0 <= k < 12 ensures Enabled(run[k], LATE_STEPS[k]) && run[k + 1] == Apply(run[k], LATE_STEPS[k]) {
      LateStep(k);
    }
    LateEnds();
  }

  lemma LateEnds()
    ensures Enabled(LateAt(12), CloseDevice) && Enabled(LateAt(12), Begin(None))
  {
  }
}
