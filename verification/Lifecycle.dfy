/** Session lifecycle and recovery as a transition system. One step is one segment of a task between two
    awaits: of the start future and the session handle, the spawned start task, the stop tasks, the recovery
    loop, a device operation, or the camera. */
module Lifecycle {
  import opened Basics

  // ----- One session -----

  datatype State = Starting | Streaming | Stopping | Stopped | Failed | Recovering(attempt: nat)

  /** Where the start future is, and later the session handle that it returns. */
  datatype Owner = Options | Waiting | Live | Gone

  /** The spawned start task: `left` candidates are untried; `Failing` awaits the last `source.stop`. */
  datatype StartTask =
    | NotSpawned
    | Queued(left: nat)
    | Trying(left: nat)
    | Cleaning(left: nat)
    | Failing(ok: bool)
    | Finished(ok: bool)

  datatype StopPhase = Wanting | Awaiting | Over

  /** A call of `stop`: in a task of its own when `request_stop` spawned it, else inside the future of `close`. */
  datatype StopTask = StopTask(detached: bool, phase: StopPhase)

  /** `Watching` and `Sleeping` are the awaits at the head of the recovery loop; the rest hold the lock. */
  datatype Recovery =
    | NoRecovery
    | Watching
    | Sleeping
    | Wanted(retrying: bool)
    | SourceStopping
    | Reopening
    | SourceStarting
    | Quitting
    | FailStopping
    | GivingUp
    | Ended

  /** Who holds the session's `lifecycle` mutex. */
  datatype Holder = Free | ByStart | ByStop(task: nat) | ByRecovery | ByNative

  datatype Event = Attempted(number: nat) | Succeeded | AttemptFailed | GaveUp

  /** `released` counts the stores of false to `busy`, and `log` keeps what the recovery loop did. */
  datatype Session = Session(
    stopping: bool, closed: bool, state: State, owner: Owner, receiving: bool, holder: Holder,
    start: StartTask, stops: seq<StopTask>, recovery: Recovery, attempt: nat, maxAttempts: Option<nat>,
    released: nat, log: seq<Event>)

  predicate Terminal(state: State) {
    state.Stopped? || state.Failed?
  }

  predicate Starts(owner: Owner) {
    owner.Options? || owner.Waiting?
  }

  /** The session that `start_inner` creates. */
  function NewSession(maxAttempts: Option<nat>): Session {
    Session(false, false, Starting, Options, true, Free, NotSpawned, [], NoRecovery, 0, maxAttempts, 0, [])
  }

  /** `request_stop`. */
  function RequestStop(x: Session): Session {
    if x.stopping || x.closed then x.(stopping := true)
    else x.(stopping := true, state := Stopping, stops := x.stops + [StopTask(true, Wanting)])
  }

  // ----- Segments -----

  datatype Segment =
    | OptionsApplied(candidates: nat)
    | Abandon
    | Resume(recover: bool)
    | DropHandle
    | CloseHandle
    | StartLock
    | CandidateWorks
    | CandidateFails
    | CandidateStopped
    | StartFails
    | StopLock(task: nat)
    | StopFinish(task: nat, ok: bool)
    | StopCancelled(task: nat)
    | NativeLock
    | NativeUnlock
    | Triggered
    | Slept
    | RecoveryLock(trigger: bool)
    | SourceStops(reopen: bool, ok: bool)
    | Reopens(ok: bool)
    | SourceStarts(ok: bool)
    | Quits
    | FailureStopped
    | GivesUp
    | Vanishes

  predicate OfOwner(seg: Segment) {
    seg.OptionsApplied? || seg.Abandon? || seg.Resume? || seg.DropHandle? || seg.CloseHandle?
  }

  predicate OfStart(seg: Segment) {
    seg.StartLock? || seg.CandidateWorks? || seg.CandidateFails? || seg.CandidateStopped? || seg.StartFails?
  }

  predicate OfStop(seg: Segment) {
    seg.StopLock? || seg.StopFinish? || seg.StopCancelled? || seg.NativeLock? || seg.NativeUnlock?
  }

  predicate OfRecovery(seg: Segment) {
    || seg.Triggered? || seg.Slept? || seg.RecoveryLock? || seg.SourceStops? || seg.Reopens? || seg.SourceStarts?
    || seg.Quits? || seg.FailureStopped? || seg.GivesUp? || seg.Vanishes?
  }

  predicate Can(x: Session, seg: Segment) {
    match seg
    case OptionsApplied(_) => x.owner.Options?
    case Abandon => Starts(x.owner)
    case Resume(_) => x.owner.Waiting? && x.start == Finished(true)
    case DropHandle => x.owner.Live?
    case CloseHandle => x.owner.Live?
    case StartLock => x.start.Queued? && x.holder.Free?
    case CandidateWorks => x.start.Trying?
    case CandidateFails => x.start.Trying?
    case CandidateStopped => x.start.Cleaning?
    case StartFails => x.start.Failing?
    case StopLock(task) => task < |x.stops| && x.stops[task].phase.Wanting? && x.holder.Free?
    case StopFinish(task, _) => task < |x.stops| && x.stops[task].phase.Awaiting?
    case StopCancelled(task) => task < |x.stops| && !x.stops[task].detached && !x.stops[task].phase.Over?
    case NativeLock => x.holder.Free?
    case NativeUnlock => x.holder.ByNative?
    case Triggered => x.recovery.Watching?
    case Slept => x.recovery.Sleeping?
    case RecoveryLock(_) => x.recovery.Wanted? && x.holder.Free?
    case SourceStops(_, _) => x.recovery.SourceStopping?
    case Reopens(_) => x.recovery.Reopening?
    case SourceStarts(_) => x.recovery.SourceStarting?
    case Quits => x.recovery.Quitting?
    case FailureStopped => x.recovery.FailStopping?
    case GivesUp => x.recovery.GivingUp?
    case Vanishes => x.recovery.Watching? || x.recovery.Sleeping?
  }

  /** The head of the candidate loop; past its end the start task cleans up. */
  function NextCandidate(x: Session, left: nat): Session {
    if left > 0 && !x.stopping && x.receiving then x.(holder := ByStart, start := Trying(left - 1))
    else x.(holder := ByStart, start := Failing(false))
  }

  /** Closes the session and gives the camera back. */
  function Release(x: Session, state: State): Session {
    x.(stopping := true, closed := true, state := state, holder := Free, released := x.released + 1)
  }

  /** An attempt went wrong: clean up, for good when the session is stopping. */
  function AttemptErr(x: Session): Session {
    x.(recovery := if x.stopping then Quitting else FailStopping)
  }

  /** The source is stopped, and reopened where need be: start it again, unless the session is stopping. */
  function Restart(x: Session): Session {
    if x.stopping then AttemptErr(x) else x.(recovery := SourceStarting)
  }

  function ActOwner(x: Session, seg: Segment): Session
    requires Can(x, seg) && OfOwner(seg)
  {
    match seg
    case OptionsApplied(candidates) => x.(owner := Waiting, start := Queued(candidates))
    case Abandon => RequestStop(x.(owner := Gone, receiving := false))
    case Resume(recover) =>
      x.(owner := Live, state := Streaming, recovery := if recover then Watching else NoRecovery)
    case DropHandle => if x.stopping then x.(owner := Gone) else RequestStop(x.(owner := Gone))
    case CloseHandle => var y := RequestStop(x); y.(stops := y.stops + [StopTask(false, Wanting)])
  }

  function ActStart(x: Session, seg: Segment): Session
    requires Can(x, seg) && OfStart(seg)
  {
    match seg
    case StartLock => NextCandidate(x, x.start.left)
    case CandidateWorks =>
      if x.stopping || !x.receiving then x.(start := Failing(true)) else x.(start := Finished(true), holder := Free)
    case CandidateFails => x.(start := Cleaning(x.start.left))
    case CandidateStopped => NextCandidate(x, x.start.left)
    case StartFails => Release(x, Stopped).(start := Finished(x.start.ok))
  }

  function WithPhase(stops: seq<StopTask>, task: nat, phase: StopPhase): seq<StopTask>
    requires task < |stops|
  {
    stops[task := stops[task].(phase := phase)]
  }

  function ActStop(x: Session, seg: Segment): Session
    requires Can(x, seg) && OfStop(seg)
  {
    match seg
    case StopLock(task) =>
      if x.closed then x.(stops := WithPhase(x.stops, task, Over))
      else x.(stopping := true, holder := ByStop(task), stops := WithPhase(x.stops, task, Awaiting))
    case StopFinish(task, ok) =>
      Release(x, if ok then Stopped else Failed).(stops := WithPhase(x.stops, task, Over))
    case StopCancelled(task) =>
      x.(holder := if x.stops[task].phase.Awaiting? then Free else x.holder, stops := WithPhase(x.stops, task, Over))
    case NativeLock => if x.stopping then x else x.(holder := ByNative)
    case NativeUnlock => x.(holder := Free)
  }

  function ActRecovery(x: Session, seg: Segment): Session
    requires Can(x, seg) && OfRecovery(seg)
  {
    match seg
    case Triggered => x.(recovery := if x.stopping then Ended else Wanted(false))
    case Slept => x.(recovery := if x.stopping then Ended else Wanted(true))
    case RecoveryLock(trigger) =>
      if x.stopping then x.(recovery := Ended)
      else if !x.recovery.retrying && !trigger then x.(recovery := Watching)
      else
        x.(holder := ByRecovery, recovery := SourceStopping, attempt := x.attempt + 1,
           state := Recovering(x.attempt + 1), log := x.log + [Attempted(x.attempt + 1)])
    case SourceStops(reopen, ok) =>
      if reopen then x.(recovery := Reopening) else if ok then Restart(x) else AttemptErr(x)
    case Reopens(ok) => if ok then Restart(x) else AttemptErr(x)
    case SourceStarts(ok) =>
      if !ok || x.stopping then AttemptErr(x)
      else x.(holder := Free, recovery := Watching, attempt := 0, state := Streaming, log := x.log + [Succeeded])
    case Quits => x.(holder := Free, recovery := Ended)
    case FailureStopped =>
      var y := x.(log := x.log + [AttemptFailed]);
      if x.maxAttempts.Some? && x.attempt >= x.maxAttempts.value then
        y.(state := Failed, stopping := true, recovery := GivingUp)
      else y.(holder := Free, recovery := Sleeping)
    case GivesUp => Release(x, x.state).(recovery := Ended, log := x.log + [GaveUp])
    case Vanishes => x.(recovery := Ended)
  }

  function Act(x: Session, seg: Segment): Session
    requires Can(x, seg)
  {
    if OfOwner(seg) then ActOwner(x, seg)
    else if OfStart(seg) then ActStart(x, seg)
    else if OfStop(seg) then ActStop(x, seg)
    else ActRecovery(x, seg)
  }

  /** The segments that store false to `busy`. */
  predicate Releases(seg: Segment) {
    seg.StartFails? || seg.StopFinish? || seg.GivesUp?
  }

  /** The segments that begin a `source.start`. */
  predicate BeginsSource(x: Session, seg: Segment)
    requires Can(x, seg)
  {
    || ((seg.StartLock? || seg.CandidateStopped?) && Act(x, seg).start.Trying?)
    || ((seg.SourceStops? || seg.Reopens?) && Act(x, seg).recovery.SourceStarting?)
  }

  // ----- The camera -----

  datatype Camera = Camera(busy: bool, closed: bool, sessions: seq<Session>)

  datatype Step =
    | Begin(maxAttempts: Option<nat>)
    | CloseDevice
    | Run(session: nat, segment: Segment)

  /** `start` and `close` borrow the camera exclusively: no start future is under way. */
  predicate Borrowable(c: Camera) {
    forall i :: 0 <= i < |c.sessions| ==> !Starts(c.sessions[i].owner)
  }

  predicate Enabled(c: Camera, step: Step) {
    match step
    case Begin(maxAttempts) =>
      Borrowable(c) && !c.closed && !c.busy && (maxAttempts.Some? ==> 0 < maxAttempts.value)
    case CloseDevice => Borrowable(c) && !c.busy
    case Run(i, segment) => i < |c.sessions| && Can(c.sessions[i], segment)
  }

  function Apply(c: Camera, step: Step): Camera
    requires Enabled(c, step)
  {
    match step
    case Begin(maxAttempts) => c.(busy := true, sessions := c.sessions + [NewSession(maxAttempts)])
    case CloseDevice => c.(closed := true)
    case Run(i, segment) =>
      c.(sessions := c.sessions[i := Act(c.sessions[i], segment)], busy := c.busy && !Releases(segment))
  }

  const OPENED := Camera(false, false, [])

  predicate IsRun(run: seq<Camera>, steps: seq<Step>) {
    && |run| == |steps| + 1 && run[0] == OPENED
    && forall k :: 0 <= k < |steps| ==> Enabled(run[k], steps[k]) && run[k + 1] == Apply(run[k], steps[k])
  }

  predicate IsLive(c: Camera, i: nat)
    requires i < |c.sessions|
  {
    !c.sessions[i].closed
  }

  /** What the camera promises: `busy` holds exactly while a session is open, there is never a second one, and
      a closed device has none. */
  predicate Exclusive(c: Camera) {
    && (c.busy <==> exists i :: 0 <= i < |c.sessions| && IsLive(c, i))
    && (forall i, j :: 0 <= i < |c.sessions| && 0 <= j < |c.sessions| && IsLive(c, i) && IsLive(c, j) ==> i == j)
    && (c.closed ==> forall i :: 0 <= i < |c.sessions| ==> !IsLive(c, i))
  }

  // ----- The late start task -----

  /** The start task cleans up a session that a stop task has already closed: it has no test for that. */
  predicate Late(c: Camera, step: Step)
    requires Enabled(c, step)
  {
    step.Run? && step.segment.StartFails? && c.sessions[step.session].closed
  }

  /** It does so while another session is open. */
  predicate Untimely(c: Camera, step: Step)
    requires Enabled(c, step)
  {
    Late(c, step) && exists i :: 0 <= i < |c.sessions| && IsLive(c, i)
  }

  ghost predicate Prompt(run: seq<Camera>, steps: seq<Step>, n: nat)
    requires IsRun(run, steps) && n <= |steps|
  {
    forall k :: 0 <= k < n ==> !Late(run[k], steps[k])
  }

  ghost predicate Timely(run: seq<Camera>, steps: seq<Step>, n: nat)
    requires IsRun(run, steps) && n <= |steps|
  {
    forall k :: 0 <= k < n ==> !Untimely(run[k], steps[k])
  }

  // ----- What one session keeps -----

  predicate LockInv(x: Session) {
    && (x.holder.ByStart? <==> x.start.Trying? || x.start.Cleaning? || x.start.Failing?)
    && (forall i :: 0 <= i < |x.stops| ==> (x.stops[i].phase.Awaiting? <==> x.holder == ByStop(i)))
    && (x.holder.ByStop? ==> x.holder.task < |x.stops|)
    && (x.holder.ByRecovery? <==>
          x.recovery.SourceStopping? || x.recovery.Reopening? || x.recovery.SourceStarting? || x.recovery.Quitting?
          || x.recovery.FailStopping? || x.recovery.GivingUp?)
  }

  /** Only the holder of the lock closes, so that nothing but a start task on its way out works on a closed
      session. */
  predicate FlagsInv(x: Session) {
    && (x.closed ==> x.stopping && Terminal(x.state))
    && (Terminal(x.state) ==> x.stopping && (x.closed || x.recovery.GivingUp?))
    && (x.recovery.GivingUp? ==> x.state.Failed?)
    && (x.closed && !x.holder.Free? ==> x.start.Failing?)
    && (x.holder.ByStop? ==> x.stopping)
    && (x.start.Failing? && x.start.ok ==> x.stopping || !x.receiving)
  }

  /** While the start future is under way nobody else stops the session. */
  predicate OwnerInv(x: Session) {
    && (Starts(x.owner) ==> x.receiving && x.stops == [] && x.recovery.NoRecovery?)
    && (x.owner.Options? <==> x.start.NotSpawned? && x.owner != Gone)
    && (x.owner.Options? ==> !x.stopping)
    && (x.owner.Waiting? ==> (x.stopping <==> x.start == Finished(false)) && x.start != Failing(true))
    && (x.owner.Live? ==> x.start == Finished(true))
    && (!x.recovery.NoRecovery? ==> x.start == Finished(true))
  }

  predicate SessionInv(x: Session) {
    LockInv(x) && FlagsInv(x) && OwnerInv(x)
  }
}
