/** Session epochs: how frames are numbered, and that a stopped or superseded epoch is over. */
module HubEpochs {
  import opened Basics
  import opened HubState

  /** The order of publication: by session, then by sequence. */
  predicate KeyLess(a: Key, b: Key) {
    a.session < b.session || (a.session == b.session && a.sequence < b.sequence)
  }

  /** The sequence restarts at 1 with each session and goes up by 1 within it. */
  ghost predicate Numbered(log: seq<Key>) {
    && (forall i :: 0 < i < |log| ==> log[i - 1].session <= log[i].session)
    && (forall i :: 0 <= i < |log| ==>
          log[i].sequence == if i > 0 && log[i - 1].session == log[i].session then log[i - 1].sequence + 1 else 1)
  }

  ghost predicate SessionsInv(s: Hub) {
    && s.watch.session < s.nextSession
    && (!s.starting.Idle? ==> s.watch.session < s.starting.session < s.nextSession)
    && (forall l :: l in s.pool.leases ==> s.pool.leases[l].session <= s.watch.session)
  }

  ghost predicate LogInv(s: Hub) {
    && Numbered(s.published)
    && (s.published != [] ==> s.published[|s.published| - 1].session <= s.watch.session)
    && (s.watch.latest.Some? ==>
          && s.published != [] && s.watch.latest.value.key == s.published[|s.published| - 1]
          && s.watch.latest.value.key.session == s.watch.session)
    && (s.watch.active && s.watch.latest.None? && s.published != [] ==>
          s.published[|s.published| - 1].session < s.watch.session)
  }

  ghost predicate EpochInv(s: Hub) {
    SessionsInv(s) && LogInv(s)
  }

  /** The lease was there before, of the same session, and does not come back to life. */
  ghost predicate LeaseKept(s: Hub, t: Hub, l: nat) {
    && l in s.pool.leases && l in t.pool.leases && t.pool.leases[l].session == s.pool.leases[l].session
    && (s.pool.leases[l].phase.Finished? ==> t.pool.leases[l].phase.Finished?)
  }

  lemma PoolKeepsLease(s: Hub, step: Step, l: nat)
    requires Enabled(s, step) && OfPool(step) && !step.Reserve? && l in Apply(s, step).pool.leases
    ensures LeaseKept(s, Apply(s, step), l)
  {
    hide Retained, SumBytes, AnyOut, FreeIds;
  }

  lemma CommitKeepsLease(s: Hub, step: Step, l: nat)
    requires Enabled(s, step) && step.Commit? && l in Apply(s, step).pool.leases
    ensures LeaseKept(s, Apply(s, step), l)
  {
    hide MapOffer, NextKey;
  }

  lemma ChargeKeepsLease(s: Hub, step: Step, l: nat)
    requires Enabled(s, step) && step.ChargeCommit? && l in Apply(s, step).pool.leases
    ensures LeaseKept(s, Apply(s, step), l)
  {
  }

  lemma StepKeepsLease(s: Hub, step: Step, l: nat)
    requires Enabled(s, step) && !step.Reserve? && l in Apply(s, step).pool.leases
    ensures LeaseKept(s, Apply(s, step), l)
  {
    hide Enabled, Apply;
    if OfReader(step) { ReaderFrame(s, step); }
    else if OfWatch(step) { WatchFrame(s, step); }
    else if OfCounter(step) { CounterFrame(s, step); }
    else if OfPool(step) { PoolKeepsLease(s, step, l); }
    else if step.Commit? { CommitKeepsLease(s, step, l); }
    else { ChargeKeepsLease(s, step, l); }
  }

  lemma StartMoves(s: Hub, step: Step)
    requires SessionsInv(s) && Enabled(s, step) && (OfWatch(step) || step.StartReset?)
    ensures var t := Apply(s, step);
            && t.watch.session < t.nextSession && s.watch.session <= t.watch.session
            && (!t.starting.Idle? ==> t.watch.session < t.starting.session < t.nextSession)
  {
    hide MapClear;
  }

  /** Only `start` makes the session a later one. */
  lemma SessionMoves(s: Hub, step: Step)
    requires SessionsInv(s) && Enabled(s, step)
    ensures var t := Apply(s, step);
            && t.watch.session < t.nextSession && s.watch.session <= t.watch.session
            && (!t.starting.Idle? ==> t.watch.session < t.starting.session < t.nextSession)
  {
    hide Enabled, Apply;
    if OfWatch(step) || step.StartReset? { StartMoves(s, step); } else { SessionFrame(s, step); }
  }

  lemma SessionsStep(s: Hub, step: Step)
    requires SessionsInv(s) && Enabled(s, step) && !step.Reserve?
    ensures SessionsInv(Apply(s, step))
  {
    hide Enabled, Apply;
    SessionMoves(s, step);
    var t := Apply(s, step);
    forall l | l in t.pool.leases ensures t.pool.leases[l].session <= t.watch.session {
      StepKeepsLease(s, step, l);
    }
  }

  lemma ReserveLeaseSessions(p: Pool, i: nat, session: nat, kind: Kind, length: nat, spare: Id, lease: nat, l: nat)
    requires i < |p.slots| && l in ReserveAt(p, i, session, kind, length, spare, lease).leases
    ensures var q := ReserveAt(p, i, session, kind, length, spare, lease);
            q.leases[l].session == session || (l in p.leases && q.leases[l] == p.leases[l])
  {
  }

  lemma ReserveSessionsStep(s: Hub, step: Step)
    requires SessionsInv(s) && Enabled(s, step) && step.Reserve?
    ensures SessionsInv(Apply(s, step))
  {
    var p := s.pool.(metrics := ChargeReceived(s.pool.metrics));
    var t := Apply(s, step);
    forall l | l in t.pool.leases ensures t.pool.leases[l].session <= t.watch.session {
      if step.pick.Some? {
        ReserveLeaseSessions(p, step.pick.value, step.session, step.kind, step.length, step.spare, step.lease, l);
      } else if |p.slots| < p.buffers {
        ReserveLeaseSessions(p.(slots := p.slots + [Slot(None, 0)]), |p.slots|,
                             step.session, step.kind, step.length, step.spare, step.lease, l);
      }
    }
  }

  lemma NumberedExtend(log: seq<Key>, key: Key)
    requires Numbered(log)
    requires log != [] ==> log[|log| - 1].session <= key.session
    requires key.sequence ==
             if log != [] && log[|log| - 1].session == key.session then log[|log| - 1].sequence + 1 else 1
    ensures Numbered(log + [key])
  {
  }

  lemma CommitLog(s: Hub, step: Step)
    requires EpochInv(s) && Enabled(s, step) && step.Commit?
    ensures LogInv(Apply(s, step))
  {
    if s.watch.active && s.watch.session == s.pool.leases[step.lease].session {
      NumberedExtend(s.published, NextKey(s.watch));
    }
  }

  /** A later session, or none active, has published nothing yet. */
  lemma WatchLog(s: Hub, step: Step)
    requires EpochInv(s) && Enabled(s, step) && OfWatch(step)
    ensures LogInv(Apply(s, step))
  {
    hide Numbered, MapClear;
  }

  lemma LogStep(s: Hub, step: Step)
    requires EpochInv(s) && Enabled(s, step)
    ensures LogInv(Apply(s, step))
  {
    hide Enabled, Apply, Numbered;
    if step.Commit? { CommitLog(s, step); }
    else if step.ChargeCommit? { ChargeFrame(s, step); }
    else if OfWatch(step) { WatchLog(s, step); }
    else if OfReader(step) { ReaderFrame(s, step); }
    else if OfPool(step) { PoolFrame(s, step); }
    else { CounterFrame(s, step); }
  }

  lemma EpochStep(s: Hub, step: Step)
    requires EpochInv(s) && Enabled(s, step)
    ensures EpochInv(Apply(s, step))
  {
    LogStep(s, step);
    if step.Reserve? { ReserveSessionsStep(s, step); } else { SessionsStep(s, step); }
  }

  // ----- What the numbering means -----

  lemma {:induction false} SortedLog(log: seq<Key>, i: nat, j: nat)
    requires Numbered(log) && i < j < |log|
    ensures KeyLess(log[i], log[j])
    decreases j - i
  {
    if i + 1 < j {
      SortedLog(log, i, j - 1);
      assert KeyLess(log[j - 1], log[j]);
    }
  }

  /** The keys that one session published, in order. */
  function OfSession(log: seq<Key>, session: nat): seq<Key> {
    if log == [] then [] else
      var rest := OfSession(log[..|log| - 1], session);
      if log[|log| - 1].session == session then rest + [log[|log| - 1]] else rest
  }

  lemma NumberedPrefix(log: seq<Key>, n: nat)
    requires Numbered(log) && n <= |log|
    ensures Numbered(log[..n])
  {
    var cut := log[..n];
    forall i | 0 <= i < n
      ensures cut[i] == log[i] && (i > 0 ==> cut[i - 1].session == log[i - 1].session <= log[i].session)
    {
    }
  }

  lemma {:induction false} OfSessionLast(log: seq<Key>, session: nat)
    requires Numbered(log)
    ensures OfSession(log, session) != [] && log[|log| - 1].session == session ==>
              OfSession(log, session)[|OfSession(log, session)| - 1] == log[|log| - 1]
    ensures log != [] && log[|log| - 1].session != session && session > log[|log| - 1].session ==>
              OfSession(log, session) == []
  {
    if |log| > 1 {
      NumberedPrefix(log, |log| - 1);
      OfSessionLast(log[..|log| - 1], session);
    }
  }

  /** A session's frames are numbered 1, 2, ..., n, without a gap or a repetition. */
  lemma {:induction false} SessionCounts(log: seq<Key>, session: nat, i: nat)
    requires Numbered(log) && i < |OfSession(log, session)|
    ensures OfSession(log, session)[i] == Key(session, i + 1)
  {
    var n := |log| - 1;
    var rest := OfSession(log[..n], session);
    NumberedPrefix(log, n);
    if i < |rest| {
      SessionCounts(log[..n], session, i);
    } else if n > 0 {
      OfSessionLast(log[..n], session);
      if log[n - 1].session == session {
        OfSessionNonEmpty(log[..n], session);
        SessionCounts(log[..n], session, |rest| - 1);
      }
    }
  }

  lemma OfSessionNonEmpty(log: seq<Key>, session: nat)
    requires log != [] && log[|log| - 1].session == session
    ensures OfSession(log, session) != []
  {
  }

  // ----- A dead epoch stays dead -----

  /** The session has begun and is not the active one: stopped, superseded, or another hub's. */
  ghost predicate Dead(s: Hub, session: nat) {
    && session < s.nextSession
    && (!s.starting.Idle? ==> s.starting.session != session)
    && !(s.watch.active && s.watch.session == session)
  }

  /** Only a commit adds to the log, and what it adds is of the active session. */
  lemma LogMoves(s: Hub, step: Step)
    requires Enabled(s, step)
    ensures Apply(s, step).published == s.published
            || (s.watch.active && Apply(s, step).published == s.published + [NextKey(s.watch)])
  {
    hide Enabled, Apply;
    if step.Commit? { CommitFrame(s, step); }
    else if step.ChargeCommit? { ChargeFrame(s, step); }
    else if OfWatch(step) { WatchFrame(s, step); }
    else if OfReader(step) { ReaderFrame(s, step); }
    else if OfPool(step) { PoolFrame(s, step); }
    else { CounterFrame(s, step); }
  }

  lemma DeadAtStart(s: Hub, step: Step, session: nat)
    requires Enabled(s, step) && (OfWatch(step) || step.StartReset?) && Dead(s, session)
    ensures Dead(Apply(s, step), session)
  {
    hide MapClear;
  }

  lemma DeadStays(s: Hub, step: Step, session: nat)
    requires Enabled(s, step) && Dead(s, session)
    ensures Dead(Apply(s, step), session)
  {
    hide Enabled, Apply;
    if OfWatch(step) || step.StartReset? { DeadAtStart(s, step, session); } else { SessionFrame(s, step); }
  }

  lemma DeadStep(s: Hub, step: Step, session: nat)
    requires EpochInv(s) && Enabled(s, step) && Dead(s, session)
    ensures Dead(Apply(s, step), session)
    ensures OfSession(Apply(s, step).published, session) == OfSession(s.published, session)
  {
    hide Enabled, Apply, LogInv;
    DeadStays(s, step, session);
    LogMoves(s, step);
    var log := s.published;
    assert (log + [NextKey(s.watch)])[..|log|] == log;
  }

  /** A commit whose epoch is over changes nothing that a reader can see. */
  lemma LateCommitIsSilent(s: Hub, step: Step)
    requires Enabled(s, step) && step.Commit? && Dead(s, s.pool.leases[step.lease].session)
    ensures Apply(s, step) == s.(pool := SetPhase(s.pool, step.lease, Finished))
  {
  }
}
