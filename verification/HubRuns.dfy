/** What holds in every run of the hub, whatever the interleaving of its sections. */
module HubRuns {
  import opened Basics
  import opened HubState
  import opened HubOwnership
  import opened HubEpochs
  import opened HubDelivery
  import opened HubMetrics

  ghost predicate HubInv(s: Hub) {
    OwnershipInv(s) && EpochInv(s) && DeliveryInv(s) && MetricsInv(s)
  }

  lemma InitHolds(s: Hub)
    requires Init(s)
    ensures HubInv(s)
  {
    assert Chargeable(s) == {};
  }

  lemma StepKeeps(s: Hub, step: Step)
    requires HubInv(s) && Enabled(s, step)
    ensures HubInv(Apply(s, step))
  {
    hide Enabled, Apply, PoolInv, FramesInv, EpochInv, DeliveryInv, MetricsInv;
    PoolStep(s, step);
    FramesStep(s, step);
    EpochStep(s, step);
    DeliveryStep(s, step);
    MetricsStep(s, step);
  }

  /** Every reachable state is sound. */
  lemma {:induction false} RunInv(run: seq<Hub>, steps: seq<Step>, k: nat)
    requires IsRun(run, steps) && k < |run|
    ensures HubInv(run[k])
  {
    hide HubInv, Enabled, Apply, Init;
    if k == 0 {
      InitHolds(run[0]);
    } else {
      RunInv(run, steps, k - 1);
      StepKeeps(run[k - 1], steps[k - 1]);
    }
  }

  // ----- Retained bytes -----

  /** A frame that was not alive comes to life only by its own commit. */
  lemma NewFrame(s: Hub, step: Step, f: Frame)
    requires Enabled(s, step) && Held(Apply(s, step), f) && !Held(s, f)
    ensures step.Commit? && s.pool.leases[step.lease].storage == f.storage && f.key == NextKey(s.watch)
  {
    if PoolIdle(step) {
      IdleHolds(s, step);
    } else if step.Commit? {
      CommitHolds(s, step, f);
    } else {
      PoolHolds(s, step);
    }
  }

  lemma NextBytesSurvive(run: seq<Hub>, steps: seq<Step>, k: nat, f: Frame)
    requires IsRun(run, steps) && k < |steps| && Held(run[k], f)
    ensures SameBytes(run[k].pool, run[k + 1].pool, f)
  {
    RunInv(run, steps, k);
    BytesSurvive(run[k], steps[k], f);
  }

  ghost predicate AliveThroughout(run: seq<Hub>, a: nat, b: nat, f: Frame)
    requires a <= b < |run|
  {
    forall k :: a <= k <= b ==> Held(run[k], f)
  }

  /** Bytes that survive every single step survive all of them. */
  lemma {:induction false} SameBytesChain(run: seq<Hub>, a: nat, b: nat, f: Frame)
    requires a < b < |run|
    requires forall k :: a <= k < b ==> SameBytes(run[k].pool, run[k + 1].pool, f)
    ensures SameBytes(run[a].pool, run[b].pool, f)
  {
    if a + 1 < b {
      SameBytesChain(run, a, b - 1, f);
      assert SameBytes(run[b - 1].pool, run[b - 1 + 1].pool, f);
    }
  }

  /** While a frame is alive its bytes do not change. */
  lemma RetainedBytesNeverChange(run: seq<Hub>, steps: seq<Step>, a: nat, b: nat, f: Frame)
    requires IsRun(run, steps) && a <= b < |run| && AliveThroughout(run, a, b, f)
    ensures SameBytes(run[a].pool, run[b].pool, f)
  {
    if a == b {
      RunInv(run, steps, a);
      assert Frozen(run[a].pool, f);
    } else {
      forall k | a <= k < b ensures SameBytes(run[k].pool, run[k + 1].pool, f) {
        NextBytesSurvive(run, steps, k, f);
      }
      SameBytesChain(run, a, b, f);
    }
  }

  /** Every live frame goes back to one commit, and has been alive since. */
  lemma {:induction false} FindCommit(run: seq<Hub>, steps: seq<Step>, b: nat, f: Frame) returns (c: nat)
    requires IsRun(run, steps) && b < |run| && Held(run[b], f)
    ensures c < b && steps[c].Commit? && Enabled(run[c], steps[c])
    ensures run[c].pool.leases[steps[c].lease].storage == f.storage && f.key == NextKey(run[c].watch)
    ensures AliveThroughout(run, c + 1, b, f)
  {
    hide Enabled, Apply;
    assert b > 0;
    if Held(run[b - 1], f) {
      c := FindCommit(run, steps, b - 1, f);
    } else {
      c := b - 1;
      NewFrame(run[c], steps[c], f);
    }
  }

  lemma CommitSameBytes(s: Hub, step: Step, f: Frame)
    requires OwnershipInv(s) && Enabled(s, step) && step.Commit? && s.pool.leases[step.lease].storage == f.storage
    ensures SameBytes(s.pool, Apply(s, step).pool, f)
  {
    assert LeaseOwns(s.pool, step.lease);
  }

  /** A reader sees exactly what the publisher had written when it committed: some earlier commit made
      the frame, the frame has been alive ever since, and its bytes are still those of that lease. */
  lemma ReaderSeesWhatWasCommitted(run: seq<Hub>, steps: seq<Step>, b: nat, f: Frame) returns (c: nat)
    requires IsRun(run, steps) && b < |run| && Held(run[b], f)
    ensures c < b && steps[c].Commit? && Enabled(run[c], steps[c])
    ensures run[c].pool.leases[steps[c].lease].storage == f.storage && f.key == NextKey(run[c].watch)
    ensures AliveThroughout(run, c + 1, b, f)
    ensures SameBytes(run[c].pool, run[b].pool, f)
  {
    c := FindCommit(run, steps, b, f);
    RunInv(run, steps, c);
    CommitSameBytes(run[c], steps[c], f);
    RetainedBytesNeverChange(run, steps, c + 1, b, f);
  }

  /** No lease that can be written has a live frame's storage, and it is that storage's only owner. */
  lemma WritersNeverShare(run: seq<Hub>, steps: seq<Step>, k: nat, l: nat)
    requires IsRun(run, steps) && k < |run|
    requires l in run[k].pool.leases && run[k].pool.leases[l].phase.Filling?
    ensures StrongCount(run[k], run[k].pool.leases[l].storage) == 1
    ensures forall f :: Held(run[k], f) ==> f.storage != run[k].pool.leases[l].storage
  {
    RunInv(run, steps, k);
    WriterIsAlone(run[k], l);
    forall f | Held(run[k], f) ensures f.storage != run[k].pool.leases[l].storage {
      assert Frozen(run[k].pool, f);
    }
  }

  // ----- Bounded memory -----

  /** Storage alive anywhere, with slots, leases, queues and readers, fits the budget; no slot is ever
      empty of bytes, so that the `pop` of `reserve` undoes its own push and nothing else; every
      outstanding lease has a valid slot of its own. */
  lemma MemoryIsBounded(run: seq<Hub>, steps: seq<Step>, k: nat)
    requires IsRun(run, steps) && k < |run|
    ensures var p := run[k].pool;
            && |p.slots| <= p.buffers && HeapBytes(p.heap, p.heap.Keys) <= p.budget
            && (forall f :: Held(run[k], f) ==> f.storage in p.heap)
            && (forall i :: 0 <= i < |p.slots| ==> 0 < p.slots[i].bytes)
            && (forall l :: l in p.leases ==> p.leases[l].index < |p.slots| && p.leases[l].storage in p.heap)
            && (forall l, m :: l in p.leases && m in p.leases && l != m ==> p.leases[l].index != p.leases[m].index)
  {
    RunInv(run, steps, k);
    LiveBytesBounded(run[k].pool);
    forall i | 0 <= i < |run[k].pool.slots| ensures 0 < run[k].pool.slots[i].bytes {
      assert HomeOf(run[k].pool, i) in run[k].pool.heap;
    }
    forall l | l in run[k].pool.leases
      ensures run[k].pool.leases[l].index < |run[k].pool.slots| && run[k].pool.leases[l].storage in run[k].pool.heap
    {
      assert LeaseOwns(run[k].pool, l);
    }
    forall f | Held(run[k], f) ensures f.storage in run[k].pool.heap {
      assert Frozen(run[k].pool, f);
    }
  }

  lemma ReserveBudget(s: Hub, step: Step)
    requires Enabled(s, step) && step.Reserve?
    ensures Apply(s, step).pool.buffers == s.pool.buffers && Apply(s, step).pool.budget == s.pool.budget
  {
    hide Reusable, Resize, SumBytes, Unique;
  }

  lemma PoolBudget(s: Hub, step: Step)
    requires Enabled(s, step) && (step.Fill? || step.DropLease?)
    ensures Apply(s, step).pool.buffers == s.pool.buffers && Apply(s, step).pool.budget == s.pool.budget
  {
  }

  /** Only `configure` changes the budget. */
  lemma StepBudget(s: Hub, step: Step)
    requires Enabled(s, step) && !step.Configure?
    ensures Apply(s, step).pool.buffers == s.pool.buffers && Apply(s, step).pool.budget == s.pool.budget
  {
    hide Enabled, Apply, ApplyCommit, ApplyChargeCommit;
    if PoolIdle(step) { IdlePoolSame(s, step); }
    else if step.Reserve? { ReserveBudget(s, step); }
    else if step.Commit? { CommitFrame(s, step); }
    else if step.ChargeCommit? { ChargeFrame(s, step); }
    else { PoolBudget(s, step); }
  }

  ghost predicate NotConfigured(steps: seq<Step>, a: nat, b: nat)
    requires a <= b <= |steps|
  {
    forall k :: a <= k < b ==> !steps[k].Configure?
  }

  lemma {:induction false} BudgetStays(run: seq<Hub>, steps: seq<Step>, a: nat, b: nat)
    requires IsRun(run, steps) && a <= b <= |steps| && NotConfigured(steps, a, b)
    ensures run[b].pool.buffers == run[a].pool.buffers && run[b].pool.budget == run[a].pool.budget
  {
    hide Enabled, Apply;
    if a < b {
      BudgetStays(run, steps, a, b - 1);
      StepBudget(run[b - 1], steps[b - 1]);
    }
  }

  /** `configure` found no lease out, and what it had to retain fits the new budget. */
  ghost predicate ConfigureAccepted(s: Hub, step: Step, t: Hub)
    requires step.Configure?
  {
    s.pool.leases == map[] && |t.pool.slots| <= step.buffers && SumBytes(t.pool.slots) <= step.budget
  }

  lemma PoolConfigureSets(p: Pool, free: set<Id>, buffers: nat, budget: nat)
    requires PoolInv(p)
    ensures var q := PoolConfigure(p, free, buffers, budget);
            && q.leases == p.leases
            && if p.leases == map[] && |q.slots| <= buffers && SumBytes(q.slots) <= budget then
                 q.buffers == buffers && q.budget == budget
               else q.buffers == p.buffers && q.budget == p.budget
  {
    OutIffLeased(p);
    hide PoolInv, AnyOut, Retained, SumBytes;
  }

  lemma ConfigureApplies(s: Hub, step: Step)
    requires Enabled(s, step) && step.Configure?
    ensures Apply(s, step) == s.(pool := PoolConfigure(s.pool, FreeIds(s), step.buffers, step.budget))
  {
    hide Enabled, PoolConfigure, FreeIds, PoolReserve, NewSub, ClearQueue, MapClear, ApplyPoll, ApplyCommit;
  }

  lemma ConfigureSets(s: Hub, step: Step)
    requires PoolInv(s.pool) && Enabled(s, step) && step.Configure?
    ensures var t := Apply(s, step);
            && t.pool.leases == s.pool.leases
            && if ConfigureAccepted(s, step, t) then t.pool.buffers == step.buffers && t.pool.budget == step.budget
               else t.pool.buffers == s.pool.buffers && t.pool.budget == s.pool.budget
  {
    PoolConfigureSets(s.pool, FreeIds(s), step.buffers, step.budget);
    ConfigureApplies(s, step);
    hide Enabled, Apply, PoolInv, PoolConfigure, SumBytes, FreeIds;
  }

  /** From an accepted `configure` to the next call its budget is the one that holds: there are no more slots, and no
      more bytes are alive anywhere, than it said. A refused one leaves the budget as it was. */
  lemma ConfigureHolds(run: seq<Hub>, steps: seq<Step>, a: nat, b: nat)
    requires IsRun(run, steps) && a < b <= |steps| && steps[a].Configure? && NotConfigured(steps, a + 1, b)
    ensures ConfigureAccepted(run[a], steps[a], run[a + 1]) ==>
              && run[b].pool.buffers == steps[a].buffers && run[b].pool.budget == steps[a].budget
              && |run[b].pool.slots| <= steps[a].buffers
              && HeapBytes(run[b].pool.heap, run[b].pool.heap.Keys) <= steps[a].budget
    ensures !ConfigureAccepted(run[a], steps[a], run[a + 1]) ==>
              run[b].pool.buffers == run[a].pool.buffers && run[b].pool.budget == run[a].pool.budget
  {
    hide Enabled, Apply, ConfigureAccepted;
    RunInv(run, steps, a);
    ConfigureSets(run[a], steps[a]);
    BudgetStays(run, steps, a + 1, b);
    MemoryIsBounded(run, steps, b);
  }

  // ----- Epochs -----

  lemma StopKills(s: Hub, step: Step)
    requires SessionsInv(s) && Enabled(s, step) && step.StopSend?
    ensures var t := Apply(s, step); !t.watch.active && t.watch.latest.None? && Dead(t, s.watch.session)
  {
    hide MapClear;
  }

  lemma SendStarts(s: Hub, step: Step)
    requires SessionsInv(s) && Enabled(s, step) && step.StartSend?
    ensures var t := Apply(s, step);
            && t.watch.active && t.watch.latest.None? && s.watch.session < t.watch.session && Dead(t, s.watch.session)
  {
    hide MapClear;
  }

  /** A stop ends the session for good, and a start ends the one before it. */
  lemma StopAndStartEndTheSession(run: seq<Hub>, steps: seq<Step>, a: nat, b: nat)
    requires IsRun(run, steps) && a < b < |run| && (steps[a].StopSend? || steps[a].StartSend?)
    ensures run[a + 1].watch.active == steps[a].StartSend? && run[a + 1].watch.latest.None?
    ensures steps[a].StartSend? ==> run[a].watch.session < run[a + 1].watch.session
    ensures OfSession(run[b].published, run[a].watch.session) == OfSession(run[a].published, run[a].watch.session)
  {
    hide Enabled, Apply, Dead, OfSession, OwnershipInv, SessionsInv, LogInv, DeliveryInv, MetricsInv;
    RunInv(run, steps, a);
    if steps[a].StopSend? { StopKills(run[a], steps[a]); } else { SendStarts(run[a], steps[a]); }
    DeadEpochsStayDead(run, steps, a + 1, b, run[a].watch.session);
    WatchFrame(run[a], steps[a]);
  }

  /** Published keys are unique and strictly increasing, and each session counts 1, 2, ..., n. */
  lemma KeysStrictlyIncrease(run: seq<Hub>, steps: seq<Step>, k: nat)
    requires IsRun(run, steps) && k < |run|
    ensures Increasing(run[k].published)
    ensures forall session, i {:trigger OfSession(run[k].published, session)[i]} ::
              0 <= i < |OfSession(run[k].published, session)| ==>
                OfSession(run[k].published, session)[i] == Key(session, i + 1)
  {
    RunInv(run, steps, k);
    var log := run[k].published;
    forall i, j | 0 <= i < j < |log| ensures KeyLess(log[i], log[j]) {
      SortedLog(log, i, j);
    }
    forall session: nat, i: nat | i < |OfSession(log, session)| ensures OfSession(log, session)[i] == Key(session, i + 1) {
      SessionCounts(log, session, i);
    }
  }

  lemma NextDead(run: seq<Hub>, steps: seq<Step>, k: nat, session: nat)
    requires IsRun(run, steps) && k < |steps| && Dead(run[k], session)
    ensures Dead(run[k + 1], session)
    ensures OfSession(run[k + 1].published, session) == OfSession(run[k].published, session)
  {
    hide Enabled, Apply, Dead, OfSession, OwnershipInv, DeliveryInv, MetricsInv, EpochInv;
    RunInv(run, steps, k);
    DeadStep(run[k], steps[k], session);
  }

  /** Once a session is stopped or superseded it never publishes again, whatever its late callbacks do. */
  lemma {:induction false} DeadEpochsStayDead(run: seq<Hub>, steps: seq<Step>, a: nat, b: nat, session: nat)
    requires IsRun(run, steps) && a <= b < |run| && Dead(run[a], session)
    ensures Dead(run[b], session)
    ensures OfSession(run[b].published, session) == OfSession(run[a].published, session)
  {
    hide Enabled, Apply, Dead, OfSession;
    if a < b {
      DeadEpochsStayDead(run, steps, a, b - 1, session);
      NextDead(run, steps, b - 1, session);
    }
  }

  lemma ReserveLeasesStay(s: Hub, step: Step, l: nat)
    requires Enabled(s, step) && step.Reserve? && l in s.pool.leases
    ensures l in Apply(s, step).pool.leases && Apply(s, step).pool.leases[l] == s.pool.leases[l]
  {
    hide PoolReserve, Unique;
    ReserveCounters(s.pool, step.pick, step.session, step.kind, step.length, step.spare, step.lease);
  }

  lemma PoolLeasesStay(s: Hub, step: Step, l: nat)
    requires Enabled(s, step) && l in s.pool.leases && step != DropLease(l)
    requires step.Fill? || step.DropLease? || step.Configure?
    ensures l in Apply(s, step).pool.leases
  {
    hide Retained, SumBytes, AnyOut, FreeIds;
  }

  lemma PhaseLeasesStay(s: Hub, step: Step, l: nat)
    requires Enabled(s, step) && l in s.pool.leases && (step.Commit? || step.ChargeCommit?)
    ensures l in Apply(s, step).pool.leases
  {
    hide Enabled, Apply, MapOffer, NextKey;
    if step.Commit? { CommitFrame(s, step); } else { ChargeFrame(s, step); }
  }

  lemma LeaseStays(s: Hub, step: Step, l: nat)
    requires Enabled(s, step) && l in s.pool.leases && step != DropLease(l)
    ensures l in Apply(s, step).pool.leases
  {
    hide Enabled, Apply;
    if PoolIdle(step) { IdlePoolSame(s, step); }
    else if step.Reserve? { ReserveLeasesStay(s, step, l); }
    else if step.Commit? || step.ChargeCommit? { PhaseLeasesStay(s, step, l); }
    else { PoolLeasesStay(s, step, l); }
  }

  lemma ChargesPublished(s: Hub, l: nat)
    requires Enabled(s, ChargeCommit(l))
    ensures l in s.pool.leases && s.pool.leases[l].phase.Published?
  {
  }

  lemma FinishedStays(s: Hub, step: Step, l: nat)
    requires Enabled(s, step) && l in s.pool.leases && s.pool.leases[l].phase.Finished? && step != DropLease(l)
    ensures step != ChargeCommit(l)
    ensures l in Apply(s, step).pool.leases && Apply(s, step).pool.leases[l].phase.Finished?
  {
    hide Enabled, Apply;
    if step == ChargeCommit(l) { ChargesPublished(s, l); }
    LeaseStays(s, step, l);
    if step.Reserve? { ReserveLeasesStay(s, step, l); } else { StepKeepsLease(s, step, l); }
  }

  ghost predicate NotDropped(steps: seq<Step>, a: nat, b: nat, l: nat)
    requires a <= b <= |steps|
  {
    forall k :: a <= k < b ==> steps[k] != DropLease(l)
  }

  lemma {:induction false} NeverCharged(run: seq<Hub>, steps: seq<Step>, a: nat, b: nat, l: nat)
    requires IsRun(run, steps) && a <= b <= |steps| && NotDropped(steps, a, b, l)
    requires l in run[a].pool.leases && run[a].pool.leases[l].phase.Finished?
    ensures l in run[b].pool.leases && run[b].pool.leases[l].phase.Finished?
    ensures forall k :: a <= k < b ==> steps[k] != ChargeCommit(l)
  {
    hide Enabled, Apply;
    if a < b {
      NeverCharged(run, steps, a, b - 1, l);
      FinishedStays(run[b - 1], steps[b - 1], l);
    }
  }

  /** A whole late `finish_publish`, whatever interleaves with it: its commit changes nothing but the lease, no
      reader's view and no counter, and until the lease goes back nothing is charged for it. */
  lemma LateFinishIsSilent(run: seq<Hub>, steps: seq<Step>, a: nat, b: nat)
    requires IsRun(run, steps) && a < b <= |steps| && steps[a].Commit? && steps[a].lease in run[a].pool.leases
    requires Dead(run[a], run[a].pool.leases[steps[a].lease].session) && NotDropped(steps, a, b, steps[a].lease)
    ensures run[a + 1] == run[a].(pool := SetPhase(run[a].pool, steps[a].lease, Finished))
    ensures forall k :: a <= k < b ==> steps[k] != ChargeCommit(steps[a].lease)
  {
    hide Enabled, Apply, Dead;
    LateCommitIsSilent(run[a], steps[a]);
    NeverCharged(run, steps, a + 1, b, steps[a].lease);
  }

  // ----- Delivery -----

  /** What one receiver is guaranteed: it is offered a stretch of the publication log without gap or
      repetition, in order; what it got and what is queued for it only grows; nothing is unaccounted. */
  lemma EveryOfferIsAccounted(run: seq<Hub>, steps: seq<Step>, k: nat, i: nat)
    requires IsRun(run, steps) && k < |run| && i < |run[k].subs|
    ensures var sub := run[k].subs[i];
            && Contiguous(sub, run[k].published)
            && Increasing(sub.returned + Keys(sub.queue))
            && Accounted(sub)
            && |sub.offered| == |sub.returned| + sub.dropped + |sub.discarded| + |sub.queue|
            && (sub.delivery.Latest? ==> |sub.queue| <= 1)
            && (sub.delivery.Buffered? ==> |sub.queue| <= sub.delivery.capacity)
  {
    RunInv(run, steps, k);
    var sub := run[k].subs[i];
    assert SubInv(sub, run[k].published, run[k].watch);
    assert |multiset(sub.offered)| == |sub.offered|;
    assert |multiset(sub.returned) + multiset(sub.lost) + multiset(sub.discarded) + multiset(Keys(sub.queue))|
           == |sub.returned| + |sub.lost| + |sub.discarded| + |sub.queue|;
  }

  /** The stop flag that the receiver was given is up. */
  ghost predicate Disowned(s: Hub, i: nat)
    requires i < |s.subs|
  {
    s.subs[i].owner.Some? && s.subs[i].owner.value in s.flags
  }

  /** The offers begin where they began, and a live receiver whose stop flag is down is on the list. */
  ghost predicate OnTheList(s: Hub, i: nat, since: nat)
    requires i < |s.subs|
  {
    s.subs[i].since == since && (s.subs[i].alive && !Disowned(s, i) ==> s.subs[i].listed)
  }

  lemma OfferPlace(sub: Sub, f: Frame, flags: set<nat>)
    ensures var o := Offer(sub, f, flags);
            && o.since == sub.since && o.alive == sub.alive && o.owner == sub.owner
            && (o.listed || !sub.listed || !sub.alive || (sub.owner.Some? && sub.owner.value in flags))
  {
  }

  lemma CommitListed(s: Hub, step: Step, i: nat, since: nat)
    requires Enabled(s, step) && step.Commit? && i < |s.subs| && OnTheList(s, i, since)
    ensures i < |Apply(s, step).subs| && OnTheList(Apply(s, step), i, since)
  {
    hide Enabled, Apply, Offer, NextKey;
    CommitFrame(s, step);
    var l := s.pool.leases[step.lease];
    OfferPlace(s.subs[i], Frame(NextKey(s.watch), l.storage, l.length, step.capturedAt), Seen(s.flags, step.missed, i));
  }

  lemma PollListed(s: Hub, step: Step, i: nat, since: nat)
    requires Enabled(s, step) && step.Poll? && i < |s.subs| && OnTheList(s, i, since)
    ensures i < |Apply(s, step).subs| && OnTheList(Apply(s, step), i, since)
  {
    hide Enabled, Apply, Pop;
    StepPolls(s, step);
  }

  lemma ReceiverListed(s: Hub, step: Step, i: nat, since: nat)
    requires Enabled(s, step) && OfReceiver(step) && i < |s.subs| && OnTheList(s, i, since)
    ensures i < |Apply(s, step).subs| && OnTheList(Apply(s, step), i, since)
  {
    hide Keys;
  }

  lemma StepListed(s: Hub, step: Step, i: nat, since: nat)
    requires Enabled(s, step) && i < |s.subs| && OnTheList(s, i, since)
    ensures i < |Apply(s, step).subs| && OnTheList(Apply(s, step), i, since)
  {
    hide Enabled, Apply, ApplyCommit, ApplyChargeCommit;
    if step.Commit? { CommitListed(s, step, i, since); }
    else if step.ChargeCommit? { ChargeFrame(s, step); }
    else if step.Poll? { PollListed(s, step, i, since); }
    else if OfReceiver(step) { ReceiverListed(s, step, i, since); }
    else if OfReader(step) { SameReaders(s, step, i); ReaderFrame(s, step); }
    else if OfPool(step) { PoolFrame(s, step); }
    else if OfWatch(step) { WatchFrame(s, step); }
    else { CounterFrame(s, step); }
  }

  lemma {:induction false} RunListed(run: seq<Hub>, steps: seq<Step>, a: nat, b: nat, i: nat, since: nat)
    requires IsRun(run, steps) && a <= b < |run| && i < |run[a].subs| && OnTheList(run[a], i, since)
    ensures i < |run[b].subs| && OnTheList(run[b], i, since)
  {
    hide Enabled, Apply, OnTheList;
    if a < b {
      RunListed(run, steps, a, b - 1, i, since);
      StepListed(run[b - 1], steps[b - 1], i, since);
    }
  }

  /** The publication log only grows. */
  lemma {:induction false} LogGrows(run: seq<Hub>, steps: seq<Step>, a: nat, b: nat)
    requires IsRun(run, steps) && a <= b < |run|
    ensures run[a].published <= run[b].published
  {
    hide Enabled, Apply;
    if a < b {
      LogGrows(run, steps, a, b - 1);
      LogMoves(run[b - 1], steps[b - 1]);
    }
  }

  lemma NewListed(s: Hub, step: Step)
    requires LogInv(s) && Enabled(s, step) && step.Subscribe?
    ensures var t := Apply(s, step);
            && |t.subs| == |s.subs| + 1
            && OnTheList(t, |s.subs|, |s.published| - if s.watch.latest.Some? then 1 else 0)
            && (s.watch.latest.Some? ==> s.published != [] && s.watch.latest.value.key == s.published[|s.published| - 1])
  {
    hide Numbered, Keys;
  }

  lemma OfferedSince(sub: Sub, log: seq<Key>, before: seq<Key>, first: seq<Key>)
    requires Contiguous(sub, log) && sub.listed && before <= log
    requires first == [] || (before != [] && first == [before[|before| - 1]])
    requires sub.since == |before| - |first|
    ensures sub.offered == first + log[|before|..]
  {
    assert log[sub.since..] == first + log[|before|..];
  }

  lemma IsContiguous(s: Hub, i: nat)
    requires DeliveryInv(s) && i < |s.subs|
    ensures Contiguous(s.subs[i], s.published)
  {
    hide Contiguous;
    assert SubInv(s.subs[i], s.published, s.watch);
  }

  /** Nothing is missed between subscribing and now: a receiver that subscribed at step `a`, and is alive with its stop
      flag down at `b`, has been offered the frame that was the latest then, if there was one, and after it exactly the
      frames published since, in order. */
  lemma NothingIsMissed(run: seq<Hub>, steps: seq<Step>, a: nat, b: nat)
    requires IsRun(run, steps) && a < b < |run| && steps[a].Subscribe?
    ensures |run[a].subs| < |run[b].subs| && |run[a].published| <= |run[b].published|
    ensures var i, latest := |run[a].subs|, run[a].watch.latest;
            run[b].subs[i].alive && !Disowned(run[b], i) ==>
              run[b].subs[i].offered
              == (if latest.Some? then [latest.value.key] else []) + run[b].published[|run[a].published|..]
  {
    hide Enabled, Apply, Disowned, LogInv, OwnershipInv, SessionsInv, DeliveryInv, MetricsInv, Contiguous;
    var i, first := |run[a].subs|, if run[a].watch.latest.Some? then [run[a].watch.latest.value.key] else [];
    RunInv(run, steps, a);
    NewListed(run[a], steps[a]);
    RunListed(run, steps, a + 1, b, i, |run[a].published| - |first|);
    LogGrows(run, steps, a, b);
    RunInv(run, steps, b);
    IsContiguous(run[b], i);
    if run[b].subs[i].alive && !Disowned(run[b], i) {
      OfferedSince(run[b].subs[i], run[b].published, run[a].published, first);
    }
  }

  lemma {:induction false} SpacedApart(sub: Sub, a: nat, b: nat)
    requires Spaced(sub) && sub.interval.Some? && a < b < |sub.accepted|
    ensures sub.accepted[a] + (b - a) * sub.interval.value <= sub.accepted[b]
    decreases b
  {
    assert sub.accepted[b - 1] + sub.interval.value <= sub.accepted[b];
    if a + 1 < b {
      SpacedApart(sub, a, b - 1);
    }
  }

  /** With a rate limit of one frame per interval, any two frames that pass it were captured at least as many
      intervals apart as there are steps between them. */
  lemma AcceptedFramesAreSpaced(run: seq<Hub>, steps: seq<Step>, k: nat, i: nat, a: nat, b: nat)
    requires IsRun(run, steps) && k < |run| && i < |run[k].subs| && run[k].subs[i].interval.Some?
    requires a < b < |run[k].subs[i].accepted|
    ensures var sub := run[k].subs[i]; sub.accepted[a] + (b - a) * sub.interval.value <= sub.accepted[b]
  {
    hide Enabled, Apply;
    RunInv(run, steps, k);
    assert SubInv(run[k].subs[i], run[k].published, run[k].watch);
    SpacedApart(run[k].subs[i], a, b);
  }

  /** The receiver is owned as before, and sleeps only if it did so before. */
  predicate StillAsleep(sub: Sub, o: Sub) {
    o.owner == sub.owner && (o.waiting ==> sub.waiting && o.seen == sub.seen)
  }

  lemma OfferAsleep(sub: Sub, f: Frame, flags: set<nat>)
    ensures StillAsleep(sub, Offer(sub, f, flags))
  {
  }

  lemma DisownedCommit(s: Hub, step: Step, i: nat)
    requires Enabled(s, step) && step.Commit? && i < |s.subs|
    ensures var t := Apply(s, step); |t.subs| == |s.subs| && StillAsleep(s.subs[i], t.subs[i])
  {
    hide Enabled, Apply, Offer, NextKey;
    CommitFrame(s, step);
    var l := s.pool.leases[step.lease];
    OfferAsleep(s.subs[i], Frame(NextKey(s.watch), l.storage, l.length, step.capturedAt), Seen(s.flags, step.missed, i));
  }

  lemma DisownedPoll(s: Hub, step: Step, i: nat)
    requires Enabled(s, step) && step.Poll? && i < |s.subs| && Disowned(s, i)
    ensures var t := Apply(s, step); |t.subs| == |s.subs| && StillAsleep(s.subs[i], t.subs[i])
  {
    hide Enabled, Apply, Pop;
    StepPolls(s, step);
  }

  lemma DisownedReader(s: Hub, step: Step, i: nat)
    requires Enabled(s, step) && i < |s.subs| && Disowned(s, i)
    requires OfReceiver(step)
    ensures var t := Apply(s, step); |t.subs| == |s.subs| && StillAsleep(s.subs[i], t.subs[i])
  {
    hide Keys;
  }

  lemma SameReaders(s: Hub, step: Step, i: nat)
    requires Enabled(s, step) && i < |s.subs|
    requires step.Subscribe? || step.TakeLatest? || step.CloneFrame? || step.DropFrame?
    ensures var t := Apply(s, step); i < |t.subs| && t.subs[i] == s.subs[i]
  {
    hide NewSub;
  }

  /** A disowned receiver stays so, and does not go to sleep any more. */
  lemma DisownedStep(s: Hub, step: Step, i: nat)
    requires Enabled(s, step) && i < |s.subs| && Disowned(s, i)
    ensures var t := Apply(s, step); i < |t.subs| && Disowned(t, i) && StillAsleep(s.subs[i], t.subs[i])
  {
    hide Enabled, Apply, ApplyCommit;
    if step.Commit? { DisownedCommit(s, step, i); CommitFrame(s, step); }
    else if step.ChargeCommit? { ChargeFrame(s, step); }
    else if step.Poll? { DisownedPoll(s, step, i); ReaderFrame(s, step); }
    else if OfReceiver(step) {
      DisownedReader(s, step, i);
      ReaderFrame(s, step);
    } else if OfReader(step) { SameReaders(s, step, i); ReaderFrame(s, step); }
    else if OfPool(step) { PoolFrame(s, step); }
    else if OfWatch(step) { WatchFrame(s, step); }
    else { CounterFrame(s, step); }
  }

  lemma {:induction false} DisownedSleepsOld(run: seq<Hub>, steps: seq<Step>, a: nat, k: nat, i: nat)
    requires IsRun(run, steps) && a <= k < |run| && i < |run[a].subs| && Disowned(run[a], i)
    ensures i < |run[k].subs| && Disowned(run[k], i)
    ensures run[k].subs[i].waiting ==> run[k].subs[i].seen <= run[a].watch.version
  {
    hide Enabled, Apply, Disowned;
    if a == k {
      RunInv(run, steps, a);
      assert SubInv(run[a].subs[i], run[a].published, run[a].watch);
    } else {
      DisownedSleepsOld(run, steps, a, k - 1, i);
      DisownedStep(run[k - 1], steps[k - 1], i);
    }
  }

  /** No lost wake-up: a receiver that sleeps with nothing left to wake it has nothing queued, the stream can
      go on, and its stop flag was not yet up when the watch value last changed. A stop raises the flag first
      and then changes the value, so that it wakes every receiver that it ends. */
  lemma NoLostWakeUp(run: seq<Hub>, steps: seq<Step>, k: nat, i: nat)
    requires IsRun(run, steps) && k < |run| && i < |run[k].subs|
    requires run[k].subs[i].waiting && run[k].subs[i].seen == run[k].watch.version
    ensures run[k].subs[i].queue == []
    ensures run[k].watch.active || run[k].watch.recovering || run[k].watch.reconnect
    ensures forall a :: 0 <= a <= k && run[a].watch.version < run[k].watch.version && i < |run[a].subs|
              ==> !Disowned(run[a], i)
  {
    hide Enabled, Apply, Disowned;
    RunInv(run, steps, k);
    assert SubInv(run[k].subs[i], run[k].published, run[k].watch);
    forall a | 0 <= a <= k && run[a].watch.version < run[k].watch.version && i < |run[a].subs| && Disowned(run[a], i)
      ensures false
    {
      DisownedSleepsOld(run, steps, a, k, i);
    }
  }

  /** Nothing in the queue is new to the receiver and of the session. */
  ghost predicate NothingNew(queue: seq<Frame>, last: Option<Key>, session: nat) {
    forall g :: g in queue ==> Some(g.key) == last || g.key.session != session
  }

  /** What one critical section of `next` gives its receiver: a queued frame, the first that is new to it and of the
      session; nothing, when there is none, and then it sleeps; or the end of the stream. */
  ghost predicate Delivers(s: Hub, t: Hub, sub: Sub, o: Sub, handle: nat) {
    if (sub.owner.Some? && sub.owner.value in s.flags) || (!s.watch.active && !s.watch.recovering && !s.watch.reconnect) then
      o == sub.(seen := s.watch.version, waiting := false) && t.consumers == s.consumers
    else if o.waiting then
      && NothingNew(sub.queue, sub.last, s.watch.session)
      && o.returned == sub.returned && o.last == sub.last && o.queue == [] && t.consumers == s.consumers
    else
      exists n: nat | n < |sub.queue| ::
        var f := sub.queue[n];
        && Some(f.key) != sub.last && f.key.session == s.watch.session && NothingNew(sub.queue[..n], sub.last, s.watch.session)
        && o.returned == sub.returned + [f.key] && o.last == Some(f.key) && o.queue == sub.queue[n + 1..]
        && t.consumers == s.consumers[handle := f]
  }

  lemma {:induction false} PopIsFirst(queue: seq<Frame>, last: Option<Key>, session: nat) returns (n: nat)
    ensures var p := Pop(queue, last, session);
            if p.frame.None? then NothingNew(queue, last, session) && p.rest == [] && n == |queue|
            else
              && n < |queue| && p.frame.value == queue[n] && p.rest == queue[n + 1..] && NothingNew(queue[..n], last, session)
              && Some(queue[n].key) != last && queue[n].key.session == session
  {
    n := 0;
    if queue != [] {
      if !Deliverable(queue[0], last, session) {
        n := PopIsFirst(queue[1..], last, session);
        var rest := Pop(queue[1..], last, session);
        if rest.frame.None? {
          assert queue == [queue[0]] + queue[1..];
        } else {
          assert queue[..n + 1] == [queue[0]] + queue[1..][..n];
          assert queue[1..][n + 1..] == queue[n + 2..];
        }
        n := n + 1;
      }
    }
  }

  lemma PollDelivers(s: Hub, i: nat, handle: nat)
    requires i < |s.subs|
    ensures |ApplyPoll(s, i, handle).subs| == |s.subs|
    ensures Delivers(s, ApplyPoll(s, i, handle), s.subs[i], ApplyPoll(s, i, handle).subs[i], handle)
  {
    var n := PopIsFirst(s.subs[i].queue, s.subs[i].last, s.watch.session);
    hide Pop, Deliverable, NothingNew;
  }

  lemma StepPolls(s: Hub, step: Step)
    requires Enabled(s, step) && step.Poll?
    ensures step.sub < |s.subs| && Apply(s, step) == ApplyPoll(s, step.sub, step.handle)
  {
    hide ApplyPoll;
  }

  /** What `next` returns is of the hub's session at the pop, and not the frame that the receiver already has;
      when it goes to sleep nothing that it could return was queued. All it ever returned is in order. */
  lemma NextDelivers(run: seq<Hub>, steps: seq<Step>, k: nat)
    requires IsRun(run, steps) && k < |steps| && steps[k].Poll?
    ensures var i := steps[k].sub;
            && i < |run[k].subs| == |run[k + 1].subs|
            && Delivers(run[k], run[k + 1], run[k].subs[i], run[k + 1].subs[i], steps[k].handle)
            && Increasing(run[k + 1].subs[i].returned)
  {
    StepPolls(run[k], steps[k]);
    hide Enabled, Apply, Delivers, ApplyPoll, Ordered;
    PollDelivers(run[k], steps[k].sub, steps[k].handle);
    RunInv(run, steps, k + 1);
    var o := run[k + 1].subs[steps[k].sub];
    assert SubInv(o, run[k + 1].published, run[k + 1].watch);
    OrderedReturns(o, run[k + 1].published);
  }

  ghost predicate CursorKept(sub: Sub, o: Sub) {
    o.last == sub.last && o.returned == sub.returned
  }

  lemma OfferCursor(sub: Sub, f: Frame, flags: set<nat>)
    ensures CursorKept(sub, Offer(sub, f, flags))
  {
  }

  lemma CommitCursor(s: Hub, step: Step, i: nat)
    requires Enabled(s, step) && step.Commit? && i < |s.subs|
    ensures i < |Apply(s, step).subs| && CursorKept(s.subs[i], Apply(s, step).subs[i])
  {
    hide Enabled, Apply, Offer, NextKey;
    CommitFrame(s, step);
    var l := s.pool.leases[step.lease];
    OfferCursor(s.subs[i], Frame(NextKey(s.watch), l.storage, l.length, step.capturedAt), Seen(s.flags, step.missed, i));
  }

  lemma ReceiverCursor(s: Hub, step: Step, i: nat)
    requires Enabled(s, step) && OfReceiver(step) && i < |s.subs| && !(step.Seed? && step.sub == i)
    ensures i < |Apply(s, step).subs| && CursorKept(s.subs[i], Apply(s, step).subs[i])
  {
    hide Keys;
  }

  /** The receiver's cursor is moved: by `next`, or by `wait_after` at its beginning. */
  predicate Moves(step: Step, i: nat) {
    (step.Poll? || step.Seed?) && step.sub == i
  }

  lemma StepCursor(s: Hub, step: Step, i: nat)
    requires Enabled(s, step) && i < |s.subs| && !Moves(step, i)
    ensures i < |Apply(s, step).subs| && CursorKept(s.subs[i], Apply(s, step).subs[i])
  {
    hide Enabled, Apply, ApplyCommit, ApplyChargeCommit;
    if step.Commit? { CommitCursor(s, step, i); }
    else if step.ChargeCommit? { ChargeFrame(s, step); }
    else if step.Poll? { StepPolls(s, step); }
    else if OfReceiver(step) { ReceiverCursor(s, step, i); }
    else if OfReader(step) { SameReaders(s, step, i); }
    else if OfPool(step) { PoolFrame(s, step); }
    else if OfWatch(step) { WatchFrame(s, step); }
    else { CounterFrame(s, step); }
  }

  ghost predicate CursorRests(steps: seq<Step>, a: nat, b: nat, i: nat)
    requires a <= b <= |steps|
  {
    forall k :: a <= k < b ==> !Moves(steps[k], i)
  }

  lemma {:induction false} RunCursor(run: seq<Hub>, steps: seq<Step>, a: nat, b: nat, i: nat)
    requires IsRun(run, steps) && a <= b <= |steps| && i < |run[a].subs| && CursorRests(steps, a, b, i)
    ensures i < |run[b].subs| && CursorKept(run[a].subs[i], run[b].subs[i])
  {
    hide Enabled, Apply, Moves;
    if a < b {
      RunCursor(run, steps, a, b - 1, i);
      StepCursor(run[b - 1], steps[b - 1], i);
    }
  }

  lemma SeedSets(s: Hub, step: Step)
    requires Enabled(s, step) && step.Seed?
    ensures step.sub < |s.subs| == |Apply(s, step).subs| && Apply(s, step).subs[step.sub] == s.subs[step.sub].(last := step.last)
  {
  }

  /** `wait_after`: the receiver's first call of `next` does not return the frame that it was told to wait after. */
  lemma SeedIsNotReturned(run: seq<Hub>, steps: seq<Step>, a: nat, b: nat, key: Key)
    requires IsRun(run, steps) && a < b < |steps| && steps[a].Seed? && steps[a].last == Some(key)
    requires steps[b].Poll? && steps[b].sub == steps[a].sub && CursorRests(steps, a + 1, b, steps[a].sub)
    ensures var i := steps[a].sub;
            && i < |run[a].subs| && i < |run[b + 1].subs|
            && (run[b + 1].subs[i].returned == run[a].subs[i].returned
                || exists k :: run[b + 1].subs[i].returned == run[a].subs[i].returned + [k] && k != key)
  {
    hide Enabled, Apply, ApplyPoll, NothingNew;
    var i := steps[a].sub;
    SeedSets(run[a], steps[a]);
    RunCursor(run, steps, a + 1, b, i);
    NextDelivers(run, steps, b);
    assert Some(key) == run[b].subs[i].last;
  }

  lemma OrderedReturns(o: Sub, log: seq<Key>)
    requires Ordered(o, log)
    ensures Increasing(o.returned)
  {
    ChainPrefix(o);
  }

  // ----- Metrics -----

  lemma EpochMetrics(run: seq<Hub>, steps: seq<Step>, k: nat)
    requires IsRun(run, steps) && k < |run|
    ensures var m := run[k].pool.metrics;
            && m.published + m.poolDrops <= m.received
            && m.consecutive <= m.maxConsecutive <= m.errors
            && m.published == EpochPublished(run[k].charges)
            && m.errors == EpochErrors(run[k].charges)
    ensures run[k].watch.active ==> forall stalled ::
              RecoveryTrigger(run[k], stalled) == Some(FrameErrors(run[k].pool.metrics.consecutive))
              <==> Burst(run[k].charges) >= 8
  {
    RunInv(run, steps, k);
    BurstsOrdered(run[k].charges);
  }

  /** A publication or reservation counted by this step is of the epoch that the metrics are of. */
  ghost predicate ChargesOwnEpoch(s: Hub, step: Step, t: Hub) {
    && (t.pool.metrics.published > s.pool.metrics.published ==>
          && step.ChargeCommit? && step.lease in s.pool.leases
          && s.pool.leases[step.lease].session == MetricsEpoch(s) == MetricsEpoch(t))
    && (step.Reserve? ==>
          && step.session == MetricsEpoch(s) == MetricsEpoch(t) && t.pool.metrics.received == s.pool.metrics.received + 1
          && t.pool.metrics.poolDrops == s.pool.metrics.poolDrops + if step.lease in t.pool.leases then 0 else 1)
    && (step.ChargeCommit? && step.lease in s.pool.leases && s.pool.leases[step.lease].session == MetricsEpoch(s) ==>
          t.pool.metrics.published == s.pool.metrics.published + 1 && t.pool.metrics.consecutive == 0)
  }

  lemma ReserveChargesOwnEpoch(s: Hub, step: Step)
    requires Enabled(s, step) && step.Reserve?
    ensures ChargesOwnEpoch(s, step, Apply(s, step))
  {
    ReserveCounters(s.pool, step.pick, step.session, step.kind, step.length, step.spare, step.lease);
    hide PoolReserve, Unique;
  }

  lemma CommitChargesOwnEpoch(s: Hub, step: Step)
    requires Enabled(s, step) && step.ChargeCommit?
    ensures ChargesOwnEpoch(s, step, Apply(s, step))
  {
  }

  lemma CounterPublished(s: Hub, step: Step)
    requires Enabled(s, step) && OfCounter(step)
    ensures Apply(s, step).pool.metrics.published <= s.pool.metrics.published
  {
    hide ApplyChargePending;
    if step.ChargePending? { PendingPublished(s, step.token); }
  }

  lemma PendingPublished(s: Hub, token: nat)
    requires token in s.pending
    ensures ApplyChargePending(s, token).pool.metrics.published == s.pool.metrics.published
  {
  }

  lemma StepChargesOwnEpoch(s: Hub, step: Step)
    requires Enabled(s, step)
    ensures ChargesOwnEpoch(s, step, Apply(s, step))
  {
    hide Enabled, Apply, MetricsEpoch, ApplyCommit;
    if step.Reserve? { ReserveChargesOwnEpoch(s, step); }
    else if step.ChargeCommit? { CommitChargesOwnEpoch(s, step); }
    else if OfCounter(step) { CounterPublished(s, step); }
    else if step.Commit? { CommitFrame(s, step); }
    else if OfReader(step) { ReaderFrame(s, step); }
    else if OfPool(step) { PoolFrame(s, step); }
    else { WatchFrame(s, step); }
  }

  /** Publications and reservations are charged to the metrics of their own epoch, and to nothing else. */
  lemma ChargedToOwnEpoch(run: seq<Hub>, steps: seq<Step>, k: nat)
    requires IsRun(run, steps) && k < |steps|
    ensures ChargesOwnEpoch(run[k], steps[k], run[k + 1])
  {
    StepChargesOwnEpoch(run[k], steps[k]);
    hide Enabled, Apply, ChargesOwnEpoch;
  }

  ghost predicate NoStart(steps: seq<Step>, a: nat, b: nat)
    requires a <= b <= |steps|
  {
    forall k :: a <= k < b ==> !steps[k].StartReset?
  }

  lemma {:induction false} EpochRises(run: seq<Hub>, steps: seq<Step>, a: nat, b: nat)
    requires IsRun(run, steps) && a <= b < |run|
    ensures MetricsEpoch(run[a]) <= MetricsEpoch(run[b])
    ensures MetricsEpoch(run[a]) == MetricsEpoch(run[b]) <==> NoStart(steps, a, b)
  {
    hide Enabled, Apply, OwnershipInv, DeliveryInv, MetricsInv, MetricsEpoch, SessionsInv, LogInv;
    if a < b {
      EpochRises(run, steps, a, b - 1);
      RunInv(run, steps, b - 1);
      EpochMoves(run[b - 1], steps[b - 1]);
      assert NoStart(steps, a, b) <==> NoStart(steps, a, b - 1) && !steps[b - 1].StartReset?;
    }
  }

  /** The first halves of `record_conversion_error` and `record_input_drop`. */
  predicate Checks(step: Step) {
    step.CheckError? || step.CheckInputDrop?
  }

  lemma CheckedIn(s: Hub, step: Step)
    requires EpochInv(s) && Enabled(s, step) && Checks(step)
    ensures MetricsEpoch(s) == step.session <==> s.starting.Idle?
    ensures step.session <= MetricsEpoch(s)
  {
  }

  /** What the check has found out, and what its charge does to the counters. */
  function Found(step: Step): Pending
    requires Checks(step)
  {
    if step.CheckError? then FrameError(step.activity) else InputDrop
  }

  function Charged(m: Metrics, step: Step): Metrics
    requires Checks(step)
  {
    if step.CheckInputDrop? then ChargePoolDrop(ChargeReceived(m))
    else ChargeError(if step.activity then ChargeReceived(m) else m)
  }

  lemma CheckIsPending(s: Hub, step: Step)
    requires Enabled(s, step) && Checks(step)
    ensures Apply(s, step).pending == s.pending[step.token := Found(step)]
  {
  }

  lemma CounterPending(s: Hub, step: Step, token: nat)
    requires Enabled(s, step) && OfCounter(step) && token in s.pending && step != ChargePending(token)
    ensures token in Apply(s, step).pending && Apply(s, step).pending[token] == s.pending[token]
  {
  }

  lemma PendingStays(s: Hub, step: Step, token: nat)
    requires Enabled(s, step) && token in s.pending && step != ChargePending(token)
    ensures token in Apply(s, step).pending && Apply(s, step).pending[token] == s.pending[token]
  {
    hide Enabled, Apply, ApplyCommit, ApplyChargeCommit;
    if OfCounter(step) { CounterPending(s, step, token); }
    else if step.Commit? { CommitFrame(s, step); }
    else if step.ChargeCommit? { ChargeFrame(s, step); }
    else if OfReader(step) { ReaderFrame(s, step); }
    else if OfPool(step) { PoolFrame(s, step); }
    else { WatchFrame(s, step); }
  }

  /** Nothing has taken the token in between. */
  ghost predicate StillPending(steps: seq<Step>, a: nat, b: nat, token: nat)
    requires a <= b <= |steps|
  {
    forall k :: a < k < b ==> steps[k] != ChargePending(token)
  }

  lemma {:induction false} PendingSince(run: seq<Hub>, steps: seq<Step>, a: nat, b: nat)
    requires IsRun(run, steps) && a < b <= |steps| && Checks(steps[a]) && StillPending(steps, a, b, steps[a].token)
    ensures steps[a].token in run[b].pending && run[b].pending[steps[a].token] == Found(steps[a])
  {
    hide Enabled, Apply, Found;
    if a + 1 == b {
      CheckIsPending(run[a], steps[a]);
    } else {
      PendingSince(run, steps, a, b - 1);
      PendingStays(run[b - 1], steps[b - 1], steps[a].token);
    }
  }

  lemma ChargeCounts(s: Hub, check: Step)
    requires Checks(check) && Enabled(s, ChargePending(check.token)) && s.pending[check.token] == Found(check)
    ensures Apply(s, ChargePending(check.token)).pool.metrics == Charged(s.pool.metrics, check)
    ensures MetricsEpoch(Apply(s, ChargePending(check.token))) == MetricsEpoch(s)
  {
  }

  /** `record_conversion_error` and `record_input_drop` let go of the state before they take the pool. What was
      checked in a session is counted once, and in that session's metrics exactly when no `start` is under way
      or begins in between. */
  lemma PendingChargedToOwnEpochIff(run: seq<Hub>, steps: seq<Step>, a: nat, b: nat)
    requires IsRun(run, steps) && a < b < |steps| && Checks(steps[a])
    requires steps[b] == ChargePending(steps[a].token) && StillPending(steps, a, b, steps[a].token)
    ensures run[b + 1].pool.metrics == Charged(run[b].pool.metrics, steps[a])
    ensures MetricsEpoch(run[b + 1]) == steps[a].session <==> run[a].starting.Idle? && NoStart(steps, a, b)
  {
    hide Enabled, Apply, Charged, Found, NoStart, HubInv;
    RunInv(run, steps, a);
    assert EpochInv(run[a]) by { EpochOf(run[a]); }
    CheckedIn(run[a], steps[a]);
    EpochRises(run, steps, a, b);
    PendingSince(run, steps, a, b);
    ChargeCounts(run[b], steps[a]);
  }

  lemma EpochOf(s: Hub)
    requires HubInv(s)
    ensures EpochInv(s)
  {
  }

  lemma LeadsCheck(s: Hub, steps: seq<Step>, t: Hub, session: nat)
    requires Leads(s, steps, t) && t.pending == map[] && t.watch.active && t.watch.session == session
    ensures Leads(s, steps + [CheckError(0, session, false)], t.(pending := map[0 := FrameError(false)]))
  {
    hide Enabled, Apply, Leads;
    CheckApplies(t, 0, session, false);
    assert t.pending[0 := FrameError(false)] == map[0 := FrameError(false)];
    LeadsMore(s, steps, t, CheckError(0, session, false));
  }

  lemma LeadsPending(s: Hub, steps: seq<Step>, t: Hub)
    requires Leads(s, steps, t) && t.starting.Idle? && t.pending == map[0 := FrameError(false)]
    ensures Leads(s, steps + [ChargePending(0)], ApplyChargePending(t, 0))
  {
    hide Enabled, Apply, Leads, ApplyChargePending;
    ChargeApplies(t, 0);
    LeadsMore(s, steps, t, ChargePending(0));
  }

  /** A run in which the only error was checked in session 1 and is counted in session 2. */
  lemma StaleErrorExample() returns (s: Hub, steps: seq<Step>, t: Hub)
    ensures Init(s) && Leads(s, steps, t)
    ensures steps == START + [CheckError(0, 1, false)] + START + [ChargePending(0)]
    ensures t.watch.active && MetricsEpoch(t) == 2 && t.pool.metrics.errors == 1
  {
    hide Leads;
    s := Hub(Pool([], 4, 1000, map[], map[], ZeroMetrics), Watch(0, false, false, false, None, 0),
             [], map[], Idle, 1, {}, map[], [], []);
    var first := Started(s);
    StartIsARun(s);
    LeadsCheck(s, START, first, 1);
    var checked := first.(pending := map[0 := FrameError(false)]);
    var second := Started(checked);
    StartIsARun(checked);
    LeadsOn(s, START + [CheckError(0, 1, false)], checked, START, second);
    LeadsPending(s, START + [CheckError(0, 1, false)] + START, second);
    steps, t := START + [CheckError(0, 1, false)] + START + [ChargePending(0)], ApplyChargePending(second, 0);
  }
}
