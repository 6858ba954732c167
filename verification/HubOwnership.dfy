/** Who may write a storage: every storage is in exactly one slot or one lease, and no storage with a
    live frame is ever writable. */
module HubOwnership {
  import opened Basics
  import opened HubState

  // ----- Invariants -----

  /** Slots hold distinct storages, and account for their capacity. */
  ghost predicate SlotsOwn(p: Pool) {
    && (forall i :: 0 <= i < |p.slots| && p.slots[i].data.Some? ==>
          p.slots[i].data.value in p.heap && p.slots[i].bytes == p.heap[p.slots[i].data.value].capacity)
    && (forall i, j :: 0 <= i < j < |p.slots| && p.slots[i].data.Some? ==> p.slots[i].data != p.slots[j].data)
  }

  /** A lease holds the storage of one empty slot, which accounts for its capacity. */
  ghost predicate LeaseOwns(p: Pool, l: nat)
    requires l in p.leases
  {
    && p.leases[l].index < |p.slots| && p.slots[p.leases[l].index].data.None?
    && p.leases[l].storage in p.heap
    && p.slots[p.leases[l].index].bytes == p.heap[p.leases[l].storage].capacity
  }

  /** Leases have distinct slots and distinct storages. */
  ghost predicate LeasesOwn(p: Pool) {
    && (forall l :: l in p.leases ==> LeaseOwns(p, l))
    && (forall l, m :: l in p.leases && m in p.leases && l != m ==>
          p.leases[l].index != p.leases[m].index && p.leases[l].storage != p.leases[m].storage)
  }

  ghost predicate LeasedAt(p: Pool, i: nat) {
    exists l :: l in p.leases && p.leases[l].index == i
  }

  ghost predicate InSlot(p: Pool, id: Id) {
    exists i :: 0 <= i < |p.slots| && p.slots[i].data == Some(id)
  }

  ghost predicate InLease(p: Pool, id: Id) {
    exists l :: l in p.leases && p.leases[l].storage == id
  }

  /** An empty slot is out on a lease, no storage has two owners and none is left without one. */
  ghost predicate ExactlyOneOwner(p: Pool) {
    && (forall i :: 0 <= i < |p.slots| && p.slots[i].data.None? ==> LeasedAt(p, i))
    && (forall i, l :: 0 <= i < |p.slots| && l in p.leases ==> p.slots[i].data != Some(p.leases[l].storage))
    && (forall id :: id in p.heap ==> InSlot(p, id) || InLease(p, id))
  }

  ghost predicate BlocksSound(p: Pool) {
    && (forall id :: id in p.heap ==> 0 < p.heap[id].capacity && |p.heap[id].bytes| <= p.heap[id].capacity)
    && (forall id :: id in p.heap && p.heap[id].kind.Rgb? ==>
          && |p.heap[id].bytes| == p.heap[id].capacity
          && p.heap[id].kind.height * p.heap[id].kind.width * 3 == p.heap[id].capacity)
    && (forall l :: l in p.leases && p.leases[l].storage in p.heap ==>
          |p.heap[p.leases[l].storage].bytes| == p.leases[l].length)
  }

  ghost predicate WithinBudget(p: Pool) {
    |p.slots| <= p.buffers && SumBytes(p.slots) <= p.budget
  }

  ghost predicate PoolInv(p: Pool) {
    SlotsOwn(p) && LeasesOwn(p) && ExactlyOneOwner(p) && BlocksSound(p) && WithinBudget(p)
  }

  /** The frame's storage is alive, and no lease can write it. */
  ghost predicate Frozen(p: Pool, f: Frame) {
    && f.storage in p.heap && |p.heap[f.storage].bytes| == f.length
    && (forall l :: l in p.leases && p.leases[l].storage == f.storage ==> !p.leases[l].phase.Filling?)
  }

  ghost predicate FramesInv(s: Hub) {
    && (forall f :: Held(s, f) ==> Frozen(s.pool, f))
    && (forall f, g :: Held(s, f) && Held(s, g) && f.storage == g.storage ==> f == g)
  }

  ghost predicate OwnershipInv(s: Hub) {
    PoolInv(s.pool) && FramesInv(s)
  }

  // ----- Reference counts -----

  lemma SlotHolders(p: Pool, i: nat)
    requires SlotsOwn(p) && ExactlyOneOwner(p) && i < |p.slots| && p.slots[i].data.Some?
    ensures SlotsWith(p, p.slots[i].data.value) == {i} && LeasesWith(p, p.slots[i].data.value) == {}
  {
    hide LeasedAt, InSlot, InLease;
  }

  lemma LeaseHolders(p: Pool, l: nat)
    requires LeasesOwn(p) && ExactlyOneOwner(p) && l in p.leases
    ensures SlotsWith(p, p.leases[l].storage) == {} && LeasesWith(p, p.leases[l].storage) == {l}
  {
    hide LeasedAt, InSlot, InLease, LeaseOwns;
  }

  lemma FramesWithIff(s: Hub, id: Id)
    ensures |FramesWith(s, id)| == 0 <==> forall f :: Held(s, f) ==> f.storage != id
  {
    hide Held;
    if f :| Held(s, f) && f.storage == id {
      assert f in FramesWith(s, id);
    } else {
      assert FramesWith(s, id) == {};
    }
  }

  /** In a slot of a sound pool, `strong_count == 1` means that no live frame holds the storage. */
  lemma UniqueIffUnheld(s: Hub, i: nat)
    requires PoolInv(s.pool) && i < |s.pool.slots| && s.pool.slots[i].data.Some?
    ensures Unique(s, s.pool.slots[i].data.value) <==> forall f :: Held(s, f) ==> f.storage != s.pool.slots[i].data.value
  {
    hide SlotsOwn, LeasesOwn, ExactlyOneOwner, BlocksSound, WithinBudget, Held, SlotsWith, LeasesWith, FramesWith;
    SlotHolders(s.pool, i);
    FramesWithIff(s, s.pool.slots[i].data.value);
  }

  // ----- What each pool section keeps -----

  lemma SumBytesUpdate(slots: seq<Slot>, i: nat, slot: Slot)
    requires i < |slots|
    ensures SumBytes(slots[i := slot]) == OtherBytes(slots, i) + slot.bytes
  {
    var n := |slots| - 1;
    if i < n {
      SumBytesUpdate(slots[..n], i, slot);
      assert slots[i := slot][..n] == slots[..n][i := slot];
    } else {
      assert slots[i := slot][..n] == slots[..n];
    }
  }

  lemma SumBytesPush(slots: seq<Slot>, slot: Slot)
    ensures SumBytes(slots + [slot]) == SumBytes(slots) + slot.bytes
  {
    assert (slots + [slot])[..|slots|] == slots;
  }

  /** Slot `i` is not out on a lease; but for it, the pool is sound. */
  ghost predicate ReadyAt(p: Pool, i: nat) {
    && i < |p.slots| && SlotsOwn(p) && LeasesOwn(p) && BlocksSound(p) && WithinBudget(p)
    && (forall j :: 0 <= j < |p.slots| && j != i && p.slots[j].data.None? ==> LeasedAt(p, j))
    && (forall l :: l in p.leases ==> p.leases[l].index != i)
    && (forall j, l :: 0 <= j < |p.slots| && l in p.leases ==> p.slots[j].data != Some(p.leases[l].storage))
    && (forall id :: id in p.heap ==> InSlot(p, id) || InLease(p, id))
  }

  /** `q` is `p` with slot `i` lent out as storage `id`, which is the slot's own or a new one. */
  ghost predicate Lent(p: Pool, q: Pool, i: nat, lease: nat, l: Lease) {
    && i < |p.slots| && l.index == i && l.phase.Filling? && lease !in p.leases
    && l.storage in q.heap
    && q.slots == p.slots[i := Slot(None, q.heap[l.storage].capacity)]
    && q.leases == p.leases[lease := l]
    && (l.storage !in p.heap || p.slots[i].data == Some(l.storage))
    && (forall x :: x in q.heap <==> x == l.storage || (x in p.heap && p.slots[i].data != Some(x)))
    && (forall x :: x in q.heap && x != l.storage ==> q.heap[x] == p.heap[x])
    && q.buffers == p.buffers && q.budget == p.budget
  }

  lemma LentSlots(p: Pool, q: Pool, i: nat, lease: nat, l: Lease)
    requires ReadyAt(p, i) && Lent(p, q, i, lease, l)
    ensures SlotsOwn(q)
  {
    hide LeasesOwn, BlocksSound, WithinBudget, LeasedAt, InSlot, InLease;
    forall j | 0 <= j < |q.slots| && q.slots[j].data.Some?
      ensures q.slots[j].data.value in q.heap && q.slots[j].bytes == q.heap[q.slots[j].data.value].capacity
    {
      assert q.slots[j] == p.slots[j];
    }
  }

  lemma LentLeases(p: Pool, q: Pool, i: nat, lease: nat, l: Lease)
    requires ReadyAt(p, i) && Lent(p, q, i, lease, l)
    ensures LeasesOwn(q)
  {
    forall m | m in q.leases ensures LeaseOwns(q, m) {
      if m != lease { KeptLeaseOwns(p, q, i, lease, l, m); }
    }
    forall m, n | m in q.leases && n in q.leases && m != n
      ensures q.leases[m].index != q.leases[n].index && q.leases[m].storage != q.leases[n].storage
    {
      if m == lease { KeptLeaseOwns(p, q, i, lease, l, n); }
      else if n == lease { KeptLeaseOwns(p, q, i, lease, l, m); }
      else { assert q.leases[m] == p.leases[m] && q.leases[n] == p.leases[n]; }
    }
  }

  lemma KeptLeaseOwns(p: Pool, q: Pool, i: nat, lease: nat, l: Lease, m: nat)
    requires ReadyAt(p, i) && Lent(p, q, i, lease, l) && m in q.leases && m != lease
    ensures LeaseOwns(q, m) && q.leases[m].index != i && q.leases[m].storage != l.storage
  {
    assert q.leases[m] == p.leases[m];
    assert LeaseOwns(p, m);
  }

  lemma LentEmptySlots(p: Pool, q: Pool, i: nat, lease: nat, l: Lease, j: nat)
    requires ReadyAt(p, i) && Lent(p, q, i, lease, l) && j < |q.slots| && q.slots[j].data.None?
    ensures LeasedAt(q, j)
  {
    hide SlotsOwn, LeasesOwn, BlocksSound, WithinBudget, InSlot, InLease;
    if j != i {
      assert LeasedAt(p, j);
      var m :| m in p.leases && p.leases[m].index == j;
      assert m in q.leases && q.leases[m].index == j;
    } else {
      assert lease in q.leases && q.leases[lease].index == i;
    }
  }

  lemma LentOwned(p: Pool, q: Pool, i: nat, lease: nat, l: Lease, x: Id)
    requires ReadyAt(p, i) && Lent(p, q, i, lease, l) && x in q.heap
    ensures InSlot(q, x) || InLease(q, x)
  {
    hide SlotsOwn, LeasesOwn, BlocksSound, WithinBudget, LeasedAt;
    if x == l.storage {
      assert lease in q.leases && q.leases[lease].storage == x;
    } else if InSlot(p, x) {
      var j :| 0 <= j < |p.slots| && p.slots[j].data == Some(x);
      assert q.slots[j].data == Some(x);
    } else {
      assert InLease(p, x);
      var m :| m in p.leases && p.leases[m].storage == x;
      assert m in q.leases && q.leases[m].storage == x;
    }
  }

  lemma LentExactlyOne(p: Pool, q: Pool, i: nat, lease: nat, l: Lease)
    requires ReadyAt(p, i) && Lent(p, q, i, lease, l)
    ensures ExactlyOneOwner(q)
  {
    forall j | 0 <= j < |q.slots| && q.slots[j].data.None? ensures LeasedAt(q, j) {
      LentEmptySlots(p, q, i, lease, l, j);
    }
    forall x | x in q.heap ensures InSlot(q, x) || InLease(q, x) {
      LentOwned(p, q, i, lease, l, x);
    }
  }

  lemma LentKeeps(p: Pool, q: Pool, i: nat, lease: nat, l: Lease)
    requires ReadyAt(p, i) && Lent(p, q, i, lease, l)
    requires BlocksSound(q)
    requires q.heap[l.storage].capacity <= SatSub(p.budget, OtherBytes(p.slots, i))
    ensures PoolInv(q)
  {
    LentSlots(p, q, i, lease, l);
    LentLeases(p, q, i, lease, l);
    LentExactlyOne(p, q, i, lease, l);
    SumBytesUpdate(p.slots, i, Slot(None, q.heap[l.storage].capacity));
  }

  /** The lease that `ReserveAt` hands out when the budget test passes. */
  function LeaseAt(p: Pool, i: nat, session: nat, kind: Kind, length: nat, spare: Id): Lease
    requires i < |p.slots|
  {
    Lease(i, if Reusable(p, p.slots[i].data, kind, length) then p.slots[i].data.value else spare, session, length, Filling)
  }

  predicate Fits(p: Pool, i: nat, length: nat)
    requires i < |p.slots|
  {
    length <= SatSub(p.budget, OtherBytes(p.slots, i))
  }

  /** A slot's own storage always fits in what the other slots leave of the budget, so the branch of
      `reserve` that gives up an over-allocated storage is never taken. */
  lemma ReuseFits(p: Pool, i: nat)
    requires ReadyAt(p, i) && p.slots[i].data.Some?
    ensures p.heap[p.slots[i].data.value].capacity <= SatSub(p.budget, OtherBytes(p.slots, i))
  {
  }

  lemma ReserveLends(p: Pool, i: nat, session: nat, kind: Kind, length: nat, spare: Id, lease: nat)
    requires ReadyAt(p, i) && KindFits(kind, length) && spare !in p.heap && lease !in p.leases
    requires Fits(p, i, length)
    requires p.slots[i].data.Some? ==> p.heap[p.slots[i].data.value].capacity <= SatSub(p.budget, OtherBytes(p.slots, i))
    ensures Lent(p, ReserveAt(p, i, session, kind, length, spare, lease), i, lease, LeaseAt(p, i, session, kind, length, spare))
  {
  }

  /** The block that a reservation hands out. */
  function LentBlock(p: Pool, i: nat, kind: Kind, length: nat): Block
    requires i < |p.slots|
  {
    if Reusable(p, p.slots[i].data, kind, length) then
      var block := p.heap[p.slots[i].data.value];
      if kind.Bytes? then block.(bytes := Resize(block.bytes, length)) else block
    else Block(kind, length, Zeros(length))
  }

  lemma LentBlockSound(p: Pool, i: nat, kind: Kind, length: nat)
    requires BlocksSound(p) && i < |p.slots| && KindFits(kind, length)
    ensures var b := LentBlock(p, i, kind, length);
            && 0 < b.capacity && |b.bytes| == length <= b.capacity
            && (b.kind.Rgb? ==> length == b.capacity && b.kind.height * b.kind.width * 3 == b.capacity)
  {
  }

  lemma LentBlocks(p: Pool, q: Pool, i: nat, lease: nat, l: Lease, kind: Kind)
    requires ReadyAt(p, i) && Lent(p, q, i, lease, l) && KindFits(kind, l.length)
    requires q.heap[l.storage] == LentBlock(p, i, kind, l.length)
    ensures BlocksSound(q)
  {
    LentBlockSound(p, i, kind, l.length);
    forall m | m in q.leases && q.leases[m].storage in q.heap
      ensures |q.heap[q.leases[m].storage].bytes| == q.leases[m].length
    {
      if m != lease {
        assert q.leases[m] == p.leases[m];
        assert p.leases[m].storage != l.storage;
      }
    }
  }

  lemma ReserveAtKeeps(p: Pool, i: nat, session: nat, kind: Kind, length: nat, spare: Id, lease: nat)
    requires ReadyAt(p, i) && KindFits(kind, length) && spare !in p.heap && lease !in p.leases
    requires Fits(p, i, length)
    ensures PoolInv(ReserveAt(p, i, session, kind, length, spare, lease))
  {
    var q := ReserveAt(p, i, session, kind, length, spare, lease);
    var l := LeaseAt(p, i, session, kind, length, spare);
    if p.slots[i].data.Some? { ReuseFits(p, i); }
    ReserveLends(p, i, session, kind, length, spare, lease);
    LentBlocks(p, q, i, lease, l, kind);
    assert q.heap[l.storage].capacity <= SatSub(p.budget, OtherBytes(p.slots, i));
    LentKeeps(p, q, i, lease, l);
  }

  function Pushed(p: Pool): Pool {
    p.(slots := p.slots + [Slot(None, 0)])
  }

  lemma PushedOwned(p: Pool, id: Id)
    requires InSlot(p, id) || InLease(p, id)
    ensures InSlot(Pushed(p), id) || InLease(Pushed(p), id)
  {
    if InSlot(p, id) {
      var j :| 0 <= j < |p.slots| && p.slots[j].data == Some(id);
      assert Pushed(p).slots[j].data == Some(id);
    }
  }

  lemma PushedLeases(p: Pool)
    requires LeasesOwn(p)
    ensures LeasesOwn(Pushed(p))
  {
    var q := Pushed(p);
    forall l | l in q.leases ensures LeaseOwns(q, l) {
      assert LeaseOwns(p, l);
    }
  }

  lemma PushedOwners(p: Pool)
    requires ExactlyOneOwner(p)
    ensures var q := Pushed(p);
            && (forall j :: 0 <= j < |p.slots| && q.slots[j].data.None? ==> LeasedAt(q, j))
            && (forall j, l :: 0 <= j < |q.slots| && l in q.leases ==> q.slots[j].data != Some(q.leases[l].storage))
            && (forall id :: id in q.heap ==> InSlot(q, id) || InLease(q, id))
  {
    var q := Pushed(p);
    forall j | 0 <= j < |p.slots| && q.slots[j].data.None? ensures LeasedAt(q, j) {
      assert LeasedAt(p, j);
    }
    forall id | id in q.heap ensures InSlot(q, id) || InLease(q, id) {
      PushedOwned(p, id);
    }
  }

  lemma LeaseIndex(p: Pool, l: nat)
    requires LeasesOwn(p) && l in p.leases
    ensures p.leases[l].index < |p.slots|
  {
    assert LeaseOwns(p, l);
  }

  lemma PushedBlocks(p: Pool)
    requires SlotsOwn(p) && BlocksSound(p)
    ensures SlotsOwn(Pushed(p)) && BlocksSound(Pushed(p))
  {
  }

  lemma PushedReady(p: Pool)
    requires PoolInv(p) && |p.slots| < p.buffers
    ensures ReadyAt(Pushed(p), |p.slots|)
  {
    hide SlotsOwn, LeasesOwn, ExactlyOneOwner, BlocksSound, InSlot, InLease, LeasedAt;
    SumBytesPush(p.slots, Slot(None, 0));
    PushedLeases(p);
    PushedOwners(p);
    PushedBlocks(p);
    forall l | l in p.leases ensures p.leases[l].index < |p.slots| {
      LeaseIndex(p, l);
    }
  }

  lemma PickedReady(p: Pool, i: nat)
    requires PoolInv(p) && i < |p.slots| && p.slots[i].data.Some?
    ensures ReadyAt(p, i)
  {
  }

  lemma RefusedReserveKeeps(p: Pool, i: nat, session: nat, kind: Kind, length: nat, spare: Id, lease: nat)
    requires PoolInv(p) && i < |p.slots| && p.slots[i].data.Some? && !Fits(p, i, length)
    ensures ReserveAt(p, i, session, kind, length, spare, lease).(metrics := p.metrics) == p
  {
    assert p.slots[i].bytes > 0;
  }

  /** When a new slot does not fit, the `pop` removes exactly the slot that was pushed. */
  lemma RefusedPushUndone(p: Pool, session: nat, kind: Kind, length: nat, spare: Id, lease: nat)
    requires !Fits(Pushed(p), |p.slots|, length)
    ensures ReserveAt(Pushed(p), |p.slots|, session, kind, length, spare, lease).(metrics := p.metrics) == p
  {
    assert (p.slots + [Slot(None, 0)])[..|p.slots|] == p.slots;
  }

  lemma MetricsAreNotOwnership(p: Pool, metrics: Metrics)
    requires PoolInv(p)
    ensures PoolInv(p.(metrics := metrics))
  {
    var q := p.(metrics := metrics);
    assert forall i :: LeasedAt(q, i) <==> LeasedAt(p, i);
    assert forall id :: InSlot(q, id) <==> InSlot(p, id);
    assert forall id :: InLease(q, id) <==> InLease(p, id);
    assert forall l :: l in p.leases ==> (LeaseOwns(q, l) <==> LeaseOwns(p, l));
  }

  predicate ReserveArgs(p: Pool, pick: Option<nat>, kind: Kind, length: nat, spare: Id, lease: nat) {
    && (pick.Some? ==> pick.value < |p.slots| && p.slots[pick.value].data.Some?)
    && KindFits(kind, length) && spare !in p.heap && lease !in p.leases
  }

  lemma ReserveKeeps(p: Pool, pick: Option<nat>, session: nat, kind: Kind, length: nat, spare: Id, lease: nat)
    requires PoolInv(p) && ReserveArgs(p, pick, kind, length, spare, lease)
    ensures PoolInv(PoolReserve(p, pick, session, kind, length, spare, lease))
  {
    var q := p.(metrics := ChargeReceived(p.metrics));
    var r := PoolReserve(p, pick, session, kind, length, spare, lease);
    MetricsAreNotOwnership(p, q.metrics);
    if pick.Some? {
      if Fits(q, pick.value, length) {
        PickedReady(q, pick.value);
        ReserveAtKeeps(q, pick.value, session, kind, length, spare, lease);
      } else {
        RefusedReserveKeeps(q, pick.value, session, kind, length, spare, lease);
        assert r == q.(metrics := r.metrics);
        MetricsAreNotOwnership(q, r.metrics);
      }
    } else if |q.slots| < q.buffers {
      if Fits(Pushed(q), |q.slots|, length) {
        PushedReady(q);
        ReserveAtKeeps(Pushed(q), |q.slots|, session, kind, length, spare, lease);
      } else {
        RefusedPushUndone(q, session, kind, length, spare, lease);
        assert r == q.(metrics := r.metrics);
        MetricsAreNotOwnership(q, r.metrics);
      }
    } else {
      MetricsAreNotOwnership(p, r.metrics);
    }
  }

  /** The budget allows the reservation: in the picked slot or, when none is free, in a new one. */
  predicate Grants(p: Pool, pick: Option<nat>, length: nat)
    requires pick.Some? ==> pick.value < |p.slots|
  {
    if pick.Some? then Fits(p, pick.value, length)
    else |p.slots| < p.buffers && length <= SatSub(p.budget, SumBytes(p.slots))
  }

  lemma GrantsAt(p: Pool, i: nat, session: nat, kind: Kind, length: nat, spare: Id, lease: nat)
    requires i < |p.slots| && lease !in p.leases
    requires p.slots[i].data.Some? ==>
               && p.slots[i].data.value in p.heap
               && p.heap[p.slots[i].data.value].capacity <= SatSub(p.budget, OtherBytes(p.slots, i))
    ensures lease in ReserveAt(p, i, session, kind, length, spare, lease).leases <==> Fits(p, i, length)
  {
  }

  /** A reservation is granted exactly when the budget allows it. */
  lemma GrantedIff(p: Pool, pick: Option<nat>, session: nat, kind: Kind, length: nat, spare: Id, lease: nat)
    requires PoolInv(p) && ReserveArgs(p, pick, kind, length, spare, lease)
    ensures lease in PoolReserve(p, pick, session, kind, length, spare, lease).leases <==> Grants(p, pick, length)
  {
    hide ReserveAt, LeasesOwn, ExactlyOneOwner, BlocksSound, SumBytes;
    var q := p.(metrics := ChargeReceived(p.metrics));
    if pick.Some? {
      PickedReady(p, pick.value);
      ReuseFits(p, pick.value);
      GrantsAt(q, pick.value, session, kind, length, spare, lease);
    } else if |p.slots| < p.buffers {
      SumBytesPush(p.slots, Slot(None, 0));
      GrantsAt(Pushed(q), |q.slots|, session, kind, length, spare, lease);
    }
  }

  /** A reservation that finds a free slot whose storage is of its kind and long enough allocates nothing. */
  lemma ReuseAllocatesNothing(p: Pool, i: nat, session: nat, kind: Kind, length: nat, spare: Id, lease: nat)
    requires PoolInv(p) && ReserveArgs(p, Some(i), kind, length, spare, lease) && Fits(p, i, length)
    requires var block := p.heap[p.slots[i].data.value];
             block.kind == kind && (kind.Bytes? ==> length <= block.capacity)
    ensures var q, own := PoolReserve(p, Some(i), session, kind, length, spare, lease), p.slots[i].data.value;
            && q.heap.Keys == p.heap.Keys && q.slots[i].bytes == p.slots[i].bytes
            && lease in q.leases && q.leases[lease] == Lease(i, own, session, length, Filling)
            && |q.heap[own].bytes| == length
  {
    hide LeasesOwn, ExactlyOneOwner, SumBytes;
    PickedReady(p, i);
    ReuseFits(p, i);
  }

  /** What one reservation leaves alone: every lease, and every block but the picked slot's own. */
  ghost predicate Touches(p: Pool, q: Pool, own: Option<Id>, session: nat, spare: Id, lease: nat) {
    && (forall x :: x in p.heap && own != Some(x) ==> x in q.heap && q.heap[x] == p.heap[x])
    && (q.leases == p.leases
        || (lease in q.leases && q.leases == p.leases[lease := q.leases[lease]]
            && (q.leases[lease].storage == spare || own == Some(q.leases[lease].storage))
            && q.leases[lease].session == session && q.leases[lease].phase.Filling?))
  }

  lemma ReserveAtTouches(p: Pool, i: nat, session: nat, kind: Kind, length: nat, spare: Id, lease: nat)
    requires i < |p.slots| && spare !in p.heap
    ensures Touches(p, ReserveAt(p, i, session, kind, length, spare, lease), p.slots[i].data, session, spare, lease)
  {
  }

  function OwnAt(p: Pool, pick: Option<nat>): Option<Id>
    requires pick.Some? ==> pick.value < |p.slots|
  {
    if pick.Some? then p.slots[pick.value].data else None
  }

  lemma ReserveTouches(p: Pool, pick: Option<nat>, session: nat, kind: Kind, length: nat, spare: Id, lease: nat)
    requires ReserveArgs(p, pick, kind, length, spare, lease)
    ensures Touches(p, PoolReserve(p, pick, session, kind, length, spare, lease), OwnAt(p, pick), session, spare, lease)
  {
    var q := p.(metrics := ChargeReceived(p.metrics));
    if pick.Some? {
      ReserveAtTouches(q, pick.value, session, kind, length, spare, lease);
    } else if |q.slots| < q.buffers {
      assert Pushed(q).slots[|q.slots|] == Slot(None, 0);
      ReserveAtTouches(Pushed(q), |q.slots|, session, kind, length, spare, lease);
    }
  }

  lemma ReturnKeeps(p: Pool, lease: nat)
    requires PoolInv(p) && lease in p.leases
    ensures p.leases[lease].index < |p.slots| && PoolInv(PoolReturn(p, lease))
  {
    assert LeaseOwns(p, lease);
    var i, id := p.leases[lease].index, p.leases[lease].storage;
    var q := PoolReturn(p, lease);
    assert q.slots == p.slots[i := Slot(Some(id), p.slots[i].bytes)];
    SumBytesUpdate(p.slots, i, q.slots[i]);
    ReturnSlots(p, lease);
    forall l | l in q.leases ensures LeaseOwns(q, l) {
      assert LeaseOwns(p, l);
      assert q.leases[l] == p.leases[l] && q.leases[l].index != i;
    }
    ReturnOwners(p, lease);
  }

  lemma ReturnSlots(p: Pool, lease: nat)
    requires PoolInv(p) && lease in p.leases && LeaseOwns(p, lease)
    ensures SlotsOwn(PoolReturn(p, lease))
  {
    var i := p.leases[lease].index;
    var q := PoolReturn(p, lease);
    forall j | 0 <= j < |q.slots| && q.slots[j].data.Some?
      ensures q.slots[j].data.value in q.heap && q.slots[j].bytes == q.heap[q.slots[j].data.value].capacity
    {
      if j != i { assert q.slots[j] == p.slots[j]; }
    }
    forall j | 0 <= j < |q.slots| && j != i ensures q.slots[j].data != Some(p.leases[lease].storage) {
      assert q.slots[j] == p.slots[j];
    }
  }

  lemma ReturnLeasedAt(p: Pool, lease: nat, j: nat)
    requires LeasesOwn(p) && ExactlyOneOwner(p) && lease in p.leases && p.leases[lease].index < |p.slots|
    requires j < |p.slots| && PoolReturn(p, lease).slots[j].data.None?
    ensures LeasedAt(PoolReturn(p, lease), j)
  {
    hide InSlot, InLease;
    var q := PoolReturn(p, lease);
    assert LeasedAt(p, j);
    var l :| l in p.leases && p.leases[l].index == j;
    assert l != lease;
    assert l in q.leases && q.leases[l].index == j;
  }

  lemma ReturnOwned(p: Pool, lease: nat, x: Id)
    requires ExactlyOneOwner(p) && lease in p.leases && LeaseOwns(p, lease) && x in p.heap
    ensures InSlot(PoolReturn(p, lease), x) || InLease(PoolReturn(p, lease), x)
  {
    hide LeasedAt;
    var i, q := p.leases[lease].index, PoolReturn(p, lease);
    if x == p.leases[lease].storage {
      assert q.slots[i].data == Some(x);
    } else if InSlot(p, x) {
      var j :| 0 <= j < |p.slots| && p.slots[j].data == Some(x);
      assert q.slots[j].data == Some(x);
    } else {
      assert InLease(p, x);
      var l :| l in p.leases && p.leases[l].storage == x;
      assert l in q.leases && q.leases[l].storage == x;
    }
  }

  lemma ReturnOwners(p: Pool, lease: nat)
    requires PoolInv(p) && lease in p.leases && LeaseOwns(p, lease)
    ensures ExactlyOneOwner(PoolReturn(p, lease))
  {
    hide InSlot, InLease, LeasedAt, BlocksSound, WithinBudget, SlotsOwn;
    var q := PoolReturn(p, lease);
    forall j | 0 <= j < |q.slots| && q.slots[j].data.None? ensures LeasedAt(q, j) {
      ReturnLeasedAt(p, lease, j);
    }
    forall x | x in q.heap ensures InSlot(q, x) || InLease(q, x) {
      ReturnOwned(p, lease, x);
    }
  }

  lemma SumBytesRetained(slots: seq<Slot>, free: set<Id>)
    ensures |Retained(slots, free)| <= |slots| && SumBytes(Retained(slots, free)) <= SumBytes(slots)
  {
    if slots != [] {
      SumBytesRetained(slots[..|slots| - 1], free);
      SumBytesPush(Retained(slots[..|slots| - 1], free), slots[|slots| - 1]);
    }
  }

  /** `retain_mut` keeps exactly the slots that are not freed. */
  lemma RetainedSlots(slots: seq<Slot>, free: set<Id>)
    ensures forall slot :: slot in Retained(slots, free) <==>
              slot in slots && !(slot.data.Some? && slot.data.value in free)
  {
    if slots != [] {
      var n := |slots| - 1;
      RetainedSlots(slots[..n], free);
      assert slots == slots[..n] + [slots[n]];
    }
  }

  ghost predicate DistinctData(slots: seq<Slot>) {
    forall i, j :: 0 <= i < j < |slots| && slots[i].data.Some? ==> slots[i].data != slots[j].data
  }

  lemma RetainedDistinct(slots: seq<Slot>, free: set<Id>)
    requires DistinctData(slots)
    ensures DistinctData(Retained(slots, free))
  {
    if slots != [] {
      var n := |slots| - 1;
      RetainedDistinct(slots[..n], free);
      RetainedSlots(slots[..n], free);
      var rest := Retained(slots[..n], free);
      forall i | 0 <= i < |rest| && rest[i].data.Some? ensures rest[i].data != slots[n].data {
        assert rest[i] in rest;
        var k :| 0 <= k < n && slots[..n][k] == rest[i];
        assert slots[k].data != slots[n].data;
      }
    }
  }

  lemma LeaseMeansOut(p: Pool, l: nat)
    requires PoolInv(p) && l in p.leases
    ensures AnyOut(p.slots)
  {
    assert LeaseOwns(p, l);
    assert p.slots[p.leases[l].index].bytes > 0;
  }

  /** `configure` goes on only between leases: it refuses while any slot is out. */
  lemma OutIffLeased(p: Pool)
    requires PoolInv(p)
    ensures AnyOut(p.slots) <==> p.leases != map[]
    ensures AnyOut(p.slots) <==> exists i :: 0 <= i < |p.slots| && p.slots[i].data.None?
  {
    if p.leases != map[] {
      var l :| l in p.leases;
      LeaseMeansOut(p, l);
    }
    if i :| 0 <= i < |p.slots| && p.slots[i].data.None? {
      assert LeasedAt(p, i);
    }
  }

  lemma ConfigureOwners(p: Pool, free: set<Id>, q: Pool)
    requires PoolInv(p) && p.leases == map[] && forall i :: 0 <= i < |p.slots| ==> p.slots[i].data.Some?
    requires q == p.(slots := Retained(p.slots, free), heap := p.heap - free)
    ensures SlotsOwn(q) && LeasesOwn(q) && ExactlyOneOwner(q)
  {
    RetainedSlots(p.slots, free);
    RetainedDistinct(p.slots, free);
    forall i | 0 <= i < |q.slots|
      ensures q.slots[i].data.Some? && q.slots[i].data.value in q.heap
              && q.slots[i].bytes == q.heap[q.slots[i].data.value].capacity
    {
      assert q.slots[i] in q.slots;
    }
    forall id | id in q.heap ensures InSlot(q, id) {
      assert InSlot(p, id);
      var i :| 0 <= i < |p.slots| && p.slots[i].data == Some(id);
      assert p.slots[i] in q.slots;
    }
  }

  function Trimmed(p: Pool, free: set<Id>): Pool {
    p.(slots := Retained(p.slots, free), heap := p.heap - free)
  }

  lemma TrimmedKeeps(p: Pool, free: set<Id>)
    requires PoolInv(p) && !AnyOut(p.slots)
    ensures PoolInv(Trimmed(p, free))
  {
    OutIffLeased(p);
    ConfigureOwners(p, free, Trimmed(p, free));
    SumBytesRetained(p.slots, free);
    TrimmedBlocks(p, free);
  }

  lemma TrimmedBlocks(p: Pool, free: set<Id>)
    requires BlocksSound(p) && p.leases == map[]
    ensures BlocksSound(Trimmed(p, free))
  {
  }

  lemma ConfigureKeeps(p: Pool, free: set<Id>, buffers: nat, budget: nat)
    requires PoolInv(p)
    ensures PoolInv(PoolConfigure(p, free, buffers, budget))
  {
    if !AnyOut(p.slots) {
      TrimmedKeeps(p, free);
      var q := Trimmed(p, free);
      if |q.slots| <= buffers && SumBytes(q.slots) <= budget {
        BudgetIsNotOwnership(q, buffers, budget);
      }
    }
  }

  lemma BudgetIsNotOwnership(p: Pool, buffers: nat, budget: nat)
    requires PoolInv(p) && |p.slots| <= buffers && SumBytes(p.slots) <= budget
    ensures PoolInv(p.(buffers := buffers, budget := budget))
  {
    var q := p.(buffers := buffers, budget := budget);
    assert forall i :: LeasedAt(q, i) <==> LeasedAt(p, i);
    assert forall id :: InSlot(q, id) <==> InSlot(p, id);
    assert forall id :: InLease(q, id) <==> InLease(p, id);
    assert forall l :: l in p.leases ==> (LeaseOwns(q, l) <==> LeaseOwns(p, l));
  }

  lemma PhaseKeeps(p: Pool, lease: nat, phase: Phase)
    requires PoolInv(p) && lease in p.leases
    ensures PoolInv(SetPhase(p, lease, phase))
  {
    PhaseLeases(p, lease, phase);
    PhaseOwners(p, lease, phase);
    PhaseBlocks(p, lease, phase);
  }

  lemma PhaseBlocks(p: Pool, lease: nat, phase: Phase)
    requires BlocksSound(p) && lease in p.leases
    ensures BlocksSound(SetPhase(p, lease, phase))
  {
  }

  lemma PhaseLeases(p: Pool, lease: nat, phase: Phase)
    requires LeasesOwn(p) && lease in p.leases
    ensures LeasesOwn(SetPhase(p, lease, phase))
  {
    var q := SetPhase(p, lease, phase);
    forall l | l in q.leases
      ensures q.leases[l].index == p.leases[l].index && q.leases[l].storage == p.leases[l].storage && LeaseOwns(q, l)
    {
      assert LeaseOwns(p, l);
    }
  }

  lemma PhaseOwners(p: Pool, lease: nat, phase: Phase)
    requires ExactlyOneOwner(p) && lease in p.leases
    ensures ExactlyOneOwner(SetPhase(p, lease, phase))
  {
    var q := SetPhase(p, lease, phase);
    forall i | LeasedAt(p, i) ensures LeasedAt(q, i) {
      var l :| l in p.leases && p.leases[l].index == i;
      assert l in q.leases && q.leases[l].index == i;
    }
    forall id | InLease(p, id) ensures InLease(q, id) {
      var l :| l in p.leases && p.leases[l].storage == id;
      assert l in q.leases && q.leases[l].storage == id;
    }
    assert forall id :: InSlot(q, id) <==> InSlot(p, id);
  }

  lemma WriteLeases(p: Pool, lease: nat, at: nat, value: byte)
    requires LeasesOwn(p) && lease in p.leases
    requires p.leases[lease].storage in p.heap && at < |p.heap[p.leases[lease].storage].bytes|
    ensures LeasesOwn(WriteByte(p, lease, at, value))
  {
    var q := WriteByte(p, lease, at, value);
    forall l | l in q.leases ensures LeaseOwns(q, l) {
      assert LeaseOwns(p, l);
    }
  }

  lemma WriteOwners(p: Pool, lease: nat, at: nat, value: byte)
    requires ExactlyOneOwner(p) && lease in p.leases
    requires p.leases[lease].storage in p.heap && at < |p.heap[p.leases[lease].storage].bytes|
    ensures ExactlyOneOwner(WriteByte(p, lease, at, value))
  {
    var q := WriteByte(p, lease, at, value);
    assert forall i :: LeasedAt(q, i) <==> LeasedAt(p, i);
    assert forall id :: InSlot(q, id) <==> InSlot(p, id);
    assert forall id :: InLease(q, id) <==> InLease(p, id);
  }

  lemma WriteBlocks(p: Pool, lease: nat, at: nat, value: byte)
    requires SlotsOwn(p) && BlocksSound(p) && lease in p.leases
    requires p.leases[lease].storage in p.heap && at < |p.heap[p.leases[lease].storage].bytes|
    ensures SlotsOwn(WriteByte(p, lease, at, value)) && BlocksSound(WriteByte(p, lease, at, value))
  {
  }

  lemma WriteKeeps(p: Pool, lease: nat, at: nat, value: byte)
    requires PoolInv(p) && lease in p.leases
    requires p.leases[lease].storage in p.heap && at < |p.heap[p.leases[lease].storage].bytes|
    ensures PoolInv(WriteByte(p, lease, at, value))
  {
    hide SlotsOwn, LeasesOwn, ExactlyOneOwner, BlocksSound;
    WriteLeases(p, lease, at, value);
    WriteOwners(p, lease, at, value);
    WriteBlocks(p, lease, at, value);
  }

  // ----- Every step keeps the ownership invariant -----

  /** No step but a commit puts a frame that was not alive into circulation. */
  ghost predicate NoNewFrame(s: Hub, t: Hub) {
    forall f :: Held(t, f) ==> Held(s, f)
  }

  /** Where every frame was alive before, it is enough that its storage stays frozen. */
  lemma KeptFrames(s: Hub, t: Hub)
    requires FramesInv(s) && NoNewFrame(s, t) && forall f :: Held(s, f) ==> Frozen(t.pool, f)
    ensures FramesInv(t)
  {
    hide Held, Frozen;
  }

  lemma ShrunkFrames(s: Hub, t: Hub)
    requires FramesInv(s) && NoNewFrame(s, t) && t.pool.heap == s.pool.heap && t.pool.leases == s.pool.leases
    ensures FramesInv(t)
  {
    hide Held;
    forall f | Held(t, f) ensures Frozen(t.pool, f) {
      assert Frozen(s.pool, f);
    }
  }

  /** Sections of the pool lock hand no frame to anybody. */
  lemma PoolHolds(s: Hub, step: Step)
    requires Enabled(s, step) && (OfPool(step) || step.ChargeCommit?)
    ensures NoNewFrame(s, Apply(s, step))
  {
    hide Enabled, Apply;
    if OfPool(step) { PoolFrame(s, step); } else { ChargeFrame(s, step); }
  }

  lemma ReserveFreezes(s: Hub, step: Step, f: Frame)
    requires PoolInv(s.pool) && Frozen(s.pool, f) && Enabled(s, step) && step.Reserve? && Held(s, f)
    ensures Frozen(Apply(s, step).pool, f)
  {
    hide SlotsOwn, LeasesOwn, ExactlyOneOwner, BlocksSound, WithinBudget, PoolReserve, Unique, Held;
    ReserveTouches(s.pool, step.pick, step.session, step.kind, step.length, step.spare, step.lease);
    if step.pick.Some? { UniqueIffUnheld(s, step.pick.value); }
  }

  lemma ReserveFrames(s: Hub, step: Step)
    requires OwnershipInv(s) && Enabled(s, step) && step.Reserve?
    ensures FramesInv(Apply(s, step))
  {
    hide Enabled, Apply, PoolInv, Frozen, NoNewFrame;
    PoolHolds(s, step);
    forall f | Held(s, f) ensures Frozen(Apply(s, step).pool, f) {
      ReserveFreezes(s, step, f);
    }
    KeptFrames(s, Apply(s, step));
  }

  lemma PoolFreezes(s: Hub, step: Step, f: Frame)
    requires Frozen(s.pool, f) && Enabled(s, step) && (step.Fill? || step.DropLease?)
    ensures Frozen(Apply(s, step).pool, f)
  {
  }

  lemma WriteFrames(s: Hub, step: Step)
    requires OwnershipInv(s) && Enabled(s, step) && (step.Fill? || step.DropLease?)
    ensures FramesInv(Apply(s, step))
  {
    hide Enabled, Apply, PoolInv, Frozen, NoNewFrame;
    PoolHolds(s, step);
    forall f | Held(s, f) ensures Frozen(Apply(s, step).pool, f) {
      PoolFreezes(s, step, f);
    }
    KeptFrames(s, Apply(s, step));
  }

  /** What `configure` frees no frame holds. */
  lemma FreeIsUnheld(s: Hub, f: Frame)
    requires PoolInv(s.pool) && Held(s, f)
    ensures f.storage !in FreeIds(s)
  {
    hide PoolInv, Unique, Held;
    if f.storage in FreeIds(s) {
      var i :| 0 <= i < |s.pool.slots| && s.pool.slots[i].data == Some(f.storage) && Unique(s, f.storage);
      UniqueIffUnheld(s, i);
    }
  }

  ghost predicate HeldStorage(s: Hub, id: Id) {
    exists f :: Held(s, f) && f.storage == id
  }

  lemma FreeIffUnheld(s: Hub, id: Id)
    requires PoolInv(s.pool) && InSlot(s.pool, id)
    ensures id in FreeIds(s) <==> !HeldStorage(s, id)
  {
    hide PoolInv, Unique, Held;
    var i :| 0 <= i < |s.pool.slots| && s.pool.slots[i].data == Some(id);
    UniqueIffUnheld(s, i);
  }

  lemma ConfigureHeap(s: Hub, step: Step)
    requires Enabled(s, step) && step.Configure? && !AnyOut(s.pool.slots)
    ensures Apply(s, step).pool.heap == s.pool.heap - FreeIds(s)
  {
    hide FreeIds, Retained, AnyOut, SumBytes;
  }

  /** Unless a lease is out, `configure` frees exactly the storages that no live frame holds. */
  lemma ConfigureFreesUnheld(s: Hub, step: Step)
    requires OwnershipInv(s) && Enabled(s, step) && step.Configure? && s.pool.leases == map[]
    ensures forall id :: id in Apply(s, step).pool.heap <==> id in s.pool.heap && HeldStorage(s, id)
  {
    OutIffLeased(s.pool);
    ConfigureHeap(s, step);
    hide Enabled, Apply, SlotsOwn, LeasesOwn, BlocksSound, WithinBudget, FreeIds, HeldStorage, FramesInv, AnyOut;
    forall id | id in s.pool.heap ensures id in FreeIds(s) <==> !HeldStorage(s, id) {
      assert InSlot(s.pool, id);
      FreeIffUnheld(s, id);
    }
  }

  lemma ConfigureFreezes(s: Hub, step: Step, f: Frame)
    requires Frozen(s.pool, f) && Enabled(s, step) && step.Configure? && f.storage !in FreeIds(s)
    ensures Frozen(Apply(s, step).pool, f) && SameBytes(s.pool, Apply(s, step).pool, f)
  {
    hide FreeIds, Retained, AnyOut, SumBytes;
  }

  lemma ConfigureFrames(s: Hub, step: Step)
    requires OwnershipInv(s) && Enabled(s, step) && step.Configure?
    ensures FramesInv(Apply(s, step))
  {
    hide Enabled, Apply, PoolInv, Frozen, NoNewFrame, FreeIds;
    PoolHolds(s, step);
    forall f | Held(s, f) ensures Frozen(Apply(s, step).pool, f) {
      FreeIsUnheld(s, f);
      ConfigureFreezes(s, step, f);
    }
    KeptFrames(s, Apply(s, step));
  }

  lemma EnqueueQueues(sub: Sub, f: Frame, g: Frame)
    requires g in Enqueue(sub, f).queue
    ensures g == f || g in sub.queue
  {
  }

  lemma OfferQueues(sub: Sub, f: Frame, flags: set<nat>, g: Frame)
    requires g in Offer(sub, f, flags).queue
    ensures g == f || g in sub.queue
  {
    hide Enqueue;
    if sub.interval.Some? {
      var o := sub.(offered := sub.offered + [f.key], lastEnqueued := Some(f.capturedAt),
                    accepted := sub.accepted + [f.capturedAt]);
      if g in Enqueue(o, f).queue { EnqueueQueues(o, f, g); }
    } else {
      var o := sub.(offered := sub.offered + [f.key]);
      if g in Enqueue(o, f).queue { EnqueueQueues(o, f, g); }
    }
  }

  /** The one frame that a commit puts into circulation. */
  lemma CommitHolds(s: Hub, step: Step, g: Frame)
    requires Enabled(s, step) && step.Commit? && Held(Apply(s, step), g)
    ensures Held(s, g) || Apply(s, step).watch.latest == Some(g)
  {
    var t := Apply(s, step);
    if Queued(t.subs, g) && t != s.(pool := t.pool) {
      var i :| 0 <= i < |t.subs| && g in t.subs[i].queue;
      OfferQueues(s.subs[i], t.watch.latest.value, Seen(s.flags, step.missed, i), g);
    }
  }

  /** What is committed was being filled: no live frame has its storage. */
  lemma CommitFreezes(s: Hub, step: Step, g: Frame)
    requires OwnershipInv(s) && Enabled(s, step) && step.Commit? && Held(s, g)
    ensures g.storage != s.pool.leases[step.lease].storage && Frozen(Apply(s, step).pool, g)
  {
    hide PoolInv, Held, MapOffer, NextKey;
    assert Frozen(s.pool, g);
    FrozenThroughPhase(s.pool, Apply(s, step).pool, step.lease, Apply(s, step).pool.leases[step.lease].phase, g);
  }

  lemma CommitsFilled(s: Hub, step: Step)
    requires Enabled(s, step) && step.Commit?
    ensures s.pool.leases[step.lease].phase.Filling?
  {
  }

  lemma CommittedIsFrozen(s: Hub, step: Step, g: Frame)
    requires PoolInv(s.pool) && Enabled(s, step) && step.Commit? && Held(Apply(s, step), g) && !Held(s, g)
    ensures g.storage == s.pool.leases[step.lease].storage && Frozen(Apply(s, step).pool, g)
    ensures Apply(s, step).watch.latest == Some(g)
  {
    hide Enabled, Apply, SlotsOwn, ExactlyOneOwner, WithinBudget, MapOffer, NextKey, Queued;
    CommitHolds(s, step, g);
    CommitFrame(s, step);
    CommitsFilled(s, step);
    assert LeaseOwns(s.pool, step.lease);
  }

  lemma CommitFrames(s: Hub, step: Step)
    requires OwnershipInv(s) && Enabled(s, step) && step.Commit?
    ensures FramesInv(Apply(s, step))
  {
    hide Enabled, Apply, PoolInv, Frozen, Held, ApplyCommit;
    CommitFrame(s, step);
    var t := Apply(s, step);
    forall g | Held(t, g)
      ensures Frozen(t.pool, g)
      ensures if Held(s, g) then g.storage != s.pool.leases[step.lease].storage
              else g.storage == s.pool.leases[step.lease].storage && t.watch.latest == Some(g)
    {
      if Held(s, g) { CommitFreezes(s, step, g); } else { CommittedIsFrozen(s, step, g); }
    }
  }

  lemma FrozenThroughPhase(p: Pool, q: Pool, lease: nat, phase: Phase, f: Frame)
    requires Frozen(p, f) && lease in p.leases && !phase.Filling?
    requires q.heap == p.heap && q.leases == SetPhase(p, lease, phase).leases
    ensures Frozen(q, f)
  {
  }

  lemma ChargedFrames(s: Hub, step: Step)
    requires OwnershipInv(s) && Enabled(s, step) && step.ChargeCommit?
    ensures FramesInv(Apply(s, step))
  {
    hide Enabled, Apply, PoolInv, Frozen, NoNewFrame, Held;
    PoolHolds(s, step);
    ChargeFrame(s, step);
    forall f | Held(s, f) ensures Frozen(Apply(s, step).pool, f) {
      FrozenThroughPhase(s.pool, Apply(s, step).pool, step.lease, Finished, f);
    }
    KeptFrames(s, Apply(s, step));
  }

  /** Steps that leave slots, leases and storages alone. */
  predicate PoolIdle(step: Step) {
    !step.Reserve? && !step.Fill? && !step.Commit? && !step.ChargeCommit? && !step.DropLease? && !step.Configure?
  }

  lemma IdlePoolSame(s: Hub, step: Step)
    requires Enabled(s, step) && PoolIdle(step)
    ensures Apply(s, step).pool.(metrics := s.pool.metrics) == s.pool
  {
    hide Enabled, Apply;
    if OfReader(step) { ReaderFrame(s, step); }
    else if OfWatch(step) { WatchFrame(s, step); }
    else { CounterFrame(s, step); }
  }

  lemma ReplacedSubHolds(s: Hub, i: nat, sub: Sub, f: Frame)
    requires i < |s.subs| && Queued(s.subs[i := sub], f) && (f in sub.queue ==> f in s.subs[i].queue)
    ensures Queued(s.subs, f)
  {
    var j :| 0 <= j < |s.subs| && f in s.subs[i := sub][j].queue;
    assert f in s.subs[j].queue;
  }

  lemma ClearedHolds(s: Hub, f: Frame)
    requires Queued(MapClear(s.subs), f)
    ensures Queued(s.subs, f)
  {
    var i :| 0 <= i < |s.subs| && f in MapClear(s.subs)[i].queue;
    assert f in s.subs[i].queue;
  }

  lemma PollHolds(s: Hub, step: Step, f: Frame)
    requires Enabled(s, step) && step.Poll? && Held(Apply(s, step), f)
    ensures Held(s, f)
  {
    var sub := s.subs[step.sub];
    var t := Apply(s, step);
    PopDelivers(sub.queue, sub.last, s.watch.session);
    if Queued(t.subs, f) {
      ReplacedSubHolds(s, step.sub, PollSub(s, sub), f);
    } else if f in t.consumers.Values && f !in s.consumers.Values {
      assert f in sub.queue;
    }
  }

  lemma SubscribeHolds(s: Hub, step: Step, f: Frame)
    requires Enabled(s, step) && step.Subscribe? && Held(Apply(s, step), f)
    ensures Held(s, f)
  {
    var t := Apply(s, step);
    if Queued(t.subs, f) {
      var i :| 0 <= i < |t.subs| && f in t.subs[i].queue;
      if i < |s.subs| { assert f in s.subs[i].queue; }
    }
  }

  lemma SubMoves(s: Hub, step: Step)
    requires Enabled(s, step) && OfReceiver(step)
    ensures var t := Apply(s, step);
            && step.sub < |s.subs| == |t.subs| && t == s.(subs := s.subs[step.sub := t.subs[step.sub]])
            && (t.subs[step.sub].queue == s.subs[step.sub].queue || t.subs[step.sub].queue == [])
  {
    hide Keys;
  }

  lemma SubHolds(s: Hub, step: Step, f: Frame)
    requires Enabled(s, step) && OfReceiver(step) && Held(Apply(s, step), f)
    ensures Held(s, f)
  {
    hide Enabled, Apply;
    SubMoves(s, step);
    var t := Apply(s, step);
    if Queued(t.subs, f) {
      ReplacedSubHolds(s, step.sub, t.subs[step.sub], f);
    }
  }

  lemma ClearHolds(s: Hub, step: Step, f: Frame)
    requires Enabled(s, step) && (step.StartClear? || step.ClearQueues?) && Held(Apply(s, step), f)
    ensures Held(s, f)
  {
    if Queued(Apply(s, step).subs, f) { ClearedHolds(s, f); }
  }

  lemma IdleHolds(s: Hub, step: Step)
    requires Enabled(s, step) && PoolIdle(step)
    ensures NoNewFrame(s, Apply(s, step))
  {
    forall f | Held(Apply(s, step), f) ensures Held(s, f) {
      if step.Poll? { PollHolds(s, step, f); }
      else if step.Subscribe? { SubscribeHolds(s, step, f); }
      else if OfReceiver(step) { SubHolds(s, step, f); }
      else if step.StartClear? || step.ClearQueues? { ClearHolds(s, step, f); }
    }
  }

  lemma IdlePoolStep(s: Hub, step: Step)
    requires OwnershipInv(s) && Enabled(s, step) && PoolIdle(step)
    ensures PoolInv(Apply(s, step).pool)
  {
    IdlePoolSame(s, step);
    var m := Apply(s, step).pool.metrics;
    assert Apply(s, step).pool == s.pool.(metrics := m);
    MetricsAreNotOwnership(s.pool, m);
  }

  lemma CommitPoolStep(s: Hub, step: Step)
    requires OwnershipInv(s) && Enabled(s, step) && step.Commit?
    ensures PoolInv(Apply(s, step).pool)
  {
    var phase := Apply(s, step).pool.leases[step.lease].phase;
    assert Apply(s, step).pool == SetPhase(s.pool, step.lease, phase);
    PhaseKeeps(s.pool, step.lease, phase);
  }

  lemma ChargeCommitPool(s: Hub, lease: nat)
    requires lease in s.pool.leases
    ensures var q := SetPhase(s.pool, lease, Finished);
            ApplyChargeCommit(s, lease).pool == q.(metrics := ApplyChargeCommit(s, lease).pool.metrics)
  {
  }

  lemma ChargeCommitPoolStep(s: Hub, lease: nat)
    requires PoolInv(s.pool) && lease in s.pool.leases
    ensures PoolInv(ApplyChargeCommit(s, lease).pool)
  {
    ChargeCommitPool(s, lease);
    PhaseKeeps(s.pool, lease, Finished);
    MetricsAreNotOwnership(SetPhase(s.pool, lease, Finished), ApplyChargeCommit(s, lease).pool.metrics);
  }

  lemma BusyPoolStep(s: Hub, step: Step)
    requires OwnershipInv(s) && Enabled(s, step)
    requires step.Reserve? || step.Fill? || step.DropLease? || step.Configure?
    ensures PoolInv(Apply(s, step).pool)
  {
    match step
    case Reserve(session, kind, length, pick, spare, lease) =>
      ReserveKeeps(s.pool, pick, session, kind, length, spare, lease);
    case Fill(lease, at, value) => WriteKeeps(s.pool, lease, at, value);
    case DropLease(lease) => ReturnKeeps(s.pool, lease);
    case Configure(buffers, budget) => ConfigureKeeps(s.pool, FreeIds(s), buffers, budget);
  }

  lemma PoolStep(s: Hub, step: Step)
    requires OwnershipInv(s) && Enabled(s, step)
    ensures PoolInv(Apply(s, step).pool)
  {
    hide Enabled, Apply, PoolInv, FramesInv, ApplyChargeCommit;
    if PoolIdle(step) { IdlePoolStep(s, step); }
    else if step.Commit? { CommitPoolStep(s, step); }
    else if step.ChargeCommit? { ChargeFrame(s, step); ChargeCommitPoolStep(s, step.lease); }
    else { BusyPoolStep(s, step); }
  }

  lemma IdleFramesStep(s: Hub, step: Step)
    requires OwnershipInv(s) && Enabled(s, step) && PoolIdle(step)
    ensures FramesInv(Apply(s, step))
  {
    IdleHolds(s, step);
    IdlePoolSame(s, step);
    ShrunkFrames(s, Apply(s, step));
  }

  lemma FramesStep(s: Hub, step: Step)
    requires OwnershipInv(s) && Enabled(s, step)
    ensures FramesInv(Apply(s, step))
  {
    hide Enabled, Apply, PoolInv, FramesInv;
    if PoolIdle(step) { IdleFramesStep(s, step); }
    else if step.Reserve? { ReserveFrames(s, step); }
    else if step.Commit? { CommitFrames(s, step); }
    else if step.ChargeCommit? { ChargedFrames(s, step); }
    else if step.Configure? { ConfigureFrames(s, step); }
    else { WriteFrames(s, step); }
  }

  /** The storage of `f` is alive in both pools, with the same bytes. */
  ghost predicate SameBytes(p: Pool, q: Pool, f: Frame) {
    f.storage in p.heap && f.storage in q.heap && q.heap[f.storage].bytes == p.heap[f.storage].bytes
  }

  lemma ReserveSameBytes(s: Hub, step: Step, f: Frame)
    requires OwnershipInv(s) && Enabled(s, step) && step.Reserve? && Held(s, f)
    ensures SameBytes(s.pool, Apply(s, step).pool, f)
  {
    assert Frozen(s.pool, f);
    ReserveTouches(s.pool, step.pick, step.session, step.kind, step.length, step.spare, step.lease);
    if step.pick.Some? { UniqueIffUnheld(s, step.pick.value); }
  }

  lemma ConfigureSameBytes(s: Hub, step: Step, f: Frame)
    requires OwnershipInv(s) && Enabled(s, step) && step.Configure? && Held(s, f)
    ensures SameBytes(s.pool, Apply(s, step).pool, f)
  {
    hide Enabled, Apply, PoolInv, Frozen, Held, FreeIds, SameBytes;
    assert Frozen(s.pool, f);
    FreeIsUnheld(s, f);
    ConfigureFreezes(s, step, f);
  }

  lemma OtherSameBytes(s: Hub, step: Step, f: Frame)
    requires OwnershipInv(s) && Enabled(s, step) && Held(s, f)
    requires step.Fill? || step.Commit? || step.ChargeCommit? || step.DropLease?
    ensures SameBytes(s.pool, Apply(s, step).pool, f)
  {
    hide PoolInv, Held, MapOffer, NextKey;
    assert Frozen(s.pool, f);
  }

  lemma IdleSameBytes(s: Hub, step: Step, f: Frame)
    requires OwnershipInv(s) && Enabled(s, step) && PoolIdle(step) && Held(s, f)
    ensures SameBytes(s.pool, Apply(s, step).pool, f)
  {
    hide Enabled, Apply, PoolInv, Held;
    IdlePoolSame(s, step);
    assert Frozen(s.pool, f);
  }

  /** The bytes behind a live frame survive every step. */
  lemma BytesSurvive(s: Hub, step: Step, f: Frame)
    requires OwnershipInv(s) && Enabled(s, step) && Held(s, f)
    ensures SameBytes(s.pool, Apply(s, step).pool, f)
  {
    hide Enabled, Apply, OwnershipInv, Held, SameBytes;
    if PoolIdle(step) { IdleSameBytes(s, step, f); }
    else if step.Reserve? { ReserveSameBytes(s, step, f); }
    else if step.Configure? { ConfigureSameBytes(s, step, f); }
    else { OtherSameBytes(s, step, f); }
  }

  /** A lease that is being filled is the only owner of its storage: no frame, slot or other lease has it. */
  lemma WriterIsAlone(s: Hub, l: nat)
    requires OwnershipInv(s) && l in s.pool.leases && s.pool.leases[l].phase.Filling?
    ensures StrongCount(s, s.pool.leases[l].storage) == 1
  {
    hide SlotsOwn, LeasesOwn, ExactlyOneOwner, BlocksSound, WithinBudget, Held, SlotsWith, LeasesWith, FramesWith;
    LeaseHolders(s.pool, l);
    FramesWithIff(s, s.pool.leases[l].storage);
    forall f | Held(s, f) ensures f.storage != s.pool.leases[l].storage {
      assert Frozen(s.pool, f);
    }
  }

  // ----- Memory -----

  /** Bytes of the storages in `ids`, whoever holds them. */
  ghost function HeapBytes(heap: map<Id, Block>, ids: set<Id>): nat
    requires ids <= heap.Keys
  {
    if ids == {} then 0 else
      var id :| id in ids;
      heap[id].capacity + HeapBytes(heap, ids - {id})
  }

  lemma HeapBytesRemove(heap: map<Id, Block>, ids: set<Id>, id: Id)
    requires ids <= heap.Keys && id in ids
    ensures HeapBytes(heap, ids) == heap[id].capacity + HeapBytes(heap, ids - {id})
  {
    var x :| x in ids && HeapBytes(heap, ids) == heap[x].capacity + HeapBytes(heap, ids - {x});
    if x != id {
      HeapBytesRemove(heap, ids - {x}, id);
      HeapBytesRemove(heap, ids - {id}, x);
      assert ids - {x} - {id} == ids - {id} - {x};
    }
  }

  /** The storage that slot `i` accounts for, in the slot or with its lease. */
  ghost function HomeOf(p: Pool, i: nat): (id: Id)
    requires PoolInv(p) && i < |p.slots|
    ensures id in p.heap && p.slots[i].bytes == p.heap[id].capacity
    ensures p.slots[i].data == Some(id) || exists l :: l in p.leases && p.leases[l].index == i && p.leases[l].storage == id
  {
    if p.slots[i].data.Some? then p.slots[i].data.value else
      assert LeasedAt(p, i);
      var l :| l in p.leases && p.leases[l].index == i;
      assert LeaseOwns(p, l);
      p.leases[l].storage
  }

  lemma HomesDiffer(p: Pool, i: nat, j: nat)
    requires PoolInv(p) && i < j < |p.slots|
    ensures HomeOf(p, i) != HomeOf(p, j)
  {
  }

  ghost function Homes(p: Pool, n: nat): set<Id>
    requires PoolInv(p) && n <= |p.slots|
  {
    set i | 0 <= i < n :: HomeOf(p, i)
  }

  lemma HomesExtend(p: Pool, n: nat)
    requires PoolInv(p) && n < |p.slots|
    ensures HomeOf(p, n) !in Homes(p, n) && Homes(p, n + 1) == Homes(p, n) + {HomeOf(p, n)}
  {
    forall i | 0 <= i < n ensures HomeOf(p, i) != HomeOf(p, n) {
      HomesDiffer(p, i, n);
    }
  }

  lemma HeapBytesAdd(heap: map<Id, Block>, ids: set<Id>, id: Id, slots: seq<Slot>, n: nat)
    requires ids <= heap.Keys && id in heap && id !in ids
    requires n < |slots| && slots[n].bytes == heap[id].capacity && HeapBytes(heap, ids) == SumBytes(slots[..n])
    ensures HeapBytes(heap, ids + {id}) == SumBytes(slots[..n + 1])
  {
    HeapBytesRemove(heap, ids + {id}, id);
    assert ids + {id} - {id} == ids;
    assert slots[..n + 1] == slots[..n] + [slots[n]];
    SumBytesPush(slots[..n], slots[n]);
  }

  lemma HomesInHeap(p: Pool, n: nat)
    requires PoolInv(p) && n <= |p.slots|
    ensures Homes(p, n) <= p.heap.Keys
  {
  }

  lemma HomesBytes(p: Pool, n: nat)
    requires PoolInv(p) && n <= |p.slots|
    ensures Homes(p, n) <= p.heap.Keys && HeapBytes(p.heap, Homes(p, n)) == SumBytes(p.slots[..n])
  {
    HomesInHeap(p, n);
    if n > 0 {
      HomesBytes(p, n - 1);
      HomesExtend(p, n - 1);
      HeapBytesAdd(p.heap, Homes(p, n - 1), HomeOf(p, n - 1), p.slots, n - 1);
    }
  }

  lemma HomesAreAll(p: Pool)
    requires PoolInv(p)
    ensures Homes(p, |p.slots|) == p.heap.Keys
  {
    forall id | id in p.heap ensures id in Homes(p, |p.slots|) {
      if InSlot(p, id) {
        var i :| 0 <= i < |p.slots| && p.slots[i].data == Some(id);
        assert HomeOf(p, i) == id;
      } else {
        assert InLease(p, id);
        var l :| l in p.leases && p.leases[l].storage == id;
        assert LeaseOwns(p, l);
        assert HomeOf(p, p.leases[l].index) == id;
      }
    }
  }

  /** All storage alive anywhere, readers included, is charged to the slots and fits the budget. */
  lemma LiveBytesBounded(p: Pool)
    requires PoolInv(p)
    ensures HeapBytes(p.heap, p.heap.Keys) == SumBytes(p.slots) <= p.budget
    ensures |p.slots| <= p.buffers
  {
    HomesBytes(p, |p.slots|);
    HomesAreAll(p);
    assert p.slots[..|p.slots|] == p.slots;
  }
}
