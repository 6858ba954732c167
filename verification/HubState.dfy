/** The frame hub as a transition system. One step is one lock-protected section of `FrameHub`,
    `Lease`, `FrameReceiver` or of a consumer that clones or drops a frame. */
module HubState {
  import opened Basics

  // ----- The buffer pool -----

  /** Identity of one reference-counted storage allocation. */
  type Id = nat

  datatype Kind = Rgb(height: nat, width: nat) | Bytes

  /** What a storage allocation holds; `capacity` is what the pool accounts for it. */
  datatype Block = Block(kind: Kind, capacity: nat, bytes: seq<byte>)

  datatype Slot = Slot(data: Option<Id>, bytes: nat)

  /** A lease is writable while `Filling`; a published lease still owes its metrics charge. */
  datatype Phase = Filling | Published | Finished

  datatype Lease = Lease(index: nat, storage: Id, session: nat, length: nat, phase: Phase)

  datatype Metrics = Metrics(
    received: nat, published: nat, poolDrops: nat,
    errors: nat, consecutive: nat, maxConsecutive: nat)

  const ZeroMetrics := Metrics(0, 0, 0, 0, 0, 0)

  datatype Pool = Pool(
    slots: seq<Slot>, buffers: nat, budget: nat, heap: map<Id, Block>, leases: map<nat, Lease>,
    metrics: Metrics)

  // ----- Publication -----

  datatype Key = Key(session: nat, sequence: nat)

  datatype Frame = Frame(key: Key, storage: Id, length: nat, capturedAt: nat)

  /** The `watch` channel: its value and the version that wakes receivers. */
  datatype Watch = Watch(
    session: nat, active: bool, recovering: bool, reconnect: bool, latest: Option<Frame>, version: nat)

  // ----- Subscribers -----

  datatype Overflow = DropOldest | DropNewest

  datatype Delivery = Latest | Buffered(capacity: nat, overflow: Overflow)

  /** One subscriber with its receiver. `offered`, `returned`, `lost`, `discarded` and `accepted`
      are history variables; `since` is the length of the publication log at the first offer. */
  datatype Sub = Sub(
    queue: seq<Frame>, delivery: Delivery, interval: Option<nat>, lastEnqueued: Option<nat>,
    dropped: nat, owner: Option<nat>, alive: bool, listed: bool,
    seen: nat, last: Option<Key>, waiting: bool,
    since: nat, offered: seq<Key>, returned: seq<Key>, lost: seq<Key>, discarded: seq<Key>,
    accepted: seq<nat>)

  /** How far a call of `start` has come; it holds the pool lock until it is over. */
  datatype Starting =
    | Idle
    | Reset(session: nat)
    | Cleared(session: nat)
    | Read(session: nat, recovering: bool, reconnect: bool)

  /** A metrics charge whose state check has passed but whose pool section has not run yet. */
  datatype Pending = FrameError(activity: bool) | InputDrop

  datatype Charge = ErrorCharged | PublicationCharged | EpochBegun

  datatype Hub = Hub(
    pool: Pool, watch: Watch, subs: seq<Sub>, consumers: map<nat, Frame>, starting: Starting,
    nextSession: nat, flags: set<nat>, pending: map<nat, Pending>,
    published: seq<Key>, charges: seq<Charge>)

  // ----- Who holds a frame -----

  ghost predicate Queued(subs: seq<Sub>, f: Frame) {
    exists i :: 0 <= i < |subs| && f in subs[i].queue
  }

  /** The frame is alive: in the watch value, in a queue, or with a consumer. */
  ghost predicate Held(s: Hub, f: Frame) {
    s.watch.latest == Some(f) || Queued(s.subs, f) || f in s.consumers.Values
  }

  ghost function QueuedFrames(subs: seq<Sub>): (r: set<Frame>)
    ensures forall f :: f in r <==> Queued(subs, f)
  {
    if subs == [] then {} else
      var rest := QueuedFrames(subs[1..]);
      var r := (set f | f in subs[0].queue) + rest;
      assert forall f :: f in r <==> Queued(subs, f) by {
        forall f ensures f in r <==> Queued(subs, f) {
          if f in rest {
            var i :| 0 <= i < |subs[1..]| && f in subs[1..][i].queue;
            assert f in subs[i + 1].queue;
          }
          if Queued(subs, f) {
            var i :| 0 <= i < |subs| && f in subs[i].queue;
            if i > 0 { assert f in subs[1..][i - 1].queue; }
          }
        }
      }
      r
  }

  ghost function LiveFrames(s: Hub): (r: set<Frame>)
    ensures forall f :: f in r <==> Held(s, f)
  {
    (if s.watch.latest.Some? then {s.watch.latest.value} else {}) + QueuedFrames(s.subs) + s.consumers.Values
  }

  ghost function SlotsWith(p: Pool, id: Id): set<nat> {
    set i: nat | i < |p.slots| && p.slots[i].data == Some(id)
  }

  ghost function LeasesWith(p: Pool, id: Id): set<nat> {
    set l | l in p.leases && p.leases[l].storage == id
  }

  ghost function FramesWith(s: Hub, id: Id): set<Frame> {
    set f | f in LiveFrames(s) && f.storage == id
  }

  /** `Arc::strong_count` of a storage: one count for each slot, lease and live frame that holds it. */
  ghost function StrongCount(s: Hub, id: Id): nat {
    |SlotsWith(s.pool, id)| + |LeasesWith(s.pool, id)| + |FramesWith(s, id)|
  }

  /** `Storage::unique`: the slot that holds the storage is its only holder. */
  ghost predicate Unique(s: Hub, id: Id) {
    StrongCount(s, id) == 1
  }

  // ----- Pool sections -----

  function SumBytes(slots: seq<Slot>): nat {
    if slots == [] then 0 else SumBytes(slots[..|slots| - 1]) + slots[|slots| - 1].bytes
  }

  lemma SumBytesAtLeast(slots: seq<Slot>, i: nat)
    requires i < |slots|
    ensures slots[i].bytes <= SumBytes(slots)
  {
    if i < |slots| - 1 {
      SumBytesAtLeast(slots[..|slots| - 1], i);
    }
  }

  /** Bytes charged to every slot but one: `used - slots[index].bytes`. */
  function OtherBytes(slots: seq<Slot>, i: nat): nat
    requires i < |slots|
  {
    SumBytesAtLeast(slots, i);
    SumBytes(slots) - slots[i].bytes
  }

  function Zeros(n: nat): (r: seq<byte>) {
    seq(n, i => 0)
  }

  /** `Vec::resize(length, 0)` on the bytes. */
  function Resize(bytes: seq<byte>, length: nat): (r: seq<byte>)
    ensures |r| == length
    ensures forall i :: 0 <= i < length && i < |bytes| ==> r[i] == bytes[i]
  {
    if length <= |bytes| then bytes[..length] else bytes + Zeros(length - |bytes|)
  }

  function ChargeReceived(m: Metrics): Metrics {
    m.(received := m.received + 1)
  }

  function ChargePoolDrop(m: Metrics): Metrics {
    m.(poolDrops := m.poolDrops + 1)
  }

  function ChargeError(m: Metrics): Metrics {
    m.(errors := m.errors + 1, consecutive := m.consecutive + 1,
       maxConsecutive := Max(m.maxConsecutive, m.consecutive + 1))
  }

  function ChargePublished(m: Metrics): Metrics {
    m.(published := m.published + 1, consecutive := 0)
  }

  /** The storage a reservation ends up with: the old block when it fits, a fresh block otherwise. */
  function Reusable(p: Pool, data: Option<Id>, kind: Kind, length: nat): bool {
    data.Some? && data.value in p.heap &&
    (if kind.Bytes? then p.heap[data.value].kind.Bytes? && length <= p.heap[data.value].capacity
     else p.heap[data.value].kind == kind)
  }

  /** The part of `reserve` after the slot is chosen: budget test, reuse or allocation, lease. A fresh
      allocation has exactly the capacity asked for. */
  function ReserveAt(p: Pool, i: nat, session: nat, kind: Kind, length: nat, spare: Id, lease: nat): (r: Pool)
    requires i < |p.slots|
  {
    var slot := p.slots[i];
    var available := SatSub(p.budget, OtherBytes(p.slots, i));
    if length > available then
      p.(slots := if slot.bytes == 0 then p.slots[..|p.slots| - 1] else p.slots,
         metrics := ChargePoolDrop(p.metrics))
    else if Reusable(p, slot.data, kind, length) then
      var id := slot.data.value;
      var block := p.heap[id];
      if block.capacity > available then
        p.(slots := p.slots[i := Slot(Some(spare), 0)], heap := (p.heap - {id})[spare := Block(Bytes, 0, [])],
           metrics := ChargePoolDrop(p.metrics))
      else
      var resized := if kind.Bytes? then block.(bytes := Resize(block.bytes, length)) else block;
      p.(slots := p.slots[i := Slot(None, block.capacity)],
         heap := p.heap[id := resized],
         leases := p.leases[lease := Lease(i, id, session, length, Filling)])
    else
      var freed := if slot.data.Some? then p.heap - {slot.data.value} else p.heap;
      p.(slots := p.slots[i := Slot(None, length)],
         heap := freed[spare := Block(kind, length, Zeros(length))],
         leases := p.leases[lease := Lease(i, spare, session, length, Filling)])
  }

  /** The pool section of `reserve`. `pick` is the first unique slot, when there is one. */
  function PoolReserve(p: Pool, pick: Option<nat>, session: nat, kind: Kind, length: nat, spare: Id, lease: nat): (r: Pool)
    requires pick.Some? ==> pick.value < |p.slots|
  {
    var q := p.(metrics := ChargeReceived(p.metrics));
    if pick.Some? then ReserveAt(q, pick.value, session, kind, length, spare, lease)
    else if |q.slots| < q.buffers then
      ReserveAt(q.(slots := q.slots + [Slot(None, 0)]), |q.slots|, session, kind, length, spare, lease)
    else q.(metrics := ChargePoolDrop(q.metrics))
  }

  /** Ids of the slots' storages that `configure` frees. */
  ghost function FreeIds(s: Hub): set<Id> {
    set i | 0 <= i < |s.pool.slots| && s.pool.slots[i].data.Some? && Unique(s, s.pool.slots[i].data.value)
      :: s.pool.slots[i].data.value
  }

  /** `retain_mut`: keeps the slots whose storage is out or still shared, in order. */
  function Retained(slots: seq<Slot>, free: set<Id>): (r: seq<Slot>) {
    if slots == [] then [] else
      var rest := Retained(slots[..|slots| - 1], free);
      var slot := slots[|slots| - 1];
      if slot.data.Some? && slot.data.value in free then rest else rest + [slot]
  }

  /** A slot whose storage is out on a lease: "conversion is still finishing". */
  predicate AnyOut(slots: seq<Slot>) {
    exists i :: 0 <= i < |slots| && slots[i].data.None? && slots[i].bytes > 0
  }

  /** The pool section of `configure`; the retained slots stay even when the new budget is refused. */
  function PoolConfigure(p: Pool, free: set<Id>, buffers: nat, budget: nat): Pool {
    if AnyOut(p.slots) then p
    else
      var q := p.(slots := Retained(p.slots, free), heap := p.heap - free);
      if |q.slots| > buffers || SumBytes(q.slots) > budget then q
      else q.(buffers := buffers, budget := budget)
  }

  /** `Lease::drop`: the storage goes back to its slot. */
  function PoolReturn(p: Pool, lease: nat): Pool
    requires lease in p.leases && p.leases[lease].index < |p.slots|
  {
    var l := p.leases[lease];
    p.(slots := p.slots[l.index := p.slots[l.index].(data := Some(l.storage))], leases := p.leases - {lease})
  }

  function SetPhase(p: Pool, lease: nat, phase: Phase): Pool
    requires lease in p.leases
  {
    p.(leases := p.leases[lease := p.leases[lease].(phase := phase)])
  }

  function WriteByte(p: Pool, lease: nat, at: nat, value: byte): Pool
    requires lease in p.leases && p.leases[lease].storage in p.heap
    requires at < |p.heap[p.leases[lease].storage].bytes|
  {
    var id := p.leases[lease].storage;
    var block := p.heap[id];
    p.(heap := p.heap[id := block.(bytes := block.bytes[at := value])])
  }

  // ----- Subscriber sections -----

  function Keys(queue: seq<Frame>): (r: seq<Key>)
    ensures |r| == |queue|
    ensures forall i :: 0 <= i < |queue| ==> r[i] == queue[i].key
  {
    seq(|queue|, i requires 0 <= i < |queue| => queue[i].key)
  }

  function ClearQueue(sub: Sub): Sub {
    sub.(queue := [], discarded := sub.discarded + Keys(sub.queue))
  }

  /** One round of the `retain` loop of `clear_queues`. */
  function ClearListed(sub: Sub): Sub {
    if !sub.listed then sub else if !sub.alive then sub.(listed := false) else ClearQueue(sub)
  }

  predicate RateAllows(sub: Sub, capturedAt: nat) {
    sub.interval.None? || sub.lastEnqueued.None?
    || SatSub(capturedAt, sub.lastEnqueued.value) >= sub.interval.value
  }

  /** Drops the oldest `n` frames to make room for `f`. */
  function Push(sub: Sub, n: nat, f: Frame): Sub
    requires n <= |sub.queue|
  {
    sub.(dropped := sub.dropped + n, lost := sub.lost + Keys(sub.queue[..n]), queue := sub.queue[n..] + [f])
  }

  /** The delivery policy applied to a frame that the rate limit lets through. */
  function Enqueue(sub: Sub, f: Frame): Sub {
    match sub.delivery
    case Latest => Push(sub, |sub.queue|, f)
    case Buffered(capacity, overflow) =>
      if |sub.queue| < capacity then Push(sub, 0, f)
      else if overflow.DropNewest? then sub.(dropped := sub.dropped + 1, lost := sub.lost + [f.key])
      else if sub.queue == [] then sub.(dropped := sub.dropped + 1, queue := [f])
      else Push(sub, 1, f)
  }

  /** One round of the `retain` loop of `finish_publish`. */
  function Offer(sub: Sub, f: Frame, flags: set<nat>): Sub {
    if !sub.listed then sub
    else if !sub.alive then sub.(listed := false)
    else if sub.owner.Some? && sub.owner.value in flags then ClearQueue(sub).(listed := false)
    else
      var o := sub.(offered := sub.offered + [f.key]);
      if !RateAllows(sub, f.capturedAt) then o.(dropped := o.dropped + 1, lost := o.lost + [f.key])
      else if sub.interval.Some? then
        Enqueue(o.(lastEnqueued := Some(f.capturedAt), accepted := o.accepted + [f.capturedAt]), f)
      else Enqueue(o, f)
  }

  function MapClear(subs: seq<Sub>): (r: seq<Sub>)
    ensures |r| == |subs| && forall i :: 0 <= i < |subs| ==> r[i] == ClearListed(subs[i])
  {
    seq(|subs|, i requires 0 <= i < |subs| => ClearListed(subs[i]))
  }

  /** The stop flags that a publication finds up when it comes to subscriber `i`. */
  function Seen(flags: set<nat>, missed: seq<set<nat>>, i: nat): set<nat> {
    if i < |missed| then flags - missed[i] else flags
  }

  function MapOffer(subs: seq<Sub>, f: Frame, flags: set<nat>, missed: seq<set<nat>>): (r: seq<Sub>)
    ensures |r| == |subs| && forall i :: 0 <= i < |subs| ==> r[i] == Offer(subs[i], f, Seen(flags, missed, i))
  {
    seq(|subs|, i requires 0 <= i < |subs| => Offer(subs[i], f, Seen(flags, missed, i)))
  }

  datatype Popped = Popped(frame: Option<Frame>, rest: seq<Frame>, skipped: seq<Key>)

  predicate Deliverable(f: Frame, last: Option<Key>, session: nat) {
    Some(f.key) != last && f.key.session == session
  }

  /** The pop loop of `next`. */
  function Pop(queue: seq<Frame>, last: Option<Key>, session: nat): Popped {
    if queue == [] then Popped(None, [], [])
    else if Deliverable(queue[0], last, session) then Popped(Some(queue[0]), queue[1..], [])
    else
      var p := Pop(queue[1..], last, session);
      p.(skipped := [queue[0].key] + p.skipped)
  }

  lemma PopDelivers(queue: seq<Frame>, last: Option<Key>, session: nat)
    ensures var f := Pop(queue, last, session).frame;
            && (f.Some? ==> f.value in queue && Deliverable(f.value, last, session))
            && (f.None? ==> forall g :: g in queue ==> !Deliverable(g, last, session))
    ensures forall g :: g in Pop(queue, last, session).rest ==> g in queue
  {
  }

  /** The test at the head of `next`: no further frame can come. */
  predicate Ended(watch: Watch, flags: set<nat>, owner: Option<nat>) {
    (owner.Some? && owner.value in flags) || (!watch.active && !watch.recovering && !watch.reconnect)
  }

  predicate Terminal(s: Hub, sub: Sub) {
    Ended(s.watch, s.flags, sub.owner)
  }

  /** The critical section of `next` for one subscriber; `waiting` means that it went to sleep. */
  function PollSub(s: Hub, sub: Sub): Sub {
    PollAt(s.watch, s.flags, sub)
  }

  /** The pop loop of `next` with what it does to the receiver. */
  function TakeFrom(sub: Sub, session: nat): Sub {
    var p := Pop(sub.queue, sub.last, session);
    var q := sub.(queue := p.rest, discarded := sub.discarded + p.skipped);
    if p.frame.None? then q
    else q.(last := Some(p.frame.value.key), returned := sub.returned + [p.frame.value.key])
  }

  function PollAt(watch: Watch, flags: set<nat>, sub: Sub): Sub {
    var o := sub.(seen := watch.version);
    if Ended(watch, flags, sub.owner) then o.(waiting := false)
    else TakeFrom(o, watch.session).(waiting := Pop(sub.queue, sub.last, watch.session).frame.None?)
  }

  function NewSub(s: Hub, delivery: Delivery, interval: Option<nat>, seen: nat): Sub {
    var latest := s.watch.latest;
    var queue := if latest.Some? then [latest.value] else [];
    Sub(queue, delivery, interval, if latest.Some? then Some(latest.value.capturedAt) else None,
        0, None, true, true, seen, None, false,
        SatSub(|s.published|, |queue|), Keys(queue), [], [], [],
        if latest.Some? then [latest.value.capturedAt] else [])
  }

  // ----- Steps -----

  /** A commit comes to one subscriber after the other; `missed` holds, for each, the stop flags that were raised too
      late for it to see. `EmptyQueue` and `Own` are the two actions of `with_stop_flag`. */
  datatype Step =
    | Reserve(session: nat, kind: Kind, length: nat, pick: Option<nat>, spare: Id, lease: nat)
    | Fill(lease: nat, at: nat, value: byte)
    | Commit(lease: nat, capturedAt: nat, missed: seq<set<nat>>)
    | ChargeCommit(lease: nat)
    | DropLease(lease: nat)
    | Configure(buffers: nat, budget: nat)
    | StartReset
    | StartClear
    | StartRead
    | StartSend
    | ClearQueues
    | StopSend
    | SetRecovery(recovering: bool, reconnect: bool)
    | OtherHubStarts
    | Subscribe(delivery: Delivery, interval: Option<nat>, seen: nat)
    | EmptyQueue(sub: nat)
    | Own(sub: nat, flag: nat)
    | RaiseFlag(flag: nat)
    | Poll(sub: nat, handle: nat)
    | Seed(sub: nat, last: Option<Key>)
    | CancelNext(sub: nat)
    | DropReceiver(sub: nat)
    | TakeLatest(handle: nat)
    | CloneFrame(handle: nat, copy: nat)
    | DropFrame(handle: nat)
    | CheckError(token: nat, session: nat, activity: bool)
    | CheckInputDrop(token: nat, session: nat)
    | ChargePending(token: nat)

  predicate KindFits(kind: Kind, length: nat) {
    0 < length && (kind.Rgb? ==> kind.height * kind.width * 3 == length)
  }

  ghost predicate PickIsRight(s: Hub, pick: Option<nat>) {
    match pick
    case Some(i) => i < |s.pool.slots| && s.pool.slots[i].data.Some? && Unique(s, s.pool.slots[i].data.value)
    case None =>
      forall i :: 0 <= i < |s.pool.slots| && s.pool.slots[i].data.Some? ==> !Unique(s, s.pool.slots[i].data.value)
  }

  /** When a step can be taken. Sections of the pool lock wait for a running `start`. */
  ghost predicate Enabled(s: Hub, step: Step) {
    match step
    case Reserve(session, kind, length, pick, spare, lease) =>
      && s.starting.Idle? && s.watch.active && s.watch.session == session
      && KindFits(kind, length) && PickIsRight(s, pick)
      && spare !in s.pool.heap && lease !in s.pool.leases
    case Fill(lease, at, _) =>
      && lease in s.pool.leases && s.pool.leases[lease].phase.Filling?
      && s.pool.leases[lease].storage in s.pool.heap
      && at < |s.pool.heap[s.pool.leases[lease].storage].bytes|
    case Commit(lease, _, _) => lease in s.pool.leases && s.pool.leases[lease].phase.Filling?
    case ChargeCommit(lease) =>
      s.starting.Idle? && lease in s.pool.leases && s.pool.leases[lease].phase.Published?
    case DropLease(lease) =>
      && s.starting.Idle? && lease in s.pool.leases && !s.pool.leases[lease].phase.Published?
      && s.pool.leases[lease].index < |s.pool.slots|
    case Configure(_, _) => s.starting.Idle?
    case StartReset => s.starting.Idle?
    case StartClear => s.starting.Reset?
    case StartRead => s.starting.Cleared?
    case StartSend => s.starting.Read?
    case Subscribe(delivery, interval, seen) =>
      && seen <= s.watch.version && (delivery.Buffered? ==> delivery.capacity > 0)
      && (interval.Some? ==> interval.value > 0)
    case EmptyQueue(sub) => sub < |s.subs| && s.subs[sub].alive && s.subs[sub].owner.None?
    case Own(sub, _) => sub < |s.subs| && s.subs[sub].alive && s.subs[sub].owner.None?
    case Poll(sub, handle) =>
      && sub < |s.subs| && s.subs[sub].alive && handle !in s.consumers
      && (s.subs[sub].waiting ==> s.subs[sub].seen != s.watch.version)
    case Seed(sub, _) => sub < |s.subs| && s.subs[sub].alive && !s.subs[sub].waiting && s.subs[sub].returned == []
    case CancelNext(sub) => sub < |s.subs| && s.subs[sub].alive && s.subs[sub].waiting
    case DropReceiver(sub) => sub < |s.subs| && s.subs[sub].alive
    case TakeLatest(handle) => handle !in s.consumers && s.watch.latest.Some?
    case CloneFrame(handle, copy) => handle in s.consumers && copy !in s.consumers
    case DropFrame(handle) => handle in s.consumers
    case CheckError(token, session, _) =>
      token !in s.pending && s.watch.active && s.watch.session == session
    case CheckInputDrop(token, session) => token !in s.pending && s.watch.session == session
    case ChargePending(token) => s.starting.Idle? && token in s.pending
    case _ => true
  }

  function Bumped(w: Watch): Watch {
    w.(version := w.version + 1)
  }

  function NextKey(w: Watch): Key {
    Key(w.session, if w.latest.Some? then w.latest.value.key.sequence + 1 else 1)
  }

  ghost function ApplyCommit(s: Hub, lease: nat, capturedAt: nat, missed: seq<set<nat>>): Hub
    requires lease in s.pool.leases
  {
    var l := s.pool.leases[lease];
    if !s.watch.active || s.watch.session != l.session then s.(pool := SetPhase(s.pool, lease, Finished))
    else
      var f := Frame(NextKey(s.watch), l.storage, l.length, capturedAt);
      s.(pool := SetPhase(s.pool, lease, Published), watch := Bumped(s.watch.(latest := Some(f))),
         subs := MapOffer(s.subs, f, s.flags, missed), published := s.published + [f.key])
  }

  ghost function ApplyChargeCommit(s: Hub, lease: nat): Hub
    requires lease in s.pool.leases
  {
    var p := SetPhase(s.pool, lease, Finished);
    if s.watch.session != s.pool.leases[lease].session then s.(pool := p)
    else s.(pool := p.(metrics := ChargePublished(p.metrics)), charges := s.charges + [PublicationCharged])
  }

  ghost function ApplyChargePending(s: Hub, token: nat): Hub
    requires token in s.pending
  {
    var m := s.pool.metrics;
    match s.pending[token]
    case FrameError(activity) =>
      var charged := ChargeError(if activity then ChargeReceived(m) else m);
      s.(pending := s.pending - {token}, pool := s.pool.(metrics := charged), charges := s.charges + [ErrorCharged])
    case InputDrop =>
      s.(pending := s.pending - {token}, pool := s.pool.(metrics := ChargePoolDrop(ChargeReceived(m))))
  }

  ghost function ApplyPoll(s: Hub, i: nat, handle: nat): Hub
    requires i < |s.subs|
  {
    var sub := s.subs[i];
    var frame := Pop(sub.queue, sub.last, s.watch.session).frame;
    s.(subs := s.subs[i := PollSub(s, sub)],
       consumers := if !Terminal(s, sub) && frame.Some? then s.consumers[handle := frame.value] else s.consumers)
  }

  ghost function Apply(s: Hub, step: Step): Hub
    requires Enabled(s, step)
  {
    match step
    case Reserve(session, kind, length, pick, spare, lease) =>
      s.(pool := PoolReserve(s.pool, pick, session, kind, length, spare, lease))
    case Fill(lease, at, value) => s.(pool := WriteByte(s.pool, lease, at, value))
    case Commit(lease, capturedAt, missed) => ApplyCommit(s, lease, capturedAt, missed)
    case ChargeCommit(lease) => ApplyChargeCommit(s, lease)
    case DropLease(lease) => s.(pool := PoolReturn(s.pool, lease))
    case Configure(buffers, budget) => s.(pool := PoolConfigure(s.pool, FreeIds(s), buffers, budget))
    case StartReset =>
      s.(pool := s.pool.(metrics := ZeroMetrics), starting := Reset(s.nextSession),
         nextSession := s.nextSession + 1, charges := s.charges + [EpochBegun])
    case StartClear => s.(starting := Cleared(s.starting.session), subs := MapClear(s.subs))
    case StartRead => s.(starting := Read(s.starting.session, s.watch.recovering, s.watch.reconnect))
    case StartSend =>
      s.(starting := Idle,
         watch := Watch(s.starting.session, true, s.starting.recovering, s.starting.reconnect, None, s.watch.version + 1))
    case ClearQueues => s.(subs := MapClear(s.subs))
    case StopSend => s.(watch := Bumped(s.watch.(active := false, latest := None)))
    case SetRecovery(recovering, reconnect) =>
      s.(watch := Bumped(s.watch.(recovering := recovering, reconnect := reconnect)))
    case OtherHubStarts => s.(nextSession := s.nextSession + 1)
    case Subscribe(delivery, interval, seen) => s.(subs := s.subs + [NewSub(s, delivery, interval, seen)])
    case EmptyQueue(sub) => s.(subs := s.subs[sub := ClearQueue(s.subs[sub])])
    case Own(sub, flag) => s.(subs := s.subs[sub := s.subs[sub].(owner := Some(flag))])
    case RaiseFlag(flag) => s.(flags := s.flags + {flag})
    case Poll(sub, handle) => ApplyPoll(s, sub, handle)
    case Seed(sub, last) => s.(subs := s.subs[sub := s.subs[sub].(last := last)])
    case CancelNext(sub) => s.(subs := s.subs[sub := s.subs[sub].(waiting := false)])
    case DropReceiver(sub) => s.(subs := s.subs[sub := ClearQueue(s.subs[sub]).(alive := false, waiting := false)])
    case TakeLatest(handle) => s.(consumers := s.consumers[handle := s.watch.latest.value])
    case CloneFrame(handle, copy) => s.(consumers := s.consumers[copy := s.consumers[handle]])
    case DropFrame(handle) => s.(consumers := s.consumers - {handle})
    case CheckError(token, session, activity) => s.(pending := s.pending[token := FrameError(activity)])
    case CheckInputDrop(token, session) => s.(pending := s.pending[token := InputDrop])
    case ChargePending(token) => ApplyChargePending(s, token)
  }

  // ----- What each group of sections leaves alone -----

  /** Sections of one receiver besides `next`. */
  predicate OfReceiver(step: Step) {
    step.EmptyQueue? || step.Own? || step.Seed? || step.CancelNext? || step.DropReceiver?
  }

  /** Sections of a receiver or a reader. */
  predicate OfReader(step: Step) {
    || OfReceiver(step) || step.Subscribe? || step.Poll?
    || step.TakeLatest? || step.CloneFrame? || step.DropFrame?
  }

  lemma ReaderFrame(s: Hub, step: Step)
    requires Enabled(s, step) && OfReader(step)
    ensures var t := Apply(s, step); t == s.(subs := t.subs, consumers := t.consumers)
  {
    hide NewSub, ClearQueue, PollSub, Pop;
  }

  /** Sections of the pool lock that neither publish nor charge. */
  predicate OfPool(step: Step) {
    step.Reserve? || step.Fill? || step.DropLease? || step.Configure?
  }

  lemma PoolFrame(s: Hub, step: Step)
    requires Enabled(s, step) && OfPool(step)
    ensures var t := Apply(s, step); t == s.(pool := t.pool)
    ensures !step.Reserve? ==> Apply(s, step).pool.metrics == s.pool.metrics
  {
    hide PoolReserve, Retained, SumBytes, AnyOut, PickIsRight, FreeIds;
  }

  /** Sections that only move a `start` on, replace the watch value, or empty the queues. */
  predicate OfWatch(step: Step) {
    step.StartClear? || step.StartRead? || step.StartSend? || step.ClearQueues? || step.StopSend? || step.SetRecovery?
  }

  lemma WatchFrame(s: Hub, step: Step)
    requires Enabled(s, step) && OfWatch(step)
    ensures var t := Apply(s, step); t == s.(watch := t.watch, starting := t.starting, subs := t.subs)
    ensures Apply(s, step).subs == if step.StartClear? || step.ClearQueues? then MapClear(s.subs) else s.subs
    ensures var w := Apply(s, step).watch;
            w.version == s.watch.version + if step.StartSend? || step.StopSend? || step.SetRecovery? then 1 else 0
    ensures step.StartClear? || step.StartRead? || step.ClearQueues? ==> Apply(s, step).watch == s.watch
  {
    hide MapClear;
  }

  /** Sections of which each changes one thing of its own: a metrics charge or its check, a counter, a flag. */
  predicate OfCounter(step: Step) {
    || step.StartReset? || step.OtherHubStarts? || step.RaiseFlag? || step.CheckError? || step.CheckInputDrop?
    || step.ChargePending?
  }

  lemma CounterFrame(s: Hub, step: Step)
    requires Enabled(s, step) && OfCounter(step)
    ensures var t := Apply(s, step);
            && t.watch == s.watch && t.subs == s.subs && t.consumers == s.consumers && t.published == s.published
            && t.pool.(metrics := s.pool.metrics) == s.pool
            && (!step.StartReset? ==> t.starting == s.starting)
            && s.flags <= t.flags && s.nextSession <= t.nextSession
            && (!step.StartReset? && !step.ChargePending? ==> t.pool == s.pool && t.charges == s.charges)
  {
  }

  lemma CommitFrame(s: Hub, step: Step)
    requires Enabled(s, step) && step.Commit?
    ensures step.lease in s.pool.leases && Apply(s, step) == ApplyCommit(s, step.lease, step.capturedAt, step.missed)
    ensures var t := Apply(s, step);
            && t == s.(pool := t.pool, watch := t.watch, subs := t.subs, published := t.published)
            && (t.published == s.published || (s.watch.active && t.published == s.published + [NextKey(s.watch)]))
            && t.pool == s.pool.(leases := t.pool.leases)
            && t.watch == s.watch.(latest := t.watch.latest, version := t.watch.version)
  {
    hide MapOffer, NextKey;
  }

  lemma ChargeFrame(s: Hub, step: Step)
    requires Enabled(s, step) && step.ChargeCommit?
    ensures step.lease in s.pool.leases && Apply(s, step) == ApplyChargeCommit(s, step.lease)
    ensures var t := Apply(s, step);
            t == s.(pool := s.pool.(leases := t.pool.leases, metrics := t.pool.metrics), charges := t.charges)
  {
  }

  lemma PendingFrame(s: Hub, step: Step)
    requires Enabled(s, step) && step.ChargePending?
    ensures s.starting.Idle? && step.token in s.pending && Apply(s, step) == ApplyChargePending(s, step.token)
  {
    hide ApplyChargePending;
  }

  /** The session changes only by a section of `start` or `stop`. */
  lemma SessionFrame(s: Hub, step: Step)
    requires Enabled(s, step) && !OfWatch(step) && !step.StartReset?
    ensures var t := Apply(s, step);
            && t.watch.session == s.watch.session && t.watch.active == s.watch.active && t.starting == s.starting
            && s.nextSession <= t.nextSession
  {
    hide Enabled, Apply;
    if step.Commit? { CommitFrame(s, step); }
    else if step.ChargeCommit? { ChargeFrame(s, step); }
    else if OfReader(step) { ReaderFrame(s, step); }
    else if OfPool(step) { PoolFrame(s, step); }
    else { CounterFrame(s, step); }
  }

  ghost predicate Init(s: Hub) {
    && s.pool == Pool([], s.pool.buffers, s.pool.budget, map[], map[], ZeroMetrics)
    && s.watch == Watch(0, false, false, false, None, 0)
    && s.subs == [] && s.consumers == map[] && s.starting.Idle? && s.nextSession > 0
    && s.flags == {} && s.pending == map[] && s.published == [] && s.charges == []
  }

  /** A finite run of the hub: every interleaving of its sections is one. */
  ghost predicate IsRun(run: seq<Hub>, steps: seq<Step>) {
    && |run| == |steps| + 1
    && Init(run[0])
    && forall k :: 0 <= k < |steps| ==> Enabled(run[k], steps[k]) && run[k + 1] == Apply(run[k], steps[k])
  }

  /** The steps lead from `s` to `t`, each enabled when it is taken. */
  ghost predicate Leads(s: Hub, steps: seq<Step>, t: Hub)
    decreases |steps|
  {
    if steps == [] then s == t
    else Enabled(s, steps[0]) && Leads(Apply(s, steps[0]), steps[1..], t)
  }

  lemma LeadsOne(s: Hub, step: Step)
    requires Enabled(s, step)
    ensures Leads(s, [step], Apply(s, step))
  {
  }

  lemma LeadsMore(s: Hub, steps: seq<Step>, t: Hub, step: Step)
    requires Leads(s, steps, t) && Enabled(t, step)
    ensures Leads(s, steps + [step], Apply(t, step))
    decreases |steps|
  {
    hide Enabled, Apply;
    if steps == [] {
      assert [] + [step] == [step];
    } else {
      LeadsMore(Apply(s, steps[0]), steps[1..], t, step);
      assert (steps + [step])[1..] == steps[1..] + [step];
    }
  }

  lemma {:induction false} LeadsOn(s: Hub, a: seq<Step>, t: Hub, b: seq<Step>, u: Hub)
    requires Leads(s, a, t) && Leads(t, b, u)
    ensures Leads(s, a + b, u)
    decreases |a|
  {
    hide Enabled, Apply;
    if a == [] {
      assert [] + b == b;
    } else {
      LeadsOn(Apply(s, a[0]), a[1..], t, b, u);
      assert (a + b)[1..] == a[1..] + b;
    }
  }

  lemma CheckApplies(s: Hub, token: nat, session: nat, activity: bool)
    requires token !in s.pending && s.watch.active && s.watch.session == session
    ensures Enabled(s, CheckError(token, session, activity))
    ensures Apply(s, CheckError(token, session, activity)) == s.(pending := s.pending[token := FrameError(activity)])
  {
  }

  lemma ChargeApplies(s: Hub, token: nat)
    requires s.starting.Idle? && token in s.pending
    ensures Enabled(s, ChargePending(token)) && Apply(s, ChargePending(token)) == ApplyChargePending(s, token)
  {
    hide ApplyChargePending;
  }

  const START: seq<Step> := [StartReset, StartClear, StartRead, StartSend]

  /** The whole of `start`, without interference. */
  ghost function Started(s: Hub): Hub {
    s.(pool := s.pool.(metrics := ZeroMetrics), nextSession := s.nextSession + 1, subs := MapClear(s.subs),
       charges := s.charges + [EpochBegun],
       watch := Watch(s.nextSession, true, s.watch.recovering, s.watch.reconnect, None, s.watch.version + 1))
  }

  /** `start` up to its read of the recovery flags. */
  lemma StartClears(s: Hub)
    requires s.starting.Idle?
    ensures Leads(s, [StartReset, StartClear], StartCleared(s))
  {
    LeadsOne(s, StartReset);
    LeadsMore(s, [StartReset], Apply(s, StartReset), StartClear);
    assert [StartReset] + [StartClear] == [StartReset, StartClear];
    hide MapClear, Leads;
  }

  ghost function StartCleared(s: Hub): Hub {
    s.(pool := s.pool.(metrics := ZeroMetrics), nextSession := s.nextSession + 1, subs := MapClear(s.subs),
       charges := s.charges + [EpochBegun], starting := Cleared(s.nextSession))
  }

  lemma StartSends(s: Hub)
    requires s.starting.Cleared?
    ensures Leads(s, [StartRead, StartSend],
                  s.(starting := Idle, watch := Watch(s.starting.session, true, s.watch.recovering, s.watch.reconnect,
                                                      None, s.watch.version + 1)))
  {
    LeadsOne(s, StartRead);
    LeadsMore(s, [StartRead], Apply(s, StartRead), StartSend);
    assert [StartRead] + [StartSend] == [StartRead, StartSend];
    hide Leads;
  }

  lemma StartIsARun(s: Hub)
    requires s.starting.Idle?
    ensures Leads(s, START, Started(s))
  {
    hide MapClear, Leads;
    StartClears(s);
    StartSends(StartCleared(s));
    LeadsOn(s, [StartReset, StartClear], StartCleared(s), [StartRead, StartSend], Started(s));
    assert [StartReset, StartClear] + [StartRead, StartSend] == START;
  }

  const STOP: seq<Step> := [ClearQueues, StopSend]

  /** The whole of `stop`, without interference. */
  ghost function Stopped(s: Hub): Hub {
    s.(subs := MapClear(s.subs), watch := Bumped(s.watch.(active := false, latest := None)))
  }

  lemma StopIsARun(s: Hub)
    ensures Leads(s, STOP, Stopped(s))
  {
    hide MapClear;
    LeadsOne(s, ClearQueues);
    LeadsMore(s, [ClearQueues], Apply(s, ClearQueues), StopSend);
    assert [ClearQueues] + [StopSend] == STOP;
  }
}
