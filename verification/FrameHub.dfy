/** The hub as the mutable object it is. Each method is proved to take the hub from its old view to
    the view that the transition system reaches by that method's sections. */
module FrameHubs {
  import opened Basics
  import opened HubState
  import opened HubOwnership
  import F = Format

  const MAX_FRAME_BYTES: nat := 128 * 1024 * 1024

  // ----- A subscriber and its receiver -----

  class Subscriber {
    var queue: seq<Frame>
    const delivery: Delivery
    const interval: Option<nat>
    var dropped: nat
    var lastEnqueued: Option<nat>
    var owner: Option<nat>
    /** Whether the receiver still exists, that is, whether the hub's weak reference upgrades. */
    var alive: bool
    var seen: nat
    var last: Option<Key>
    var waiting: bool
    ghost var listed: bool
    ghost var since: nat
    ghost var offered: seq<Key>
    ghost var returned: seq<Key>
    ghost var lost: seq<Key>
    ghost var discarded: seq<Key>
    ghost var accepted: seq<nat>

    ghost function View(): Sub
      reads this
    {
      Sub(queue, delivery, interval, lastEnqueued, dropped, owner, alive, listed, seen, last, waiting,
          since, offered, returned, lost, discarded, accepted)
    }

    constructor (delivery: Delivery, interval: Option<nat>, seen: nat, latest: Option<Frame>, ghost logged: nat)
      ensures View() == Sub(if latest.Some? then [latest.value] else [], delivery, interval,
                            if latest.Some? then Some(latest.value.capturedAt) else None,
                            0, None, true, true, seen, None, false,
                            SatSub(logged, if latest.Some? then 1 else 0),
                            Keys(if latest.Some? then [latest.value] else []), [], [], [],
                            if latest.Some? then [latest.value.capturedAt] else [])
    {
      this.delivery, this.interval, this.seen := delivery, interval, seen;
      dropped, owner, alive, last, waiting := 0, None, true, None, false;
      queue, lastEnqueued := [], None;
      listed, returned, lost, discarded := true, [], [], [];
      since, offered, accepted := SatSub(logged, if latest.Some? then 1 else 0), [], [];
      if latest.Some? {
        lastEnqueued := Some(latest.value.capturedAt);
        queue := [latest.value];
        offered, accepted := Keys([latest.value]), [latest.value.capturedAt];
      }
    }

    /** `queue.clear()`. */
    method Clear()
      modifies this
      ensures View() == ClearQueue(old(View()))
    {
      discarded := discarded + Keys(queue);
      queue := [];
    }

    /** Applies the delivery policy under the queue lock. */
    method Accept(f: Frame)
      modifies this
      ensures View() == Enqueue(old(View()), f)
      ensures listed == old(listed)
      ensures delivery.Latest? ==> queue == [f] && dropped == old(dropped) + |old(queue)|
      ensures delivery.Buffered? && |old(queue)| < delivery.capacity ==> queue == old(queue) + [f] && dropped == old(dropped)
      ensures delivery.Buffered? && |old(queue)| >= delivery.capacity ==> dropped == old(dropped) + 1
      ensures delivery.Buffered? && |old(queue)| >= delivery.capacity && delivery.overflow.DropNewest? ==> queue == old(queue)
      ensures delivery.Buffered? && |old(queue)| >= delivery.capacity > 0 && delivery.overflow.DropOldest? ==>
                queue == old(queue)[1..] + [f]
    {
      match delivery
      case Latest =>
        assert queue[..|queue|] == queue && queue[|queue|..] == [];
        dropped, lost := dropped + |queue|, lost + Keys(queue);
        queue := [];
        queue := queue + [f];
      case Buffered(capacity, overflow) =>
        if |queue| >= capacity {
          dropped := dropped + 1;
          if overflow == DropNewest {
            lost := lost + [f.key];
            return;
          }
          if queue != [] {
            assert Keys(queue[..1]) == [queue[0].key];
            lost := lost + [queue[0].key];
            queue := queue[1..];
          }
        }
        assert queue[0..] == queue && queue[..0] == [];
        queue := queue + [f];
    }

    /** One round of the `retain` loop of `finish_publish`; `keep` is what the closure returns. */
    method Receive(f: Frame, flags: set<nat>) returns (keep: bool)
      requires listed
      modifies this
      ensures View() == Offer(old(View()), f, flags) && keep == listed
      ensures keep == (old(alive) && !(old(owner).Some? && old(owner).value in flags))
      ensures !keep && old(alive) ==> queue == []
    {
      hide Enqueue, Keys;
      if !alive {
        listed := false;
        return false;
      }
      if owner.Some? && owner.value in flags {
        Clear();
        listed := false;
        return false;
      }
      offered := offered + [f.key];
      if interval.Some? {
        if lastEnqueued.Some? && SatSub(f.capturedAt, lastEnqueued.value) < interval.value {
          dropped := dropped + 1;
          lost := lost + [f.key];
          return true;
        }
        lastEnqueued := Some(f.capturedAt);
        accepted := accepted + [f.capturedAt];
      }
      Accept(f);
      keep := true;
    }

    /** The pop loop of `next`, under the queue lock. */
    method TakeNext(session: nat) returns (r: Option<Frame>)
      modifies this`queue, this`discarded, this`last, this`returned
      ensures r == Pop(old(queue), old(last), session).frame
      ensures View() == TakeFrom(old(View()), session)
      ensures r.Some? ==> r.value in old(queue) && Some(r.value.key) != old(last) && r.value.key.session == session
      ensures r.Some? ==> last == Some(r.value.key)
      ensures r.None? ==> queue == [] && last == old(last)
      ensures r.None? ==> forall g :: g in old(queue) ==> Some(g.key) == old(last) || g.key.session != session
    {
      ghost var skipped: seq<Key> := [];
      assert Prepended([], Pop(queue, last, session)) == Pop(queue, last, session);
      while queue != []
        invariant discarded == old(discarded) + skipped && last == old(last) && returned == old(returned)
        invariant Pop(old(queue), last, session) == Prepended(skipped, Pop(queue, last, session))
        invariant forall g :: g in queue ==> g in old(queue)
        invariant forall g :: g in old(queue) ==> g in queue || Some(g.key) == last || g.key.session != session
        decreases |queue|
      {
        var f := queue[0];
        PopOne(queue, last, session, skipped);
        queue := queue[1..];
        if Some(f.key) != last && f.key.session == session {
          last := Some(f.key);
          returned := returned + [f.key];
          return Some(f);
        }
        skipped := skipped + [f.key];
        discarded := discarded + [f.key];
      }
      r := None;
    }

    /** The critical section of `next`, on the watch value that it has borrowed. */
    method Poll(watch: Watch, flags: set<nat>) returns (r: Result<Option<Frame>>)
      modifies this`queue, this`discarded, this`last, this`returned, this`seen, this`waiting
      ensures View() == PollAt(watch, flags, old(View()))
      ensures r.Err? <==> (old(owner).Some? && old(owner).value in flags)
                          || (!watch.active && !watch.recovering && !watch.reconnect)
      ensures r.Ok? && r.value.Some? ==> Some(r.value.value.key) != old(last) && last == Some(r.value.value.key)
      ensures r.Ok? && r.value.None? ==> waiting && seen == watch.version
      ensures r.Ok? && r.value.None? ==> forall g :: g in old(queue) ==> Some(g.key) == old(last) || g.key.session != watch.session
      ensures r.Ok? ==> r.value == Pop(old(queue), old(last), watch.session).frame
      ensures r.Ok? && r.value.Some? ==> r.value.value.key.session == watch.session
    {
      hide Pop, TakeFrom;
      seen := watch.version;
      if (owner.Some? && owner.value in flags) || (!watch.active && !watch.recovering && !watch.reconnect) {
        waiting := false;
        return Err(StreamStopped);
      }
      var f := TakeNext(watch.session);
      waiting := f.None?;
      r := Ok(f);
    }
  }

  function Prepended(skipped: seq<Key>, p: Popped): Popped {
    p.(skipped := skipped + p.skipped)
  }

  /** One round of the pop loop. */
  lemma PopOne(queue: seq<Frame>, last: Option<Key>, session: nat, skipped: seq<Key>)
    requires queue != []
    ensures Prepended(skipped, Pop(queue, last, session)) ==
            if Deliverable(queue[0], last, session) then Popped(Some(queue[0]), queue[1..], skipped)
            else Prepended(skipped + [queue[0].key], Pop(queue[1..], last, session))
  {
    assert skipped + [] == skipped;
    if !Deliverable(queue[0], last, session) {
      var rest := Pop(queue[1..], last, session).skipped;
      assert skipped + ([queue[0].key] + rest) == (skipped + [queue[0].key]) + rest;
    }
  }

  ghost function Views(subs: seq<Subscriber>): (r: seq<Sub>)
    reads subs
    ensures |r| == |subs| && forall i :: 0 <= i < |subs| ==> r[i] == subs[i].View()
  {
    seq(|subs|, i requires 0 <= i < |subs| reads subs => subs[i].View())
  }

  // ----- The hub -----

  /** The reference counters are right: for each storage in a slot, the number of its holders. */
  ghost predicate CountsExact(s: Hub, counts: map<Id, nat>) {
    forall i :: 0 <= i < |s.pool.slots| && s.pool.slots[i].data.Some? ==>
      && s.pool.slots[i].data.value in counts
      && counts[s.pool.slots[i].data.value] == StrongCount(s, s.pool.slots[i].data.value)
  }

  predicate Counted(slots: seq<Slot>, counts: map<Id, nat>, i: nat)
    requires i < |slots|
  {
    slots[i].data.Some? && slots[i].data.value in counts && counts[slots[i].data.value] == 1
  }

  lemma CountedIffUnique(s: Hub, counts: map<Id, nat>, i: nat)
    requires CountsExact(s, counts) && i < |s.pool.slots|
    ensures Counted(s.pool.slots, counts, i) <==> s.pool.slots[i].data.Some? && Unique(s, s.pool.slots[i].data.value)
  {
  }

  /** The storages that the counters show to be held by their slot alone. */
  ghost function FreedBy(slots: seq<Slot>, counts: map<Id, nat>): set<Id> {
    set i | 0 <= i < |slots| && Counted(slots, counts, i) :: slots[i].data.value
  }

  lemma FreedOne(slots: seq<Slot>, counts: map<Id, nat>, i: nat)
    requires i < |slots|
    ensures FreedBy(slots[..i + 1], counts)
            == FreedBy(slots[..i], counts) + if Counted(slots, counts, i) then {slots[i].data.value} else {}
    ensures Counted(slots, counts, i) <==> slots[i].data.Some? && slots[i].data.value in FreedBy(slots, counts)
  {
    var shorter, longer := FreedBy(slots[..i], counts), FreedBy(slots[..i + 1], counts);
    forall id | id in shorter ensures id in longer {
      var j :| 0 <= j < i && Counted(slots[..i], counts, j) && slots[j].data.value == id;
      assert Counted(slots[..i + 1], counts, j);
    }
    forall id | id in longer && !(Counted(slots, counts, i) && id == slots[i].data.value) ensures id in shorter {
      var j :| 0 <= j <= i && Counted(slots[..i + 1], counts, j) && slots[j].data.value == id;
      assert Counted(slots[..i], counts, j);
    }
    if Counted(slots, counts, i) {
      assert Counted(slots[..i + 1], counts, i);
    }
  }

  lemma FreedIsFree(s: Hub, counts: map<Id, nat>)
    requires CountsExact(s, counts)
    ensures FreedBy(s.pool.slots, counts) == FreeIds(s)
  {
    forall i | 0 <= i < |s.pool.slots|
      ensures Counted(s.pool.slots, counts, i) <==> s.pool.slots[i].data.Some? && Unique(s, s.pool.slots[i].data.value)
    {
      CountedIffUnique(s, counts, i);
    }
  }

  /** The first slot whose storage has no other holder: the `position` scan of `reserve`. */
  method FindUnique(slots: seq<Slot>, counts: map<Id, nat>) returns (pick: Option<nat>)
    ensures pick.Some? ==> pick.value < |slots| && Counted(slots, counts, pick.value)
    ensures forall j :: 0 <= j < (if pick.Some? then pick.value else |slots|) ==> !Counted(slots, counts, j)
  {
    var i := 0;
    while i < |slots|
      invariant 0 <= i <= |slots|
      invariant forall j :: 0 <= j < i ==> !Counted(slots, counts, j)
    {
      if slots[i].data.Some? && slots[i].data.value in counts && counts[slots[i].data.value] == 1 {
        return Some(i);
      }
      i := i + 1;
    }
    pick := None;
  }

  lemma ScanPicksRight(s: Hub, counts: map<Id, nat>, pick: Option<nat>)
    requires CountsExact(s, counts)
    requires pick.Some? ==> pick.value < |s.pool.slots| && Counted(s.pool.slots, counts, pick.value)
    requires pick.None? ==> forall j :: 0 <= j < |s.pool.slots| ==> !Counted(s.pool.slots, counts, j)
    ensures PickIsRight(s, pick)
  {
    forall j | 0 <= j < |s.pool.slots|
      ensures Counted(s.pool.slots, counts, j) <==> s.pool.slots[j].data.Some? && Unique(s, s.pool.slots[j].data.value)
    {
      CountedIffUnique(s, counts, j);
    }
  }

  /** `FrameHub::frame_length`: the extent of the layout, when it is positive and within the limit. */
  function FrameLength(layout: F.FrameLayout, rgb: bool): (r: Option<nat>)
    ensures r.Some? ==> 0 < r.value <= MAX_FRAME_BYTES
    ensures r.Some? && rgb ==> layout.height * layout.width * 3 == r.value
  {
    var length := if rgb then RgbLength(layout) else Extent(layout.planes);
    if length.Some? && 0 < length.value <= MAX_FRAME_BYTES then Some(length.value) else None
  }

  function KindFor(layout: F.FrameLayout, rgb: bool): Kind {
    if rgb then Rgb(layout.height, layout.width) else Bytes
  }

  function RgbLength(layout: F.FrameLayout): (r: Option<u64>)
    ensures r.Some? ==> layout.height * layout.width * 3 == r.value
  {
    var pixels := F.CheckedMul(layout.width, layout.height);
    if pixels.None? then None else F.CheckedMul(pixels.value, 3)
  }

  /** The largest plane end that fits the machine, if there is a plane. */
  function Extent(planes: seq<F.PlaneLayout>): Option<u64> {
    if planes == [] then None else
      var rest := Extent(planes[1..]);
      var end := F.CheckedAdd(planes[0].offset, planes[0].length);
      if end.None? then rest else if rest.None? || rest.value < end.value then end else rest
  }

  /** The largest of the plane ends that fit the machine. */
  ghost predicate IsExtent(planes: seq<F.PlaneLayout>, m: int) {
    && (exists i :: 0 <= i < |planes| && planes[i].offset + planes[i].length == m < U64_LIMIT)
    && (forall i :: 0 <= i < |planes| && planes[i].offset + planes[i].length < U64_LIMIT ==> planes[i].offset + planes[i].length <= m)
  }

  lemma {:induction false} ExtentIsLargest(planes: seq<F.PlaneLayout>)
    ensures Extent(planes).Some? ==> IsExtent(planes, Extent(planes).value)
    ensures Extent(planes).None? ==> forall i :: 0 <= i < |planes| ==> planes[i].offset + planes[i].length >= U64_LIMIT
  {
    if planes != [] {
      ExtentIsLargest(planes[1..]);
      var rest := Extent(planes[1..]);
      forall i | 0 < i < |planes| ensures planes[i] == planes[1..][i - 1] {
      }
      if rest.Some? {
        var i :| 0 <= i < |planes[1..]| && planes[1..][i].offset + planes[1..][i].length == rest.value;
        assert planes[i + 1].offset + planes[i + 1].length == rest.value;
      }
    }
  }

  /** A frame is as long as its pixels, three bytes each, or as the end of its last plane, up to 128 MiB. */
  lemma FrameLengthIs(layout: F.FrameLayout, rgb: bool)
    ensures rgb ==> FrameLength(layout, rgb)
                    == (var n := layout.width * layout.height * 3; if 0 < n <= 134_217_728 then Some(n) else None)
    ensures !rgb && FrameLength(layout, rgb).Some? ==> IsExtent(layout.planes, FrameLength(layout, rgb).value)
    ensures !rgb ==> forall m :: IsExtent(layout.planes, m) && 0 < m <= 134_217_728 ==> FrameLength(layout, rgb) == Some(m)
  {
    ExtentIsLargest(layout.planes);
    assert layout.width * layout.height * 3 == layout.height * layout.width * 3;
    if !rgb {
      forall m | IsExtent(layout.planes, m) && 0 < m <= 134_217_728 ensures FrameLength(layout, rgb) == Some(m) {
        if Extent(layout.planes).Some? { OneExtent(layout.planes, m, Extent(layout.planes).value); }
      }
    }
  }

  lemma OneExtent(planes: seq<F.PlaneLayout>, m: int, n: int)
    requires IsExtent(planes, m) && IsExtent(planes, n)
    ensures m == n
  {
  }

  // ----- The subscriber list -----

  /** The list that the hub locks while it publishes or clears; `everyone` also remembers who left it. */
  class SubscriberList {
    var list: seq<Subscriber>
    ghost var everyone: seq<Subscriber>

    ghost predicate Valid()
      reads this, everyone
    {
      && (forall i, j :: 0 <= i < j < |everyone| ==> everyone[i] != everyone[j])
      && (forall i, j :: 0 <= i < j < |list| ==> list[i] != list[j])
      && (forall i :: 0 <= i < |list| ==> list[i] in everyone)
      && (forall i :: 0 <= i < |everyone| ==> (everyone[i] in list <==> everyone[i].listed))
    }

    ghost function View(): seq<Sub>
      reads this, everyone
    {
      Views(everyone)
    }

    /** No listed receiver that still exists has a frame to take. */
    ghost predicate NothingQueued()
      reads this, everyone
    {
      forall s :: s in everyone && s.listed && s.alive ==> s.queue == []
    }

    constructor ()
      ensures Valid() && everyone == []
    {
      list, everyone := [], [];
    }

    /** Offers a published frame to every subscriber on the list, and prunes the list. */
    method OfferAll(f: Frame, flags: set<nat>)
      requires Valid()
      modifies this`list, everyone
      ensures Valid()
      ensures View() == MapOffer(old(View()), f, flags, [])
    {
      var kept := OfferTo(list, f, flags);
      list := kept;
    }

    /** `clear_queues`. */
    method ClearAll()
      requires Valid()
      modifies this`list, everyone
      ensures Valid() && NothingQueued()
      ensures View() == MapClear(old(View()))
    {
      var kept := ClearEach(list);
      forall s | s in everyone && s.listed && s.alive ensures s.queue == [] {
        assert s in list;
        var j :| 0 <= j < |list| && list[j] == s;
        assert s.View() == ClearListed(old(s.View()));
      }
      list := kept;
    }

    /** The critical section of `next` for one of the receivers. */
    method PollOne(ghost i: nat, receiver: Subscriber, watch: Watch, flags: set<nat>) returns (r: Result<Option<Frame>>)
      requires Valid() && i < |everyone| && everyone[i] == receiver
      modifies receiver`queue, receiver`discarded, receiver`last, receiver`returned, receiver`seen, receiver`waiting
      ensures Valid()
      ensures View() == old(View())[i := PollAt(watch, flags, old(receiver.View()))]
      ensures r.Err? <==> (receiver.owner.Some? && receiver.owner.value in flags)
                          || (!watch.active && !watch.recovering && !watch.reconnect)
      ensures r.Ok? ==> r.value == Pop(old(receiver.queue), old(receiver.last), watch.session).frame
      ensures r.Ok? && r.value.Some? ==> Some(r.value.value.key) != old(receiver.last) && r.value.value.key.session == watch.session
    {
      hide PollAt, Pop, Ended;
      r := receiver.Poll(watch, flags);
    }

    method Add(s: Subscriber)
      requires Valid() && s.listed && s !in everyone
      modifies this
      ensures Valid() && everyone == old(everyone) + [s]
      ensures View() == old(View()) + [s.View()]
    {
      list := list + [s];
      everyone := everyone + [s];
    }
  }

  class FrameHub {
    // Pool
    var slots: seq<Slot>
    var buffers: nat
    var budget: nat
    var heap: map<Id, Block>
    var leases: map<nat, Lease>
    var metrics: Metrics
    // Watch channel
    var watch: Watch
    // Subscribers, readers and the process-wide session counter
    const subscribers: SubscriberList
    var consumers: map<nat, Frame>
    var nextSession: nat
    var flags: set<nat>
    ghost var published: seq<Key>
    ghost var charges: seq<Charge>

    ghost function PoolView(): Pool
      reads this
    {
      Pool(slots, buffers, budget, heap, leases, metrics)
    }

    ghost function View(): Hub
      reads this, subscribers, subscribers.everyone
    {
      Hub(PoolView(), watch, subscribers.View(), consumers, Idle, nextSession, flags, map[], published, charges)
    }

    constructor (capacity: nat, next: nat)
      requires next > 0
      ensures subscribers.Valid() && Init(View()) && buffers == Max(capacity, 2) && budget == 201_326_592
    {
      subscribers := new SubscriberList();
      slots, buffers, budget, heap, leases := [], Max(capacity, 2), 192 * 1024 * 1024, map[], map[];
      metrics, watch := ZeroMetrics, Watch(0, false, false, false, None, 0);
      consumers, nextSession, flags := map[], next, {};
      published, charges := [], [];
    }

    /** Lends slot `i` out, or gives the frame up; the last part of `reserve`. */
    method Lend(i: nat, session': nat, kind: Kind, length: nat, spare: Id, lease: nat) returns (granted: bool)
      requires i < |slots| && spare !in heap && lease !in leases && (slots[i].data.Some? ==> slots[i].data.value in heap)
      modifies this`slots, this`heap, this`leases, this`metrics
      ensures PoolView() == ReserveAt(old(PoolView()), i, session', kind, length, spare, lease)
      ensures granted <==> lease in leases
    {
      var available := SatSub(budget, OtherBytes(slots, i));
      if length > available {
        if slots[i].bytes == 0 {
          slots := slots[..|slots| - 1];
        }
        metrics := metrics.(poolDrops := metrics.poolDrops + 1);
        return false;
      }
      var existing := slots[i].data;
      var storage, charged := spare, length;
      if existing.Some? && kind.Rgb? && heap[existing.value].kind == kind {
        storage, charged := existing.value, heap[existing.value].capacity;
      } else if existing.Some? && kind.Bytes? && heap[existing.value].kind.Bytes? && length <= heap[existing.value].capacity {
        storage, charged := existing.value, heap[existing.value].capacity;
        if charged <= available {
          heap := heap[storage := heap[storage].(bytes := Resize(heap[storage].bytes, length))];
        }
      } else {
        if existing.Some? {
          heap := heap - {existing.value};
        }
        heap := heap[spare := Block(kind, length, Zeros(length))];
      }
      if charged > available {
        heap := (heap - {storage})[spare := Block(Bytes, 0, [])];
        slots := slots[i := Slot(Some(spare), 0)];
        metrics := metrics.(poolDrops := metrics.poolDrops + 1);
        return false;
      }
      slots := slots[i := Slot(None, charged)];
      leases := leases[lease := HubState.Lease(i, storage, session', length, Filling)];
      granted := true;
    }

    /** The pool section of `reserve`, on the first unique slot. */
    method ReserveSlot(session': nat, kind: Kind, length: nat, counts: map<Id, nat>, spare: Id, lease: nat)
      returns (granted: bool, pick: Option<nat>)
      requires spare !in heap && lease !in leases
      requires forall i :: 0 <= i < |slots| && slots[i].data.Some? ==> slots[i].data.value in heap
      modifies this`slots, this`heap, this`leases, this`metrics
      ensures pick.Some? ==> pick.value < |old(slots)| && Counted(old(slots), counts, pick.value)
      ensures forall j :: 0 <= j < (if pick.Some? then pick.value else |old(slots)|) ==> !Counted(old(slots), counts, j)
      ensures PoolView() == PoolReserve(old(PoolView()), pick, session', kind, length, spare, lease)
      ensures granted <==> lease in leases
    {
      pick := FindUnique(slots, counts);
      metrics := metrics.(received := metrics.received + 1);
      var i := 0;
      if pick.Some? {
        i := pick.value;
      } else if |slots| < buffers {
        slots := slots + [Slot(None, 0)];
        i := |slots| - 1;
      } else {
        metrics := metrics.(poolDrops := metrics.poolDrops + 1);
        return false, pick;
      }
      granted := Lend(i, session', kind, length, spare, lease);
    }

    /** `reserve`: an error for an impossible layout, no lease for a dead epoch or an exhausted pool. */
    method Reserve(session': nat, layout: F.FrameLayout, rgb: bool, counts: map<Id, nat>, spare: Id, lease: nat)
      returns (r: Result<Option<nat>>, ghost pick: Option<nat>)
      requires CountsExact(View(), counts) && spare !in heap && lease !in leases
      requires forall i :: 0 <= i < |slots| && slots[i].data.Some? ==> slots[i].data.value in heap
      modifies this`slots, this`heap, this`leases, this`metrics
      ensures !(watch.active && watch.session == session') ==> r == Ok(None) && PoolView() == old(PoolView())
      ensures watch.active && watch.session == session' && FrameLength(layout, rgb).None? ==>
                r == Err(InvalidFrame) && PoolView() == old(PoolView())
      ensures watch.active && watch.session == session' && FrameLength(layout, rgb).Some? ==>
                && PickIsRight(old(View()), pick)
                && PoolView() == PoolReserve(old(PoolView()), pick, session', KindFor(layout, rgb),
                                             FrameLength(layout, rgb).value, spare, lease)
                && r == Ok(if lease in leases then Some(lease) else None)
    {
      pick := None;
      if !watch.active || watch.session != session' {
        return Ok(None), pick;
      }
      var length := FrameLength(layout, rgb);
      if length.None? {
        return Err(InvalidFrame), pick;
      }
      hide StrongCount, SubscriberList.View;
      var granted, first := ReserveSlot(session', KindFor(layout, rgb), length.value, counts, spare, lease);
      pick := first;
      ScanPicksRight(old(View()), counts, pick);
      r := Ok(if granted then Some(lease) else None);
    }

    /** `Lease::drop`. */
    method DropLease(lease: nat)
      requires lease in leases && leases[lease].index < |slots|
      modifies this`slots, this`leases
      ensures PoolView() == PoolReturn(old(PoolView()), lease)
    {
      var l := leases[lease];
      slots := slots[l.index := slots[l.index].(data := Some(l.storage))];
      leases := leases - {lease};
    }

    /** One store through `bytes_mut`. */
    method WriteOne(lease: nat, at: nat, value: byte)
      requires lease in leases && leases[lease].phase.Filling? && leases[lease].storage in heap
      requires at < |heap[leases[lease].storage].bytes|
      modifies this`heap
      ensures var block := old(heap)[leases[lease].storage];
              heap == old(heap)[leases[lease].storage := block.(bytes := block.bytes[at := value])]
      ensures Enabled(old(View()), Fill(lease, at, value)) && View() == Apply(old(View()), Fill(lease, at, value))
    {
      var id := leases[lease].storage;
      heap := heap[id := heap[id].(bytes := heap[id].bytes[at := value])];
    }

    /** The publisher fills the leased storage, byte by byte. */
    method Write(lease: nat, image: seq<byte>)
      requires lease in leases && leases[lease].phase.Filling? && leases[lease].storage in heap
      requires |heap[leases[lease].storage].bytes| == |image|
      modifies this`heap
      ensures leases[lease].storage in heap && heap[leases[lease].storage].bytes == image
      ensures Leads(old(View()), Fills(lease, image), View())
    {
      hide Leads, Apply, Enabled;
      var id := leases[lease].storage;
      var i := 0;
      assert Fills(lease, image[..0]) == [];
      LeadsNone(View());
      while i < |image|
        invariant 0 <= i <= |image| && id in heap && |heap[id].bytes| == |image|
        invariant heap[id].bytes[..i] == image[..i]
        invariant Leads(old(View()), Fills(lease, image[..i]), View())
      {
        ghost var before, bytes := View(), heap[id].bytes;
        WriteOne(lease, i, image[i]);
        assert heap[id].bytes[..i + 1] == bytes[..i] + [image[i]] == image[..i + 1];
        LeadsMore(old(View()), Fills(lease, image[..i]), before, Fill(lease, i, image[i]));
        assert Fills(lease, image[..i + 1]) == Fills(lease, image[..i]) + [Fill(lease, i, image[i])];
        i := i + 1;
      }
      assert heap[id].bytes[..|image|] == heap[id].bytes && image[..|image|] == image;
    }

    /** The `retain_mut` loop of `configure`: frees the storages that nobody else holds. */
    method Shrink(counts: map<Id, nat>)
      modifies this`slots, this`heap
      ensures slots == Retained(old(slots), FreedBy(old(slots), counts))
      ensures heap == old(heap) - FreedBy(old(slots), counts)
    {
      var kept: seq<Slot> := [];
      ghost var free := FreedBy(slots, counts);
      var i := 0;
      while i < |slots|
        invariant 0 <= i <= |slots| && slots == old(slots)
        invariant kept == Retained(slots[..i], free)
        invariant heap == old(heap) - FreedBy(slots[..i], counts)
      {
        var slot := slots[i];
        assert slots[..i + 1][..i] == slots[..i];
        FreedOne(slots, counts, i);
        if slot.data.Some? && slot.data.value in counts && counts[slot.data.value] == 1 {
          heap := heap - {slot.data.value};
        } else {
          kept := kept + [slot];
        }
        i := i + 1;
      }
      assert slots[..|slots|] == slots;
      slots := kept;
    }

    method SumOfBytes() returns (sum: nat)
      ensures sum == SumBytes(slots)
    {
      sum := 0;
      var i := 0;
      while i < |slots|
        invariant 0 <= i <= |slots| && sum == SumBytes(slots[..i])
      {
        assert slots[..i + 1][..i] == slots[..i];
        sum := sum + slots[i].bytes;
        i := i + 1;
      }
      assert slots[..|slots|] == slots;
    }

    method SomeOut() returns (out: bool)
      ensures out == AnyOut(slots)
    {
      var i := 0;
      while i < |slots|
        invariant 0 <= i <= |slots|
        invariant forall j :: 0 <= j < i ==> !(slots[j].data.None? && slots[j].bytes > 0)
      {
        if slots[i].data.None? && slots[i].bytes > 0 {
          return true;
        }
        i := i + 1;
      }
      out := false;
    }

    /** `configure`: refused while streaming, while a lease is out, or when retained frames exceed the new
        budget; in the last case the storages that nobody holds are freed all the same. */
    method Configure(buffers': nat, budget': nat, counts: map<Id, nat>) returns (r: Option<Error>)
      requires CountsExact(View(), counts)
      modifies this`slots, this`heap, this`buffers, this`budget
      ensures watch.active ==> r == Some(InvalidState) && PoolView() == old(PoolView())
      ensures !watch.active ==>
                && PoolView() == PoolConfigure(old(PoolView()), FreeIds(old(View())), buffers', budget')
                && r == (if AnyOut(old(slots)) then Some(InvalidState)
                         else if |slots| > buffers' || SumBytes(slots) > budget' then Some(InvalidConfig) else None)
      ensures r == None ==> buffers == buffers' && budget == budget' && |slots| <= buffers' && SumBytes(slots) <= budget'
      ensures r != None ==> buffers == old(buffers) && budget == old(budget)
    {
      hide FreeIds, FreedBy, Retained, SumBytes, AnyOut, SubscriberList.View;
      if watch.active {
        return Some(InvalidState);
      }
      var out := SomeOut();
      if out {
        return Some(InvalidState);
      }
      FreedIsFree(View(), counts);
      Shrink(counts);
      var sum := SumOfBytes();
      if |slots| > buffers' || sum > budget' {
        return Some(InvalidConfig);
      }
      buffers, budget := buffers', budget';
      r := None;
    }

    // ----- Publication and delivery -----

    /** Offers the frame to the subscribers and makes it the latest one. */
    method Deliver(f: Frame)
      requires subscribers.Valid()
      modifies this`watch, this`published, subscribers`list, subscribers.everyone
      ensures subscribers.Valid() && subscribers.View() == MapOffer(old(subscribers.View()), f, flags, [])
      ensures watch == Bumped(old(watch).(latest := Some(f))) && published == old(published) + [f.key]
    {
      hide MapOffer, SubscriberList.Valid, SubscriberList.View;
      subscribers.OfferAll(f, flags);
      watch := watch.(latest := Some(f), version := watch.version + 1);
      published := published + [f.key];
    }

    /** The state section of `finish_publish`: true exactly when the lease's epoch is the active one. */
    method Commit(lease: nat, capturedAt: nat) returns (published': bool)
      requires subscribers.Valid() && lease in leases && leases[lease].phase.Filling?
      modifies this`leases, this`watch, this`published, subscribers`list, subscribers.everyone
      ensures subscribers.Valid()
      ensures published' <==> old(watch).active && old(watch).session == old(leases)[lease].session
      ensures View() == ApplyCommit(old(View()), lease, capturedAt, [])
    {
      hide MapOffer, SubscriberList.Valid, SubscriberList.View;
      var l := leases[lease];
      if watch.active && watch.session == l.session {
        var sequence := if watch.latest.Some? then watch.latest.value.key.sequence + 1 else 1;
        Deliver(Frame(Key(watch.session, sequence), l.storage, l.length, capturedAt));
        leases := leases[lease := l.(phase := Published)];
        return true;
      }
      leases := leases[lease := l.(phase := Finished)];
      published' := false;
    }

    /** The pool section of `finish_publish`. */
    method ChargeCommit(lease: nat)
      requires lease in leases && leases[lease].phase.Published?
      modifies this`leases, this`metrics, this`charges
      ensures View() == ApplyChargeCommit(old(View()), lease)
    {
      var l := leases[lease];
      leases := leases[lease := l.(phase := Finished)];
      if watch.session != l.session {
        return;
      }
      metrics := metrics.(published := metrics.published + 1, consecutive := 0);
      charges := charges + [PublicationCharged];
    }

    /** `record_conversion_error`, with nothing between its check and its charge; true on the error that
        wakes the recovery loop. */
    method RecordError(session': nat, activity: bool) returns (notify: bool)
      modifies this`metrics, this`charges
      ensures !(watch.active && watch.session == session') ==>
                !notify && metrics == old(metrics) && charges == old(charges)
      ensures watch.active && watch.session == session' ==>
                && metrics == ChargeError(if activity then ChargeReceived(old(metrics)) else old(metrics))
                && charges == old(charges) + [ErrorCharged]
                && (notify <==> metrics.consecutive == 8)
    {
      if !watch.active || watch.session != session' {
        return false;
      }
      if activity {
        metrics := metrics.(received := metrics.received + 1);
      }
      metrics := metrics.(errors := metrics.errors + 1);
      metrics := metrics.(consecutive := metrics.consecutive + 1);
      metrics := metrics.(maxConsecutive := Max(metrics.maxConsecutive, metrics.consecutive));
      charges := charges + [ErrorCharged];
      notify := metrics.consecutive == 8;
    }

    /** `publish` with a lease whose conversion failed. */
    method AbandonLeased(lease: nat) returns (ghost steps: seq<Step>)
      requires OwnershipInv(View())
      requires lease in leases && leases[lease].phase.Filling? && watch.active && watch.session == leases[lease].session
      modifies this`slots, this`leases, this`metrics, this`charges
      ensures Leads(old(View()), steps, View()) && leases == old(leases) - {lease}
      ensures metrics == ChargeError(old(metrics))
    {
      hide Leads, Apply, Enabled, OwnershipInv, SubscriberList.View;
      LeasedStorage(View(), lease);
      ghost var start := View();
      var _ := RecordError(leases[lease].session, false);
      RecordIsARun(start, leases[lease].session, false);
      steps := [CheckError(0, leases[lease].session, false), HubState.ChargePending(0)];
      ghost var before := View();
      DropLease(lease);
      LeadsReturn(start, steps, before, lease);
      steps := steps + [HubState.DropLease(lease)];
    }

    /** `finish_publish`, without interference: publishes exactly when the lease's epoch is the active one. */
    method FinishPublish(lease: nat, capturedAt: nat) returns (published': bool, ghost steps: seq<Step>)
      requires subscribers.Valid() && lease in leases && leases[lease].phase.Filling?
      modifies this`leases, this`metrics, this`watch, this`published, this`charges,
               subscribers`list, subscribers.everyone
      ensures subscribers.Valid() && Leads(old(View()), steps, View())
      ensures leases == old(leases)[lease := old(leases)[lease].(phase := Finished)]
      ensures published' <==> old(watch).active && old(watch).session == old(leases)[lease].session
      ensures published' ==>
                var l := old(leases)[lease];
                Offered(old(View()), View(), Frame(NextKey(old(watch)), l.storage, l.length, capturedAt))
      ensures !published' ==> NothingOut(old(View()), View()) && metrics == old(metrics)
    {
      hide Leads, Apply, Enabled, MapOffer, SubscriberList.View, SubscriberList.Valid;
      ghost var start := View();
      LeadsNone(start);
      published' := Commit(lease, capturedAt);
      LeadsCommit(start, [], start, lease, capturedAt);
      steps := [] + [HubState.Commit(lease, capturedAt, [])];
      if published' {
        ghost var committed := View();
        ChargeCommit(lease);
        LeadsCharge(start, steps, committed, lease);
        steps := steps + [HubState.ChargeCommit(lease)];
      }
    }

    /** `publish` with a lease: convert, commit, charge, return the storage. */
    method PublishLeased(lease: nat, image: seq<byte>, capturedAt: nat) returns (ghost steps: seq<Step>)
      requires subscribers.Valid() && OwnershipInv(View())
      requires lease in leases && leases[lease].phase.Filling? && watch.active && watch.session == leases[lease].session
      requires |image| == leases[lease].length
      modifies this`slots, this`heap, this`leases, this`metrics, this`watch, this`published, this`charges,
               subscribers`list, subscribers.everyone
      ensures subscribers.Valid() && Leads(old(View()), steps, View()) && leases == old(leases) - {lease}
      ensures PublishedIn(old(View()), View(), image, capturedAt)
    {
      hide Leads, Apply, Enabled, OwnershipInv, MapOffer, SubscriberList.View, SubscriberList.Valid;
      LeasedStorage(View(), lease);
      ghost var start := View();
      Write(lease, image);
      ghost var filled := View();
      var _, finish := FinishPublish(lease, capturedAt);
      ghost var finished := View();
      steps := Fills(lease, image) + finish;
      LeadsOn(start, Fills(lease, image), filled, finish, finished);
      DropLease(lease);
      LeadsReturn(start, steps, finished, lease);
      steps := steps + [HubState.DropLease(lease)];
    }

    /** `publish`. `image` is what the conversion writes into the leased storage, or its error. */
    method Publish(session': nat, layout: F.FrameLayout, rgb: bool, image: Result<seq<byte>>, capturedAt: nat,
                   counts: map<Id, nat>, spare: Id, lease: nat)
      returns (r: Result<bool>, ghost steps: seq<Step>, ghost pick: Option<nat>)
      requires subscribers.Valid() && OwnershipInv(View()) && CountsExact(View(), counts)
      requires spare !in heap && lease !in leases
      requires image.Ok? ==> FrameLength(layout, rgb) == Some(|image.value|)
      modifies this`slots, this`heap, this`leases, this`metrics, this`watch, this`published, this`charges,
               subscribers`list, subscribers.everyone
      ensures subscribers.Valid() && Leads(old(View()), steps, View()) && leases == old(leases)
      ensures Wanted(old(View()), session', layout, rgb) ==> PickIsRight(old(View()), pick)
      ensures r == Ok(true) <==> Granted(old(View()), pick, session', layout, rgb) && image.Ok?
      ensures r.Err? <==>
                || (old(watch).active && old(watch).session == session' && FrameLength(layout, rgb).None?)
                || (Granted(old(View()), pick, session', layout, rgb) && image.Err?)
      ensures r == Ok(true) ==> PublishedIn(Received(old(View())), View(), image.value, capturedAt)
      ensures r != Ok(true) ==> NothingOut(old(View()), View())
      ensures r.Err? ==> (FrameLength(layout, rgb).None? && r.error == InvalidFrame)
                         || (image.Err? && r.error == image.error && metrics == ChargeError(ChargeReceived(old(metrics))))
    {
      hide Leads, Apply, Enabled, OwnershipInv, MapOffer, CountsExact, SubscriberList.View, SubscriberList.Valid,
           PoolReserve, PickIsRight, FrameLength, Grants;
      ghost var start := View();
      LeadsNone(start);
      steps := [];
      SlotsInHeap(start);
      var reserved, first := Reserve(session', layout, rgb, counts, spare, lease);
      pick := first;
      if !watch.active || watch.session != session' || reserved.Err? {
        r := if reserved.Err? then Err(reserved.error) else Ok(false);
        return;
      }
      ghost var kind, length := KindFor(layout, rgb), FrameLength(layout, rgb).value;
      steps := [HubState.Reserve(session', kind, length, pick, spare, lease)];
      ReserveIsAStep(start, pick, session', layout, rgb, spare, lease);
      GrantedLease(start.pool, pick, session', kind, length, spare, lease);
      ReserveGrants(start, pick, session', layout, rgb, spare, lease);
      if reserved.value.None? {
        return Ok(false), steps, pick;
      }
      ghost var given, rest := View(), [];
      if image.Err? {
        rest := AbandonLeased(lease);
        r := Err(image.error);
      } else {
        rest := PublishLeased(lease, image.value, capturedAt);
        r := Ok(true);
      }
      LeadsOn(start, steps, given, rest, View());
      steps := steps + rest;
    }

    /** `start`: a new epoch with fresh metrics and empty queues. */
    method Start() returns (epoch: nat)
      requires subscribers.Valid()
      modifies this`metrics, this`watch, this`nextSession, this`charges, subscribers`list, subscribers.everyone
      ensures subscribers.Valid() && epoch == old(nextSession) == watch.session
      ensures View() == Started(old(View())) && Leads(old(View()), START, View())
      ensures watch.active && watch.latest == None && metrics == Metrics(0, 0, 0, 0, 0, 0) && nextSession == epoch + 1
      ensures watch.recovering == old(watch).recovering && watch.reconnect == old(watch).reconnect
      ensures watch.version > old(watch).version && subscribers.NothingQueued()
    {
      hide MapClear, SubscriberList.Valid, SubscriberList.View, Leads;
      StartIsARun(View());
      metrics := ZeroMetrics;
      epoch := nextSession;
      nextSession := nextSession + 1;
      charges := charges + [EpochBegun];
      subscribers.ClearAll();
      watch := Watch(epoch, true, watch.recovering, watch.reconnect, None, watch.version + 1);
    }

    /** `stop`, after the time stamp in the pool: empties the queues and ends the epoch. */
    method Stop()
      requires subscribers.Valid()
      modifies this`watch, subscribers`list, subscribers.everyone
      ensures subscribers.Valid()
      ensures View() == Stopped(old(View())) && Leads(old(View()), STOP, View())
      ensures !watch.active && watch.latest == None && watch.session == old(watch).session
      ensures watch.recovering == old(watch).recovering && watch.reconnect == old(watch).reconnect
      ensures watch.version > old(watch).version && subscribers.NothingQueued()
    {
      hide MapClear, SubscriberList.Valid, SubscriberList.View, Leads;
      StopIsARun(View());
      subscribers.ClearAll();
      watch := watch.(active := false, latest := None, version := watch.version + 1);
    }

    /** `subscribe_with`: a buffered queue must be shorter than the pool; the rest is one section with the watch
        value. `seen` is the version that the receiver was created at. */
    method Subscribe(delivery: Delivery, interval: Option<nat>, seen: nat) returns (r: Result<Subscriber>)
      requires subscribers.Valid() && seen <= watch.version && (interval.Some? ==> 0 < interval.value)
      modifies subscribers
      ensures subscribers.Valid()
      ensures r.Err? <==> delivery.Buffered? && (delivery.capacity == 0 || delivery.capacity >= buffers)
      ensures r.Err? ==> r.error == InvalidConfig && View() == old(View())
      ensures r.Ok? ==> fresh(r.value) && subscribers.everyone == old(subscribers.everyone) + [r.value]
      ensures r.Ok? ==> View() == old(View()).(subs := old(View()).subs + [NewSub(old(View()), delivery, interval, seen)])
    {
      hide SubscriberList.Valid, SubscriberList.View;
      if delivery.Buffered? && (delivery.capacity == 0 || delivery.capacity >= buffers) {
        return Err(InvalidConfig);
      }
      var subscriber := new Subscriber(delivery, interval, seen, watch.latest, |published|);
      subscribers.Add(subscriber);
      r := Ok(subscriber);
    }

    /** The critical section of `next`: a frame, the end of the stream, or nothing yet. */
    method Next(ghost i: nat, receiver: Subscriber, handle: nat) returns (r: Result<Option<Frame>>)
      requires subscribers.Valid() && i < |subscribers.everyone| && subscribers.everyone[i] == receiver
      modifies this`consumers, receiver`queue, receiver`discarded, receiver`last, receiver`returned, receiver`seen, receiver`waiting
      ensures subscribers.Valid()
      ensures View() == ApplyPoll(old(View()), i, handle)
      ensures r.Err? <==> (old(receiver.owner).Some? && old(receiver.owner).value in flags)
                          || (!watch.active && !watch.recovering && !watch.reconnect)
      ensures r.Ok? && r.value.Some? ==> handle in consumers && consumers[handle] == r.value.value
                                         && Some(r.value.value.key) != old(receiver.last) && r.value.value.key.session == watch.session
    {
      hide PollAt, Pop, SubscriberList.Valid;
      r := subscribers.PollOne(i, receiver, watch, flags);
      if r.Ok? && r.value.Some? {
        consumers := consumers[handle := r.value.value];
      }
    }

  }

  /** The frame is numbered next in the session; it is the latest one, is offered to every subscriber, and
      is counted. */
  ghost predicate Offered(s: Hub, t: Hub, f: Frame) {
    && f.key == NextKey(s.watch)
    && t.watch == Bumped(s.watch.(latest := Some(f)))
    && t.subs == MapOffer(s.subs, f, s.flags, []) && t.consumers == s.consumers
    && t.published == s.published + [f.key]
    && t.pool.metrics == ChargePublished(s.pool.metrics)
  }

  /** One new frame was offered, and its bytes are exactly `image`. */
  ghost predicate PublishedIn(s: Hub, t: Hub, image: seq<byte>, capturedAt: nat) {
    && t.watch.latest.Some? && Offered(s, t, t.watch.latest.value)
    && var f := t.watch.latest.value;
    && f.length == |image| && f.capturedAt == capturedAt
    && f.storage in t.pool.heap && t.pool.heap[f.storage].bytes == image
  }

  ghost function Received(s: Hub): Hub {
    s.(pool := s.pool.(metrics := ChargeReceived(s.pool.metrics)))
  }

  lemma SlotsInHeap(s: Hub)
    requires OwnershipInv(s)
    ensures forall i :: 0 <= i < |s.pool.slots| && s.pool.slots[i].data.Some? ==> s.pool.slots[i].data.value in s.pool.heap
  {
  }

  lemma OwnershipStep(s: Hub, step: Step)
    requires OwnershipInv(s) && Enabled(s, step)
    ensures OwnershipInv(Apply(s, step))
  {
    hide Enabled, Apply, PoolInv, FramesInv;
    PoolStep(s, step);
    FramesStep(s, step);
  }

  lemma ReserveIsAStep(s: Hub, pick: Option<nat>, session: nat, layout: F.FrameLayout, rgb: bool, spare: Id, lease: nat)
    requires OwnershipInv(s) && s.starting.Idle? && s.watch.active && s.watch.session == session
    requires FrameLength(layout, rgb).Some? && PickIsRight(s, pick)
    requires spare !in s.pool.heap && lease !in s.pool.leases
    ensures pick.Some? ==> pick.value < |s.pool.slots|
    ensures var kind, length := KindFor(layout, rgb), FrameLength(layout, rgb).value;
            var t := s.(pool := PoolReserve(s.pool, pick, session, kind, length, spare, lease));
            OwnershipInv(t) && Leads(s, [Reserve(session, kind, length, pick, spare, lease)], t)
  {
    var step := Reserve(session, KindFor(layout, rgb), FrameLength(layout, rgb).value, pick, spare, lease);
    LeadsOne(s, step);
    OwnershipStep(s, step);
  }

  /** The session may publish a frame of this layout. */
  ghost predicate Wanted(s: Hub, session: nat, layout: F.FrameLayout, rgb: bool) {
    s.watch.active && s.watch.session == session && FrameLength(layout, rgb).Some?
  }

  /** And the budget allows it, in the storage of a slot that nobody else holds or, when all are held, in a new one. */
  ghost predicate Granted(s: Hub, pick: Option<nat>, session: nat, layout: F.FrameLayout, rgb: bool) {
    Wanted(s, session, layout, rgb) && PickIsRight(s, pick) && Grants(s.pool, pick, FrameLength(layout, rgb).value)
  }

  lemma ReserveGrants(s: Hub, pick: Option<nat>, session: nat, layout: F.FrameLayout, rgb: bool, spare: Id, lease: nat)
    requires OwnershipInv(s) && Wanted(s, session, layout, rgb) && PickIsRight(s, pick)
    requires spare !in s.pool.heap && lease !in s.pool.leases
    ensures lease in PoolReserve(s.pool, pick, session, KindFor(layout, rgb), FrameLength(layout, rgb).value, spare, lease).leases
            <==> Granted(s, pick, session, layout, rgb)
  {
    hide PoolReserve, Grants, Unique, PoolInv, FramesInv;
    GrantedIff(s.pool, pick, session, KindFor(layout, rgb), FrameLength(layout, rgb).value, spare, lease);
  }

  /** What `reserve` hands out, and what it counts. */
  lemma GrantedLease(p: Pool, pick: Option<nat>, session: nat, kind: Kind, length: nat, spare: Id, lease: nat)
    requires (pick.Some? ==> pick.value < |p.slots|) && lease !in p.leases
    ensures var q := PoolReserve(p, pick, session, kind, length, spare, lease);
            if lease !in q.leases then q.leases == p.leases else
            && q.leases == p.leases[lease := q.leases[lease]]
            && q.leases[lease].session == session && q.leases[lease].length == length && q.leases[lease].phase.Filling?
            && q.metrics == ChargeReceived(p.metrics)
  {
  }

  /** No reader can see a difference. */
  ghost predicate NothingOut(s: Hub, t: Hub) {
    t.watch == s.watch && t.subs == s.subs && t.consumers == s.consumers && t.published == s.published
  }

  lemma LeasedStorage(s: Hub, lease: nat)
    requires OwnershipInv(s) && lease in s.pool.leases
    ensures var l := s.pool.leases[lease];
            && l.index < |s.pool.slots| && l.storage in s.pool.heap && |s.pool.heap[l.storage].bytes| == l.length
  {
    assert LeaseOwns(s.pool, lease);
  }

  lemma LeadsCommit(s: Hub, steps: seq<Step>, t: Hub, lease: nat, capturedAt: nat)
    requires Leads(s, steps, t) && lease in t.pool.leases && t.pool.leases[lease].phase.Filling?
    ensures Leads(s, steps + [Commit(lease, capturedAt, [])], ApplyCommit(t, lease, capturedAt, []))
  {
    LeadsMore(s, steps, t, Commit(lease, capturedAt, []));
  }

  lemma LeadsCharge(s: Hub, steps: seq<Step>, t: Hub, lease: nat)
    requires Leads(s, steps, t) && t.starting.Idle? && lease in t.pool.leases && t.pool.leases[lease].phase.Published?
    ensures Leads(s, steps + [ChargeCommit(lease)], ApplyChargeCommit(t, lease))
  {
    LeadsMore(s, steps, t, ChargeCommit(lease));
  }

  lemma LeadsReturn(s: Hub, steps: seq<Step>, t: Hub, lease: nat)
    requires Leads(s, steps, t) && t.starting.Idle? && lease in t.pool.leases
    requires !t.pool.leases[lease].phase.Published? && t.pool.leases[lease].index < |t.pool.slots|
    ensures Leads(s, steps + [DropLease(lease)], t.(pool := PoolReturn(t.pool, lease)))
  {
    LeadsMore(s, steps, t, DropLease(lease));
  }

  /** The whole of `record_conversion_error`, without interference. */
  lemma RecordIsARun(s: Hub, session: nat, activity: bool)
    requires s.starting.Idle? && s.pending == map[] && s.watch.active && s.watch.session == session
    ensures var m := ChargeError(if activity then ChargeReceived(s.pool.metrics) else s.pool.metrics);
            Leads(s, [CheckError(0, session, activity), ChargePending(0)],
                  s.(pool := s.pool.(metrics := m), charges := s.charges + [ErrorCharged]))
  {
    hide Enabled, Apply, Leads;
    var checked := s.(pending := s.pending[0 := FrameError(activity)]);
    CheckApplies(s, 0, session, activity);
    LeadsOne(s, CheckError(0, session, activity));
    ChargeApplies(checked, 0);
    LeadsMore(s, [CheckError(0, session, activity)], checked, ChargePending(0));
    assert checked.pending - {0} == map[];
    assert [CheckError(0, session, activity)] + [ChargePending(0)]
        == [CheckError(0, session, activity), ChargePending(0)];
  }

  /** The stores that write `image` from its first byte to its last. */
  function Fills(lease: nat, image: seq<byte>): seq<Step> {
    seq(|image|, i requires 0 <= i < |image| => Fill(lease, i, image[i]))
  }

  lemma LeadsNone(s: Hub)
    ensures Leads(s, [], s)
  {
  }

  /** `kept` holds the first subscribers, each once, for which the round of the loop said to keep it. */
  ghost predicate Kept(list: seq<Subscriber>, verdicts: seq<bool>, kept: seq<Subscriber>)
    requires |verdicts| <= |list|
  {
    && (forall j :: 0 <= j < |kept| ==> kept[j] in list[..|verdicts|])
    && (forall j, k :: 0 <= j < k < |kept| ==> kept[j] != kept[k])
    && (forall j :: 0 <= j < |verdicts| ==> (verdicts[j] <==> list[j] in kept))
  }

  ghost predicate Distinct(list: seq<Subscriber>) {
    forall i, j :: 0 <= i < j < |list| ==> list[i] != list[j]
  }

  lemma KeptOne(list: seq<Subscriber>, verdicts: seq<bool>, kept: seq<Subscriber>, keep: bool)
    requires Distinct(list) && |verdicts| < |list| && Kept(list, verdicts, kept)
    ensures Kept(list, verdicts + [keep], if keep then kept + [list[|verdicts|]] else kept)
  {
    var i := |verdicts|;
    assert list[..i + 1] == list[..i] + [list[i]];
    forall j | 0 <= j < |kept| ensures kept[j] != list[i] {
      assert kept[j] in list[..i];
      var k :| 0 <= k < i && list[..i][k] == kept[j];
    }
  }

  /** `kept` holds the listed subscribers, each once. */
  ghost predicate KeptAll(list: seq<Subscriber>, kept: seq<Subscriber>)
    reads list
  {
    && (forall j :: 0 <= j < |kept| ==> kept[j] in list)
    && (forall j, k :: 0 <= j < k < |kept| ==> kept[j] != kept[k])
    && (forall j :: 0 <= j < |list| ==> (list[j].listed <==> list[j] in kept))
  }

  ghost predicate AllListed(list: seq<Subscriber>)
    reads list
  {
    Distinct(list) && (forall i :: 0 <= i < |list| ==> list[i].listed)
  }

  /** The `retain` loop of `finish_publish`. */
  method OfferTo(list: seq<Subscriber>, f: Frame, flags: set<nat>) returns (kept: seq<Subscriber>)
    requires AllListed(list)
    modifies list
    ensures KeptAll(list, kept)
    ensures forall j :: 0 <= j < |list| ==> list[j].View() == Offer(old(list[j].View()), f, flags)
  {
    hide Offer, Kept;
    kept := [];
    ghost var verdicts: seq<bool> := [];
    var i := 0;
    assert Kept(list, [], kept) by { KeptNone(list); }
    while i < |list|
      invariant 0 <= i == |verdicts| <= |list| && Kept(list, verdicts, kept)
      invariant forall j :: 0 <= j < i ==> list[j].View() == Offer(old(list[j].View()), f, flags)
      invariant forall j :: 0 <= j < i ==> list[j].listed == verdicts[j]
      invariant forall j :: i <= j < |list| ==> list[j].View() == old(list[j].View())
    {
      assert old(list[i].View()).listed;
      var keep := list[i].Receive(f, flags);
      KeptOne(list, verdicts, kept, keep);
      verdicts := verdicts + [keep];
      if keep {
        kept := kept + [list[i]];
      }
      i := i + 1;
    }
    KeptToTheEnd(list, verdicts, kept);
  }

  lemma KeptNone(list: seq<Subscriber>)
    ensures Kept(list, [], [])
  {
  }

  lemma KeptToTheEnd(list: seq<Subscriber>, verdicts: seq<bool>, kept: seq<Subscriber>)
    requires |verdicts| == |list| && Kept(list, verdicts, kept)
    requires forall j :: 0 <= j < |list| ==> list[j].listed == verdicts[j]
    ensures KeptAll(list, kept)
  {
    assert list[..|list|] == list;
  }

  /** The `retain` loop of `clear_queues`. */
  method ClearEach(list: seq<Subscriber>) returns (kept: seq<Subscriber>)
    requires AllListed(list)
    modifies list
    ensures KeptAll(list, kept)
    ensures forall j :: 0 <= j < |list| ==> list[j].View() == ClearListed(old(list[j].View()))
  {
    hide Kept;
    kept := [];
    ghost var verdicts: seq<bool> := [];
    var i := 0;
    assert Kept(list, [], kept) by { KeptNone(list); }
    while i < |list|
      invariant 0 <= i == |verdicts| <= |list| && Kept(list, verdicts, kept)
      invariant forall j :: 0 <= j < i ==> list[j].View() == ClearListed(old(list[j].View()))
      invariant forall j :: 0 <= j < i ==> list[j].listed == verdicts[j]
      invariant forall j :: i <= j < |list| ==> list[j].View() == old(list[j].View())
    {
      assert old(list[i].View()).listed;
      KeptOne(list, verdicts, kept, list[i].alive);
      verdicts := verdicts + [list[i].alive];
      if list[i].alive {
        list[i].Clear();
        kept := kept + [list[i]];
      } else {
        list[i].listed := false;
      }
      i := i + 1;
    }
    KeptToTheEnd(list, verdicts, kept);
  }
}
