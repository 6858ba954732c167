/** Delivery to one subscriber: what it is offered, in which order, what becomes of each offer, and
    why a sleeping receiver misses nothing. */
module HubDelivery {
  import opened Basics
  import opened HubState
  import opened HubEpochs

  // ----- Invariants of one subscriber -----

  ghost predicate Bounded(sub: Sub) {
    match sub.delivery
    case Latest => |sub.queue| <= 1
    case Buffered(capacity, _) => 0 < capacity && |sub.queue| <= capacity
  }

  /** Every offer was returned, counted as dropped, discarded with a cleared queue, or is still queued. */
  ghost predicate Accounted(sub: Sub) {
    && multiset(sub.offered)
       == multiset(sub.returned) + multiset(sub.lost) + multiset(sub.discarded) + multiset(Keys(sub.queue))
    && sub.dropped == |sub.lost|
  }

  ghost predicate Increasing(keys: seq<Key>) {
    forall i, j :: 0 <= i < j < |keys| ==> KeyLess(keys[i], keys[j])
  }

  /** What the receiver got, followed by what is queued for it. */
  function Chain(sub: Sub): seq<Key> {
    sub.returned + Keys(sub.queue)
  }

  ghost predicate Ordered(sub: Sub, log: seq<Key>) {
    && Increasing(Chain(sub))
    && (Chain(sub) != [] ==> log != [] && !KeyLess(log[|log| - 1], Chain(sub)[|Chain(sub)| - 1]))
  }

  /** The offers are a stretch of the publication log without a gap; up to its end while listed. */
  ghost predicate Contiguous(sub: Sub, log: seq<Key>) {
    && sub.since + |sub.offered| <= |log|
    && sub.offered == log[sub.since..sub.since + |sub.offered|]
    && (sub.listed ==> sub.since + |sub.offered| == |log|)
  }

  /** Frames that passed the rate limit were captured at least one interval apart. */
  ghost predicate Spaced(sub: Sub) {
    sub.interval.Some? ==>
      && 0 < sub.interval.value
      && (forall i :: 0 < i < |sub.accepted| ==> sub.accepted[i - 1] + sub.interval.value <= sub.accepted[i])
      && sub.lastEnqueued == if sub.accepted == [] then None else Some(sub.accepted[|sub.accepted| - 1])
  }

  /** A receiver that sleeps on the current version has nothing queued, and the stream can go on. */
  ghost predicate Awake(sub: Sub, w: Watch) {
    && sub.seen <= w.version
    && (sub.waiting && sub.seen == w.version ==> sub.queue == [] && (w.active || w.recovering || w.reconnect))
    && (!sub.alive ==> sub.queue == [])
  }

  ghost predicate QueueInv(sub: Sub, log: seq<Key>) {
    Bounded(sub) && Accounted(sub) && Ordered(sub, log) && Contiguous(sub, log) && Spaced(sub)
  }

  ghost predicate SubInv(sub: Sub, log: seq<Key>, w: Watch) {
    QueueInv(sub, log) && Awake(sub, w)
  }

  ghost predicate DeliveryInv(s: Hub) {
    forall i :: 0 <= i < |s.subs| ==> SubInv(s.subs[i], s.published, s.watch)
  }

  // ----- Sequences of keys -----

  lemma IncreasingAppend(keys: seq<Key>, key: Key)
    requires Increasing(keys) && (keys != [] ==> KeyLess(keys[|keys| - 1], key))
    ensures Increasing(keys + [key])
  {
    var all := keys + [key];
    forall i, j | 0 <= i < j < |all| ensures KeyLess(all[i], all[j]) {
      if j == |keys| && i < |keys| - 1 {
        assert KeyLess(keys[i], keys[|keys| - 1]);
      }
    }
  }

  lemma IncreasingCut(a: seq<Key>, b: seq<Key>, c: seq<Key>)
    requires Increasing(a + b + c)
    ensures Increasing(a + c)
  {
    var all := a + b + c;
    var cut := a + c;
    forall i, j | 0 <= i < j < |cut| ensures KeyLess(cut[i], cut[j]) {
      var x := if i < |a| then i else i + |b|;
      var y := if j < |a| then j else j + |b|;
      assert all[x] == cut[i] && all[y] == cut[j];
    }
  }

  lemma KeysConcat(a: seq<Frame>, b: seq<Frame>)
    ensures Keys(a + b) == Keys(a) + Keys(b)
  {
  }

  lemma KeysSplit(queue: seq<Frame>, n: nat)
    requires n <= |queue|
    ensures Keys(queue) == Keys(queue[..n]) + Keys(queue[n..])
  {
  }

  function Got(p: Popped): seq<Key> {
    if p.frame.Some? then [p.frame.value.key] else []
  }

  lemma KeysCons(queue: seq<Frame>)
    requires queue != []
    ensures Keys(queue) == [queue[0].key] + Keys(queue[1..])
  {
  }

  lemma Concat(a: seq<Key>, b: seq<Key>, c: seq<Key>, d: seq<Key>)
    ensures a + (b + c + d) == (a + b) + c + d && [] + a == a
  {
  }

  lemma {:induction false} PopSplits(queue: seq<Frame>, last: Option<Key>, session: nat)
    ensures var p := Pop(queue, last, session); Keys(queue) == p.skipped + Got(p) + Keys(p.rest)
    ensures var p := Pop(queue, last, session); |p.rest| <= |queue| && (p.frame.None? ==> p.rest == [])
  {
    if queue != [] {
      KeysCons(queue);
      var key := [queue[0].key];
      Concat(key, [], [], []);
      if !Deliverable(queue[0], last, session) {
        PopSplits(queue[1..], last, session);
        var r := Pop(queue[1..], last, session);
        Concat(key, r.skipped, Got(r), Keys(r.rest));
        hide Keys;
      } else {
        hide Keys;
      }
    }
  }

  // ----- A publication offered to one subscriber -----

  /** `Accounted` but for one offer that has not been placed yet. */
  ghost predicate Owes(sub: Sub, key: Key) {
    && multiset(sub.offered) == multiset(sub.returned) + multiset(sub.lost) + multiset(sub.discarded)
                                + multiset(Keys(sub.queue)) + multiset{key}
    && sub.dropped == |sub.lost|
  }

  lemma PushAccounted(sub: Sub, n: nat, f: Frame)
    requires n <= |sub.queue| && Owes(sub, f.key)
    ensures Accounted(Push(sub, n, f))
  {
    KeysSplit(sub.queue, n);
    KeysConcat(sub.queue[n..], [f]);
    assert Keys([f]) == [f.key];
  }

  lemma RefusalAccounted(sub: Sub, f: Frame)
    requires Owes(sub, f.key)
    ensures Accounted(sub.(dropped := sub.dropped + 1, lost := sub.lost + [f.key]))
  {
  }

  lemma EnqueueAccounted(sub: Sub, f: Frame)
    requires Bounded(sub) && Owes(sub, f.key)
    ensures Accounted(Enqueue(sub, f))
  {
    hide Accounted, Owes, Push;
    RefusalAccounted(sub, f);
    match sub.delivery
    case Latest => PushAccounted(sub, |sub.queue|, f);
    case Buffered(capacity, overflow) =>
      if |sub.queue| < capacity { PushAccounted(sub, 0, f); }
      else if overflow.DropOldest? { PushAccounted(sub, 1, f); }
  }

  lemma EnqueueBounded(sub: Sub, f: Frame)
    requires Bounded(sub)
    ensures Bounded(Enqueue(sub, f))
  {
    hide Keys;
  }

  lemma EnqueueKeeps(sub: Sub, f: Frame)
    requires Bounded(sub) && Owes(sub, f.key)
    ensures Bounded(Enqueue(sub, f)) && Accounted(Enqueue(sub, f))
  {
    hide Bounded, Accounted, Owes, Enqueue;
    EnqueueAccounted(sub, f);
    EnqueueBounded(sub, f);
  }

  function Offered(sub: Sub, f: Frame): Sub {
    sub.(offered := sub.offered + [f.key])
  }

  function Stamped(sub: Sub, f: Frame): Sub {
    Offered(sub, f).(lastEnqueued := Some(f.capturedAt), accepted := sub.accepted + [f.capturedAt])
  }

  /** What an offer can do to a subscriber. */
  lemma OfferCases(sub: Sub, f: Frame, flags: set<nat>)
    ensures Offer(sub, f, flags) == sub <==> !sub.listed
    ensures var o := Offer(sub, f, flags);
            || o == sub
            || o == sub.(listed := false)
            || o == ClearQueue(sub).(listed := false)
            || o == Offered(sub, f).(dropped := sub.dropped + 1, lost := sub.lost + [f.key])
            || o == Enqueue(Offered(sub, f), f)
            || o == Enqueue(Stamped(sub, f), f)
  {
  }

  lemma OfferedOwes(sub: Sub, f: Frame)
    requires Bounded(sub) && Accounted(sub)
    ensures Owes(Offered(sub, f), f.key) && Owes(Stamped(sub, f), f.key)
    ensures Bounded(Offered(sub, f)) && Bounded(Stamped(sub, f))
  {
  }

  lemma ClearAccounted(sub: Sub)
    requires Accounted(sub)
    ensures Accounted(ClearQueue(sub).(listed := false)) && Accounted(sub.(listed := false))
    ensures Bounded(sub) ==> Bounded(ClearQueue(sub).(listed := false)) && Bounded(sub.(listed := false))
  {
    assert Keys([]) == [];
  }

  lemma OfferAccounted(sub: Sub, f: Frame, flags: set<nat>)
    requires Bounded(sub) && Accounted(sub)
    ensures Bounded(Offer(sub, f, flags)) && Accounted(Offer(sub, f, flags))
  {
    OfferedOwes(sub, f);
    EnqueueKeeps(Offered(sub, f), f);
    EnqueueKeeps(Stamped(sub, f), f);
    RefusalAccounted(Offered(sub, f), f);
    ClearAccounted(sub);
    SameQueueBounded(sub, Offered(sub, f).(dropped := sub.dropped + 1, lost := sub.lost + [f.key]));
    hide Accounted, Owes, Enqueue, Keys, Offer, Bounded;
    OfferCases(sub, f, flags);
  }

  lemma ChainCut(sub: Sub, queue: seq<Frame>, n: nat)
    requires n <= |queue| && Increasing(sub.returned + Keys(queue))
    ensures Increasing(sub.returned + Keys(queue[n..]))
  {
    assert queue == queue[..n] + queue[n..];
    KeysConcat(queue[..n], queue[n..]);
    assert sub.returned + Keys(queue) == sub.returned + Keys(queue[..n]) + Keys(queue[n..]);
    IncreasingCut(sub.returned, Keys(queue[..n]), Keys(queue[n..]));
  }

  lemma KeptNewer(sub: Sub, n: nat, key: Key)
    requires n <= |sub.queue| && Increasing(Chain(sub)) && NewerThanChain(sub, key)
    ensures var kept := sub.returned + Keys(sub.queue[n..]);
            kept != [] ==> KeyLess(kept[|kept| - 1], key)
  {
    hide Increasing;
    var kept := sub.returned + Keys(sub.queue[n..]);
    if n < |sub.queue| {
      assert kept[|kept| - 1] == sub.queue[|sub.queue| - 1].key == Chain(sub)[|Chain(sub)| - 1];
    } else {
      assert kept == sub.returned;
      ChainPrefix(sub);
      if sub.queue == [] { assert Chain(sub) == sub.returned; }
    }
  }

  /** Dropping the oldest `n` frames and appending a newer one keeps the order. */
  lemma ChainPush(sub: Sub, n: nat, f: Frame)
    requires n <= |sub.queue| && Increasing(Chain(sub)) && NewerThanChain(sub, f.key)
    ensures Increasing(sub.returned + Keys(sub.queue[n..] + [f]))
  {
    var kept := sub.returned + Keys(sub.queue[n..]);
    ChainCut(sub, sub.queue, n);
    KeptNewer(sub, n, f.key);
    IncreasingAppend(kept, f.key);
    assert kept + [f.key] == sub.returned + Keys(sub.queue[n..] + [f]);
  }

  ghost predicate NewerThanChain(sub: Sub, key: Key) {
    Chain(sub) != [] ==> KeyLess(Chain(sub)[|Chain(sub)| - 1], key)
  }

  lemma PushOrdered(sub: Sub, n: nat, f: Frame, log: seq<Key>)
    requires n <= |sub.queue| && Increasing(Chain(sub)) && NewerThanChain(sub, f.key)
    ensures Ordered(Push(sub, n, f), log + [f.key])
  {
    ChainPush(sub, n, f);
    KeysConcat(sub.queue[n..], [f]);
  }

  lemma SameChainOrdered(sub: Sub, o: Sub, log: seq<Key>, key: Key)
    requires Increasing(Chain(sub)) && NewerThanChain(sub, key) && Chain(o) == Chain(sub)
    ensures Ordered(o, log + [key])
  {
  }

  lemma EnqueueOrdered(sub: Sub, f: Frame, log: seq<Key>)
    requires Bounded(sub) && Increasing(Chain(sub)) && NewerThanChain(sub, f.key)
    ensures Ordered(Enqueue(sub, f), log + [f.key])
  {
    match sub.delivery
    case Latest => PushOrdered(sub, |sub.queue|, f, log);
    case Buffered(capacity, overflow) =>
      if |sub.queue| < capacity { PushOrdered(sub, 0, f, log); }
      else if overflow.DropOldest? { PushOrdered(sub, 1, f, log); }
      else { SameChainOrdered(sub, Enqueue(sub, f), log, f.key); }
  }

  lemma OrderedNewer(sub: Sub, log: seq<Key>, key: Key)
    requires Ordered(sub, log) && (log != [] ==> KeyLess(log[|log| - 1], key))
    ensures NewerThanChain(sub, key)
  {
  }

  lemma SameQueueBounded(sub: Sub, o: Sub)
    requires Bounded(sub) && o.queue == sub.queue && o.delivery == sub.delivery
    ensures Bounded(o)
  {
  }

  lemma PlacedOrdered(sub: Sub, f: Frame, log: seq<Key>)
    requires Bounded(sub) && Increasing(Chain(sub)) && NewerThanChain(sub, f.key)
    ensures Ordered(Enqueue(Offered(sub, f), f), log + [f.key])
    ensures Ordered(Enqueue(Stamped(sub, f), f), log + [f.key])
  {
    hide Ordered, Increasing, Bounded, Enqueue;
    var a, b := Offered(sub, f), Stamped(sub, f);
    assert Chain(a) == Chain(sub) && Chain(b) == Chain(sub);
    SameQueueBounded(sub, a);
    SameQueueBounded(sub, b);
    EnqueueOrdered(a, f, log);
    EnqueueOrdered(b, f, log);
  }

  lemma OfferOrdered(sub: Sub, f: Frame, flags: set<nat>, log: seq<Key>)
    requires Bounded(sub) && Ordered(sub, log) && (log != [] ==> KeyLess(log[|log| - 1], f.key))
    ensures Ordered(Offer(sub, f, flags), log + [f.key])
  {
    OfferCases(sub, f, flags);
    OrderedNewer(sub, log, f.key);
    PlacedOrdered(sub, f, log);
    var o := Offer(sub, f, flags);
    if o.queue == sub.queue && o.returned == sub.returned {
      SameChainOrdered(sub, o, log, f.key);
    } else if o == ClearQueue(sub).(listed := false) {
      ClearedOrdered(sub, o, log, f.key);
    }
  }

  lemma ClearedOrdered(sub: Sub, o: Sub, log: seq<Key>, key: Key)
    requires Increasing(Chain(sub)) && NewerThanChain(sub, key) && Chain(o) == sub.returned
    ensures Ordered(o, log + [key])
  {
    ChainPrefix(sub);
    if sub.returned != [] {
      var x := sub.returned[|sub.returned| - 1];
      assert x == Chain(sub)[|sub.returned| - 1];
    }
  }

  lemma ChainPrefix(sub: Sub)
    requires Increasing(Chain(sub))
    ensures Increasing(sub.returned)
    ensures sub.returned != [] && sub.queue != [] ==> KeyLess(sub.returned[|sub.returned| - 1], Chain(sub)[|Chain(sub)| - 1])
  {
    forall i, j | 0 <= i < j < |sub.returned| ensures KeyLess(sub.returned[i], sub.returned[j]) {
      assert Chain(sub)[i] == sub.returned[i] && Chain(sub)[j] == sub.returned[j];
    }
    if sub.returned != [] && sub.queue != [] {
      assert Chain(sub)[|sub.returned| - 1] == sub.returned[|sub.returned| - 1];
    }
  }

  lemma OfferContiguous(sub: Sub, f: Frame, flags: set<nat>, log: seq<Key>)
    requires Contiguous(sub, log)
    ensures Contiguous(Offer(sub, f, flags), log + [f.key])
  {
    hide Offer, Enqueue, Keys;
    OfferCases(sub, f, flags);
    EnqueueSameOffers(Offered(sub, f), f);
    EnqueueSameOffers(Stamped(sub, f), f);
    Stretch(sub.offered, sub.since, log, f.key);
  }

  lemma EnqueueSameOffers(sub: Sub, f: Frame)
    ensures var o := Enqueue(sub, f); o.since == sub.since && o.offered == sub.offered && o.listed == sub.listed
  {
  }

  /** A stretch of the log stays one, and one that reaches the end grows with it. */
  lemma Stretch(offered: seq<Key>, since: nat, log: seq<Key>, key: Key)
    requires since + |offered| <= |log| && offered == log[since..since + |offered|]
    ensures offered == (log + [key])[since..since + |offered|]
    ensures since + |offered| == |log| ==> offered + [key] == (log + [key])[since..]
  {
  }

  lemma EnqueueSameRate(sub: Sub, f: Frame)
    ensures var o := Enqueue(sub, f);
            o.interval == sub.interval && o.accepted == sub.accepted && o.lastEnqueued == sub.lastEnqueued
  {
  }

  lemma OfferSpaced(sub: Sub, f: Frame, flags: set<nat>)
    requires Spaced(sub)
    ensures Spaced(Offer(sub, f, flags))
  {
    EnqueueSameRate(Offered(sub, f), f);
    EnqueueSameRate(Stamped(sub, f), f);
    hide Enqueue;
  }

  lemma OfferAwake(sub: Sub, f: Frame, flags: set<nat>, w: Watch, v: Watch)
    requires Awake(sub, w) && v.version == w.version + 1
    ensures Awake(Offer(sub, f, flags), v)
  {
  }

  lemma OfferKeeps(sub: Sub, f: Frame, flags: set<nat>, log: seq<Key>, w: Watch, v: Watch)
    requires SubInv(sub, log, w) && v.version == w.version + 1
    requires log != [] ==> KeyLess(log[|log| - 1], f.key)
    ensures SubInv(Offer(sub, f, flags), log + [f.key], v)
  {
    OfferAccounted(sub, f, flags);
    OfferOrdered(sub, f, flags, log);
    OfferContiguous(sub, f, flags, log);
    OfferSpaced(sub, f, flags);
    OfferAwake(sub, f, flags, w, v);
  }

  lemma NextKeyIsNewer(s: Hub)
    requires EpochInv(s) && s.watch.active && s.published != []
    ensures KeyLess(s.published[|s.published| - 1], NextKey(s.watch))
  {
  }

  lemma CommitDelivery(s: Hub, step: Step)
    requires EpochInv(s) && DeliveryInv(s) && Enabled(s, step) && step.Commit?
    ensures DeliveryInv(Apply(s, step))
  {
    var t := Apply(s, step);
    if s.watch.active && s.watch.session == s.pool.leases[step.lease].session {
      var f := t.watch.latest.value;
      if s.published != [] { NextKeyIsNewer(s); }
      forall i | 0 <= i < |t.subs| ensures SubInv(t.subs[i], t.published, t.watch) {
        OfferKeeps(s.subs[i], f, Seen(s.flags, step.missed, i), s.published, s.watch, t.watch);
      }
    }
  }

  // ----- The other sections -----

  lemma ClearQueueKeeps(sub: Sub, log: seq<Key>)
    requires QueueInv(sub, log)
    ensures QueueInv(ClearQueue(sub), log)
  {
    ClearQueueOrdered(sub, log);
    assert Keys([]) == [];
  }

  lemma ClearQueueOrdered(sub: Sub, log: seq<Key>)
    requires Ordered(sub, log)
    ensures Ordered(ClearQueue(sub), log)
  {
    ChainPrefix(sub);
    assert Chain(ClearQueue(sub)) == sub.returned;
    if sub.returned != [] { LastReturned(sub, log); }
  }

  lemma UnlistKeeps(sub: Sub, log: seq<Key>)
    requires QueueInv(sub, log)
    ensures QueueInv(sub.(listed := false), log)
  {
    assert Chain(sub.(listed := false)) == Chain(sub);
  }

  lemma ClearKeeps(sub: Sub, log: seq<Key>, w: Watch)
    requires SubInv(sub, log, w)
    ensures SubInv(ClearQueue(sub), log, w) && SubInv(ClearListed(sub), log, w)
  {
    ClearQueueKeeps(sub, log);
    UnlistKeeps(sub, log);
  }

  /** A change of the watch value that wakes every receiver. */
  lemma BumpKeeps(sub: Sub, log: seq<Key>, w: Watch, v: Watch)
    requires SubInv(sub, log, w) && v.version > w.version
    ensures SubInv(sub, log, v)
  {
  }

  lemma PollOrdered(sub: Sub, log: seq<Key>, session: nat)
    requires Ordered(sub, log)
    ensures var p := Pop(sub.queue, sub.last, session);
            Ordered(sub.(queue := p.rest, returned := sub.returned + Got(p)), log)
  {
    var p := Pop(sub.queue, sub.last, session);
    PopSplits(sub.queue, sub.last, session);
    CutOrdered(sub, p.skipped, Got(p), p.rest, log);
  }

  lemma CutOrdered(sub: Sub, skipped: seq<Key>, got: seq<Key>, rest: seq<Frame>, log: seq<Key>)
    requires Ordered(sub, log) && Keys(sub.queue) == skipped + got + Keys(rest)
    ensures Ordered(sub.(queue := rest, returned := sub.returned + got), log)
  {
    var chain := sub.returned + got + Keys(rest);
    assert Chain(sub) == sub.returned + skipped + (got + Keys(rest));
    IncreasingCut(sub.returned, skipped, got + Keys(rest));
    assert sub.returned + (got + Keys(rest)) == chain;
    ChainPrefix(sub);
    if got + Keys(rest) != [] {
      assert chain[|chain| - 1] == Chain(sub)[|Chain(sub)| - 1];
    } else if chain != [] {
      assert chain == sub.returned;
      LastReturned(sub, log);
    }
  }

  lemma LastReturned(sub: Sub, log: seq<Key>)
    requires Ordered(sub, log) && sub.returned != []
    ensures log != [] && !KeyLess(log[|log| - 1], sub.returned[|sub.returned| - 1])
  {
    ChainPrefix(sub);
    if sub.queue == [] { assert Chain(sub) == sub.returned; }
  }

  lemma PollAccounted(sub: Sub, session: nat)
    requires Accounted(sub)
    ensures var p := Pop(sub.queue, sub.last, session);
            Accounted(sub.(queue := p.rest, discarded := sub.discarded + p.skipped,
                           returned := sub.returned + Got(p)))
  {
    PopSplits(sub.queue, sub.last, session);
  }

  /** Who owns the receiver and whether it sleeps or is alive is not accounted for. */
  lemma RelabelKeeps(sub: Sub, log: seq<Key>, o: Sub)
    requires QueueInv(sub, log)
    requires o == sub.(owner := o.owner, waiting := o.waiting, alive := o.alive, seen := o.seen, last := o.last)
    ensures QueueInv(o, log)
  {
    assert Chain(o) == Chain(sub);
  }

  /** The queue after the pop loop of `next`. */
  function Taken(sub: Sub, session: nat): Sub {
    var p := Pop(sub.queue, sub.last, session);
    sub.(queue := p.rest, discarded := sub.discarded + p.skipped, returned := sub.returned + Got(p))
  }

  lemma TakenOrdered(sub: Sub, log: seq<Key>, session: nat)
    requires Ordered(sub, log)
    ensures Ordered(Taken(sub, session), log)
  {
    PollOrdered(sub, log, session);
    var p := Pop(sub.queue, sub.last, session);
    assert Chain(Taken(sub, session)) == Chain(sub.(queue := p.rest, returned := sub.returned + Got(p)));
  }

  lemma TakenKeeps(sub: Sub, log: seq<Key>, session: nat)
    requires QueueInv(sub, log)
    ensures QueueInv(Taken(sub, session), log)
  {
    TakenOrdered(sub, log, session);
    PollAccounted(sub, session);
    PopSplits(sub.queue, sub.last, session);
    TakenRest(sub, log, session);
  }

  lemma TakenRest(sub: Sub, log: seq<Key>, session: nat)
    requires Bounded(sub) && Contiguous(sub, log) && Spaced(sub)
    requires |Pop(sub.queue, sub.last, session).rest| <= |sub.queue|
    ensures Bounded(Taken(sub, session)) && Contiguous(Taken(sub, session), log) && Spaced(Taken(sub, session))
  {
  }

  lemma PollQueue(s: Hub, sub: Sub)
    requires QueueInv(sub, s.published)
    ensures QueueInv(PollSub(s, sub), s.published)
  {
    if Terminal(s, sub) {
      hide QueueInv;
      RelabelKeeps(sub, s.published, PollSub(s, sub));
    } else {
      hide QueueInv, Pop;
      TakenKeeps(sub, s.published, s.watch.session);
      var o := Taken(sub, s.watch.session);
      assert sub.returned + [] == sub.returned;
      RelabelKeeps(o, s.published, PollSub(s, sub));
    }
  }

  lemma PollAwake(s: Hub, sub: Sub)
    requires Awake(sub, s.watch) && sub.alive
    ensures Awake(PollSub(s, sub), s.watch)
  {
    PopSplits(sub.queue, sub.last, s.watch.session);
  }

  lemma NewSubAccounted(s: Hub, delivery: Delivery, interval: Option<nat>, seen: nat)
    ensures Accounted(NewSub(s, delivery, interval, seen))
  {
  }

  lemma NewSubOrdered(s: Hub, delivery: Delivery, interval: Option<nat>, seen: nat)
    requires LogInv(s)
    ensures Ordered(NewSub(s, delivery, interval, seen), s.published)
  {
    hide Numbered, Increasing;
    var o := NewSub(s, delivery, interval, seen);
    assert Chain(o) == if s.watch.latest.Some? then [s.watch.latest.value.key] else [];
    SingleOrdered(o, s.published);
  }

  lemma SingleOrdered(o: Sub, log: seq<Key>)
    requires Chain(o) == [] || (log != [] && Chain(o) == [log[|log| - 1]])
    ensures Ordered(o, log)
  {
  }

  lemma NewSubContiguous(s: Hub, delivery: Delivery, interval: Option<nat>, seen: nat)
    requires LogInv(s)
    ensures Contiguous(NewSub(s, delivery, interval, seen), s.published)
  {
    hide Numbered;
  }

  lemma NewSubKeeps(s: Hub, delivery: Delivery, interval: Option<nat>, seen: nat)
    requires LogInv(s) && seen <= s.watch.version
    requires (delivery.Buffered? ==> delivery.capacity > 0) && (interval.Some? ==> interval.value > 0)
    ensures SubInv(NewSub(s, delivery, interval, seen), s.published, s.watch)
  {
    hide Accounted, Ordered, Contiguous, LogInv, Keys;
    NewSubAccounted(s, delivery, interval, seen);
    NewSubOrdered(s, delivery, interval, seen);
    NewSubContiguous(s, delivery, interval, seen);
  }

  lemma ClearStep(s: Hub, step: Step)
    requires DeliveryInv(s) && Enabled(s, step) && (step.StartClear? || step.ClearQueues?)
    ensures DeliveryInv(Apply(s, step))
  {
    var t := Apply(s, step);
    forall i | 0 <= i < |t.subs| ensures SubInv(t.subs[i], t.published, t.watch) {
      ClearKeeps(s.subs[i], s.published, s.watch);
    }
  }

  lemma OwnKeeps(sub: Sub, flag: nat, log: seq<Key>, w: Watch)
    requires SubInv(sub, log, w)
    ensures SubInv(sub.(owner := Some(flag)), log, w)
  {
    RelabelKeeps(sub, log, sub.(owner := Some(flag)));
  }

  lemma EndKeeps(sub: Sub, log: seq<Key>, w: Watch)
    requires SubInv(sub, log, w)
    ensures SubInv(sub.(waiting := false), log, w)
    ensures SubInv(ClearQueue(sub).(alive := false, waiting := false), log, w)
  {
    RelabelKeeps(sub, log, sub.(waiting := false));
    ClearKeeps(sub, log, w);
    RelabelKeeps(ClearQueue(sub), log, ClearQueue(sub).(alive := false, waiting := false));
  }

  lemma PollKeeps(s: Hub, sub: Sub)
    requires SubInv(sub, s.published, s.watch) && sub.alive
    ensures SubInv(PollSub(s, sub), s.published, s.watch)
  {
    PollQueue(s, sub);
    PollAwake(s, sub);
  }

  lemma ReplaceKeeps(s: Hub, i: nat, o: Sub, t: Hub)
    requires DeliveryInv(s) && i < |s.subs| && SubInv(o, s.published, s.watch)
    requires t.subs == s.subs[i := o] && t.published == s.published && t.watch == s.watch
    ensures DeliveryInv(t)
  {
  }

  lemma PollStep(s: Hub, step: Step)
    requires DeliveryInv(s) && Enabled(s, step) && step.Poll?
    ensures DeliveryInv(Apply(s, step))
  {
    assert SubInv(s.subs[step.sub], s.published, s.watch);
    PollKeeps(s, s.subs[step.sub]);
    ReplaceKeeps(s, step.sub, PollSub(s, s.subs[step.sub]), Apply(s, step));
  }

  lemma OwnStep(s: Hub, step: Step)
    requires DeliveryInv(s) && Enabled(s, step) && (step.Own? || step.EmptyQueue?)
    ensures DeliveryInv(Apply(s, step))
  {
    assert SubInv(s.subs[step.sub], s.published, s.watch);
    if step.Own? { OwnKeeps(s.subs[step.sub], step.flag, s.published, s.watch); }
    else { ClearKeeps(s.subs[step.sub], s.published, s.watch); }
    ReplaceKeeps(s, step.sub, Apply(s, step).subs[step.sub], Apply(s, step));
  }

  lemma EndStep(s: Hub, step: Step)
    requires DeliveryInv(s) && Enabled(s, step) && (step.CancelNext? || step.DropReceiver?)
    ensures DeliveryInv(Apply(s, step))
  {
    assert SubInv(s.subs[step.sub], s.published, s.watch);
    EndKeeps(s.subs[step.sub], s.published, s.watch);
    hide SubInv;
    ReplaceKeeps(s, step.sub, Apply(s, step).subs[step.sub], Apply(s, step));
  }

  lemma SeedStep(s: Hub, step: Step)
    requires DeliveryInv(s) && Enabled(s, step) && step.Seed?
    ensures DeliveryInv(Apply(s, step))
  {
    var sub := s.subs[step.sub];
    assert SubInv(sub, s.published, s.watch);
    RelabelKeeps(sub, s.published, sub.(last := step.last));
    hide QueueInv;
    ReplaceKeeps(s, step.sub, sub.(last := step.last), Apply(s, step));
  }

  lemma SubscribeStep(s: Hub, step: Step)
    requires EpochInv(s) && DeliveryInv(s) && Enabled(s, step) && step.Subscribe?
    ensures DeliveryInv(Apply(s, step))
  {
    hide SubInv, LogInv, NewSub;
    NewSubKeeps(s, step.delivery, step.interval, step.seen);
  }

  lemma BumpStep(s: Hub, step: Step)
    requires DeliveryInv(s) && Enabled(s, step) && (step.StartSend? || step.StopSend? || step.SetRecovery?)
    ensures DeliveryInv(Apply(s, step))
  {
    hide SubInv, Enabled, Apply;
    WatchFrame(s, step);
    var t := Apply(s, step);
    forall i | 0 <= i < |t.subs| ensures SubInv(t.subs[i], t.published, t.watch) {
      BumpKeeps(s.subs[i], s.published, s.watch, t.watch);
    }
  }

  /** Sections that no subscriber notices. */
  predicate Unnoticed(step: Step) {
    || OfPool(step) || OfCounter(step) || step.ChargeCommit? || step.StartRead?
    || step.TakeLatest? || step.CloneFrame? || step.DropFrame?
  }

  lemma ReaderUnnoticed(s: Hub, step: Step)
    requires Enabled(s, step) && (step.TakeLatest? || step.CloneFrame? || step.DropFrame?)
    ensures Apply(s, step).subs == s.subs
  {
  }

  lemma UnnoticedStep(s: Hub, step: Step)
    requires DeliveryInv(s) && Enabled(s, step) && Unnoticed(step)
    ensures DeliveryInv(Apply(s, step))
  {
    hide Enabled, Apply, SubInv;
    if OfPool(step) { PoolFrame(s, step); }
    else if OfCounter(step) { CounterFrame(s, step); }
    else if step.ChargeCommit? { ChargeFrame(s, step); }
    else if step.StartRead? { WatchFrame(s, step); }
    else { ReaderUnnoticed(s, step); ReaderFrame(s, step); }
  }

  lemma DeliveryStep(s: Hub, step: Step)
    requires EpochInv(s) && DeliveryInv(s) && Enabled(s, step)
    ensures DeliveryInv(Apply(s, step))
  {
    hide Enabled, Apply, DeliveryInv, EpochInv;
    if step.Commit? { CommitDelivery(s, step); }
    else if step.StartClear? || step.ClearQueues? { ClearStep(s, step); }
    else if step.Poll? { PollStep(s, step); }
    else if step.Own? || step.EmptyQueue? { OwnStep(s, step); }
    else if step.Seed? { SeedStep(s, step); }
    else if step.CancelNext? || step.DropReceiver? { EndStep(s, step); }
    else if step.Subscribe? { SubscribeStep(s, step); }
    else if step.StartSend? || step.StopSend? || step.SetRecovery? { BumpStep(s, step); }
    else { UnnoticedStep(s, step); }
  }
}
