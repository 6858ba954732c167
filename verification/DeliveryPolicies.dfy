/** Which frames a subscriber's queue holds: what the rate limit lets through, and what a full queue loses. */
module DeliveryPolicies {
  import opened Basics
  import opened HubState
  import opened HubDelivery

  function FirstFew(queue: seq<Frame>, n: nat): seq<Frame> {
    if |queue| <= n then queue else queue[..n]
  }

  function LastFew(queue: seq<Frame>, n: nat): seq<Frame> {
    if |queue| <= n then queue else queue[|queue| - n..]
  }

  /** What is left of a sequence of frames that nobody takes any of. */
  function Left(delivery: Delivery, frames: seq<Frame>): seq<Frame> {
    match delivery
    case Latest => LastFew(frames, 1)
    case Buffered(capacity, DropOldest) => LastFew(frames, capacity)
    case Buffered(capacity, DropNewest) => FirstFew(frames, capacity)
  }

  /** The capture time of the last frame that passed, `before` if none of these did. */
  function LastTime(passed: seq<Frame>, before: Option<nat>): Option<nat> {
    if passed == [] then before else Some(passed[|passed| - 1].capturedAt)
  }

  /** The frames that a rate limit of one in `interval` lets through: each at least an interval after the last. */
  function Passed(frames: seq<Frame>, interval: Option<nat>, before: Option<nat>): seq<Frame> {
    if frames == [] then []
    else
      var f := frames[|frames| - 1];
      var earlier := Passed(frames[..|frames| - 1], interval, before);
      var last := LastTime(earlier, before);
      if interval.Some? && last.Some? && f.capturedAt < last.value + interval.value then earlier else earlier + [f]
  }

  /** A sequence of publications, one after the other. */
  function OfferAll(sub: Sub, frames: seq<Frame>, flags: set<nat>): Sub {
    if frames == [] then sub
    else Offer(OfferAll(sub, frames[..|frames| - 1], flags), frames[|frames| - 1], flags)
  }

  /** The receiver exists, and nobody has stopped it. */
  predicate Receiving(sub: Sub, flags: set<nat>) {
    sub.listed && sub.alive && !(sub.owner.Some? && sub.owner.value in flags)
  }

  lemma PushLeaves(sub: Sub, n: nat, f: Frame)
    requires n <= |sub.queue|
    ensures var o := Push(sub, n, f); o.queue == sub.queue[n..] + [f] && o.dropped == sub.dropped + n
    ensures sub.queue[n..] + [f] == (sub.queue + [f])[n..]
  {
  }

  lemma EnqueueLeaves(sub: Sub, f: Frame)
    requires Bounded(sub)
    ensures var o := Enqueue(sub, f);
            && o.queue == Left(sub.delivery, sub.queue + [f])
            && o.dropped + |o.queue| == sub.dropped + |sub.queue| + 1
  {
    hide Keys, Push;
    match sub.delivery
    case Latest => PushLeaves(sub, |sub.queue|, f);
    case Buffered(capacity, overflow) =>
      if |sub.queue| < capacity { PushLeaves(sub, 0, f); } else if sub.queue != [] { PushLeaves(sub, 1, f); }
  }

  lemma EnqueueKeepsRest(sub: Sub, f: Frame)
    ensures var o := Enqueue(sub, f);
            && o.delivery == sub.delivery && o.interval == sub.interval && o.lastEnqueued == sub.lastEnqueued
            && o.listed == sub.listed && o.alive == sub.alive && o.owner == sub.owner
  {
  }

  /** Losing frames early or late is the same. */
  lemma LeftAgain(delivery: Delivery, frames: seq<Frame>, f: Frame)
    requires delivery.Buffered? ==> 0 < delivery.capacity
    ensures Left(delivery, Left(delivery, frames) + [f]) == Left(delivery, frames + [f])
  {
  }

  lemma LeftIsQueue(sub: Sub)
    requires Bounded(sub)
    ensures Left(sub.delivery, sub.queue) == sub.queue
  {
  }

  /** What one more publication does to a receiving subscriber. */
  lemma OfferLeaves(sub: Sub, f: Frame, flags: set<nat>)
    requires Bounded(sub) && Receiving(sub, flags) && (sub.interval.Some? ==> 0 < sub.interval.value)
    ensures var o := Offer(sub, f, flags);
            var late := sub.interval.Some? && sub.lastEnqueued.Some? && f.capturedAt < sub.lastEnqueued.value + sub.interval.value;
            && o.queue == (if late then sub.queue else Left(sub.delivery, sub.queue + [f]))
            && o.lastEnqueued == (if late || sub.interval.None? then sub.lastEnqueued else Some(f.capturedAt))
            && o.dropped + |o.queue| == sub.dropped + |sub.queue| + 1
            && o.delivery == sub.delivery && o.interval == sub.interval && Receiving(o, flags)
  {
    EnqueueLeaves(Offered(sub, f), f);
    EnqueueLeaves(Stamped(sub, f), f);
    EnqueueKeepsRest(Offered(sub, f), f);
    EnqueueKeepsRest(Stamped(sub, f), f);
    hide Enqueue, Left, Keys;
  }

  ghost predicate OffersLeave(sub: Sub, frames: seq<Frame>, flags: set<nat>, o: Sub) {
    var passed := Passed(frames, sub.interval, sub.lastEnqueued);
    && o.queue == Left(sub.delivery, sub.queue + passed)
    && o.lastEnqueued == (if sub.interval.None? then sub.lastEnqueued else LastTime(passed, sub.lastEnqueued))
    && o.dropped + |o.queue| == sub.dropped + |sub.queue| + |frames|
    && o.delivery == sub.delivery && o.interval == sub.interval && Receiving(o, flags)
  }

  lemma LeftBounded(sub: Sub, frames: seq<Frame>)
    requires sub.queue == Left(sub.delivery, frames) && (sub.delivery.Buffered? ==> 0 < sub.delivery.capacity)
    ensures Bounded(sub)
  {
  }

  /** Whatever is published while nobody takes anything: the queue holds what it held and what passed the rate limit,
      of that the newest for DropOldest, the oldest for DropNewest, or the last one, and every other publication was
      counted as dropped. */
  lemma {:induction false} QueueFollowsPolicy(sub: Sub, frames: seq<Frame>, flags: set<nat>)
    requires Bounded(sub) && Receiving(sub, flags) && (sub.interval.Some? ==> 0 < sub.interval.value)
    ensures OffersLeave(sub, frames, flags, OfferAll(sub, frames, flags))
  {
    if frames == [] {
      LeftIsQueue(sub);
      assert sub.queue + [] == sub.queue;
    } else {
      var n := |frames| - 1;
      QueueFollowsPolicy(sub, frames[..n], flags);
      NextOffer(sub, frames, flags, OfferAll(sub, frames[..n], flags));
    }
  }

  lemma NextOffer(sub: Sub, frames: seq<Frame>, flags: set<nat>, o: Sub)
    requires Bounded(sub) && (sub.interval.Some? ==> 0 < sub.interval.value) && frames != []
    requires OffersLeave(sub, frames[..|frames| - 1], flags, o)
    ensures OffersLeave(sub, frames, flags, Offer(o, frames[|frames| - 1], flags))
  {
    var n, f := |frames| - 1, frames[|frames| - 1];
    var earlier := Passed(frames[..n], sub.interval, sub.lastEnqueued);
    LeftBounded(o, sub.queue + earlier);
    OfferLeaves(o, f, flags);
    LeftAgain(sub.delivery, sub.queue + earlier, f);
    assert (sub.queue + earlier) + [f] == sub.queue + (earlier + [f]);
    hide Offer, Left, Receiving, Bounded;
  }

  /** So an empty queue without a rate limit ends up with the last frames, the first ones, or the last one. */
  lemma FullQueueLoses(sub: Sub, frames: seq<Frame>, flags: set<nat>)
    requires Bounded(sub) && Receiving(sub, flags) && sub.queue == [] && sub.interval.None?
    ensures var queue, n := OfferAll(sub, frames, flags).queue, |frames|;
            match sub.delivery
            case Latest => queue == frames[Max(0, n - 1)..]
            case Buffered(capacity, DropOldest) => queue == frames[Max(0, n - capacity)..]
            case Buffered(capacity, DropNewest) => queue == frames[..Min(n, capacity)]
  {
    QueueFollowsPolicy(sub, frames, flags);
    AllPass(frames);
    assert [] + frames == frames;
  }

  lemma {:induction false} AllPass(frames: seq<Frame>)
    ensures forall before :: Passed(frames, None, before) == frames
  {
    if frames != [] {
      var n := |frames| - 1;
      AllPass(frames[..n]);
      assert frames == frames[..n] + [frames[n]];
    }
  }
}
