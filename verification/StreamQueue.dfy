/** One event stream (dns or pkt) of the stream manager: a bounded ring of recent events, a
    bounded queue for the subscriber, replay at start and accounting of drops. */
module StreamQueue {
  import opened Wrappers

  datatype Event = Event(seconds: int, body: nat)

  predicate InHorizon(e: Event, now: int, horizon: nat) {
    horizon != 0 && now - e.seconds < horizon
  }

  /** A horizon of h seconds reaches back to the second after the h-th one ago; without one nothing is in it. */
  lemma HorizonReaches(e: Event, h: nat)
    ensures !InHorizon(e, e.seconds + h, h) && !InHorizon(e, e.seconds, 0)
    ensures h > 0 ==> InHorizon(e, e.seconds + h - 1, h) && InHorizon(e, e.seconds - 1, h)
  {
  }

  predicate Wanted(ring: seq<Event>, now: int, horizon: nat, minSize: nat, i: nat)
    requires i < |ring|
  {
    InHorizon(ring[i], now, horizon) || i + minSize >= |ring|
  }

  /** `r` is where replay begins: the first event that is recent enough or among the last
      `minSize`, and the end of the ring when there is none. */
  ghost predicate ReplayStart(ring: seq<Event>, now: int, horizon: nat, minSize: nat, r: nat) {
    && r <= |ring|
    && (r < |ring| ==> Wanted(ring, now, horizon, minSize, r))
    && forall i :: 0 <= i < r ==> !Wanted(ring, now, horizon, minSize, i)
  }

  method ReplayStartIndex(ring: seq<Event>, now: int, horizon: nat, minSize: nat) returns (r: nat)
    ensures ReplayStart(ring, now, horizon, minSize, r)
  {
    var n := |ring|;
    var minSizeStart := if minSize == 0 then n else if minSize >= n then 0 else n - minSize;
    var horizonStart := n;
    if horizon != 0 {
      for i := 0 to n
        invariant horizonStart == n && forall j :: 0 <= j < i ==> !InHorizon(ring[j], now, horizon)
      {
        if InHorizon(ring[i], now, horizon) {
          horizonStart := i;
          break;
        }
      }
      assert horizonStart < n ==> InHorizon(ring[horizonStart], now, horizon);
      assert forall j :: 0 <= j < horizonStart ==> !InHorizon(ring[j], now, horizon);
    }
    r := if minSizeStart < horizonStart then minSizeStart else horizonStart;
  }

  ghost predicate InOrder(ring: seq<Event>) {
    forall i, j :: 0 <= i < j < |ring| ==> ring[i].seconds <= ring[j].seconds
  }

  /** Once an event is in the horizon so are all later ones, up to the last `minSize`, which are
      replayed anyway. */
  ghost predicate HorizonIsSuffix(ring: seq<Event>, now: int, horizon: nat, minSize: nat) {
    forall i, j :: 0 <= i < j && j + minSize < |ring| && InHorizon(ring[i], now, horizon)
      ==> InHorizon(ring[j], now, horizon)
  }

  /** Replay misses no wanted event. It adds none exactly when the horizon cuts off a suffix of the
      ring. */
  lemma ReplayIsWanted(ring: seq<Event>, now: int, horizon: nat, minSize: nat, r: nat)
    requires ReplayStart(ring, now, horizon, minSize, r)
    ensures forall i :: 0 <= i < |ring| && Wanted(ring, now, horizon, minSize, i) ==> r <= i
    ensures (forall i :: r <= i < |ring| ==> Wanted(ring, now, horizon, minSize, i))
      <==> HorizonIsSuffix(ring, now, horizon, minSize)
  {
    if HorizonIsSuffix(ring, now, horizon, minSize) {
      forall i | r <= i < |ring| ensures Wanted(ring, now, horizon, minSize, i) {
        assert Wanted(ring, now, horizon, minSize, r);
      }
    }
    if forall i :: r <= i < |ring| ==> Wanted(ring, now, horizon, minSize, i) {
      forall i, j | 0 <= i < j && j + minSize < |ring| && InHorizon(ring[i], now, horizon)
        ensures InHorizon(ring[j], now, horizon)
      {
        assert Wanted(ring, now, horizon, minSize, i) && r <= i;
        assert Wanted(ring, now, horizon, minSize, j);
      }
    }
  }

  /** With events in time order replay adds nothing. */
  lemma ReplayInOrder(ring: seq<Event>, now: int, horizon: nat, minSize: nat, r: nat)
    requires ReplayStart(ring, now, horizon, minSize, r) && InOrder(ring)
    ensures forall i :: 0 <= i < |ring| ==> (r <= i <==> Wanted(ring, now, horizon, minSize, i))
  {
    ReplayIsWanted(ring, now, horizon, minSize, r);
    forall i, j | 0 <= i < j && j + minSize < |ring| && InHorizon(ring[i], now, horizon)
      ensures InHorizon(ring[j], now, horizon)
    {
      assert ring[i].seconds <= ring[j].seconds;
    }
  }

  /** With a clock that steps back replay can add an event that is neither recent nor asked for. */
  lemma ReplayAddsMoreOutOfOrder()
    ensures var ring := [Event(100, 0), Event(0, 1)];
            ReplayStart(ring, 100, 10, 0, 0) && !Wanted(ring, 100, 10, 0, 1)
  {
  }

  /** What became of the events fed to a subscriber, oldest first. */
  function Popped(fed: seq<Event>, fates: seq<bool>): seq<Event>
    requires |fates| <= |fed|
  {
    if fates == [] then []
    else Popped(fed, fates[..|fates| - 1]) + if fates[|fates| - 1] then [fed[|fates| - 1]] else []
  }

  function Drops(fates: seq<bool>): nat {
    if fates == [] then 0 else Drops(fates[..|fates| - 1]) + if fates[|fates| - 1] then 0 else 1
  }

  lemma {:induction false} PoppedGrows(fed: seq<Event>, more: seq<Event>, fates: seq<bool>)
    requires |fates| <= |fed|
    ensures Popped(fed + more, fates) == Popped(fed, fates)
  {
    if fates != [] {
      PoppedGrows(fed, more, fates[..|fates| - 1]);
    }
  }

  lemma {:induction false} EveryEventHasOneFate(fed: seq<Event>, fates: seq<bool>)
    requires |fates| <= |fed|
    ensures |Popped(fed, fates)| + Drops(fates) == |fates|
  {
    if fates != [] {
      EveryEventHasOneFate(fed, fates[..|fates| - 1]);
    }
  }

  /** The newest `n` events, or all there are. */
  function Newest(all: seq<Event>, n: nat): seq<Event> { if |all| > n then all[|all| - n..] else all }

  /** Events leave the queue oldest first, popped events keep their order, and each drop is counted
      once. */
  ghost predicate Balanced(pending: seq<Event>, dropped: nat, fed: seq<Event>, fates: seq<bool>, popped: seq<Event>,
                           reported: nat) {
    && |fates| <= |fed| && pending == fed[|fates|..]
    && popped == Popped(fed, fates)
    && dropped + reported == Drops(fates)
  }

  class Stream {
    const maxHorizonSec: nat
    const maxRingEvents: nat
    const maxPendingEvents: nat
    var subscriber: Option<nat>
    var subscribed: bool
    var ring: seq<Event>
    var pending: seq<Event>
    var droppedEvents: nat

    // History of the current subscription: every event replayed or observed, the fate of the
    // ones no longer pending (true for popped), what was popped and how many drops were reported.
    ghost var fed: seq<Event>
    ghost var fates: seq<bool>
    ghost var popped: seq<Event>
    ghost var reported: nat

    ghost predicate Valid()
      reads this
    {
      && (subscribed <==> subscriber.Some?) && (!subscribed ==> fed == [])
      && |ring| <= maxRingEvents && |pending| <= maxPendingEvents
      && Accounted()
    }

    ghost predicate Accounted()
      reads `pending, `droppedEvents, `fed, `fates, `popped, `reported
    {
      Balanced(pending, droppedEvents, fed, fates, popped, reported)
    }

    constructor (maxHorizonSec: nat, maxRingEvents: nat, maxPendingEvents: nat)
      ensures Valid() && subscriber.None? && ring == []
    {
      this.maxHorizonSec, this.maxRingEvents, this.maxPendingEvents := maxHorizonSec, maxRingEvents, maxPendingEvents;
      subscriber, subscribed, ring, pending, droppedEvents := None, false, [], [], 0;
      fed, fates, popped, reported := [], [], [], 0;
    }

    method PushRing(e: Event)
      requires |ring| <= maxRingEvents
      modifies this`ring
      ensures |ring| <= maxRingEvents
      ensures ring == Newest(old(ring) + [e], maxRingEvents)
    {
      ring := ring + [e];
      ghost var all, k := ring, 0;
      while |ring| > maxRingEvents
        invariant 0 <= k <= |all| && ring == all[k..]
        invariant k > 0 ==> |all| - k >= maxRingEvents
      {
        ring := ring[1..];
        k := k + 1;
      }
    }

    /** Appends an event and drops the oldest ones beyond the limit. */
    method PushPending(e: Event)
      requires Accounted() && |pending| <= maxPendingEvents
      modifies this`pending, this`droppedEvents, this`fed, this`fates
      ensures Accounted() && |pending| <= maxPendingEvents && fed == old(fed) + [e]
      ensures old(fates) <= fates && forall i :: |old(fates)| <= i < |fates| ==> !fates[i]
    {
      PoppedGrows(fed, [e], fates);
      pending := pending + [e];
      fed := fed + [e];
      while |pending| > maxPendingEvents
        invariant Accounted() && fed == old(fed) + [e]
        invariant old(fates) <= fates && forall i :: |old(fates)| <= i < |fates| ==> !fates[i]
        decreases |pending|
      {
        pending := pending[1..];
        droppedEvents := droppedEvents + 1;
        ghost var before := fates;
        fates := fates + [false];
        assert fates[..|fates| - 1] == before;
      }
    }

    ghost method ForgetSubscription()
      modifies this`fed, this`fates, this`popped, this`reported
      ensures fed == [] && fates == [] && popped == [] && reported == 0
    {
      fed, fates, popped, reported := [], [], [], 0;
    }

    /** STREAM.START; refused while another session holds the subscription.  What is replayed
        is the suffix of the ring from the replay start. */
    method Start(session: nat, horizonSec: nat, minSize: nat, now: int) returns (ok: bool, startIdx: nat)
      requires Valid()
      modifies this
      ensures Valid() && ring == old(ring)
      ensures ok <==> old(subscriber).None? || old(subscriber) == Some(session)
      ensures !ok ==> subscriber == old(subscriber) && pending == old(pending) && fed == old(fed)
      ensures ok ==> subscriber == Some(session) && popped == [] && reported == 0
      ensures ok ==> ReplayStart(ring, now, if horizonSec < maxHorizonSec then horizonSec else maxHorizonSec,
                                 if minSize < maxRingEvents then minSize else maxRingEvents, startIdx)
                     && fed == ring[startIdx..]
    {
      var horizon := if horizonSec < maxHorizonSec then horizonSec else maxHorizonSec;
      var wanted := if minSize < maxRingEvents then minSize else maxRingEvents;
      if subscriber.Some? && subscriber != Some(session) {
        return false, 0;
      }
      subscriber, subscribed, pending, droppedEvents := Some(session), true, [], 0;
      ForgetSubscription();
      startIdx := ReplayStartIndex(ring, now, horizon, wanted);
      var i := startIdx;
      while i < |ring|
        invariant startIdx <= i <= |ring| && ring == old(ring)
        invariant Accounted() && |pending| <= maxPendingEvents && fed == ring[startIdx..i]
        invariant forall k :: 0 <= k < |fates| ==> !fates[k]
        invariant subscriber == Some(session) && subscribed && popped == [] && reported == 0
      {
        PushPending(ring[i]);
        i := i + 1;
      }
      ok := true;
    }

    method Release()
      requires Valid()
      modifies this
      ensures Valid()
      ensures subscriber.None? && !subscribed && pending == [] && droppedEvents == 0 && ring == old(ring)
    {
      subscriber, subscribed, pending, droppedEvents := None, false, [], 0;
      ForgetSubscription();
    }

    /** STREAM.STOP: gives up the subscription if the session owns it, and clears the ring. */
    method Stop(session: nat)
      requires Valid()
      modifies this
      ensures Valid()
      ensures old(subscriber) == Some(session) ==> subscriber.None? && pending == [] && ring == []
      ensures old(subscriber) != Some(session) ==>
        subscriber == old(subscriber) && pending == old(pending) && ring == old(ring) && fed == old(fed)
    {
      if subscriber == Some(session) {
        Release();
        ring := [];
      }
    }

    /** A closed connection gives up its subscription and leaves the ring. */
    method Detach(session: nat)
      requires Valid()
      modifies this
      ensures Valid() && ring == old(ring)
      ensures old(subscriber) == Some(session) ==> subscriber.None? && pending == []
      ensures old(subscriber) != Some(session) ==>
        subscriber == old(subscriber) && pending == old(pending) && fed == old(fed)
    {
      if subscriber == Some(session) {
        Release();
      }
    }

    method Observe(e: Event)
      requires Valid()
      modifies `ring, `pending, `droppedEvents, `fed, `fates
      ensures Valid()
      ensures fed == if subscribed then old(fed) + [e] else []
      ensures ring == Newest(old(ring) + [e], maxRingEvents)
    {
      PushRing(e);
      if subscribed {
        PushPending(e);
      }
    }

    method Pop(session: nat) returns (e: Option<Event>)
      requires Valid()
      modifies this`pending, this`fates, this`popped
      ensures Valid() && (e.Some? <==> subscriber == Some(session) && old(pending) != [])
      ensures e.Some? ==> old(pending) == [e.value] + pending && popped == old(popped) + [e.value]
      ensures e.None? ==> pending == old(pending) && popped == old(popped)
    {
      if subscriber != Some(session) || pending == [] {
        return None;
      }
      e := Some(pending[0]);
      pending := pending[1..];
      popped := popped + [e.value];
      ghost var before := fates;
      fates := fates + [true];
      assert fates[..|fates| - 1] == before;
    }

    method TakeDropped() returns (n: nat)
      requires Valid()
      modifies this`droppedEvents, this`reported
      ensures Valid() && n == old(droppedEvents) && droppedEvents == 0 && reported == old(reported) + n
    {
      n := droppedEvents;
      reported := reported + n;
      droppedEvents := 0;
    }

    /** Every event of a subscription is popped, pending or counted as dropped. */
    lemma Conservation()
      requires Valid()
      ensures |fed| == |popped| + |pending| + droppedEvents + reported
    {
      EveryEventHasOneFate(fed, fates);
    }
  }
}
