// How a sub-HAL posts: its events get the handles the framework knows, are counted, and go to the proxy.

module HalProxyCallback {
  import opened EventChannel
  import opened HalProxy
  import opened SensorDirectory
  import opened Wakelock

  type SubHalEvent<H> = SensorDirectory.Event<H>

  /** All events of a batch under their framework handles. */
  function TaggedEvents<H, I>(c: Coding<H, I>, events: seq<SubHalEvent<H>>, subHal: I): seq<SubHalEvent<H>>
  {
    seq(|events|, i requires 0 <= i < |events| => TaggedEvent(c, events[i], subHal))
  }

  /** The same events as the event path sees them, with handles as numbers. */
  function Readings<H>(events: seq<SubHalEvent<H>>, number: H -> int): (r: seq<Reading>)
    ensures |r| == |events|
  {
    seq(|events|, i requires 0 <= i < |events| => Reading(number(events[i].handle), events[i].payload))
  }

  /** The event path's set of wake-up handles is that of the sensor map. */
  ghost predicate SameSensors<H(!new)>(wakeups: set<int>, sensors: map<H, SensorInfo<H>>, number: H -> int)
  {
    forall h: H :: number(h) in wakeups <==> Wakes(sensors, h)
  }

  /** The number that comes with a batch is the number of wake-up events that the event path finds in it. */
  lemma {:induction false} SameWakeupCount<H(!new)>(
    wakeups: set<int>, sensors: map<H, SensorInfo<H>>, number: H -> int, events: seq<SubHalEvent<H>>, serial: nat)
    requires SameSensors(wakeups, sensors, number)
    ensures CountWakeup(Stamp(Readings(events, number), serial), wakeups) == CountWakes(sensors, events)
    decreases |events|
  {
    if events != [] {
      SameWakeupCount(wakeups, sensors, number, events[1..], serial + 1);
      var stamped := Stamp(Readings(events, number), serial);
      assert stamped[1..] == Stamp(Readings(events[1..], number), serial + 1);
      assert stamped[0].handle == number(events[0].handle);
    }
  }

  /** An empty batch, and any batch while the threads are stopped, has no effect at all. Any other is posted
      under its framework handles, with its number of wake-up events. */
  method PostEvents<H(==, !new), I(==)>(
    proxy: Proxy, c: Coding<H, I>, subHalIndex: I, sensors: map<H, SensorInfo<H>>, blank: SensorInfo<H>,
    number: H -> int, events: seq<SubHalEvent<H>>, locked: bool, now: int, free: nat, writeOk: bool)
    returns (sensorsOut: map<H, SensorInfo<H>>)
    requires proxy.Valid() && proxy.poster == Free && free + |proxy.eventQueue| <= proxy.config.capacity
    requires !blank.wakeUp && SameSensors(proxy.config.wakeups, sensors, number)
    modifies proxy
    ensures proxy.Valid()
    ensures events == [] || !old(proxy.threadsRun) ==>
      proxy.Channel() == old(proxy.Channel()) && proxy.Count() == old(proxy.Count()) && sensorsOut == sensors
    ensures events != [] && old(proxy.threadsRun) ==>
      var tagged := TaggedEvents(c, events, subHalIndex);
      var readings := Readings(tagged, number);
      && proxy.Channel()
         == Commit(Begin(proxy.config, old(proxy.Channel()), readings), PostCommit(free, writeOk))
      && proxy.Count()
         == (if locked then Increment(old(proxy.Count()), CountWakes(sensors, tagged), now) else old(proxy.Count()))
      && OnlyBlanksAdded(sensors, sensorsOut, blank, tagged)
    ensures events != [] && old(proxy.threadsRun) ==>
      var n := |old(proxy.posted)|;
      && |proxy.posted| == n + |events| && proxy.posted[..n] == old(proxy.posted)
      && forall i :: 0 <= i < |events| ==>
           var h := number(c.tag(events[i].handle, subHalIndex));
           proxy.posted[n + i] == EventChannel.Event(n + i, h, events[i].payload)
  {
    if events == [] || !proxy.threadsRun {
      return sensors;
    }
    var processedEvents, numWakeupEvents;
    processedEvents, numWakeupEvents, sensorsOut := ProcessEvents(c, events, subHalIndex, sensors, blank);
    assert processedEvents == TaggedEvents(c, events, subHalIndex);
    SameWakeupCount(proxy.config.wakeups, sensors, number, processedEvents, |proxy.posted|);
    proxy.PostEventsToMessageQueue(Readings(processedEvents, number), numWakeupEvents, locked, now, free, writeOk);
    assert proxy.posted == old(proxy.posted) + Stamp(Readings(processedEvents, number), |old(proxy.posted)|);
  }
}
