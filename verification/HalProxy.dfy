// The proxy object that the posters, the writer thread, the framework and the wake lock thread share. Each
// method is what one thread does between taking and releasing a mutex, or a part of it in which other threads
// can act. On the event path each is one step of the event channel from a reachable state to a reachable one,
// so every result about runs holds of the object.

module HalProxy {
  import opened Wakelock
  import opened EventChannel
  import MultiHal

  class Proxy {
    const config: Config
    const wakelockTimeoutNs: int
    var eventQueue: seq<Event>
    var pendingWriteEventsQueue: seq<Entry>
    var sizePendingWriteEventsQueue: int
    var mostEventsObservedPendingWriteEventsQueue: int
    var writer: Writer
    var poster: Poster
    var threadsRun: bool
    var wakelockRefCount: nat
    var wakelockHeld: bool
    var wakelockTimeoutStartTime: int
    var wakelockTimeoutResetTime: int
    // Logs, which no method reads to decide anything.
    var posted: seq<Event>
    var delivered: seq<Event>
    var dropped: seq<Event>
    var rejected: seq<Event>

    ghost function Channel(): State
      reads this
    {
      State(eventQueue, pendingWriteEventsQueue, sizePendingWriteEventsQueue, writer, poster,
            posted, delivered, dropped, rejected)
    }

    ghost function Count(): Counter
      reads this
    {
      Counter(wakelockRefCount, wakelockHeld, threadsRun, wakelockTimeoutStartTime, wakelockTimeoutResetTime)
    }

    /** The event path is in a state that some run leads to, and has never had more pending than was observed. */
    ghost predicate Valid()
      reads this
    {
      && Reachable(config, Channel())
      && sizePendingWriteEventsQueue <= mostEventsObservedPendingWriteEventsQueue
    }

    /** The largest number observed is that before, or the present one when that is larger. */
    ghost predicate MostIsUpdated(before: int)
      reads this
    {
      var most := mostEventsObservedPendingWriteEventsQueue;
      before <= most && sizePendingWriteEventsQueue <= most && (most == before || most == sizePendingWriteEventsQueue)
    }

    constructor (config: Config, wakelockTimeoutNs: int, now: int)
      ensures Valid() && this.config == config && Channel() == INITIAL && Count() == Counter(0, false, true, now, now)
    {
      this.config, this.wakelockTimeoutNs := config, wakelockTimeoutNs;
      eventQueue, pendingWriteEventsQueue, sizePendingWriteEventsQueue := [], [], 0;
      mostEventsObservedPendingWriteEventsQueue, writer, poster := 0, Idle, Free;
      threadsRun, wakelockRefCount, wakelockHeld := true, 0, false;
      wakelockTimeoutStartTime, wakelockTimeoutResetTime := now, now;
      posted, delivered, dropped, rejected := [], [], [], [];
      new;
      InitialReachable(config);
    }

    // ---------- the wake lock ----------

    method IncrementRefCountAndMaybeAcquireWakelock(delta: nat, now: int) returns (ok: bool, timeoutStart: int)
      modifies `wakelockRefCount, `wakelockHeld, `wakelockTimeoutStartTime
      ensures Count() == Increment(old(Count()), delta, now)
      ensures ok == threadsRun && (ok ==> timeoutStart == now)
    {
      if !threadsRun {
        return false, 0;
      }
      if wakelockRefCount == 0 {
        wakelockHeld := true;
      }
      wakelockTimeoutStartTime := now;
      wakelockRefCount := wakelockRefCount + delta;
      return true, wakelockTimeoutStartTime;
    }

    method DecrementRefCountAndMaybeReleaseWakelock(delta: nat, timeoutStart: int)
      modifies `wakelockRefCount, `wakelockHeld
      ensures Count() == Decrement(old(Count()), delta, timeoutStart)
    {
      if !threadsRun {
        return;
      }
      var start := timeoutStart;
      if start == NO_START {
        start := wakelockTimeoutResetTime;
      }
      if wakelockRefCount == 0 || start < wakelockTimeoutResetTime {
        return;
      }
      wakelockRefCount := wakelockRefCount - Min(wakelockRefCount, delta);
      if wakelockRefCount == 0 {
        wakelockHeld := false;
      }
    }

    method ResetSharedWakelock(now: int)
      modifies `wakelockRefCount, `wakelockHeld, `wakelockTimeoutResetTime
      ensures Count() == Reset(old(Count()), now)
    {
      DecrementRefCountAndMaybeReleaseWakelock(wakelockRefCount, NO_START);
      wakelockTimeoutResetTime := now;
    }

    method SharedWakelockDidTimeout(now: int) returns (didTimeout: bool, timeLeft: int)
      ensures didTimeout == DidTimeout(Count(), now, wakelockTimeoutNs)
      ensures didTimeout <==> now - wakelockTimeoutStartTime > wakelockTimeoutNs
      ensures !didTimeout ==> 0 <= timeLeft == wakelockTimeoutStartTime + wakelockTimeoutNs - now
    {
      var duration := now - wakelockTimeoutStartTime;
      if duration > wakelockTimeoutNs {
        didTimeout, timeLeft := true, 0;
      } else {
        didTimeout, timeLeft := false, wakelockTimeoutNs - duration;
      }
    }

    /** The first part of a round of the wake lock thread, which comes only when somebody counts on the lock: a
        timeout resets it. Otherwise the thread lets go of the mutex and waits for an acknowledgement. */
    method BeginWakelockRound(now: int) returns (wait: bool, timeLeft: int)
      requires threadsRun && wakelockRefCount > 0
      modifies `wakelockRefCount, `wakelockHeld, `wakelockTimeoutResetTime
      ensures wait <==> !DidTimeout(old(Count()), now, wakelockTimeoutNs)
      ensures Count() == if wait then old(Count()) else Reset(old(Count()), now)
      ensures wait ==> 0 <= timeLeft == wakelockTimeoutStartTime + wakelockTimeoutNs - now
    {
      var didTimeout;
      didTimeout, timeLeft := SharedWakelockDidTimeout(now);
      wait := !didTimeout;
      if didTimeout {
        ResetSharedWakelock(now);
      }
    }

    /** The second part, with the mutex taken back and whatever the count is by then: an acknowledgement that
        arrived in time lowers it. */
    method EndWakelockRound(acknowledged: bool, numWakeLocksProcessed: nat)
      modifies `wakelockRefCount, `wakelockHeld
      ensures Count() == if acknowledged then Decrement(old(Count()), numWakeLocksProcessed, NO_START) else old(Count())
    {
      if acknowledged {
        DecrementRefCountAndMaybeReleaseWakelock(numWakeLocksProcessed, NO_START);
      }
    }

    // ---------- the event path ----------

    /** Counts the wake-up events among the first n. */
    method CountNumWakeupEvents(events: seq<Event>, n: nat) returns (numWakeupEvents: nat)
      requires n <= |events|
      ensures numWakeupEvents == CountWakeup(events[..n], config.wakeups)
    {
      numWakeupEvents := 0;
      for i := 0 to n
        invariant numWakeupEvents == CountWakeup(events[..i], config.wakeups)
      {
        CountOneMore(events, i, config.wakeups);
        if events[i].handle in config.wakeups {
          numWakeupEvents := numWakeupEvents + 1;
        }
      }
    }

    /** The beginning of a post: the mutex is taken, and a locked token raises the count by the number of
        wake-up events that came with the batch. */
    method BeginPost(readings: seq<Reading>, numWakeupEvents: nat, locked: bool, now: int)
      requires Valid() && poster == Free
      requires numWakeupEvents == CountWakeup(Stamp(readings, |posted|), config.wakeups)
      modifies `poster, `wakelockRefCount, `wakelockHeld, `wakelockTimeoutStartTime
      ensures Valid() && Channel() == Begin(config, old(Channel()), readings)
      ensures Count() == if locked then Increment(old(Count()), numWakeupEvents, now) else old(Count())
    {
      NoRunIsExcluded(config, Channel(), PostBegin(readings));
      poster := Posting(Stamp(readings, |posted|), numWakeupEvents);
      if locked {
        var ok, start := IncrementRefCountAndMaybeAcquireWakelock(numWakeupEvents, now);
      }
    }

    /** The end of a post. free is what the event queue reports as available, at most what is; the write itself
        may still fail. The first k events go straight to the event queue; the rest is lost exactly when more
        than 100000 events would then be pending. */
    method CommitPost(free: nat, writeOk: bool)
      requires Valid() && poster.Posting? && free + |eventQueue| <= config.capacity
      modifies `poster, `posted, `eventQueue, `pendingWriteEventsQueue, `sizePendingWriteEventsQueue, `rejected,
        `mostEventsObservedPendingWriteEventsQueue
      ensures Valid() && Channel() == Commit(old(Channel()), PostCommit(free, writeOk))
      ensures var s, t, e := old(Channel()), Channel(), old(poster.events); var k := |t.queue| - |s.queue|;
        && k == (if s.pending != [] || !writeOk then 0 else if |e| <= free then |e| else free)
        && t.queue == s.queue + e[..k]
        && (t.rejected != s.rejected <==> k < |e| && |Flat(s.pending)| + |e| - k > 100000)
        && (t.rejected == s.rejected ==> Flat(t.pending) == Flat(s.pending) + e[k..])
        && (t.rejected != s.rejected ==> t.rejected == s.rejected + e[k..] && t.pending == s.pending)
      ensures MostIsUpdated(old(mostEventsObservedPendingWriteEventsQueue))
    {
      NoRunIsExcluded(config, Channel(), PostCommit(free, writeOk));
      CommitDecides(config, Channel(), PostCommit(free, writeOk));
      WriteOrQueue(poster.events, poster.numWakeup, free, writeOk);
    }

    /** Writes what fits, if nothing is pending, and queues the rest, if there is room for it. */
    method WriteOrQueue(events: seq<Event>, numWakeupEvents: nat, free: nat, writeOk: bool)
      requires poster == Posting(events, numWakeupEvents)
      requires sizePendingWriteEventsQueue <= mostEventsObservedPendingWriteEventsQueue
      modifies `poster, `posted, `eventQueue, `pendingWriteEventsQueue, `sizePendingWriteEventsQueue, `rejected,
        `mostEventsObservedPendingWriteEventsQueue
      ensures Channel() == Commit(old(Channel()), PostCommit(free, writeOk))
      ensures MostIsUpdated(old(mostEventsObservedPendingWriteEventsQueue))
    {
      posted, poster := posted + events, Free;
      var numToWrite := 0;
      if pendingWriteEventsQueue == [] {
        numToWrite := Min(|events|, free);
        if numToWrite > 0 {
          if !writeOk {
            numToWrite := 0;
          }
        }
      }
      eventQueue := eventQueue + events[..numToWrite];
      var eventsLeft := events[numToWrite..];
      if numToWrite < |events| {
        if sizePendingWriteEventsQueue + |eventsLeft| <= MAX_PENDING {
          pendingWriteEventsQueue := pendingWriteEventsQueue + [Entry(eventsLeft, numWakeupEvents)];
          sizePendingWriteEventsQueue := sizePendingWriteEventsQueue + |eventsLeft|;
          if mostEventsObservedPendingWriteEventsQueue < sizePendingWriteEventsQueue {
            mostEventsObservedPendingWriteEventsQueue := sizePendingWriteEventsQueue;
          }
        } else {
          rejected := rejected + eventsLeft;
        }
      }
    }

    /** A whole post, when nobody comes in between. */
    method PostEventsToMessageQueue(
      readings: seq<Reading>, numWakeupEvents: nat, locked: bool, now: int, free: nat, writeOk: bool)
      requires Valid() && poster == Free && free + |eventQueue| <= config.capacity
      requires numWakeupEvents == CountWakeup(Stamp(readings, |posted|), config.wakeups)
      modifies this
      ensures Valid() && threadsRun == old(threadsRun)
      ensures Channel() == Commit(Begin(config, old(Channel()), readings), PostCommit(free, writeOk))
      ensures Count() == if locked then Increment(old(Count()), numWakeupEvents, now) else old(Count())
    {
      BeginPost(readings, numWakeupEvents, locked, now);
      CommitPost(free, writeOk);
    }

    /** The framework reads from the event queue whenever it likes. */
    method FrameworkReads(n: nat) returns (events: seq<Event>)
      requires Valid() && n <= |eventQueue|
      modifies `eventQueue, `delivered
      ensures Valid() && Channel() == Receive(old(Channel()), n)
      ensures |events| == n && events + eventQueue == old(eventQueue) && delivered == old(delivered) + events
    {
      NoRunIsExcluded(config, Channel(), FrameworkRead(n));
      events := eventQueue[..n];
      eventQueue, delivered := eventQueue[n..], delivered + eventQueue[..n];
    }

    /** The writer thread looks at the front entry and lets go of the mutex. */
    method TakePendingWrite() returns (numToWrite: nat, numWakeupEvents: nat)
      requires Valid() && poster == Free && writer == Idle && pendingWriteEventsQueue != []
      modifies `writer
      ensures Valid() && Channel() == Take(config, old(Channel())) && writer == Writing(numToWrite, numWakeupEvents)
      ensures var front := pendingWriteEventsQueue[0];
        && numWakeupEvents == front.numWakeup
        && numToWrite == if |front.events| <= config.capacity then |front.events| else config.capacity
    {
      NoRunIsExcluded(config, Channel(), WriterTake);
      numWakeupEvents := pendingWriteEventsQueue[0].numWakeup;
      numToWrite := Min(|pendingWriteEventsQueue[0].events|, config.capacity);
      writer := Writing(numToWrite, numWakeupEvents);
    }

    /** The blocking write, without the mutex; when it fails, the events are dropped and the count is
        lowered. */
    method WritePending(numToWrite: nat, numWakeupEvents: nat, writeOk: bool)
      requires Valid() && writer == Writing(numToWrite, numWakeupEvents) && pendingWriteEventsQueue != []
      requires writeOk ==> numToWrite + |eventQueue| <= config.capacity
      modifies `writer, `eventQueue, `dropped, `wakelockRefCount, `wakelockHeld
      ensures Valid() && numToWrite <= |old(pendingWriteEventsQueue)[0].events|
      ensures Channel() == Write(old(Channel()), writeOk)
      ensures Count() ==
        if writeOk then old(Count()) else MultiHal.AfterFailure(config, old(Channel()), old(Count()))
    {
      NoRunIsExcluded(config, Channel(), WriterWrite(writeOk));
      var events := pendingWriteEventsQueue[0].events;
      if writeOk {
        eventQueue := eventQueue + events[..numToWrite];
      } else {
        dropped := dropped + events[..numToWrite];
        LowerAfterFailure(events, numWakeupEvents);
      }
      writer := Finishing(numToWrite);
    }

    /** By how much a failed write lowers the count. */
    method LowerAfterFailure(events: seq<Event>, numWakeupEvents: nat)
      requires writer.Writing? && writer.numWakeup == numWakeupEvents
      requires pendingWriteEventsQueue != [] && pendingWriteEventsQueue[0].events == events
      modifies `wakelockRefCount, `wakelockHeld
      ensures Count() == MultiHal.AfterFailure(config, old(Channel()), old(Count()))
    {
      if numWakeupEvents > 0 {
        if |events| > config.capacity {
          var n := CountNumWakeupEvents(events, config.capacity);
          DecrementRefCountAndMaybeReleaseWakelock(n, NO_START);
        } else {
          DecrementRefCountAndMaybeReleaseWakelock(numWakeupEvents, NO_START);
        }
      }
    }

    /** The accounting after the write, with the mutex taken back. */
    method FinishPendingWrite(numToWrite: nat)
      requires Valid() && poster == Free && writer == Finishing(numToWrite) && pendingWriteEventsQueue != []
      modifies `writer, `pendingWriteEventsQueue, `sizePendingWriteEventsQueue
      ensures Valid() && Channel() == Finish(config, old(Channel()))
    {
      NoRunIsExcluded(config, Channel(), WriterFinish);
      var front := pendingWriteEventsQueue[0];
      sizePendingWriteEventsQueue := sizePendingWriteEventsQueue - numToWrite;
      if |front.events| > config.capacity {
        var rest := front.events[config.capacity..];
        pendingWriteEventsQueue := [Entry(rest, front.numWakeup)] + pendingWriteEventsQueue[1..];
      } else {
        pendingWriteEventsQueue := pendingWriteEventsQueue[1..];
      }
      writer := Idle;
    }
  }

  // ---------- tokens ----------

  /** The move-only token through which a sub-HAL holds the shared wake lock. */
  class ScopedWakelock {
    var refCounter: Proxy?
    var createdAtTimeNs: int
    var locked: bool

    ghost function Value(): Token
      reads this
    {
      Token(locked, createdAtTimeNs)
    }

    /** A locked token always knows whose count it has a share in. */
    ghost predicate Valid()
      reads this
    {
      locked ==> refCounter != null
    }

    /** A token is locked only if its increment took effect. */
    constructor (refCounter: Proxy, locked: bool, now: int)
      modifies refCounter`wakelockRefCount, refCounter`wakelockHeld, refCounter`wakelockTimeoutStartTime
      ensures Valid() && this.refCounter == refCounter
      ensures this.locked <==> locked && refCounter.threadsRun
      ensures refCounter.Count() ==
        if locked then Increment(old(refCounter.Count()), 1, now) else old(refCounter.Count())
      ensures this.locked ==> createdAtTimeNs == now
    {
      this.refCounter, this.locked, createdAtTimeNs := refCounter, false, 0;
      new;
      if locked {
        var ok, start := refCounter.IncrementRefCountAndMaybeAcquireWakelock(1, now);
        this.locked, createdAtTimeNs := ok, start;
      }
    }

    /** Takes over the other token's state and clears it. Assigning a token to itself clears it. */
    method Assign(other: ScopedWakelock)
      requires other.Valid()
      modifies this, other
      ensures Valid() && other.Valid() && other.Value() == MOVED && other.refCounter == null
      ensures this != other ==> Value() == old(other.Value()) && refCounter == old(other.refCounter)
    {
      refCounter, createdAtTimeNs, locked := other.refCounter, other.createdAtTimeNs, other.locked;
      other.refCounter, other.createdAtTimeNs, other.locked := null, 0, false;
    }

    constructor Move(other: ScopedWakelock)
      requires other.Valid()
      modifies other
      ensures Valid() && other.Valid() && other.Value() == MOVED && other.refCounter == null
      ensures Value() == old(other.Value()) && refCounter == old(other.refCounter)
    {
      refCounter, createdAtTimeNs, locked := null, 0, false;
      new;
      Assign(other);
    }

    /** The destructor gives back the share of a locked token and touches nothing else. */
    method Destroy()
      requires Valid()
      modifies if locked then {refCounter} else {}
      ensures !locked ==> refCounter != null ==> refCounter.Count() == old(refCounter.Count())
      ensures locked ==> refCounter.Count() == Decrement(old(refCounter.Count()), 1, createdAtTimeNs)
    {
      if locked {
        refCounter.DecrementRefCountAndMaybeReleaseWakelock(1, createdAtTimeNs);
      }
    }
  }
}
