// The wake lock of the HAL without sub-HALs: a counter of unhandled wake-up events and a time limit.

module SingleHal {

  const TWO_31 := 0x8000_0000
  const TWO_32 := 0x1_0000_0000

  function ToUint32(x: int): (r: int)
    ensures 0 <= r < TWO_32
  {
    x % TWO_32
  }

  function ToInt32(x: int): (r: int)
    ensures -TWO_31 <= r < TWO_31
  {
    (x + TWO_31) % TWO_32 - TWO_31
  }

  /** outstanding is an unsigned 32-bit number, the release time is in milliseconds. */
  datatype WakeState = WakeState(outstanding: int, autoReleaseTime: int, held: bool)

  const NONE_YET := WakeState(0, 0, false)

  /** One call: so many wake-up events written and handled. The clock is read when the release time is set
      and again when it is checked. acquired and released say whether the system calls succeed. */
  datatype Call = Call(written: int, handled: int, writeTime: int, checkTime: int, acquired: bool, released: bool)

  /** The new count: computed in unsigned arithmetic, read as a signed number, never below zero. */
  function NewCount(s: WakeState, c: Call): int
  {
    var v := ToInt32(ToUint32(s.outstanding + c.written - c.handled));
    if v < 0 then 0 else v
  }

  function Update(s: WakeState, c: Call, timeoutMs: int): WakeState
  {
    var n := NewCount(s, c);
    var time := if c.written > 0 then c.writeTime + timeoutMs else s.autoReleaseTime;
    if !s.held && n > 0 && c.acquired then WakeState(n, time, true)
    else if s.held then
      var left := if c.checkTime > time then 0 else n;
      WakeState(left, time, !(left == 0 && c.released))
    else WakeState(n, time, false)
  }

  predicate Consistent(s: WakeState)
  {
    0 <= s.outstanding < TWO_31 && (s.held <==> s.outstanding > 0)
  }

  /** When the system calls succeed, after every call the lock is held exactly while events are outstanding. */
  lemma HeldIffOutstanding(s: WakeState, c: Call, timeoutMs: int)
    requires Consistent(s) && c.acquired && c.released
    ensures Consistent(Update(s, c, timeoutMs))
  {
  }

  /** So many events written and so many acknowledged, as the callers hand them in: a size and the unsigned
      number read from the wake lock queue, both turned into signed 32-bit numbers. */
  predicate Carries(c: Call, events: nat, acknowledged: nat)
  {
    acknowledged < TWO_32 && c.written == ToInt32(events) && c.handled == ToInt32(acknowledged)
  }

  lemma SignedSum(o: int, a: int, b: int)
    ensures ToInt32(ToUint32(o + ToInt32(a) - ToInt32(b))) == ToInt32(o + a - b)
  {
    var m, n := (a - ToInt32(a)) / TWO_32, (b - ToInt32(b)) / TWO_32;
    assert a == ToInt32(a) + m * TWO_32 && b == ToInt32(b) + n * TWO_32;
    SameResidue(ToUint32(o + ToInt32(a) - ToInt32(b)), o + ToInt32(a) - ToInt32(b));
    SameResidue(o + ToInt32(a) - ToInt32(b), o + a - b);
  }

  lemma SameResidue(x: int, y: int)
    requires (x - y) % TWO_32 == 0
    ensures ToInt32(x) == ToInt32(y)
  {
  }

  lemma ClippedIff(x: int)
    requires -TWO_32 < x
    ensures (if ToInt32(x) < 0 then 0 else ToInt32(x)) == (if x < 0 then 0 else x) <==> -TWO_31 <= x < TWO_31
  {
  }

  /** The new count is the true balance, or zero when that is negative, exactly when the balance is a signed
      32-bit number. Above, written events are forgotten; below, acknowledgements count as written events. */
  lemma CountIsBalanceIff(s: WakeState, c: Call, events: nat, acknowledged: nat)
    requires 0 <= s.outstanding < TWO_31 && Carries(c, events, acknowledged)
    ensures var balance := s.outstanding + events - acknowledged;
      NewCount(s, c) == (if balance < 0 then 0 else balance) <==> -TWO_31 <= balance < TWO_31
  {
    SignedSum(s.outstanding, events, acknowledged);
    ClippedIff(s.outstanding + events - acknowledged);
  }

  lemma SetsReleaseTimeIff(events: nat)
    ensures ToInt32(events) > 0 <==> 0 < events % TWO_32 < TWO_31
  {
  }

  /** What one call leaves, whether or not the system calls succeed. Unless the lock was held and the release
      time has passed, it leaves the true balance, or zero when that is negative, exactly when the balance is a
      signed 32-bit number; a late call of a held lock leaves nothing. */
  lemma UpdateLeavesBalanceIff(s: WakeState, c: Call, timeoutMs: int, events: nat, acknowledged: nat)
    requires 0 <= s.outstanding < TWO_31 && Carries(c, events, acknowledged)
    ensures var t, balance := Update(s, c, timeoutMs), s.outstanding + events - acknowledged;
      var late := s.held && c.checkTime > t.autoReleaseTime;
      && t.autoReleaseTime == (if 0 < events % TWO_32 < TWO_31 then c.writeTime + timeoutMs else s.autoReleaseTime)
      && (late ==> t.outstanding == 0)
      && (!late ==> (t.outstanding == (if balance < 0 then 0 else balance) <==> -TWO_31 <= balance < TWO_31))
      && (t.held <==> (s.held && !c.released) || (t.outstanding > 0 && (s.held || c.acquired)))
  {
    SetsReleaseTimeIff(events);
    CountIsBalanceIff(s, c, events, acknowledged);
    UpdateLeavesCount(s, c, timeoutMs, NewCount(s, c));
  }

  lemma UpdateLeavesCount(s: WakeState, c: Call, timeoutMs: int, n: int)
    requires n == NewCount(s, c)
    ensures var t := Update(s, c, timeoutMs);
      && t.autoReleaseTime == (if c.written > 0 then c.writeTime + timeoutMs else s.autoReleaseTime)
      && t.outstanding == (if s.held && c.checkTime > t.autoReleaseTime then 0 else n)
      && (t.held <==> (s.held && !c.released) || (t.outstanding > 0 && (s.held || c.acquired)))
  {
  }

  /** So when the balance is in range and the system calls succeed, the lock is held after a call that is not
      late exactly when something is left to acknowledge, and never after a late one. */
  lemma HeldIffBalance(s: WakeState, c: Call, timeoutMs: int, events: nat, acknowledged: nat)
    requires Consistent(s) && c.acquired && c.released && Carries(c, events, acknowledged)
    requires -TWO_31 <= s.outstanding + events - acknowledged < TWO_31
    ensures var t, balance := Update(s, c, timeoutMs), s.outstanding + events - acknowledged;
      if s.held && c.checkTime > t.autoReleaseTime then t.outstanding == 0 && !t.held
      else t.outstanding == (if balance < 0 then 0 else balance) && (t.held <==> balance > 0)
  {
    UpdateLeavesBalanceIff(s, c, timeoutMs, events, acknowledged);
  }

  /** A tick of the reading loop writes nothing. One that comes after the release time releases the lock
      exactly when the lock was held before or the tick itself leaves nothing outstanding. */
  lemma ReleasedAfterTimeoutIff(s: WakeState, c: Call, timeoutMs: int)
    requires Consistent(s) && c.acquired && c.released
    requires c.written == 0 && c.checkTime > s.autoReleaseTime
    ensures !Update(s, c, timeoutMs).held <==> s.held || NewCount(s, c) == 0
  {
  }

  // ---------- runs ----------

  function UpdateAll(s: WakeState, calls: seq<Call>, timeoutMs: int): WakeState
    decreases |calls|
  {
    if calls == [] then s else UpdateAll(Update(s, calls[0], timeoutMs), calls[1..], timeoutMs)
  }

  predicate SystemCallsSucceed(calls: seq<Call>)
  {
    forall i :: 0 <= i < |calls| ==> calls[i].acquired && calls[i].released
  }

  /** The time of the last write of wake-up events in a run, or the given time when there was none. */
  function LastWrite(calls: seq<Call>, before: int): int
    decreases |calls|
  {
    if calls == [] then before
    else LastWrite(calls[1..], if calls[0].written > 0 then calls[0].writeTime else before)
  }

  lemma {:induction false} RunKeeps(s: WakeState, calls: seq<Call>, timeoutMs: int, before: int)
    requires Consistent(s) && SystemCallsSucceed(calls) && s.autoReleaseTime == before + timeoutMs
    ensures Consistent(UpdateAll(s, calls, timeoutMs))
    ensures UpdateAll(s, calls, timeoutMs).autoReleaseTime == LastWrite(calls, before) + timeoutMs
    decreases |calls|
  {
    if calls != [] {
      var c := calls[0];
      HeldIffOutstanding(s, c, timeoutMs);
      RunKeeps(Update(s, c, timeoutMs), calls[1..], timeoutMs, if c.written > 0 then c.writeTime else before);
    }
  }

  /** Over every run: a tick that comes later than the timeout after the last write of wake-up events leaves
      the lock released, exactly when the lock was held until then or the number acknowledged is at most
      2^31. So a lock once held is released, however many acknowledgements are missing. */
  lemma NeverHeldForeverIff(calls: seq<Call>, tick: Call, acknowledged: nat, timeoutMs: int)
    requires SystemCallsSucceed(calls + [tick]) && Carries(tick, 0, acknowledged)
    requires tick.checkTime > LastWrite(calls, -timeoutMs) + timeoutMs
    ensures var s := UpdateAll(NONE_YET, calls, timeoutMs);
      !Update(s, tick, timeoutMs).held <==> s.held || acknowledged <= TWO_31
  {
    assert forall i :: 0 <= i < |calls| ==> (calls + [tick])[i] == calls[i];
    assert (calls + [tick])[|calls|] == tick;
    RunKeeps(NONE_YET, calls, timeoutMs, -timeoutMs);
    var s := UpdateAll(NONE_YET, calls, timeoutMs);
    ReleasedAfterTimeoutIff(s, tick, timeoutMs);
    SignedSum(s.outstanding, 0, acknowledged);
  }

  // ---------- runs without a late call ----------

  /** A call together with how many events were written and how many acknowledged. */
  datatype Exchange = Exchange(events: nat, acknowledged: nat, call: Call)

  function Calls(run: seq<Exchange>): (r: seq<Call>)
    ensures |r| == |run|
  {
    seq(|run|, i requires 0 <= i < |run| => run[i].call)
  }

  /** Events written in a run that are not acknowledged. An acknowledgement of more than there are takes all. */
  function Unacknowledged(run: seq<Exchange>): nat
  {
    if run == [] then 0
    else
      var x, n := run[|run| - 1], |run| - 1;
      var balance := Unacknowledged(run[..n]) + x.events - x.acknowledged;
      if balance < 0 then 0 else balance
  }

  /** Each call says what was exchanged, its system calls succeed, and the balance stays in range. */
  predicate Sound(run: seq<Exchange>)
  {
    run == [] ||
      var x, before := run[|run| - 1], run[..|run| - 1];
      && Sound(before) && Carries(x.call, x.events, x.acknowledged) && x.call.acquired && x.call.released
      && -TWO_31 <= Unacknowledged(before) + x.events - x.acknowledged < TWO_31
  }

  /** No call comes later than the timeout after the last write while something is unacknowledged. */
  predicate InTime(run: seq<Exchange>, timeoutMs: int)
  {
    run == [] ||
      var x, before := run[|run| - 1], run[..|run| - 1];
      && InTime(before, timeoutMs)
      && (Unacknowledged(before) > 0 ==> x.call.checkTime <= LastWrite(Calls(run), -timeoutMs) + timeoutMs)
  }

  lemma {:induction false} UpdateLast(s: WakeState, calls: seq<Call>, c: Call, timeoutMs: int)
    ensures UpdateAll(s, calls + [c], timeoutMs) == Update(UpdateAll(s, calls, timeoutMs), c, timeoutMs)
    decreases |calls|
  {
    if calls == [] {
      assert [] + [c] == [c] && [c][1..] == [];
    } else {
      UpdateLast(Update(s, calls[0], timeoutMs), calls[1..], c, timeoutMs);
      assert (calls + [c])[1..] == calls[1..] + [c];
    }
  }

  lemma {:induction false} LastWriteLast(calls: seq<Call>, c: Call, before: int)
    ensures LastWrite(calls + [c], before) == if c.written > 0 then c.writeTime else LastWrite(calls, before)
    decreases |calls|
  {
    if calls == [] {
      assert [] + [c] == [c] && [c][1..] == [];
    } else {
      LastWriteLast(calls[1..], c, if calls[0].written > 0 then calls[0].writeTime else before);
      assert (calls + [c])[1..] == calls[1..] + [c];
    }
  }

  /** Over every run without a late call, the count is exactly the number of unacknowledged events, and the
      lock is held exactly while there are any. */
  lemma {:induction false} HeldWhileUnacknowledged(run: seq<Exchange>, timeoutMs: int)
    requires Sound(run) && InTime(run, timeoutMs)
    ensures var s := UpdateAll(NONE_YET, Calls(run), timeoutMs);
      && s.outstanding == Unacknowledged(run) && (s.held <==> Unacknowledged(run) > 0)
      && s.autoReleaseTime == LastWrite(Calls(run), -timeoutMs) + timeoutMs
    decreases |run|
  {
    if run != [] {
      var n := |run| - 1;
      var x, before := run[n], run[..n];
      HeldWhileUnacknowledged(before, timeoutMs);
      assert Calls(run) == Calls(before) + [x.call];
      UpdateLast(NONE_YET, Calls(before), x.call, timeoutMs);
      LastWriteLast(Calls(before), x.call, -timeoutMs);
      var s := UpdateAll(NONE_YET, Calls(before), timeoutMs);
      UpdateLeavesCount(s, x.call, timeoutMs, NewCount(s, x.call));
      HeldIffBalance(s, x.call, timeoutMs, x.events, x.acknowledged);
    }
  }

  /** Written less acknowledged events. */
  function Difference(run: seq<Exchange>): int
  {
    if run == [] then 0
    else Difference(run[..|run| - 1]) + run[|run| - 1].events - run[|run| - 1].acknowledged
  }

  /** Where at no time more has been acknowledged than written, the unacknowledged events are the difference of
      the totals. */
  lemma {:induction false} UnacknowledgedIsDifference(run: seq<Exchange>)
    requires forall n :: 0 <= n <= |run| ==> Difference(run[..n]) >= 0
    ensures Unacknowledged(run) == Difference(run)
    decreases |run|
  {
    if run != [] {
      var before := run[..|run| - 1];
      forall n | 0 <= n <= |before| ensures before[..n] == run[..n] {
      }
      UnacknowledgedIsDifference(before);
      assert run[..|run|] == run;
    }
  }

  lemma OneCall(s: WakeState, c: Call, calls: seq<Call>, timeoutMs: int)
    ensures UpdateAll(s, [c] + calls, timeoutMs) == UpdateAll(Update(s, c, timeoutMs), calls, timeoutMs)
  {
    assert ([c] + calls)[1..] == calls;
  }

  /** Where the balance is too small: nothing was ever written, an acknowledgement of 2^32 - 1 arrives in a
      late tick, and the lock is acquired. */
  lemma HugeAcknowledgementAcquires()
    ensures exists tick: Call ::
      && Carries(tick, 0, 0xFFFF_FFFF) && SystemCallsSucceed([tick])
      && tick.checkTime > LastWrite([], -1000) + 1000 && UpdateAll(NONE_YET, [tick], 1000).held
  {
    var tick := Call(0, -1, 0, 5, true, true);
    OneCall(NONE_YET, tick, [], 1000);
    assert [tick] + [] == [tick];
    assert Carries(tick, 0, 0xFFFF_FFFF) && Update(NONE_YET, tick, 1000).held;
  }

  /** As many events are outstanding as the signed count can hold. */
  const FULL := WakeState(TWO_31 - 1, 1000, true)

  lemma FillAndOverflow(c: Call, d: Call)
    requires c == Call(TWO_31 - 1, 0, 0, 0, true, true) && d == Call(1, 0, 0, 0, true, true)
    ensures Carries(c, TWO_31 - 1, 0) && Update(NONE_YET, c, 1000) == FULL
    ensures Carries(d, 1, 0) && !Update(FULL, d, 1000).held
  {
  }

  /** Where it is too large: 2^31 - 1 events and then one more are written, none is acknowledged, no time
      passes, and the lock is released. */
  lemma OverflowReleases()
    ensures exists c: Call, d: Call ::
      && SystemCallsSucceed([c, d]) && Carries(c, TWO_31 - 1, 0) && Carries(d, 1, 0)
      && UpdateAll(NONE_YET, [c], 1000).held && !UpdateAll(NONE_YET, [c, d], 1000).held
  {
    var c, d := Call(TWO_31 - 1, 0, 0, 0, true, true), Call(1, 0, 0, 0, true, true);
    FillAndOverflow(c, d);
    OneCall(NONE_YET, c, [], 1000);
    OneCall(NONE_YET, c, [d], 1000);
    OneCall(FULL, d, [], 1000);
    assert [c] + [] == [c] && [d] + [] == [d] && [c] + [d] == [c, d];
  }

  // ---------- the object ----------

  class Sensors {
    const timeoutMs: int
    var outstandingWakeUpEvents: int
    var autoReleaseWakeLockTime: int
    var hasWakeLock: bool
    var eventQueue: seq<int>
    const capacity: nat

    ghost function State(): WakeState
      reads this
    {
      WakeState(outstandingWakeUpEvents, autoReleaseWakeLockTime, hasWakeLock)
    }

    constructor (timeoutMs: int, capacity: nat)
      ensures State() == NONE_YET && eventQueue == [] && this.timeoutMs == timeoutMs && this.capacity == capacity
    {
      this.timeoutMs, this.capacity := timeoutMs, capacity;
      outstandingWakeUpEvents, autoReleaseWakeLockTime, hasWakeLock, eventQueue := 0, 0, false, [];
    }

    method UpdateWakeLock(c: Call)
      modifies `outstandingWakeUpEvents, `autoReleaseWakeLockTime, `hasWakeLock
      ensures State() == Update(old(State()), c, timeoutMs)
    {
      var newVal := ToInt32(ToUint32(outstandingWakeUpEvents + c.written - c.handled));
      if newVal < 0 {
        outstandingWakeUpEvents := 0;
      } else {
        outstandingWakeUpEvents := newVal;
      }
      if c.written > 0 {
        autoReleaseWakeLockTime := c.writeTime + timeoutMs;
      }
      if !hasWakeLock && outstandingWakeUpEvents > 0 && c.acquired {
        hasWakeLock := true;
      } else if hasWakeLock {
        if c.checkTime > autoReleaseWakeLockTime {
          outstandingWakeUpEvents := 0;
        }
        if outstandingWakeUpEvents == 0 && c.released {
          hasWakeLock := false;
        }
      }
    }

    /** All events are written or none; only written wake-up events are counted. */
    method PostEvents(events: seq<int>, wakeup: bool, c: Call)
      requires Carries(c, |events|, 0)
      modifies this
      ensures eventQueue ==
        if |old(eventQueue)| + |events| <= capacity then old(eventQueue) + events else old(eventQueue)
      ensures State() ==
        if wakeup && |old(eventQueue)| + |events| <= capacity then Update(old(State()), c, timeoutMs) else old(State())
    {
      if |eventQueue| + |events| <= capacity {
        eventQueue := eventQueue + events;
        if wakeup {
          UpdateWakeLock(c);
        }
      }
    }

    /** The loop that reads acknowledgements; a read that times out counts as zero. */
    method ReadWakeLockFmq(ticks: seq<Call>)
      modifies `outstandingWakeUpEvents, `autoReleaseWakeLockTime, `hasWakeLock
      ensures State() == UpdateAll(old(State()), ticks, timeoutMs)
    {
      for i := 0 to |ticks|
        invariant UpdateAll(State(), ticks[i..], timeoutMs) == UpdateAll(old(State()), ticks, timeoutMs)
      {
        assert ticks[i..][0] == ticks[i] && ticks[i..][1..] == ticks[i + 1..];
        UpdateWakeLock(ticks[i]);
      }
    }
  }
}
