// The sampling thread of a sensor: it waits, and samples when the period in force has passed.

module SamplingLoop {

  /** A sample and the period that was in force when it was taken; times are in nanoseconds. */
  datatype Sample = Sample(time: int, period: int)

  /** samples is a log: no step looks at it. */
  datatype State = State(enabled: bool, period: int, lastSample: int, clock: nat, samples: seq<Sample>)

  const INITIAL := State(false, 0, 0, 0, [])

  /** The delays a sensor announces, in microseconds. */
  datatype Delays = Delays(min: int, max: int)

  /** Loop: one round of the sampling thread, which runs at any time as it may be woken at any time. */
  datatype Step = Batch(periodNs: int) | Activate(enable: bool) | Loop(now: nat)

  function Clamp(x: int, lo: int, hi: int): (r: int)
    requires lo <= hi
    ensures lo <= r <= hi && (lo <= x <= hi ==> r == x)
  {
    if x < lo then lo else if hi < x then hi else x
  }

  /** No period between the bounds is nearer. */
  lemma ClampIsNearest(x: int, lo: int, hi: int, y: int)
    requires lo <= y <= hi
    ensures var r := Clamp(x, lo, hi); (if x < r then r - x else x - r) <= (if x < y then y - x else x - y)
  {
  }

  predicate ValidDelays(d: Delays)
  {
    0 < d.min <= d.max
  }

  predicate Enabled(s: State, l: Step)
  {
    l.Loop? ==> s.enabled && s.clock <= l.now
  }

  function Next(d: Delays, s: State, l: Step): State
    requires ValidDelays(d)
  {
    match l
    case Batch(p) => s.(period := Clamp(p, d.min * 1000, d.max * 1000))
    case Activate(e) => s.(enabled := e)
    case Loop(now) =>
      if now >= s.lastSample + s.period then
        s.(clock := now, lastSample := now, samples := s.samples + [Sample(now, s.period)])
      else s.(clock := now)
  }

  /** How long the thread waits after a round, with the period read once to decide and once more to wait. */
  function Wait(lastSample: int, now: int, decided: int, waited: int): int
  {
    if now >= lastSample + decided then waited else lastSample + decided - now
  }

  /** Each sample comes at least the period in force after the one before it. */
  predicate Spaced(samples: seq<Sample>)
  {
    forall i :: 0 < i < |samples| ==> samples[i].time - samples[i - 1].time >= samples[i].period
  }

  predicate Inv(d: Delays, s: State)
  {
    && Spaced(s.samples) && 0 <= s.lastSample <= s.clock
    && (s.samples != [] ==> s.lastSample == s.samples[|s.samples| - 1].time)
    && (s.period == 0 || d.min * 1000 <= s.period <= d.max * 1000)
  }

  lemma StepKeepsInv(d: Delays, s: State, l: Step)
    requires ValidDelays(d) && Inv(d, s) && Enabled(s, l)
    ensures Inv(d, Next(d, s, l))
  {
  }

  predicate Runs(d: Delays, s: State, steps: seq<Step>, t: State)
    requires ValidDelays(d)
    decreases |steps|
  {
    if steps == [] then s == t
    else Enabled(s, steps[0]) && Runs(d, Next(d, s, steps[0]), steps[1..], t)
  }

  /** A batch call precedes the first activation. */
  predicate BatchedFirst(steps: seq<Step>)
  {
    forall i :: 0 <= i < |steps| && steps[i] == Activate(true) ==> exists k :: 0 <= k < i && steps[k].Batch?
  }

  /** Configured: no sample was taken, and none can be, before a period was set. */
  predicate Configured(d: Delays, s: State)
  {
    && (s.enabled ==> d.min * 1000 <= s.period)
    && forall i :: 0 <= i < |s.samples| ==> d.min * 1000 <= s.samples[i].period
  }

  lemma {:induction false} RunKeeps(d: Delays, s: State, steps: seq<Step>, t: State)
    requires ValidDelays(d) && Inv(d, s) && Runs(d, s, steps, t)
    ensures Inv(d, t)
    ensures Configured(d, s) && (s.period != 0 || BatchedFirst(steps)) ==> Configured(d, t)
    decreases |steps|
  {
    if steps != [] {
      StepKeepsInv(d, s, steps[0]);
      RunKeeps(d, Next(d, s, steps[0]), steps[1..], t);
      if BatchedFirst(steps) && !steps[0].Batch? {
        RestBatchedFirst(steps);
      }
    }
  }

  lemma RestBatchedFirst(steps: seq<Step>)
    requires steps != [] && BatchedFirst(steps) && !steps[0].Batch?
    ensures steps[0] != Activate(true) && BatchedFirst(steps[1..])
  {
    var rest := steps[1..];
    forall i | 0 <= i < |rest| && rest[i] == Activate(true) ensures exists k :: 0 <= k < i && rest[k].Batch? {
      assert steps[i + 1] == Activate(true);
      var k :| 0 <= k < i + 1 && steps[k].Batch?;
      assert rest[k - 1].Batch?;
    }
  }

  /** Over every run of batch and activate calls and rounds of the thread, with a clock that never runs
      backwards: consecutive samples are at least the period in force apart, also across disabling and
      enabling, and at least the minimum delay once a batch call has preceded the first activation. */
  lemma SamplesAreSpaced(d: Delays, steps: seq<Step>, t: State, i: int)
    requires ValidDelays(d) && Runs(d, INITIAL, steps, t) && 0 < i < |t.samples|
    ensures t.samples[i].time - t.samples[i - 1].time >= t.samples[i].period
    ensures BatchedFirst(steps) ==> t.samples[i].time - t.samples[i - 1].time >= d.min * 1000
  {
    RunKeeps(d, INITIAL, steps, t);
  }

  /** With the clock not before the last sample, the wait is positive exactly when the period waited for is
      not zero or the next sample is not due; it is never longer than the longer of the two periods read, and
      so, without a change in between, than the period. */
  lemma WaitIsBoundedIff(s: State, now: int, decided: int, waited: int)
    requires s.lastSample <= now && 0 <= decided && 0 <= waited
    ensures 0 < Wait(s.lastSample, now, decided, waited) <==> waited > 0 || now < s.lastSample + decided
    ensures 0 <= Wait(s.lastSample, now, decided, waited) <= if decided < waited then waited else decided
  {
  }

  /** A sample is never late because of the wait: the round after it, if the period stays, samples. */
  lemma WaitEndsInSample(d: Delays, s: State, now: nat)
    requires ValidDelays(d) && Inv(d, s) && s.enabled && s.clock <= now
    ensures var t := Next(d, s, Loop(now));
      var later := now + Wait(s.lastSample, now, s.period, s.period);
      0 <= later && |Next(d, t, Loop(later)).samples| == |t.samples| + 1
  {
  }

  // ---------- the object ----------

  class Sensor {
    const delays: Delays
    var isEnabled: bool
    var samplingPeriodNs: int
    var lastSampleTimeNs: int
    // Logs, which no method reads to decide anything.
    var clock: nat
    var samples: seq<Sample>

    ghost function Value(): State
      reads this
    {
      State(isEnabled, samplingPeriodNs, lastSampleTimeNs, clock, samples)
    }

    constructor (delays: Delays)
      ensures Value() == INITIAL && this.delays == delays
    {
      this.delays := delays;
      isEnabled, samplingPeriodNs, lastSampleTimeNs, clock, samples := false, 0, 0, 0, [];
    }

    method SetPeriod(samplingPeriodNs: int)
      requires ValidDelays(delays)
      modifies `samplingPeriodNs
      ensures Value() == Next(delays, old(Value()), Batch(samplingPeriodNs))
      ensures samplingPeriodNs < delays.min * 1000 ==> this.samplingPeriodNs == delays.min * 1000
      ensures samplingPeriodNs > delays.max * 1000 ==> this.samplingPeriodNs == delays.max * 1000
      ensures delays.min * 1000 <= samplingPeriodNs <= delays.max * 1000 ==>
        this.samplingPeriodNs == samplingPeriodNs
    {
      var period := Clamp(samplingPeriodNs, delays.min * 1000, delays.max * 1000);
      if this.samplingPeriodNs != period {
        this.samplingPeriodNs := period;
      }
    }

    method SetEnabled(enable: bool)
      requires ValidDelays(delays)
      modifies `isEnabled
      ensures Value() == Next(delays, old(Value()), Activate(enable)) && isEnabled == enable
    {
      if isEnabled != enable {
        isEnabled := enable;
      }
    }

    /** One round of the thread: returns whether a sample was posted and how long to wait. */
    method RunOnce(now: nat) returns (posted: bool, wait: int)
      requires ValidDelays(delays) && isEnabled && clock <= now
      modifies `lastSampleTimeNs, `clock, `samples
      ensures Value() == Next(delays, old(Value()), Loop(now))
      ensures posted <==> now >= old(lastSampleTimeNs) + samplingPeriodNs
      ensures samples == if posted then old(samples) + [Sample(now, samplingPeriodNs)] else old(samples)
      ensures lastSampleTimeNs == if posted then now else old(lastSampleTimeNs)
      ensures now + wait == lastSampleTimeNs + samplingPeriodNs
      ensures wait == Wait(old(lastSampleTimeNs), now, samplingPeriodNs, samplingPeriodNs)
    {
      var nextSampleTime := lastSampleTimeNs + samplingPeriodNs;
      posted := now >= nextSampleTime;
      if posted {
        lastSampleTimeNs := now;
        nextSampleTime := lastSampleTimeNs + samplingPeriodNs;
        samples := samples + [Sample(now, samplingPeriodNs)];
      }
      clock := now;
      wait := nextSampleTime - now;
    }
  }
}
