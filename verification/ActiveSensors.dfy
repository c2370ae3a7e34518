// The configuration table of the sensors and the sorted array of pointers to the active ones.

module ActiveSensors {
  import opened Arithmetic
  import opened RateChain

  const TABLE_SIZE := 32

  /** One entry of the configuration table; index is its place there. */
  class SensorConfig {
    const index: int
    var dataRate: int
    var latency: Latency
    var fifoDataLen: int
    var delayOnchangeHz: real

    constructor (index: int, dataRate: int, latency: Latency, fifoDataLen: int)
      ensures this.index == index && this.dataRate == dataRate
    {
      this.index, this.dataRate, this.latency, this.fifoDataLen := index, dataRate, latency, fifoDataLen;
      delayOnchangeHz := 0.0;
    }
  }

  /** Division of 64-bit integers as C does it, towards zero. */
  function TruncatedDiv(a: int, b: int): int
    requires b != 0
  {
    if a >= 0 then a / b else -((-a) / b)
  }

  /** The quotient with a remainder smaller than the divisor that has the sign of the dividend. */
  lemma TruncatedDivIs(a: int, b: int)
    requires b != 0
    ensures var r := a - TruncatedDiv(a, b) * b;
      (a >= 0 ==> 0 <= r) && (a <= 0 ==> r <= 0) && -(if b < 0 then -b else b) < r < (if b < 0 then -b else b)
  {
    var n := if a >= 0 then a else -a;
    assert n == n / b * b + n % b;
    if a < 0 {
      assert TruncatedDiv(a, b) == -(n / b);
      assert -(n / b) * b == -(n / b * b);
    }
  }

  /** The FIFO watermark, cut to 16 bits. */
  function FifoDataLen(maxReportLatencyNs: int, samplingPeriodNs: int): int
    requires samplingPeriodNs != 0
  {
    TruncatedDiv(maxReportLatencyNs, samplingPeriodNs) % 0x1_0000
  }

  lemma FifoFits(maxReportLatencyNs: int, samplingPeriodNs: int)
    requires 0 < samplingPeriodNs && 0 <= maxReportLatencyNs < 0x1_0000 * samplingPeriodNs
    ensures FifoDataLen(maxReportLatencyNs, samplingPeriodNs) == maxReportLatencyNs / samplingPeriodNs
  {
    var q := maxReportLatencyNs / samplingPeriodNs;
    QuotientBounds(maxReportLatencyNs, samplingPeriodNs);
    if q < 0 {
      ProductsOrdered(q + 1, 0, samplingPeriodNs);
    } else if q >= 0x1_0000 {
      ProductsOrdered(0x1_0000, q, samplingPeriodNs);
    }
  }

  /** The watermark is how many whole periods the latency covers, exactly when the latency is not negative and
      that number fits into 16 bits. */
  lemma FifoCoversLatencyIff(maxReportLatencyNs: int, samplingPeriodNs: int)
    requires 0 < samplingPeriodNs
    ensures var n := FifoDataLen(maxReportLatencyNs, samplingPeriodNs);
      n * samplingPeriodNs <= maxReportLatencyNs < (n + 1) * samplingPeriodNs
      <==> 0 <= maxReportLatencyNs < 0x1_0000 * samplingPeriodNs
  {
    var n := FifoDataLen(maxReportLatencyNs, samplingPeriodNs);
    if 0 <= maxReportLatencyNs < 0x1_0000 * samplingPeriodNs {
      FifoFits(maxReportLatencyNs, samplingPeriodNs);
      QuotientBounds(maxReportLatencyNs, samplingPeriodNs);
    } else {
      ProductsOrdered(0, n, samplingPeriodNs);
      ProductsOrdered(n + 1, 0x1_0000, samplingPeriodNs);
    }
  }

  /** The entry holds what a batch call asked for. */
  predicate Configured(c: SensorConfig, samplingPeriodNs: int, maxReportLatencyNs: int)
    requires samplingPeriodNs != 0
    reads c
  {
    && c.dataRate == EncodeDatarate(samplingPeriodNs)
    && c.latency == EncodeMaxLatency(maxReportLatencyNs)
    && c.fifoDataLen == FifoDataLen(maxReportLatencyNs, samplingPeriodNs)
  }

  // ---------- strictly sorted indices ----------

  predicate StrictlySorted(s: seq<int>)
  {
    forall i, j :: 0 <= i < j < |s| ==> s[i] < s[j]
  }

  predicate InTable(s: seq<int>)
  {
    forall i :: 0 <= i < |s| ==> 0 <= s[i] < TABLE_SIZE
  }

  function Elements(s: seq<int>): set<int>
  {
    set x | x in s
  }

  /** Strictly sorted indices leave room: the k-th is at least k and at most so far from the end. */
  lemma {:induction false} SortedBounds(s: seq<int>, k: nat)
    requires StrictlySorted(s) && InTable(s) && k < |s|
    ensures k <= s[k]
    decreases k
  {
    if k > 0 {
      SortedBounds(s, k - 1);
    }
  }

  lemma {:induction false} SortedBoundsAbove(s: seq<int>, k: nat)
    requires StrictlySorted(s) && InTable(s) && k < |s|
    ensures s[k] <= TABLE_SIZE - (|s| - k)
    decreases |s| - k
  {
    if k + 1 < |s| {
      SortedBoundsAbove(s, k + 1);
    }
  }

  /** A full array holds every index, each in its own slot. */
  lemma FullHoldsAll(s: seq<int>, x: int)
    requires StrictlySorted(s) && InTable(s) && 0 <= x < TABLE_SIZE <= |s|
    ensures s[x] == x
  {
    SortedBoundsAbove(s, 0);
    SortedBounds(s, x);
    SortedBoundsAbove(s, x);
  }

  /** Pigeonhole: an index that is not there yet leaves the array at least one slot short of full. */
  lemma RoomForOneMore(s: seq<int>, x: int)
    requires StrictlySorted(s) && InTable(s) && 0 <= x < TABLE_SIZE && x !in s
    ensures |s| < TABLE_SIZE
  {
    if |s| >= TABLE_SIZE {
      FullHoldsAll(s, x);
    }
  }

  /** A set has only one strictly sorted enumeration, so the array is a function of the enabled set. */
  lemma {:induction false} EnumerationIsUnique(s: seq<int>, t: seq<int>)
    requires StrictlySorted(s) && StrictlySorted(t) && Elements(s) == Elements(t)
    ensures s == t
    decreases |s|
  {
    NonEmpty(s);
    NonEmpty(t);
    if s != [] && t != [] {
      FirstIsLeast(s, t);
      FirstIsLeast(t, s);
      RestElements(s);
      RestElements(t);
      EnumerationIsUnique(s[1..], t[1..]);
    }
  }

  lemma NonEmpty(s: seq<int>)
    ensures s == [] <==> Elements(s) == {}
  {
    if s != [] {
      assert s[0] in Elements(s);
    }
  }

  lemma FirstIsLeast(s: seq<int>, t: seq<int>)
    requires s != [] && t != [] && StrictlySorted(s) && Elements(s) == Elements(t)
    ensures s[0] <= t[0]
  {
    assert t[0] in Elements(t);
    var i :| 0 <= i < |s| && s[i] == t[0];
  }

  lemma RestElements(s: seq<int>)
    requires s != [] && StrictlySorted(s)
    ensures Elements(s[1..]) == Elements(s) - {s[0]}
  {
  }

  // ---------- what a call inserts or deletes ----------

  predicate Splits(s: seq<int>, i: nat, x: int)
    requires i <= |s|
  {
    (forall k :: 0 <= k < i ==> s[k] < x) && (forall k :: i <= k < |s| ==> x <= s[k])
  }

  lemma InsertAt(s: seq<int>, i: nat, x: int)
    requires StrictlySorted(s) && i <= |s| && Splits(s, i, x) && x !in s
    ensures StrictlySorted(s[..i] + [x] + s[i..])
    ensures Elements(s[..i] + [x] + s[i..]) == Elements(s) + {x}
  {
  }

  lemma DeleteAt(s: seq<int>, i: nat)
    requires StrictlySorted(s) && i < |s|
    ensures StrictlySorted(s[..i] + s[i + 1..])
    ensures Elements(s[..i] + s[i + 1..]) == Elements(s) - {s[i]}
  {
    var t := s[..i] + s[i + 1..];
    forall x | x in s && x != s[i] ensures x in t {
      var k :| 0 <= k < |s| && s[k] == x;
      assert k < i ==> t[k] == x;
      assert k > i ==> t[k - 1] == x;
    }
  }

  /** Copies n elements inside an array; source and destination may overlap, both must lie inside. */
  method MemMove<T>(a: array<T>, dst: nat, src: nat, n: nat)
    requires dst + n <= a.Length && src + n <= a.Length
    modifies a
    ensures forall k :: 0 <= k < a.Length ==>
      a[k] == if dst <= k < dst + n then old(a[src + (k - dst)]) else old(a[k])
  {
    forall k | dst <= k < dst + n {
      a[k] := a[src + (k - dst)];
    }
  }

  class ConfigTable {
    const configs: seq<SensorConfig>
    const refs: array<SensorConfig?>
    var activeCnt: int
    ghost var active: seq<int>

    /** The array holds pointers to the entries of the active sensors, strictly sorted, and NULL behind
        them; the counter is their number. */
    ghost predicate Valid()
      reads this, refs
    {
      && |configs| == TABLE_SIZE && (forall i :: 0 <= i < |configs| ==> configs[i].index == i)
      && refs.Length == TABLE_SIZE
      && activeCnt == |active| <= TABLE_SIZE
      && StrictlySorted(active) && InTable(active)
      && (forall i :: 0 <= i < |active| ==> refs[i] == configs[active[i]])
      && (forall i :: |active| <= i < TABLE_SIZE ==> refs[i] == null)
    }

    ghost function Enabled(): set<int>
      reads this
    {
      Elements(active)
    }

    constructor (configs: seq<SensorConfig>)
      requires |configs| == TABLE_SIZE && forall i :: 0 <= i < |configs| ==> configs[i].index == i
      ensures Valid() && Enabled() == {} && this.configs == configs && fresh(refs)
    {
      this.configs := configs;
      refs := new SensorConfig?[TABLE_SIZE](_ => null);
      activeCnt, active := 0, [];
    }

    /** Opens a gap at slot i and puts the sensor's entry there. */
    method Insert(i: nat, x: int)
      requires Valid() && 0 <= x < TABLE_SIZE && x !in active
      requires i <= |active| && Splits(active, i, x)
      modifies this, refs
      ensures Valid() && Enabled() == old(Enabled()) + {x}
    {
      RoomForOneMore(active, x);
      InsertAt(active, i, x);
      MemMove(refs, i + 1, i, activeCnt - i);
      refs[i] := configs[x];
      activeCnt := activeCnt + 1;
      active := active[..i] + [x] + active[i..];
    }

    /** Closes the gap that the entry at slot i leaves. */
    method Delete(i: nat)
      requires Valid() && i < |active|
      modifies this, refs
      ensures Valid() && Enabled() == old(Enabled()) - {old(active)[i]}
    {
      DeleteAt(active, i);
      activeCnt := activeCnt - 1;
      MemMove(refs, i, i + 1, activeCnt - i);
      refs[activeCnt] := null;
      active := active[..i] + active[i + 1..];
    }

    /** Enables or disables one sensor; returns 1 exactly when that changed the set of active sensors. */
    method ActivateConfigrefResort(x: int, isEnable: bool) returns (ret: int)
      requires Valid() && 0 <= x < TABLE_SIZE
      modifies this, refs
      ensures Valid()
      ensures Enabled() == if isEnable then old(Enabled()) + {x} else old(Enabled()) - {x}
      ensures ret == if Enabled() == old(Enabled()) then 0 else 1
    {
      var i := 0;
      while i < TABLE_SIZE
        invariant 0 <= i <= |active|
        invariant Valid() && active == old(active)
        invariant forall k :: 0 <= k < i ==> active[k] < x
      {
        if refs[i] == null {
          if isEnable {
            Insert(i, x);
            return 1;
          } else {
            return 0;
          }
        }
        var current := refs[i].index;
        if x > current {
          i := i + 1;
        } else if x == current {
          if isEnable {
            return 0;
          } else {
            Delete(i);
            return 1;
          }
        } else {
          if isEnable {
            Insert(i, x);
            return 1;
          } else {
            return 0;
          }
        }
      }
      RoomForOneMore(active, x);
      assert false;
    }

    /** Configures one sensor, active or not. The entry is found through the array of pointers or directly
        in the table: in both cases it is the same object, and no other object changes. Returns 1 exactly
        when the sensor is active. The period must not be zero: it is divided by. */
    method BatchConfigrefResort(x: int, samplingPeriodNs: int, maxReportLatencyNs: int, delayHz: real)
      returns (ret: int)
      requires Valid() && 0 <= x < TABLE_SIZE && samplingPeriodNs != 0
      modifies configs[x]
      ensures Valid()
      ensures Configured(configs[x], samplingPeriodNs, maxReportLatencyNs) && configs[x].delayOnchangeHz == delayHz
      ensures ret == if x in Enabled() then 1 else 0
    {
      var i := 0;
      while i < activeCnt
        invariant 0 <= i <= activeCnt
        invariant forall k :: 0 <= k < i ==> active[k] != x
      {
        if refs[i].index == x {
          refs[i].dataRate := EncodeDatarate(samplingPeriodNs);
          refs[i].latency := EncodeMaxLatency(maxReportLatencyNs);
          refs[i].delayOnchangeHz := delayHz;
          refs[i].fifoDataLen := FifoDataLen(maxReportLatencyNs, samplingPeriodNs);
          return 1;
        }
        i := i + 1;
      }
      configs[x].dataRate := EncodeDatarate(samplingPeriodNs);
      configs[x].latency := EncodeMaxLatency(maxReportLatencyNs);
      configs[x].delayOnchangeHz := delayHz;
      configs[x].fifoDataLen := FifoDataLen(maxReportLatencyNs, samplingPeriodNs);
      return 0;
    }
  }

  // ---------- runs of calls ----------

  datatype Call = Call(index: int, enable: bool)

  /** The set of enabled sensors after a run of calls. */
  function EnabledAfter(enabled: set<int>, calls: seq<Call>): set<int>
    decreases |calls|
  {
    if calls == [] then enabled
    else if calls[0].enable then EnabledAfter(enabled + {calls[0].index}, calls[1..])
    else EnabledAfter(enabled - {calls[0].index}, calls[1..])
  }

  /** The last call for a sensor decides; calls for other sensors and repeated calls do not matter. */
  lemma {:induction false} LastCallDecides(enabled: set<int>, calls: seq<Call>, x: int)
    ensures x in EnabledAfter(enabled, calls) <==>
      if exists i :: 0 <= i < |calls| && calls[i].index == x
      then exists i ::
        0 <= i < |calls| && calls[i] == Call(x, true) && forall k :: i < k < |calls| ==> calls[k].index != x
      else x in enabled
    decreases |calls|
  {
    if calls != [] {
      var rest := calls[1..];
      LastCallDecides(if calls[0].enable then enabled + {calls[0].index} else enabled - {calls[0].index}, rest, x);
      assert forall i :: 0 <= i < |rest| ==> rest[i] == calls[i + 1];
      assert forall i :: 1 <= i < |calls| ==> calls[i] == rest[i - 1];
    }
  }
}
