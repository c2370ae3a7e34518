// Batch and activate calls as they come from the framework, down to the interval of the polling thread.

module SensorControl {
  import opened RateChain
  import opened ActiveSensors
  import opened SensorList

  const INX_ACCELEROMETER := 1
  const INX_LAST_NONWAKEUP := 31
  const INX_END := 64
  const BSX_SENSOR_ID_INVALID := 255
  const EINVAL := 22

  /** What can be exposed: delays the rate codes cover, and no on-change mode, for which a batch call
      would divide by a period of zero. */
  predicate Exposed(sensor: SensorT)
  {
    sensor.mode != OnChange && 500 <= sensor.minDelay <= sensor.maxDelay
  }

  predicate IgnoresBatch(sensor: SensorT)
  {
    sensor.mode == OneShot || sensor.mode == Special
  }

  class Control {
    const nonwk: ConfigTable
    const wk: ConfigTable
    const list: seq<SensorT>
    const bsxListIndex: seq<nat>
    const accChip: bool
    var samplingInterval: int

    constructor (nonwk: ConfigTable, wk: ConfigTable, list: seq<SensorT>, bsxListIndex: seq<nat>, accChip: bool)
      requires nonwk != wk && nonwk.refs != wk.refs && nonwk.Valid() && wk.Valid()
      requires forall i, j :: 0 <= i < |nonwk.configs| && 0 <= j < |wk.configs| ==> nonwk.configs[i] != wk.configs[j]
      requires nonwk.Enabled() == {} && wk.Enabled() == {}
      requires |list| == |bsxListIndex|
      requires forall i :: 0 <= i < |list| ==> Exposed(list[i]) && bsxListIndex[i] < INX_END
      ensures Valid() && samplingInterval == US_PER_SEC
    {
      this.nonwk, this.wk, this.list, this.bsxListIndex, this.accChip := nonwk, wk, list, bsxListIndex, accChip;
      samplingInterval := US_PER_SEC;
    }

    function TableOf(inx: int): ConfigTable
    {
      if inx <= INX_LAST_NONWAKEUP then nonwk else wk
    }

    function SlotOf(inx: int): int
    {
      if inx <= INX_LAST_NONWAKEUP then inx else inx - 32
    }

    /** While the accelerometer is active the polling interval is the one its configuration asks for, and
        the interval is always one of the five that the chip's data rates allow, or the initial second. */
    ghost predicate Valid()
      reads this, nonwk, nonwk.refs, wk, wk.refs, nonwk.configs
    {
      && nonwk != wk && nonwk.refs != wk.refs
      && nonwk.Valid() && wk.Valid()
      && (forall i, j :: 0 <= i < |nonwk.configs| && 0 <= j < |wk.configs| ==> nonwk.configs[i] != wk.configs[j])
      && |list| == |bsxListIndex|
      && (forall i :: 0 <= i < |list| ==> Exposed(list[i]) && bsxListIndex[i] < INX_END)
      && samplingInterval in {1000000, 200000, 20000, 10000, 5000, 2500}
      && (accChip && INX_ACCELEROMETER in nonwk.Enabled() ==>
            samplingInterval == Interval(DecodeRate(nonwk.configs[INX_ACCELEROMETER].dataRate)))
    }

    /** Passes the configured rate of a sensor on to the chip. Only the accelerometer's rate counts; the
        gyroscope follows it. */
    method ApSendConfig(inx: nat)
      requires nonwk.Valid() && wk.Valid() && inx < INX_END
      modifies `samplingInterval
      ensures samplingInterval ==
        if inx == INX_ACCELEROMETER && accChip then Interval(DecodeRate(nonwk.configs[inx].dataRate))
        else old(samplingInterval)
    {
      if inx == INX_ACCELEROMETER {
        var sampleRate := DecodeRate(TableOf(inx).configs[SlotOf(inx)].dataRate);
        if accChip {
          samplingInterval := US_PER_SEC / ConvertOdr(sampleRate);
        }
      }
    }

    /** The sensor a handle stands for: the first of the list that answers to it. */
    ghost predicate IsSensor(handle: int, i: int)
    {
      && 0 <= i < |list| && Answers(list[i], handle)
      && forall k :: 0 <= k < i ==> !Answers(list[k], handle)
    }

    ghost predicate IsKnown(handle: int)
    {
      exists i :: 0 <= i < |list| && Answers(list[i], handle)
    }

    /** Enables or disables the sensor with the given index; an enabled one is configured anew. */
    method Switch(inx: nat, enabled: bool)
      requires Valid() && inx < INX_END
      modifies `samplingInterval, nonwk, nonwk.refs, wk, wk.refs
      ensures Valid()
      ensures nonwk.Enabled() == Toggled(old(nonwk.Enabled()), inx, enabled, true)
      ensures wk.Enabled() == Toggled(old(wk.Enabled()), inx, enabled, false)
      ensures samplingInterval ==
        if enabled && inx == INX_ACCELEROMETER && accChip then Interval(DecodeRate(nonwk.configs[inx].dataRate))
        else old(samplingInterval)
    {
      if inx <= INX_LAST_NONWAKEUP {
        var changed := nonwk.ActivateConfigrefResort(inx, enabled);
      } else {
        var changed := wk.ActivateConfigrefResort(inx - 32, enabled);
      }
      if enabled {
        ApSendConfig(inx);
      }
    }

    /** Configures the sensor with the given index and, when it is active, passes the rate on. */
    method Configure(inx: nat, period: int, maxReportLatencyNs: int)
      requires Valid() && inx < INX_END && period != 0
      modifies `samplingInterval, TableOf(inx).configs[SlotOf(inx)]
      ensures Valid()
      ensures Configured(TableOf(inx).configs[SlotOf(inx)], period, maxReportLatencyNs)
      ensures Configured(if inx < 32 then nonwk.configs[inx] else wk.configs[inx - 32], period, maxReportLatencyNs)
      ensures samplingInterval ==
        if inx == INX_ACCELEROMETER && accChip && inx in nonwk.Enabled()
        then Interval(DecodeRate(EncodeDatarate(period))) else old(samplingInterval)
    {
      var active := TableOf(inx).BatchConfigrefResort(SlotOf(inx), period, maxReportLatencyNs, 0.0);
      if active != 0 {
        ApSendConfig(inx);
      }
    }

    /** Enables or disables a sensor. The enabled sets change by that sensor alone. */
    method ApActivate(handle: int, enabled: bool) returns (ret: int)
      requires Valid()
      modifies `samplingInterval, nonwk, nonwk.refs, wk, wk.refs
      ensures Valid()
      ensures ret == if handle == BSX_SENSOR_ID_INVALID || IsKnown(handle) then 0 else -EINVAL
      ensures handle == BSX_SENSOR_ID_INVALID || !IsKnown(handle) ==>
        && samplingInterval == old(samplingInterval)
        && nonwk.Enabled() == old(nonwk.Enabled()) && wk.Enabled() == old(wk.Enabled())
      ensures forall i :: handle != BSX_SENSOR_ID_INVALID && IsSensor(handle, i) ==>
        && nonwk.Enabled() == Toggled(old(nonwk.Enabled()), bsxListIndex[i], enabled, true)
        && wk.Enabled() == Toggled(old(wk.Enabled()), bsxListIndex[i], enabled, false)
        && samplingInterval ==
             (if enabled && bsxListIndex[i] == INX_ACCELEROMETER && accChip
              then Interval(DecodeRate(nonwk.configs[INX_ACCELEROMETER].dataRate)) else old(samplingInterval))
    {
      if handle == BSX_SENSOR_ID_INVALID {
        return 0;
      }
      var found, sensor, inx := GetSensorT(handle, list, bsxListIndex);
      if !found {
        return -EINVAL;
      }
      Switch(inx, enabled);
      return 0;
    }

    /** The entry a batch call changes: none unless the sensor is known and heeds such calls. */
    ghost function Target(handle: int): set<SensorConfig>
      requires Valid()
      reads this, nonwk, nonwk.refs, wk, wk.refs, nonwk.configs
    {
      set i | 0 <= i < |list| && IsSensor(handle, i) && !IgnoresBatch(list[i])
        :: TableOf(bsxListIndex[i]).configs[SlotOf(bsxListIndex[i])]
    }

    /** Configures a sensor. For a known one that heeds batch calls the clamped period is positive and only
        that sensor's entry changes; an unknown one is refused unless no latency is asked for. */
    method ApBatch(handle: int, samplingPeriodNs: int, maxReportLatencyNs: int) returns (ret: int)
      requires Valid()
      modifies `samplingInterval, Target(handle)
      ensures Valid()
      ensures ret == if IsKnown(handle) || maxReportLatencyNs == 0 then 0 else -EINVAL
      ensures !IsKnown(handle) ==> samplingInterval == old(samplingInterval)
      ensures forall i :: IsSensor(handle, i) && list[i].mode != Continuous ==>
        samplingInterval == old(samplingInterval)
      ensures forall i :: IsSensor(handle, i) && list[i].mode == Continuous ==>
        var p := Clamp(samplingPeriodNs, list[i].minDelay, list[i].maxDelay);
        && 0 < p
        && Configured(TableOf(bsxListIndex[i]).configs[SlotOf(bsxListIndex[i])], p, maxReportLatencyNs)
        && samplingInterval ==
             (if bsxListIndex[i] == INX_ACCELEROMETER && accChip && INX_ACCELEROMETER in nonwk.Enabled()
              then Chain(samplingPeriodNs, list[i].minDelay, list[i].maxDelay) else old(samplingInterval))
    {
      var found, sensor, inx := GetSensorT(handle, list, bsxListIndex);
      if !found {
        return if maxReportLatencyNs == 0 then 0 else -EINVAL;
      }
      if sensor.mode == OneShot || sensor.mode == Special {
        return 0;
      }
      if sensor.mode == OnChange {
        assert false;
      }
      ghost var i :| IsSensor(handle, i) && sensor == list[i] && inx == bsxListIndex[i];
      assert TableOf(inx).configs[SlotOf(inx)] in Target(handle);
      assert forall k :: IsSensor(handle, k) ==> k == i;
      var period := samplingPeriodNs;
      if period < sensor.minDelay * 1000 {
        period := sensor.minDelay * 1000;
      } else if period > sensor.maxDelay * 1000 {
        period := sensor.maxDelay * 1000;
      }
      assert period == Clamp(samplingPeriodNs, list[i].minDelay, list[i].maxDelay) > 0;
      Configure(inx, period, maxReportLatencyNs);
      return 0;
    }

    /** How long the polling thread sleeps. It is computed in unsigned arithmetic and never wraps. */
    method SleepTime() returns (us: int)
      requires Valid()
      ensures us == (samplingInterval - SAMPLING_INTERVAL_OFFSET) % 0x1_0000_0000
      ensures us == samplingInterval - SAMPLING_INTERVAL_OFFSET && 1900 <= us
    {
      us := (samplingInterval - SAMPLING_INTERVAL_OFFSET) % 0x1_0000_0000;
    }
  }

  /** The enabled set of one table after a sensor was switched; sensors from 32 on belong to the other. */
  function Toggled(enabled: set<int>, inx: int, enable: bool, nonwakeup: bool): set<int>
  {
    if nonwakeup != (inx <= INX_LAST_NONWAKEUP) then enabled
    else
      var slot := if nonwakeup then inx else inx - 32;
      if enable then enabled + {slot} else enabled - {slot}
  }

  /** All enabled sensors under their own indices; those of the second table follow the first 32. */
  function Joined(nonwk: set<int>, wk: set<int>): set<int>
  {
    nonwk + set x | x in wk :: x + 32
  }

  /** Switching a sensor changes all that is enabled by the index of that sensor, and by no other. */
  lemma ToggledSwitchesOne(nonwk: set<int>, wk: set<int>, inx: int, enable: bool)
    requires 0 <= inx < INX_END && (forall x :: x in nonwk || x in wk ==> 0 <= x < 32)
    ensures Joined(Toggled(nonwk, inx, enable, true), Toggled(wk, inx, enable, false))
         == if enable then Joined(nonwk, wk) + {inx} else Joined(nonwk, wk) - {inx}
  {
    var before, after := Joined(nonwk, wk), Joined(Toggled(nonwk, inx, enable, true), Toggled(wk, inx, enable, false));
    forall x: int ensures x in after <==> if x == inx then enable else x in before {
      JoinedHolds(nonwk, wk, x);
      JoinedHolds(Toggled(nonwk, inx, enable, true), Toggled(wk, inx, enable, false), x);
    }
  }

  lemma JoinedHolds(nonwk: set<int>, wk: set<int>, x: int)
    ensures x in Joined(nonwk, wk) <==> x in nonwk || x - 32 in wk
  {
    assert x - 32 in wk ==> x - 32 + 32 in Joined(nonwk, wk);
  }
}
