// How a requested sampling period becomes a rate code, a chip data rate and a polling interval.

module RateChain {
  import opened Arithmetic

  const NS_PER_SEC := 1000000000
  const US_PER_SEC := 1000000
  const SAMPLING_INTERVAL_OFFSET := 600

  /** The rate a period stands for. Rounding of the 32-bit float division is not modelled. */
  function Hz(periodNs: int): real
    requires periodNs != 0
  {
    NS_PER_SEC as real / periodNs as real
  }

  /** The delays of a sensor are in microseconds. A period below the minimum is raised before the maximum
      is looked at. */
  function Clamp(periodNs: int, minDelay: int, maxDelay: int): int
  {
    if periodNs < minDelay * 1000 then minDelay * 1000
    else if periodNs > maxDelay * 1000 then maxDelay * 1000
    else periodNs
  }

  /** The configuration code for a rate; 0 when the rate is out of range. */
  function EncodeRate(hz: real): int
  {
    if 1600.0 < hz <= 2000.0 then 18
    else if 1000.0 < hz <= 1600.0 then 17
    else if 800.0 < hz <= 1000.0 then 16
    else if 400.0 < hz <= 800.0 then 15
    else if 200.0 < hz <= 400.0 then 1
    else if 100.0 < hz <= 200.0 then 2
    else if 50.0 < hz <= 100.0 then 3
    else if 25.0 < hz <= 50.0 then 4
    else if 12.0 < hz <= 25.0 then 5
    else if 6.0 < hz <= 12.0 then 6
    else if 5.0 < hz <= 6.0 then 7
    else if 1.0 < hz <= 5.0 then 8
    else if hz <= 1.0 then 9
    else 0
  }

  /** A period of zero belongs to sensors that have no rate. */
  function EncodeDatarate(periodNs: int): int
  {
    if periodNs == 0 then 0 else EncodeRate(Hz(periodNs))
  }

  function DecodeRate(code: int): real
  {
    match code
    case 18 => 2000.0
    case 17 => 1600.0
    case 16 => 1000.0
    case 15 => 800.0
    case 1 => 400.0
    case 2 => 200.0
    case 3 => 100.0
    case 4 => 50.0
    case 5 => 25.0
    case 6 => 12.5
    case 7 => 6.25
    case 8 => 5.0
    case 9 => 1.0
    case _ => 0.0
  }

  /** The output data rate set on the chip. */
  function ConvertOdr(hz: real): int
  {
    if hz > 200.0 then 400
    else if hz > 100.0 then 200
    else if hz > 50.0 then 100
    else if hz > 5.0 then 50
    else 5
  }

  /** The time between two polls in microseconds. */
  function Interval(hz: real): int
  {
    US_PER_SEC / ConvertOdr(hz)
  }

  /** From the period an application asks for to the time between two polls. */
  function Chain(periodNs: int, minDelay: int, maxDelay: int): int
  {
    Interval(DecodeRate(EncodeDatarate(Clamp(periodNs, minDelay, maxDelay))))
  }

  // ---------- order ----------

  lemma HzAntitone(p: int, q: int)
    requires 0 < p <= q
    ensures 0.0 < Hz(q) <= Hz(p)
  {
    QuotientAntitone(NS_PER_SEC as real, p as real, q as real);
  }

  lemma QuotientAntitone(n: real, p: real, q: real)
    requires 0.0 < n && 0.0 < p <= q
    ensures 0.0 < n / q <= n / p
  {
    assert n / p - n / q == (n * (q - p)) / (p * q) by {
      assert n / p == (n * q) / (p * q);
      assert n / q == (n * p) / (p * q);
    }
  }

  /** Encoding and decoding never yields less than the rate asked for, and is monotone up to 2000 Hz. */
  lemma DecodedNotBelow(hz: real)
    requires 0.0 < hz <= 2000.0
    ensures hz <= Rounded(hz)
  {
  }

  lemma DecodedMonotone(a: real, b: real)
    requires 0.0 < a <= b <= 2000.0
    ensures Rounded(a) <= Rounded(b)
  {
  }

  lemma OdrMonotone(a: real, b: real)
    requires a <= b
    ensures ConvertOdr(a) <= ConvertOdr(b) && Interval(b) <= Interval(a)
  {
  }

  /** A rate is served by a data rate that is at least as high, exactly up to 400 Hz. */
  lemma OdrNotBelowIff(hz: real)
    ensures hz <= ConvertOdr(hz) as real <==> hz <= 400.0
  {
  }

  /** The data rate is the least one that serves a rate, of the five there are. */
  lemma OdrIsLeast(hz: real, r: int)
    ensures ConvertOdr(hz) in {5, 50, 100, 200, 400}
    ensures r in {5, 50, 100, 200, 400} && hz <= r as real ==> ConvertOdr(hz) <= r
  {
  }

  /** One period of the data rate is one interval. */
  lemma IntervalIsPeriod(hz: real)
    ensures Interval(hz) * ConvertOdr(hz) == US_PER_SEC
  {
  }

  /** No period that the delays allow is nearer to the one that is asked for. */
  lemma ClampIsNearest(periodNs: int, minDelay: int, maxDelay: int, other: int)
    requires minDelay * 1000 <= other <= maxDelay * 1000
    ensures var p := Clamp(periodNs, minDelay, maxDelay);
      && minDelay * 1000 <= p <= maxDelay * 1000
      && (if periodNs < p then p - periodNs else periodNs - p)
         <= (if periodNs < other then other - periodNs else periodNs - other)
  {
  }

  lemma ClampBounds(periodNs: int, minDelay: int, maxDelay: int)
    requires 0 < minDelay <= maxDelay
    ensures minDelay * 1000 <= Clamp(periodNs, minDelay, maxDelay) <= maxDelay * 1000
  {
  }

  lemma ClampedRate(periodNs: int, minDelay: int, maxDelay: int)
    requires 500 <= minDelay <= maxDelay
    ensures 0.0 < Hz(Clamp(periodNs, minDelay, maxDelay)) <= 2000.0
  {
    ClampBounds(periodNs, minDelay, maxDelay);
    HzAntitone(500000, Clamp(periodNs, minDelay, maxDelay));
    assert Hz(500000) == 2000.0;
  }

  /** The whole chain for any sensor whose minimum delay is at least 500 microseconds: the decoded rate is
      not below the clamped request, and up to 400 Hz neither is the data rate of the chip. */
  lemma ChainServesRequest(periodNs: int, minDelay: int, maxDelay: int)
    requires 500 <= minDelay <= maxDelay
    ensures var p := Clamp(periodNs, minDelay, maxDelay);
      var rate := DecodeRate(EncodeDatarate(p));
      && 0 < p && Hz(p) <= rate <= 2000.0
      && (Hz(p) <= 400.0 ==> Hz(p) <= ConvertOdr(rate) as real)
  {
    ClampedRate(periodNs, minDelay, maxDelay);
    ClampBounds(periodNs, minDelay, maxDelay);
    DecodedNotBelow(Hz(Clamp(periodNs, minDelay, maxDelay)));
  }

  /** A rate is at most r exactly when its period is at least that of r. */
  lemma HzAtMostIff(p: int, r: int)
    requires 0 < p && 0 < r
    ensures Hz(p) <= r as real <==> NS_PER_SEC <= r * p
  {
    var n, q := NS_PER_SEC as real, p as real;
    assert Hz(p) * q == n;
    ProductOrder(Hz(p), r as real, q);
    assert (r * p) as real == r as real * q;
  }

  lemma ProductOrder(a: real, b: real, q: real)
    requires 0.0 < q
    ensures a <= b <==> a * q <= b * q
  {
  }

  /** An interval of us microseconds serves a rate when the rate asks for at most one poll in it. The one that
      is set serves the decoded rate exactly up to 400 Hz, and no longer one of the five does. */
  lemma ChainServesDecodedRate(periodNs: int, minDelay: int, maxDelay: int, us: int)
    ensures var v := Chain(periodNs, minDelay, maxDelay);
      var rate := DecodeRate(EncodeDatarate(Clamp(periodNs, minDelay, maxDelay)));
      && (rate * v as real <= US_PER_SEC as real <==> rate <= 400.0)
      && (us in {200000, 20000, 10000, 5000, 2500} && rate * us as real <= US_PER_SEC as real ==> us <= v)
  {
  }

  /** What the chain amounts to: the longest of the five intervals that is not longer than the clamped period,
      and the shortest one when they are all longer. */
  lemma ChainIsLongest(periodNs: int, minDelay: int, maxDelay: int)
    requires 500 <= minDelay <= maxDelay
    ensures var p, v := Clamp(periodNs, minDelay, maxDelay), Chain(periodNs, minDelay, maxDelay);
      && v in {200000, 20000, 10000, 5000, 2500}
      && (v * 1000 <= p <==> 2500000 <= p)
      && (p < 2500000 ==> v == 2500)
      && forall u :: u in {200000, 20000, 10000, 5000, 2500} && u * 1000 <= p ==> u <= v
  {
    var p := Clamp(periodNs, minDelay, maxDelay);
    ClampBounds(periodNs, minDelay, maxDelay);
    ClampedRate(periodNs, minDelay, maxDelay);
    HzAtMostIff(p, 5);
    HzAtMostIff(p, 50);
    HzAtMostIff(p, 100);
    HzAtMostIff(p, 200);
    HzAtMostIff(p, 400);
    IntervalOfRounded(Hz(p));
  }

  lemma IntervalOfRounded(hz: real)
    requires 0.0 < hz <= 2000.0
    ensures Interval(Rounded(hz)) ==
      if hz <= 5.0 then 200000 else if hz <= 50.0 then 20000 else if hz <= 100.0 then 10000
      else if hz <= 200.0 then 5000 else 2500
  {
  }

  /** A longer period never makes the polls more frequent. */
  lemma ChainMonotone(p: int, q: int, minDelay: int, maxDelay: int)
    requires 500 <= minDelay <= maxDelay && p <= q
    ensures Chain(p, minDelay, maxDelay) <= Chain(q, minDelay, maxDelay)
  {
    var a, b := Clamp(p, minDelay, maxDelay), Clamp(q, minDelay, maxDelay);
    ClampBounds(p, minDelay, maxDelay);
    ClampedRate(p, minDelay, maxDelay);
    HzAntitone(a, b);
    DecodedMonotone(Hz(b), Hz(a));
    OdrMonotone(DecodeRate(EncodeDatarate(b)), DecodeRate(EncodeDatarate(a)));
  }

  /** Every interval the chain can set is longer than the offset the polling thread subtracts from it. */
  lemma IntervalExceedsOffset(hz: real)
    ensures Interval(hz) in {200000, 20000, 10000, 5000, 2500}
    ensures Interval(hz) > SAMPLING_INTERVAL_OFFSET
  {
  }

  // ---------- codes that are not stable ----------

  predicate IsCode(code: int)
  {
    1 <= code <= 9 || 15 <= code <= 18
  }

  /** Encoding a decoded rate gives the code back, except for 12.5 Hz and 6.25 Hz: their thresholds are
      the whole numbers below. */
  lemma ReencodeIff(code: int)
    requires IsCode(code)
    ensures EncodeRate(DecodeRate(code)) == code <==> code != 6 && code != 7
  {
  }

  /** What a requested rate is rounded up to. */
  function Rounded(hz: real): real
  {
    DecodeRate(EncodeRate(hz))
  }

  /** On the rates themselves: rounding up twice changes the result exactly for requests above 5 and up
      to 12 Hz. */
  lemma RoundTwiceIff(hz: real)
    requires 0.0 < hz <= 2000.0
    ensures Rounded(Rounded(hz)) == Rounded(hz) <==> !(5.0 < hz <= 12.0)
  {
  }

  /** A rate has a code exactly when it is at most 2000 Hz. */
  lemma HasCodeIff(hz: real)
    ensures IsCode(EncodeRate(hz)) <==> hz <= 2000.0
    ensures !IsCode(EncodeRate(hz)) ==> EncodeRate(hz) == 0
  {
  }

  /** A request is rounded up to the least rate that serves it, except just above 6 and just above 12 Hz. */
  lemma RoundedIsLeastIff(hz: real)
    requires 0.0 < hz <= 2000.0
    ensures (forall code :: IsCode(code) && hz <= DecodeRate(code) ==> Rounded(hz) <= DecodeRate(code))
       <==> !(6.0 < hz <= 6.25 || 12.0 < hz <= 12.5)
  {
    assert IsCode(6) && IsCode(7) && DecodeRate(6) == 12.5 && DecodeRate(7) == 6.25;
  }

  /** A request for 8 Hz becomes 12.5 Hz, and 12.5 Hz becomes 25 Hz. */
  lemma RoundingDrifts()
    ensures exists hz :: Rounded(hz) == 12.5 && Rounded(Rounded(hz)) == 25.0
  {
    var hz := 8.0;
    assert Rounded(hz) == 12.5 && Rounded(Rounded(hz)) == 25.0;
  }

  // ---------- maximum report latency ----------

  const UNIT_NS := 0x00
  const UNIT_US := 0x40
  const UNIT_MS := 0x80
  const UNIT_S := 0xC0

  datatype Latency = Latency(value: int, unit: int)

  function EncodeMaxLatency(ns: int): Latency
  {
    if 1000000 <= ns < 1000000000 then Latency(ns / 1000000 % 65536, UNIT_MS)
    else if 1000 <= ns < 1000000 then Latency(ns / 1000 % 65536, UNIT_US)
    else if ns < 1000 then Latency(ns % 65536, UNIT_NS)
    else if 1000000000 <= ns < 16383000000000 then Latency(ns / 1000000000 % 65536, UNIT_S)
    else Latency(16383, UNIT_S)
  }

  function UnitNs(unit: int): int
  {
    match unit
    case 0x00 => 1
    case 0x40 => 1000
    case 0x80 => 1000000
    case _ => 1000000000
  }

  /** The stored latency is the requested one rounded down to its unit, exactly for requests that are not
      negative and below 16383 seconds and one more. */
  lemma LatencyRoundsDownIff(ns: int)
    ensures var l := EncodeMaxLatency(ns);
      l.value * UnitNs(l.unit) <= ns < (l.value + 1) * UnitNs(l.unit) <==> 0 <= ns < 16384000000000
  {
    var l := EncodeMaxLatency(ns);
    if 0 <= ns < 16383000000000 {
      StoredQuotient(ns);
      QuotientBounds(ns, UnitNs(l.unit));
    } else if ns < 0 {
      ProductsOrdered(0, l.value, UnitNs(l.unit));
    } else {
      assert l.value == 16383 && UnitNs(l.unit) == 1000000000;
    }
  }

  lemma StoredQuotient(ns: int)
    requires 0 <= ns < 16383000000000
    ensures var l := EncodeMaxLatency(ns); l.value == ns / UnitNs(l.unit)
  {
  }

  /** The unit is the coarsest one that does not lose the whole request, so the value has at most three
      digits below one second. */
  lemma LatencyPrecision(ns: int)
    requires 0 <= ns < 16383000000000
    ensures var l := EncodeMaxLatency(ns);
      && (ns > 0 ==> l.value > 0)
      && (l.unit != UNIT_S ==> l.value < 1000)
      && l.value < 16384
  {
  }

  /** From 16383 seconds on the latency is cut off there. A negative one is stored in nanoseconds, as the
      16-bit number that is congruent to it. */
  lemma LatencyOutOfRange(ns: int)
    ensures var l := EncodeMaxLatency(ns);
      && (ns >= 16383000000000 ==> l.value == 16383 && l.unit == UNIT_S)
      && (ns < 0 ==> l.unit == UNIT_NS && 0 <= l.value < 65536 && (l.value - ns) % 65536 == 0)
  {
  }
}
