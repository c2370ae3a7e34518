// The two-way timestamp merge of the legacy HAL and the events that are emitted from it.

module Alignment {
  import opened Sequences

  /** One raw sample; the timestamp is in nanoseconds. */
  datatype Sample = Sample(id: int, x: int, y: int, z: int, timestamp: int)

  const SENSOR_TYPE_ACCELEROMETER := 1
  const SENSOR_TYPE_GYROSCOPE_UNCALIBRATED := 16

  /** One entry of the indication array: its bits HAS_ACC and HAS_GYR. */
  datatype Indication = Indication(hasAcc: bool, hasGyr: bool)

  const NONE := Indication(false, false)

  // ---------- one step of the merge ----------

  /** The time the next slot stands for. A gyroscope time of zero counts as "no time yet". */
  function BaseTime(acc: seq<Sample>, gyr: seq<Sample>): int
    requires acc != [] || gyr != []
  {
    var g := if gyr != [] then gyr[0].timestamp else 0;
    if acc == [] then g
    else if g != 0 && !(acc[0].timestamp < g) then g
    else acc[0].timestamp
  }

  predicate Takes(s: seq<Sample>, time: int)
  {
    s != [] && s[0].timestamp == time
  }

  function Rest(s: seq<Sample>, time: int): seq<Sample>
  {
    if Takes(s, time) then s[1..] else s
  }

  lemma SomeoneTakes(acc: seq<Sample>, gyr: seq<Sample>)
    requires acc != [] || gyr != []
    ensures var t := BaseTime(acc, gyr); Takes(acc, t) || Takes(gyr, t)
  {
  }

  function Flags(acc: seq<Sample>, gyr: seq<Sample>): Indication
    requires acc != [] || gyr != []
  {
    var t := BaseTime(acc, gyr);
    Indication(Takes(acc, t), Takes(gyr, t))
  }

  /** The alignment indication array, slot by slot. */
  function Merge(acc: seq<Sample>, gyr: seq<Sample>): seq<Indication>
    decreases |acc| + |gyr|
  {
    if acc == [] && gyr == [] then []
    else
      SomeoneTakes(acc, gyr);
      var t := BaseTime(acc, gyr);
      [Flags(acc, gyr)] + Merge(Rest(acc, t), Rest(gyr, t))
  }

  /** The times of the slots. */
  function SlotTimes(acc: seq<Sample>, gyr: seq<Sample>): seq<int>
    decreases |acc| + |gyr|
  {
    if acc == [] && gyr == [] then []
    else
      SomeoneTakes(acc, gyr);
      var t := BaseTime(acc, gyr);
      [t] + SlotTimes(Rest(acc, t), Rest(gyr, t))
  }

  // ---------- what the slots mean ----------

  function Times(s: seq<Sample>): set<int>
  {
    set p | p in s :: p.timestamp
  }

  function CountAcc(flags: seq<Indication>): nat
  {
    if flags == [] then 0 else (if flags[0].hasAcc then 1 else 0) + CountAcc(flags[1..])
  }

  function CountGyr(flags: seq<Indication>): nat
  {
    if flags == [] then 0 else (if flags[0].hasGyr then 1 else 0) + CountGyr(flags[1..])
  }

  /** For any input at all: no slot is empty, no more slots are used than there are samples, and the
      accelerometer and gyroscope flags are exactly as many as the samples. */
  lemma {:induction false} MergeCounts(acc: seq<Sample>, gyr: seq<Sample>)
    ensures |Merge(acc, gyr)| <= |acc| + |gyr|
    ensures CountAcc(Merge(acc, gyr)) == |acc| && CountGyr(Merge(acc, gyr)) == |gyr|
    ensures NONE !in Merge(acc, gyr)
    decreases |acc| + |gyr|
  {
    if acc != [] || gyr != [] {
      SomeoneTakes(acc, gyr);
      var t := BaseTime(acc, gyr);
      MergeCounts(Rest(acc, t), Rest(gyr, t));
    }
  }

  predicate StrictlyIncreasing(s: seq<Sample>)
  {
    forall i, j :: 0 <= i < j < |s| ==> s[i].timestamp < s[j].timestamp
  }

  predicate NonZero(s: seq<Sample>)
  {
    forall i :: 0 <= i < |s| ==> s[i].timestamp != 0
  }

  lemma TimesOfRest(s: seq<Sample>, t: int)
    requires StrictlyIncreasing(s) && (s != [] ==> t <= s[0].timestamp)
    ensures Times(Rest(s, t)) == Times(s) - {t}
    ensures t in Times(s) <==> Takes(s, t)
    ensures forall u :: u in Times(Rest(s, t)) ==> t < u
  {
    if Takes(s, t) {
      assert s == [s[0]] + s[1..];
      forall u | u in Times(s) && u != t ensures u in Times(s[1..]) {
        var p :| p in s && p.timestamp == u;
        assert p in s[1..];
      }
    }
  }

  predicate Ready(s: seq<Sample>)
  {
    StrictlyIncreasing(s) && NonZero(s)
  }

  lemma RestIsReady(acc: seq<Sample>, gyr: seq<Sample>)
    requires Ready(acc) && Ready(gyr) && (acc != [] || gyr != [])
    ensures var t := BaseTime(acc, gyr);
      && Ready(Rest(acc, t)) && Ready(Rest(gyr, t))
      && Times(Rest(acc, t)) == Times(acc) - {t} && Times(Rest(gyr, t)) == Times(gyr) - {t}
      && (t in Times(acc) <==> Takes(acc, t)) && (t in Times(gyr) <==> Takes(gyr, t))
      && forall u :: u in Times(Rest(acc, t)) || u in Times(Rest(gyr, t)) ==> t < u
  {
    var t := BaseTime(acc, gyr);
    TimesOfRest(acc, t);
    TimesOfRest(gyr, t);
  }

  /** s lists the elements of a set in increasing order. */
  ghost predicate Enumerates(s: seq<int>, elements: set<int>)
  {
    && (forall i, j :: 0 <= i < j < |s| ==> s[i] < s[j])
    && (forall t :: t in s <==> t in elements)
    && |s| == |elements|
  }

  lemma EnumeratesNext(t: int, s: seq<int>, elements: set<int>)
    requires t in elements && Enumerates(s, elements - {t})
    requires forall u :: u in elements - {t} ==> t < u
    ensures Enumerates([t] + s, elements)
  {
    forall i | 0 <= i < |s| ensures t < s[i] {
      assert s[i] in s;
    }
  }

  predicate FlagsTell(flags: seq<Indication>, times: seq<int>, a: set<int>, g: set<int>)
  {
    && |flags| == |times|
    && forall i :: 0 <= i < |flags| ==>
         (flags[i].hasAcc <==> times[i] in a) && (flags[i].hasGyr <==> times[i] in g)
  }

  /** For strictly increasing non-zero inputs the slots are the distinct times in increasing order. A slot
      holds a sample of each sensor that has one at the slot's time. Two samples therefore share a slot
      exactly when their times are equal, and the number of slots is the number of distinct times. */
  lemma {:induction false} SharedSlotIffEqualTimes(acc: seq<Sample>, gyr: seq<Sample>)
    requires Ready(acc) && Ready(gyr)
    ensures Enumerates(SlotTimes(acc, gyr), Times(acc) + Times(gyr))
    ensures FlagsTell(Merge(acc, gyr), SlotTimes(acc, gyr), Times(acc), Times(gyr))
    decreases |acc| + |gyr|
  {
    if acc == [] && gyr == [] {
      assert Times(acc) + Times(gyr) == {};
    } else {
      SomeoneTakes(acc, gyr);
      var t := BaseTime(acc, gyr);
      var a, g := Rest(acc, t), Rest(gyr, t);
      RestIsReady(acc, gyr);
      SharedSlotIffEqualTimes(a, g);
      SlotStep(Flags(acc, gyr), Merge(a, g), t, SlotTimes(a, g), Times(acc), Times(gyr), Times(a), Times(g));
    }
  }

  lemma SlotStep(f: Indication, flags: seq<Indication>, t: int, times: seq<int>,
                 acc: set<int>, gyr: set<int>, a: set<int>, g: set<int>)
    requires a == acc - {t} && g == gyr - {t}
    requires t in acc || t in gyr
    requires forall u :: u in a || u in g ==> t < u
    requires Enumerates(times, a + g) && FlagsTell(flags, times, a, g)
    requires (f.hasAcc <==> t in acc) && (f.hasGyr <==> t in gyr)
    ensures Enumerates([t] + times, acc + gyr)
    ensures FlagsTell([f] + flags, [t] + times, acc, gyr)
  {
    assert a + g == (acc + gyr) - {t};
    EnumeratesNext(t, times, acc + gyr);
    FlagsTellNext(f, flags, t, times, acc, gyr);
  }

  lemma FlagsTellNext(f: Indication, flags: seq<Indication>, t: int, times: seq<int>, a: set<int>, g: set<int>)
    requires FlagsTell(flags, times, a - {t}, g - {t})
    requires t !in times
    requires (f.hasAcc <==> t in a) && (f.hasGyr <==> t in g)
    ensures FlagsTell([f] + flags, [t] + times, a, g)
  {
  }

  // ---------- emission ----------

  datatype Kind = Accel | Gyro

  /** One entry of the input package: a sample together with the input it goes to. */
  datatype Package = Package(kind: Kind, sample: Sample)

  /** The samples in the order in which the emission loop reaches them. */
  function Emitted(acc: seq<Sample>, gyr: seq<Sample>): seq<Package>
    decreases |acc| + |gyr|
  {
    if acc == [] && gyr == [] then []
    else
      SomeoneTakes(acc, gyr);
      var t := BaseTime(acc, gyr);
      Slot(acc, gyr, t) + Emitted(Rest(acc, t), Rest(gyr, t))
  }

  function Slot(acc: seq<Sample>, gyr: seq<Sample>, t: int): seq<Package>
  {
    (if Takes(acc, t) then [Package(Accel, acc[0])] else []) + (if Takes(gyr, t) then [Package(Gyro, gyr[0])] else [])
  }

  function Only(kind: Kind, ps: seq<Package>): seq<Sample>
  {
    if ps == [] then []
    else if ps[0].kind == kind then [ps[0].sample] + Only(kind, ps[1..])
    else Only(kind, ps[1..])
  }

  lemma {:induction false} OnlyAppend(kind: Kind, p: seq<Package>, q: seq<Package>)
    ensures Only(kind, p + q) == Only(kind, p) + Only(kind, q)
  {
    if p == [] {
      assert p + q == q;
    } else {
      OnlyAppend(kind, p[1..], q);
      assert (p + q)[1..] == p[1..] + q;
    }
  }

  /** Emission is an interleaving: each sensor's samples appear once each and in their own order. */
  lemma {:induction false} EmittedIsInterleaving(acc: seq<Sample>, gyr: seq<Sample>)
    ensures Only(Accel, Emitted(acc, gyr)) == acc
    ensures Only(Gyro, Emitted(acc, gyr)) == gyr
    ensures |Emitted(acc, gyr)| == |acc| + |gyr|
    decreases |acc| + |gyr|
  {
    if acc != [] || gyr != [] {
      SomeoneTakes(acc, gyr);
      var t := BaseTime(acc, gyr);
      EmittedIsInterleaving(Rest(acc, t), Rest(gyr, t));
      OnlyAppend(Accel, Slot(acc, gyr, t), Emitted(Rest(acc, t), Rest(gyr, t)));
      OnlyAppend(Gyro, Slot(acc, gyr, t), Emitted(Rest(acc, t), Rest(gyr, t)));
      SlotProjections(acc, gyr, t);
    }
  }

  lemma SlotProjections(acc: seq<Sample>, gyr: seq<Sample>, t: int)
    ensures Only(Accel, Slot(acc, gyr, t)) + Rest(acc, t) == acc
    ensures Only(Gyro, Slot(acc, gyr, t)) + Rest(gyr, t) == gyr
    ensures |Slot(acc, gyr, t)| + |Rest(acc, t)| + |Rest(gyr, t)| == |acc| + |gyr|
  {
    var a := if Takes(acc, t) then [Package(Accel, acc[0])] else [];
    var g := if Takes(gyr, t) then [Package(Gyro, gyr[0])] else [];
    OnlyAppend(Accel, a, g);
    OnlyAppend(Gyro, a, g);
  }

  // ---------- order of emission ----------

  predicate Sorted(s: seq<Sample>)
  {
    forall i, j :: 0 <= i < j < |s| ==> s[i].timestamp <= s[j].timestamp
  }

  predicate SortedPackages(ps: seq<Package>)
  {
    forall i, j :: 0 <= i < j < |ps| ==> ps[i].sample.timestamp <= ps[j].sample.timestamp
  }

  /** A sample at time zero is waited for only as long as the accelerometer has one too. */
  predicate ZerosAligned(acc: seq<Sample>, gyr: seq<Sample>)
  {
    forall i :: 0 <= i < |acc| && i < |gyr| && gyr[i].timestamp == 0 ==> acc[i].timestamp == 0
  }

  lemma {:induction false} EmittedComesFrom(acc: seq<Sample>, gyr: seq<Sample>)
    ensures forall p :: p in Emitted(acc, gyr) ==> p.sample in acc || p.sample in gyr
    ensures gyr != [] ==> Package(Gyro, gyr[0]) in Emitted(acc, gyr)
    decreases |acc| + |gyr|
  {
    if acc != [] || gyr != [] {
      SomeoneTakes(acc, gyr);
      var t := BaseTime(acc, gyr);
      EmittedComesFrom(Rest(acc, t), Rest(gyr, t));
    }
  }

  /** Sorted and without negative times, as readings of a monotonic clock are. */
  predicate Clocked(s: seq<Sample>)
  {
    Sorted(s) && forall i :: 0 <= i < |s| ==> 0 <= s[i].timestamp
  }

  lemma RestClocked(s: seq<Sample>, t: int)
    requires Clocked(s)
    ensures Clocked(Rest(s, t))
  {
  }

  predicate IsOvertaken(acc: seq<Sample>, gyr: seq<Sample>)
  {
    acc != [] && gyr != [] && gyr[0].timestamp == 0 && acc[0].timestamp > 0
  }

  /** For sorted inputs without negative times, emission is in time order exactly when no gyroscope
      sample at time zero stands opposite an accelerometer sample at a later time. */
  lemma {:induction false} EmittedSortedIff(acc: seq<Sample>, gyr: seq<Sample>)
    requires Clocked(acc) && Clocked(gyr)
    ensures SortedPackages(Emitted(acc, gyr)) <==> ZerosAligned(acc, gyr)
    decreases |acc| + |gyr|
  {
    if acc == [] && gyr == [] {
    } else if IsOvertaken(acc, gyr) {
      Overtaken(acc, gyr);
    } else {
      SomeoneTakes(acc, gyr);
      var t := BaseTime(acc, gyr);
      RestClocked(acc, t);
      RestClocked(gyr, t);
      EmittedSortedIff(Rest(acc, t), Rest(gyr, t));
      ZerosAlignedRest(acc, gyr);
      SortedRest(acc, gyr);
    }
  }

  lemma SortedRest(acc: seq<Sample>, gyr: seq<Sample>)
    requires acc != [] || gyr != []
    requires Clocked(acc) && Clocked(gyr) && !IsOvertaken(acc, gyr)
    ensures var t := BaseTime(acc, gyr);
      SortedPackages(Emitted(acc, gyr)) <==> SortedPackages(Emitted(Rest(acc, t), Rest(gyr, t)))
  {
    SomeoneTakes(acc, gyr);
    var t := BaseTime(acc, gyr);
    EmittedNotBefore(acc, gyr, t);
    SortedSplit(Slot(acc, gyr, t), Emitted(Rest(acc, t), Rest(gyr, t)), t);
  }

  /** The accelerometer sample is emitted before the gyroscope sample at time zero. */
  lemma Overtaken(acc: seq<Sample>, gyr: seq<Sample>)
    requires IsOvertaken(acc, gyr)
    ensures !SortedPackages(Emitted(acc, gyr)) && !ZerosAligned(acc, gyr)
  {
    var t := acc[0].timestamp;
    assert Rest(acc, t) == acc[1..] && Rest(gyr, t) == gyr;
    assert Slot(acc, gyr, t) == [Package(Accel, acc[0])];
    EmittedComesFrom(acc[1..], gyr);
    HeadTooLate(Package(Accel, acc[0]), Emitted(acc[1..], gyr), Package(Gyro, gyr[0]));
  }

  lemma HeadTooLate(head: Package, tail: seq<Package>, p: Package)
    requires p in tail && p.sample.timestamp < head.sample.timestamp
    ensures !SortedPackages([head] + tail)
  {
    var i :| 0 <= i < |tail| && tail[i] == p;
    var all := [head] + tail;
    assert all[0] == head && all[i + 1] == p;
  }

  lemma EmittedNotBefore(acc: seq<Sample>, gyr: seq<Sample>, t: int)
    requires Sorted(acc) && (acc != [] ==> t <= acc[0].timestamp)
    requires Sorted(gyr) && (gyr != [] ==> t <= gyr[0].timestamp)
    ensures forall p :: p in Emitted(Rest(acc, t), Rest(gyr, t)) ==> t <= p.sample.timestamp
  {
    EmittedComesFrom(Rest(acc, t), Rest(gyr, t));
  }

  lemma ZerosAlignedRest(acc: seq<Sample>, gyr: seq<Sample>)
    requires acc != [] || gyr != []
    requires Clocked(acc) && Clocked(gyr) && !IsOvertaken(acc, gyr)
    ensures var t := BaseTime(acc, gyr); ZerosAligned(acc, gyr) <==> ZerosAligned(Rest(acc, t), Rest(gyr, t))
  {
    var t := BaseTime(acc, gyr);
    var a, g := Rest(acc, t), Rest(gyr, t);
    if acc == [] || gyr == [] {
    } else if gyr[0].timestamp == 0 {
      assert a == acc[1..] && g == gyr[1..];
      if ZerosAligned(a, g) {
        forall i | 0 <= i < |acc| && i < |gyr| && gyr[i].timestamp == 0 ensures acc[i].timestamp == 0 {
          if i > 0 {
            assert g[i - 1] == gyr[i] && a[i - 1] == acc[i];
          }
        }
      }
    } else {
      assert forall i :: 0 <= i < |gyr| ==> gyr[i].timestamp > 0;
    }
  }

  lemma SortedSplit(head: seq<Package>, tail: seq<Package>, t: int)
    requires forall p :: p in head ==> p.sample.timestamp == t
    requires forall p :: p in tail ==> t <= p.sample.timestamp
    ensures SortedPackages(head + tail) <==> SortedPackages(tail)
  {
    var all := head + tail;
    if SortedPackages(tail) {
      forall i, j | 0 <= i < j < |all| ensures all[i].sample.timestamp <= all[j].sample.timestamp {
        if i < |head| {
          assert all[j] in head || all[j] in tail;
          assert all[i] in head;
        }
      }
    } else {
      var i, j :| 0 <= i < j < |tail| && tail[i].sample.timestamp > tail[j].sample.timestamp;
      assert all[|head| + i] == tail[i] && all[|head| + j] == tail[j];
    }
  }

  predicate AccFirst(ps: seq<Package>)
  {
    forall i, j :: 0 <= i < j < |ps| ==>
      && ps[i].sample.timestamp <= ps[j].sample.timestamp
      && (ps[i].sample.timestamp == ps[j].sample.timestamp ==> ps[i].kind == Accel && ps[j].kind == Gyro)
  }

  lemma AccFirstSlot(head: seq<Package>, tail: seq<Package>, t: int)
    requires AccFirst(head) && AccFirst(tail)
    requires forall p :: p in head ==> p.sample.timestamp == t
    requires forall p :: p in tail ==> t < p.sample.timestamp
    ensures AccFirst(head + tail)
  {
    var all := head + tail;
    forall i, j | 0 <= i < j < |all|
      ensures all[i].sample.timestamp <= all[j].sample.timestamp
      ensures all[i].sample.timestamp == all[j].sample.timestamp ==> all[i].kind == Accel && all[j].kind == Gyro
    {
      if i < |head| <= j {
        assert all[i] in head && all[j] in tail;
      }
    }
  }

  lemma SlotAccFirst(acc: seq<Sample>, gyr: seq<Sample>, t: int)
    ensures AccFirst(Slot(acc, gyr, t)) && forall p :: p in Slot(acc, gyr, t) ==> p.sample.timestamp == t
  {
  }

  lemma RestIsLater(acc: seq<Sample>, gyr: seq<Sample>)
    requires Ready(acc) && Ready(gyr) && (acc != [] || gyr != [])
    ensures var t := BaseTime(acc, gyr);
      && Ready(Rest(acc, t)) && Ready(Rest(gyr, t))
      && forall p :: p in Emitted(Rest(acc, t), Rest(gyr, t)) ==> t < p.sample.timestamp
  {
    var t := BaseTime(acc, gyr);
    var a, g := Rest(acc, t), Rest(gyr, t);
    RestIsReady(acc, gyr);
    EmittedComesFrom(a, g);
    forall p | p in Emitted(a, g) ensures t < p.sample.timestamp {
      assert p.sample.timestamp in Times(a) || p.sample.timestamp in Times(g);
    }
  }

  /** For strictly increasing non-zero inputs the order of emission is determined: the earlier sample first, and
      at equal times the accelerometer's before the gyroscope's. */
  lemma {:induction false} EmittedAccFirst(acc: seq<Sample>, gyr: seq<Sample>)
    requires Ready(acc) && Ready(gyr)
    ensures AccFirst(Emitted(acc, gyr))
    decreases |acc| + |gyr|
  {
    if acc != [] || gyr != [] {
      SomeoneTakes(acc, gyr);
      RestIsLater(acc, gyr);
      var t := BaseTime(acc, gyr);
      EmittedAccFirst(Rest(acc, t), Rest(gyr, t));
      SlotAccFirst(acc, gyr, t);
      AccFirstSlot(Slot(acc, gyr, t), Emitted(Rest(acc, t), Rest(gyr, t)), t);
    }
  }

  /** A gyroscope sample at time zero opposite a later accelerometer sample comes out behind it. */
  lemma ZeroTimeIsOvertaken()
    ensures exists acc, gyr :: Sorted(acc) && Sorted(gyr) && !SortedPackages(Emitted(acc, gyr))
  {
    var acc := [Sample(SENSOR_TYPE_ACCELEROMETER, 0, 0, 0, 5)];
    var gyr := [Sample(SENSOR_TYPE_GYROSCOPE_UNCALIBRATED, 0, 0, 0, 0)];
    EmittedSortedIff(acc, gyr);
    assert Sorted(acc) && Sorted(gyr) && !SortedPackages(Emitted(acc, gyr));
  }

  // ---------- events ----------

  datatype Event = Event(kind: Kind, timestamp: int, x: real, y: real, z: real)

  /** The measurement ranges the chips are configured for, in g and in degrees per second. */
  datatype Ranges = Ranges(accl: int, gyro: int)

  predicate ValidRange(kind: Kind, r: Ranges)
  {
    match kind
    case Accel => r.accl in {2, 4, 8, 16}
    case Gyro => r.gyro in {125, 250, 300, 500, 1000, 2000}
  }

  /** What one raw unit stands for, in metres per second squared or radians per second. */
  function Scale(kind: Kind, r: Ranges): real
  {
    match kind
    case Accel => 9.81 / 32767.0 * r.accl as real
    case Gyro => 3.14 / 180.0 / 32767.0 * r.gyro as real
  }

  function EventOf(p: Package, r: Ranges): Event
  {
    var k := Scale(p.kind, r);
    Event(p.kind, p.sample.timestamp, p.sample.x as real * k, p.sample.y as real * k, p.sample.z as real * k)
  }

  /** The events delivered for a sequence of packages; a sensor with an unknown range yields none. */
  function Events(ps: seq<Package>, r: Ranges): seq<Event>
  {
    if ps == [] then []
    else if ValidRange(ps[0].kind, r) then [EventOf(ps[0], r)] + Events(ps[1..], r)
    else Events(ps[1..], r)
  }

  function EventsOf(kind: Kind, s: seq<Sample>, r: Ranges): seq<Event>
  {
    if s == [] then [] else [EventOf(Package(kind, s[0]), r)] + EventsOf(kind, s[1..], r)
  }

  function OnlyEvents(kind: Kind, es: seq<Event>): seq<Event>
  {
    if es == [] then []
    else if es[0].kind == kind then [es[0]] + OnlyEvents(kind, es[1..])
    else OnlyEvents(kind, es[1..])
  }

  /** The chip's range is one the conversion knows, given in g or in degrees per second. */
  predicate KnownRange(kind: Kind, r: Ranges)
  {
    if kind == Accel then r.accl in {2, 4, 8, 16} else r.gyro in {125, 250, 300, 500, 1000, 2000}
  }

  /** Full scale of the signed 16-bit reading is the range, with 9.81 metres per second squared to a g and 3.14
      radians to 180 degrees. */
  predicate Converts(value: real, raw: int, kind: Kind, r: Ranges)
  {
    if kind == Accel then 32767.0 * value == 9.81 * r.accl as real * raw as real
    else 180.0 * 32767.0 * value == 3.14 * r.gyro as real * raw as real
  }

  /** The event tells of the sample, axis by axis. */
  predicate TellsOf(e: Event, kind: Kind, s: Sample, r: Ranges)
  {
    && e.kind == kind && e.timestamp == s.timestamp
    && Converts(e.x, s.x, kind, r) && Converts(e.y, s.y, kind, r) && Converts(e.z, s.z, kind, r)
  }

  lemma ScaleConverts(raw: int, kind: Kind, r: Ranges)
    ensures Converts(raw as real * Scale(kind, r), raw, kind, r)
  {
  }

  lemma EventTellsOf(p: Package, r: Ranges)
    ensures TellsOf(EventOf(p, r), p.kind, p.sample, r)
    ensures ValidRange(p.kind, r) <==> KnownRange(p.kind, r)
  {
    ScaleConverts(p.sample.x, p.kind, r);
    ScaleConverts(p.sample.y, p.kind, r);
    ScaleConverts(p.sample.z, p.kind, r);
  }

  lemma {:induction false} EventsAppend(p: seq<Package>, q: seq<Package>, r: Ranges)
    ensures Events(p + q, r) == Events(p, r) + Events(q, r)
  {
    if p == [] {
      assert p + q == q;
    } else {
      EventsAppend(p[1..], q, r);
      assert (p + q)[1..] == p[1..] + q;
    }
  }

  lemma {:induction false} OnlyEventsOfPackages(kind: Kind, ps: seq<Package>, r: Ranges)
    ensures OnlyEvents(kind, Events(ps, r)) == if ValidRange(kind, r) then EventsOf(kind, Only(kind, ps), r) else []
  {
    if ps != [] {
      OnlyEventsOfPackages(kind, ps[1..], r);
      if ValidRange(ps[0].kind, r) {
        assert Events(ps, r)[1..] == Events(ps[1..], r);
      }
    }
  }

  /** The events of a batch: projected on a sensor they are that sensor's samples, one event each and in
      order, or nothing at all when its range setting is unknown. */
  lemma EventsProject(kind: Kind, acc: seq<Sample>, gyr: seq<Sample>, r: Ranges)
    ensures OnlyEvents(kind, Events(Emitted(acc, gyr), r)) ==
      if ValidRange(kind, r) then EventsOf(kind, if kind == Accel then acc else gyr, r) else []
  {
    EmittedIsInterleaving(acc, gyr);
    OnlyEventsOfPackages(kind, Emitted(acc, gyr), r);
  }

  lemma {:induction false} EventsOfTell(kind: Kind, s: seq<Sample>, r: Ranges)
    ensures |EventsOf(kind, s, r)| == |s|
    ensures forall i :: 0 <= i < |s| ==> TellsOf(EventsOf(kind, s, r)[i], kind, s[i], r)
  {
    if s != [] {
      EventTellsOf(Package(kind, s[0]), r);
      EventsOfTell(kind, s[1..], r);
      assert forall i :: 1 <= i < |s| ==> s[i] == s[1..][i - 1];
    }
  }

  /** A sensor's events tell of its samples, one event of each and in order, or there are none when its range
      is not known. */
  predicate TellsOfAll(es: seq<Event>, kind: Kind, s: seq<Sample>, r: Ranges)
  {
    if KnownRange(kind, r)
    then |es| == |s| && forall i :: 0 <= i < |s| ==> TellsOf(es[i], kind, s[i], r)
    else es == []
  }

  /** The events of a batch tell of all samples of both sensors. */
  lemma BatchTellsOfAll(kind: Kind, acc: seq<Sample>, gyr: seq<Sample>, r: Ranges)
    ensures TellsOfAll(OnlyEvents(kind, Events(Emitted(acc, gyr), r)), kind, if kind == Accel then acc else gyr, r)
  {
    EventsProject(kind, acc, gyr, r);
    EventsOfTell(kind, if kind == Accel then acc else gyr, r);
  }

  lemma {:induction false} EventsTell(ps: seq<Package>, r: Ranges)
    requires forall i :: 0 <= i < |ps| ==> KnownRange(ps[i].kind, r)
    ensures |Events(ps, r)| == |ps|
    ensures forall i :: 0 <= i < |ps| ==> TellsOf(Events(ps, r)[i], ps[i].kind, ps[i].sample, r)
  {
    if ps != [] {
      EventTellsOf(ps[0], r);
      EventsTell(ps[1..], r);
      assert forall i :: 1 <= i < |ps| ==> ps[i] == ps[1..][i - 1];
    }
  }

  predicate SortedEvents(es: seq<Event>)
  {
    forall i, j :: 0 <= i < j < |es| ==> es[i].timestamp <= es[j].timestamp
  }

  lemma {:induction false} EventsSorted(ps: seq<Package>, r: Ranges)
    requires SortedPackages(ps)
    ensures SortedEvents(Events(ps, r))
    ensures forall e :: e in Events(ps, r) ==> exists p :: p in ps && e.timestamp == p.sample.timestamp
  {
    if ps != [] {
      EventsSorted(ps[1..], r);
      if ValidRange(ps[0].kind, r) {
        var tail := Events(ps[1..], r);
        forall i | 0 <= i < |tail| ensures ps[0].sample.timestamp <= tail[i].timestamp {
          assert tail[i] in tail;
          var p :| p in ps[1..] && tail[i].timestamp == p.sample.timestamp;
        }
      }
    }
  }

  // ---------- the loops ----------

  /** The earliest time among the next samples, the alignment standard of the next slot. */
  method FindTimeBase(acc: seq<Sample>, accCurIndex: nat, gyr: seq<Sample>, gyrCurIndex: nat)
    returns (curBaseTm: int)
    requires accCurIndex <= |acc| && gyrCurIndex <= |gyr|
    requires accCurIndex < |acc| || gyrCurIndex < |gyr|
    ensures curBaseTm == BaseTime(acc[accCurIndex..], gyr[gyrCurIndex..])
  {
    curBaseTm := 0;
    if gyrCurIndex < |gyr| {
      curBaseTm := gyr[gyrCurIndex].timestamp;
    }
    if accCurIndex < |acc| {
      if curBaseTm != 0 {
        if acc[accCurIndex].timestamp < curBaseTm {
          curBaseTm := acc[accCurIndex].timestamp;
        }
      } else {
        curBaseTm := acc[accCurIndex].timestamp;
      }
    }
  }

  /** One round of the merge: sets the flags of one zeroed slot and moves the cursors past its samples. */
  method FillSlot(acc: seq<Sample>, accCurIndex: nat, gyr: seq<Sample>, gyrCurIndex: nat,
                  alignInd: array<Indication>, pos: nat)
    returns (accNext: nat, gyrNext: nat)
    requires accCurIndex <= |acc| && gyrCurIndex <= |gyr|
    requires accCurIndex < |acc| || gyrCurIndex < |gyr|
    requires pos < alignInd.Length && forall k :: pos <= k < alignInd.Length ==> alignInd[k] == NONE
    modifies alignInd
    ensures alignInd[..pos + 1] == old(alignInd[..pos]) + [Flags(acc[accCurIndex..], gyr[gyrCurIndex..])]
    ensures forall k :: pos + 1 <= k < alignInd.Length ==> alignInd[k] == NONE
    ensures var t := BaseTime(acc[accCurIndex..], gyr[gyrCurIndex..]);
      && accCurIndex <= accNext <= |acc| && acc[accNext..] == Rest(acc[accCurIndex..], t)
      && gyrCurIndex <= gyrNext <= |gyr| && gyr[gyrNext..] == Rest(gyr[gyrCurIndex..], t)
      && accCurIndex + gyrCurIndex < accNext + gyrNext
  {
    var curBaseTm := FindTimeBase(acc, accCurIndex, gyr, gyrCurIndex);
    SomeoneTakes(acc[accCurIndex..], gyr[gyrCurIndex..]);
    accNext, gyrNext := accCurIndex, gyrCurIndex;
    if accCurIndex < |acc| && acc[accCurIndex].timestamp == curBaseTm {
      alignInd[pos] := alignInd[pos].(hasAcc := true);
      accNext := accCurIndex + 1;
    }
    if gyrCurIndex < |gyr| && gyr[gyrCurIndex].timestamp == curBaseTm {
      alignInd[pos] := alignInd[pos].(hasGyr := true);
      gyrNext := gyrCurIndex + 1;
    }
    assert alignInd[pos] == Flags(acc[accCurIndex..], gyr[gyrCurIndex..]);
  }

  lemma MergeHead(acc: seq<Sample>, gyr: seq<Sample>, done: seq<Indication>, all: seq<Indication>)
    requires (acc != [] || gyr != []) && done + Merge(acc, gyr) == all
    ensures var t := BaseTime(acc, gyr); done + [Flags(acc, gyr)] + Merge(Rest(acc, t), Rest(gyr, t)) == all
  {
    SomeoneTakes(acc, gyr);
    var t := BaseTime(acc, gyr);
    MoveOver(done, [Flags(acc, gyr)], Merge(Rest(acc, t), Rest(gyr, t)), all);
  }

  /** Fills a zeroed indication array with one slot for each sample at hand. */
  method SortInputSamples(acc: seq<Sample>, gyr: seq<Sample>) returns (alignInd: array<Indication>, len: nat)
    ensures fresh(alignInd) && alignInd.Length == |acc| + |gyr|
    ensures len <= alignInd.Length && alignInd[..len] == Merge(acc, gyr)
  {
    alignInd := new Indication[|acc| + |gyr|](_ => NONE);
    var accCurIndex: nat, gyrCurIndex: nat := 0, 0;
    ghost var ra, rg, all := acc, gyr, Merge(acc, gyr);
    len := 0;
    while accCurIndex < |acc| || gyrCurIndex < |gyr|
      invariant accCurIndex <= |acc| && gyrCurIndex <= |gyr| && len <= accCurIndex + gyrCurIndex
      invariant ra == acc[accCurIndex..] && rg == gyr[gyrCurIndex..]
      invariant forall k :: len <= k < alignInd.Length ==> alignInd[k] == NONE
      invariant alignInd[..len] + Merge(ra, rg) == all
      decreases |acc| + |gyr| - accCurIndex - gyrCurIndex
    {
      ghost var done, t := alignInd[..len], BaseTime(ra, rg);
      MergeHead(ra, rg, done, all);
      accCurIndex, gyrCurIndex := FillSlot(acc, accCurIndex, gyr, gyrCurIndex, alignInd, len);
      ra, rg, len := Rest(ra, t), Rest(rg, t), len + 1;
    }
    Right(alignInd[..len]);
  }

  /** Collects the samples of one slot and moves the indices past them. */
  method TakeSlot(ind: Indication, acc: seq<Sample>, accIndex: nat, gyr: seq<Sample>, gyrIndex: nat, ghost t: int)
    returns (package: seq<Package>, accNext: nat, gyrNext: nat)
    requires accIndex <= |acc| && gyrIndex <= |gyr|
    requires ind == Indication(Takes(acc[accIndex..], t), Takes(gyr[gyrIndex..], t))
    ensures package == Slot(acc[accIndex..], gyr[gyrIndex..], t)
    ensures accNext <= |acc| && acc[accNext..] == Rest(acc[accIndex..], t)
    ensures gyrNext <= |gyr| && gyr[gyrNext..] == Rest(gyr[gyrIndex..], t)
  {
    package, accNext, gyrNext := [], accIndex, gyrIndex;
    if ind.hasAcc {
      package := package + [Package(Accel, acc[accIndex])];
      accNext := accIndex + 1;
    }
    if ind.hasGyr {
      package := package + [Package(Gyro, gyr[gyrIndex])];
      gyrNext := gyrIndex + 1;
    }
  }

  /** Walks the indications and emits the samples each slot calls for. */
  method Emit(alignInd: seq<Indication>, acc: seq<Sample>, gyr: seq<Sample>, r: Ranges) returns (events: seq<Event>)
    requires alignInd == Merge(acc, gyr)
    ensures events == Events(Emitted(acc, gyr), r)
  {
    events := [];
    var accIndex, gyrIndex := 0, 0;
    for i := 0 to |alignInd|
      invariant 0 <= accIndex <= |acc| && 0 <= gyrIndex <= |gyr|
      invariant alignInd[i..] == Merge(acc[accIndex..], gyr[gyrIndex..])
      invariant events + Events(Emitted(acc[accIndex..], gyr[gyrIndex..]), r) == Events(Emitted(acc, gyr), r)
    {
      ghost var ra, rg := acc[accIndex..], gyr[gyrIndex..];
      SlotUnfolds(alignInd[i..], ra, rg);
      assert alignInd[i..][1..] == alignInd[i + 1..];
      ghost var t := BaseTime(ra, rg);
      var package: seq<Package>;
      package, accIndex, gyrIndex := TakeSlot(alignInd[i], acc, accIndex, gyr, gyrIndex, t);
      SlotEvents(package, ra, rg, t, r);
      var delivered := DeliverPackage(package, r);
      MoveOver(events, delivered, Events(Emitted(Rest(ra, t), Rest(rg, t)), r), Events(Emitted(acc, gyr), r));
      events := events + delivered;
    }
  }

  lemma SlotEvents(package: seq<Package>, acc: seq<Sample>, gyr: seq<Sample>, t: int, r: Ranges)
    requires (acc != [] || gyr != []) && t == BaseTime(acc, gyr) && package == Slot(acc, gyr, t)
    ensures Events(Emitted(acc, gyr), r) == Events(package, r) + Events(Emitted(Rest(acc, t), Rest(gyr, t)), r)
  {
    SomeoneTakes(acc, gyr);
    EventsAppend(package, Emitted(Rest(acc, t), Rest(gyr, t)), r);
  }

  /** Converts the samples of one slot. When the ranges of their sensors are known, the j-th event tells of the
      j-th sample. */
  method DeliverPackage(package: seq<Package>, r: Ranges) returns (events: seq<Event>)
    ensures events == Events(package, r)
    ensures (forall j :: 0 <= j < |package| ==> KnownRange(package[j].kind, r)) ==>
      && |events| == |package|
      && forall j :: 0 <= j < |package| ==> TellsOf(events[j], package[j].kind, package[j].sample, r)
    ensures (forall j :: 0 <= j < |package| ==> !KnownRange(package[j].kind, r)) ==> events == []
  {
    events := [];
    for j := 0 to |package|
      invariant events == Events(package[..j], r)
    {
      EventsAppend(package[..j], [package[j]], r);
      assert package[..j + 1] == package[..j] + [package[j]];
      if ValidRange(package[j].kind, r) {
        events := events + [EventOf(package[j], r)];
      }
    }
    assert package[..|package|] == package;
    PackageTells(package, r);
  }

  lemma PackageTells(ps: seq<Package>, r: Ranges)
    ensures (forall j :: 0 <= j < |ps| ==> KnownRange(ps[j].kind, r)) ==>
      && |Events(ps, r)| == |ps|
      && forall j :: 0 <= j < |ps| ==> TellsOf(Events(ps, r)[j], ps[j].kind, ps[j].sample, r)
    ensures (forall j :: 0 <= j < |ps| ==> !KnownRange(ps[j].kind, r)) ==> Events(ps, r) == []
  {
    if forall j :: 0 <= j < |ps| ==> KnownRange(ps[j].kind, r) {
      EventsTell(ps, r);
    }
    if forall j :: 0 <= j < |ps| ==> !KnownRange(ps[j].kind, r) {
      NoEvents(ps, r);
    }
  }

  lemma {:induction false} NoEvents(ps: seq<Package>, r: Ranges)
    requires forall j :: 0 <= j < |ps| ==> !KnownRange(ps[j].kind, r)
    ensures Events(ps, r) == []
  {
    if ps != [] {
      NoEvents(ps[1..], r);
    }
  }

  /** The first indication of a merge says which samples belong to its first slot. */
  lemma SlotUnfolds(flags: seq<Indication>, acc: seq<Sample>, gyr: seq<Sample>)
    requires flags != [] && flags == Merge(acc, gyr)
    ensures acc != [] || gyr != []
    ensures var t := BaseTime(acc, gyr);
      && (flags[0].hasAcc <==> Takes(acc, t))
      && (flags[0].hasGyr <==> Takes(gyr, t))
      && flags[1..] == Merge(Rest(acc, t), Rest(gyr, t))
  {
  }
}
