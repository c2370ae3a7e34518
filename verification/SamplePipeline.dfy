// The two threads of the legacy HAL: hwcntl polls the chips and hands the samples over, sensord splits
// them by sensor, aligns them and emits events.

module SamplePipeline {
  import opened BoundedQueue
  import opened SimpleList
  import opened Alignment

  const LIMIT := 128

  function TypeOf(kind: Kind): int
  {
    match kind
    case Accel => SENSOR_TYPE_ACCELEROMETER
    case Gyro => SENSOR_TYPE_GYROSCOPE_UNCALIBRATED
  }

  /** The samples of one sensor in a mixed list. */
  function ByType(kind: Kind, s: seq<Sample>): seq<Sample>
  {
    if s == [] then []
    else if s[0].id == TypeOf(kind) then [s[0]] + ByType(kind, s[1..])
    else ByType(kind, s[1..])
  }

  /** The shared list after one cycle of hwcntl, both sensors mounted under one lock. */
  function MountedCycle(shared: seq<Sample>, acc: seq<Sample>, gyr: seq<Sample>): seq<Sample>
  {
    Mounted(Mounted(shared, acc, LIMIT), gyr, LIMIT)
  }

  // ---------- the code of the two threads, on the lists ----------

  /** A list as the HAL creates it for a thread or for sharing: empty, and with the limit that no thread changes. */
  method NewList() returns (list: BoschSimpleList<Sample>)
    ensures fresh(list) && list.Bounded() && list.uplimit == LIMIT && list.contents == [] && list.spine == []
  {
    list := new BoschSimpleList();
  }

  /** Polling: every reading that is available goes to the rear of the sensor's own list. */
  method Poll(dest: BoschSimpleList<Sample>, readings: seq<Sample>)
    requires dest.Bounded() && dest.uplimit == LIMIT
    modifies dest, dest.spine
    ensures dest.Bounded() && dest.uplimit == LIMIT
    ensures dest.contents == AddAll(old(dest.contents), readings, LIMIT)
    ensures forall n :: n in dest.spine ==> n in old(dest.spine) || fresh(n)
  {
    for i := 0 to |readings|
      invariant dest.Bounded() && dest.uplimit == LIMIT
      invariant AddAll(dest.contents, readings[i..], LIMIT) == AddAll(old(dest.contents), readings, LIMIT)
      invariant forall n :: n in dest.spine ==> n in old(dest.spine) || fresh(n)
    {
      var ret := dest.AddRear(readings[i], false);
    }
  }

  /** Hand-over: both private lists are emptied into the shared one while the mutex is held. */
  method DeliverSensorData(
    shared: BoschSimpleList<Sample>, acc: BoschSimpleList<Sample>, gyr: BoschSimpleList<Sample>)
    requires shared.Bounded() && acc.Bounded() && gyr.Bounded()
    requires shared.uplimit == acc.uplimit == gyr.uplimit == LIMIT
    requires shared != acc && shared != gyr && acc != gyr
    requires forall n :: n in shared.spine ==> n !in acc.spine && n !in gyr.spine
    requires forall n :: n in acc.spine ==> n !in gyr.spine
    modifies shared, acc, gyr, shared.spine, acc.spine
    ensures shared.Bounded() && acc.Bounded() && gyr.Bounded()
    ensures shared.contents == MountedCycle(old(shared.contents), old(acc.contents), old(gyr.contents))
    ensures acc.contents == [] && gyr.contents == [] && acc.spine == [] && gyr.spine == []
  {
    if acc.listLen + gyr.listLen != 0 {
      var ret := shared.MountRear(acc);
      ret := shared.MountRear(gyr);
    }
  }

  /** The lists of both sensors, disjoint and within the limit. */
  ghost predicate Pair(acc: BoschSimpleList<Sample>, gyr: BoschSimpleList<Sample>)
    reads acc, gyr, acc.spine, gyr.spine
  {
    && acc != gyr && acc.Bounded() && gyr.Bounded() && acc.uplimit == gyr.uplimit == LIMIT
    && forall n :: n in acc.spine ==> n !in gyr.spine
  }

  /** Where one sample goes: a sample of type 1 is the accelerometer's, one of type 16 the gyroscope's. */
  lemma OneSampleGoes(kind: Kind, s: seq<Sample>, x: Sample)
    ensures AddAll(s, ByType(kind, [x]), LIMIT)
         == if (x.id == 1 && kind == Accel) || (x.id == 16 && kind == Gyro) then Added(s, x, LIMIT) else s
  {
    assert [x][1..] == [] && ByType(kind, [x][1..]) == [];
  }

  /** One sample goes to the rear of its sensor's list; a sample of another type goes nowhere. */
  method Demultiplex(hwdata: Sample, acc: BoschSimpleList<Sample>, gyr: BoschSimpleList<Sample>)
    requires Pair(acc, gyr)
    modifies acc, gyr, acc.Rear(), gyr.Rear()
    ensures Pair(acc, gyr)
    ensures acc.contents == AddAll(old(acc.contents), ByType(Accel, [hwdata]), LIMIT)
    ensures gyr.contents == AddAll(old(gyr.contents), ByType(Gyro, [hwdata]), LIMIT)
    ensures forall n :: n in acc.spine ==> n in old(acc.spine) || fresh(n)
    ensures forall n :: n in gyr.spine ==> n in old(gyr.spine) || fresh(n)
  {
    if hwdata.id == SENSOR_TYPE_ACCELEROMETER {
      var ret := acc.AddRear(hwdata, false);
    } else if hwdata.id == SENSOR_TYPE_GYROSCOPE_UNCALIBRATED {
      var ret := gyr.AddRear(hwdata, false);
    }
  }

  /** Taking the samples of a list one at a time adds the same samples in the same order. */
  lemma AddAllByTypeHead(kind: Kind, s: seq<Sample>, t: seq<Sample>)
    requires t != []
    ensures AddAll(AddAll(s, ByType(kind, [t[0]]), LIMIT), ByType(kind, t[1..]), LIMIT)
         == AddAll(s, ByType(kind, t), LIMIT)
  {
    if t[0].id == TypeOf(kind) {
      assert ByType(kind, [t[0]]) == [t[0]];
    }
  }

  /** The oldest sample of the shared list moves to its sensor's list. */
  method MoveOne(
    shared: BoschSimpleList<Sample>, acc: BoschSimpleList<Sample>, gyr: BoschSimpleList<Sample>)
    requires Pair(acc, gyr) && shared.Bounded() && shared != acc && shared != gyr
    requires shared.contents != []
    requires forall n :: n in shared.spine ==> n !in acc.spine && n !in gyr.spine
    modifies shared, acc, gyr, acc.Rear(), gyr.Rear()
    ensures Pair(acc, gyr) && shared.Bounded()
    ensures shared.spine == old(shared.spine)[1..] && shared.contents == old(shared.contents)[1..]
    ensures AddAll(acc.contents, ByType(Accel, shared.contents), LIMIT)
         == AddAll(old(acc.contents), ByType(Accel, old(shared.contents)), LIMIT)
    ensures AddAll(gyr.contents, ByType(Gyro, shared.contents), LIMIT)
         == AddAll(old(gyr.contents), ByType(Gyro, old(shared.contents)), LIMIT)
    ensures forall n :: n in acc.spine ==> n in old(acc.spine) || fresh(n)
    ensures forall n :: n in gyr.spine ==> n in old(gyr.spine) || fresh(n)
  {
    AddAllByTypeHead(Accel, acc.contents, shared.contents);
    AddAllByTypeHead(Gyro, gyr.contents, shared.contents);
    var hwdata := shared.GetHeaddata();
    Demultiplex(hwdata.value, acc, gyr);
  }

  /** Demultiplexing: the shared list is emptied into one list per sensor while the mutex is held. */
  method ReadRawdata(
    shared: BoschSimpleList<Sample>, acc: BoschSimpleList<Sample>, gyr: BoschSimpleList<Sample>)
    requires Pair(acc, gyr) && shared.Bounded() && shared != acc && shared != gyr
    requires forall n :: n in shared.spine ==> n !in acc.spine && n !in gyr.spine
    modifies shared, acc, gyr, acc.spine, gyr.spine
    ensures Pair(acc, gyr) && shared.Bounded()
    ensures shared.contents == [] && shared.spine == []
    ensures acc.contents == AddAll(old(acc.contents), ByType(Accel, old(shared.contents)), LIMIT)
    ensures gyr.contents == AddAll(old(gyr.contents), ByType(Gyro, old(shared.contents)), LIMIT)
  {
    while shared.listLen != 0
      invariant shared.Bounded() && Pair(acc, gyr)
      invariant forall n :: n in shared.spine ==> n in old(shared.spine)
      invariant forall n :: n in acc.spine ==> n in old(acc.spine) || fresh(n)
      invariant forall n :: n in gyr.spine ==> n in old(gyr.spine) || fresh(n)
      invariant AddAll(acc.contents, ByType(Accel, shared.contents), LIMIT)
             == AddAll(old(acc.contents), ByType(Accel, old(shared.contents)), LIMIT)
      invariant AddAll(gyr.contents, ByType(Gyro, shared.contents), LIMIT)
             == AddAll(old(gyr.contents), ByType(Gyro, old(shared.contents)), LIMIT)
      decreases shared.listLen
    {
      MoveOne(shared, acc, gyr);
    }
  }

  /** Takes all samples out of a list, oldest first. */
  method TakeAll(list: BoschSimpleList<Sample>) returns (s: seq<Sample>)
    requires list.Linked()
    modifies list`head, list`listLen, list`spine, list`contents
    ensures list.Linked() && list.contents == [] && list.uplimit == old(list.uplimit)
    ensures s == old(list.contents)
  {
    s := [];
    while list.listLen != 0
      invariant list.Linked() && list.uplimit == old(list.uplimit)
      invariant s + list.contents == old(list.contents)
      decreases list.listLen
    {
      var hwdata := list.GetHeaddata();
      s := s + [hwdata.value];
    }
  }

  /** Aligns the two lists of a batch and returns the events written to the pipe: those of each sensor tell of
      its samples, one of each and in order, when its range is known. */
  method AlgoProcess(acc: BoschSimpleList<Sample>, gyr: BoschSimpleList<Sample>, r: Ranges)
    returns (events: seq<Event>)
    requires acc != gyr && acc.Linked() && gyr.Linked()
    modifies acc`head, acc`listLen, acc`spine, acc`contents, gyr`head, gyr`listLen, gyr`spine, gyr`contents
    ensures acc.Linked() && gyr.Linked() && acc.contents == [] && gyr.contents == []
    ensures events == Events(Emitted(old(acc.contents), old(gyr.contents)), r)
    ensures TellsOfAll(OnlyEvents(Accel, events), Accel, old(acc.contents), r)
    ensures TellsOfAll(OnlyEvents(Gyro, events), Gyro, old(gyr.contents), r)
  {
    BatchTellsOfAll(Accel, acc.contents, gyr.contents, r);
    BatchTellsOfAll(Gyro, acc.contents, gyr.contents, r);
    if acc.listLen + gyr.listLen == 0 {
      return [];
    }
    var accData := TakeAll(acc);
    var gyrData := TakeAll(gyr);
    var alignInd, len := SortInputSamples(accData, gyrData);
    events := Emit(alignInd[..len], accData, gyrData, r);
  }
}
