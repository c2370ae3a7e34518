// How the multi-HAL proxy merges the sensors of its sub-HALs into one list of unique handles.

module HandleCoding {

  const BITS_AFTER_SUB_HAL_INDEX := 24
  const SUB_HAL_INDEX_MASK: bv32 := 0xFF00_0000

  /** Puts the sub-HAL index into the first byte; an index is 64 bits wide and is cut to 32 bits first. */
  function SetSubHalIndex(sensorHandle: bv32, subHalIndex: bv64): bv32
  {
    sensorHandle | (((subHalIndex & 0xFFFF_FFFF) as bv32) << 24)
  }

  /** Handles are signed: the shift copies the sign, and so does the conversion to 64 bits. */
  function ExtractSubHalIndex(sensorHandle: bv32): bv64
  {
    if sensorHandle & 0x8000_0000 == 0 then (sensorHandle >> 24) as bv64
    else ((sensorHandle >> 24) as bv64) | 0xFFFF_FFFF_FFFF_FF00
  }

  function ClearSubHalIndex(sensorHandle: bv32): bv32
  {
    sensorHandle & !SUB_HAL_INDEX_MASK
  }

  predicate SubHalIndexIsClear(sensorHandle: bv32)
  {
    sensorHandle & SUB_HAL_INDEX_MASK == 0
  }

  lemma ClearRoundTrip(h: bv32, i: bv64)
    requires SubHalIndexIsClear(h)
    ensures ClearSubHalIndex(SetSubHalIndex(h, i)) == h
  {
  }

  /** The index comes back from the handle exactly when it is below 128, or so large that it is the sign
      extension of such a byte, which no number of sub-HALs reaches. */
  lemma ExtractRoundTripIff(h: bv32, i: bv64)
    requires SubHalIndexIsClear(h)
    ensures ExtractSubHalIndex(SetSubHalIndex(h, i)) == i <==> i < 128 || 0xFFFF_FFFF_FFFF_FF80 <= i
  {
  }

  /** On any handle, clear or not: the lower three bytes stay, and the lowest byte of the index is added to the bits
      of the first. */
  lemma SetOnAnyHandle(h: bv32, i: bv64)
    ensures ClearSubHalIndex(SetSubHalIndex(h, i)) == ClearSubHalIndex(h)
    ensures SetSubHalIndex(h, i) >> 24 == (h >> 24) | (i & 0xFF) as bv32
  {
  }

  lemma LowByteOf(h: bv32, i: bv64)
    requires SubHalIndexIsClear(h)
    ensures (SetSubHalIndex(h, i) >> 24) as bv64 == i & 0xFF
  {
  }

  lemma OnlyLowByteCounts(h: bv32, i: bv64)
    ensures SetSubHalIndex(h, i) == SetSubHalIndex(h, i & 0xFF)
  {
  }

  /** Two handles made of clear ones are the same exactly when the local handles are and the indices agree in
      their lowest byte. So handles of up to 256 sub-HALs never collide. */
  lemma SetIsInjectiveIff(g: bv32, i: bv64, h: bv32, j: bv64)
    requires SubHalIndexIsClear(g) && SubHalIndexIsClear(h)
    ensures SetSubHalIndex(g, i) == SetSubHalIndex(h, j) <==> g == h && i & 0xFF == j & 0xFF
  {
    ClearRoundTrip(g, i);
    ClearRoundTrip(h, j);
    LowByteOf(g, i);
    LowByteOf(h, j);
    OnlyLowByteCounts(g, i);
    OnlyLowByteCounts(h, j);
  }

  /** With 200 sub-HALs the handles of the last ones decode to an index that does not exist. */
  lemma LargeIndexIsLost()
    ensures exists h: bv32, i: bv64 ::
      SubHalIndexIsClear(h) && i < 200 && ExtractSubHalIndex(SetSubHalIndex(h, i)) >= 200
  {
    assert SubHalIndexIsClear(1) && ExtractSubHalIndex(SetSubHalIndex(1, 199)) >= 200;
  }
}

module SensorDirectory {
  import opened Sequences
  import opened Wrappers

  /** How an index is put into a handle and taken out again, and which indices survive that. */
  datatype Coding<!H, !I> =
    Coding(tag: (H, I) -> H, origin: H -> I, clear: H -> H, isClear: H -> bool, small: I -> bool)

  /** A small index and a clear local handle come back from the handle made of them. */
  ghost predicate Lawful<H(!new), I(!new)>(c: Coding<H, I>)
  {
    forall h, i :: c.isClear(h) && c.small(i) ==> c.origin(c.tag(h, i)) == i && c.clear(c.tag(h, i)) == h
  }

  /** direct: the sensor supports direct channels. */
  datatype SensorInfo<H> = SensorInfo(handle: H, direct: bool, wakeUp: bool, name: string)

  /** A sensor that a sub-HAL lists. */
  datatype Offer<H, I> = Offer(subHal: I, sensor: SensorInfo<H>)

  /** The merged list, and the one sub-HAL that keeps its direct channels. */
  datatype Merged<H, I> = Merged(sensors: map<H, SensorInfo<H>>, directSubHal: Option<I>)

  function Empty<H, I>(): Merged<H, I>
  {
    Merged(map[], None)
  }

  /** What the framework sees as the handle of a sensor. */
  function Handle<H, I>(c: Coding<H, I>, o: Offer<H, I>): H
  {
    c.tag(o.sensor.handle, o.subHal)
  }

  predicate Usable<H, I>(c: Coding<H, I>, o: Offer<H, I>)
  {
    c.isClear(o.sensor.handle)
  }

  /** The first sensor with direct channels decides which sub-HAL keeps them. */
  function Chosen<H, I(==)>(direct: Option<I>, o: Offer<H, I>): Option<I>
  {
    if direct == None && o.sensor.direct then Some(o.subHal) else direct
  }

  /** The entry of a sensor, given the sub-HAL that keeps its direct channels. */
  function EntryOf<H, I(==)>(c: Coding<H, I>, o: Offer<H, I>, direct: Option<I>): SensorInfo<H>
  {
    o.sensor.(handle := Handle(c, o), direct := o.sensor.direct && direct == Some(o.subHal))
  }

  function Enter<H(==), I(==)>(c: Coding<H, I>, m: Merged<H, I>, o: Offer<H, I>): Merged<H, I>
  {
    if !Usable(c, o) then m
    else
      var direct := Chosen(m.directSubHal, o);
      Merged(m.sensors[Handle(c, o) := EntryOf(c, o, direct)], direct)
  }

  function Enroll<H(==), I(==)>(c: Coding<H, I>, offers: seq<Offer<H, I>>): Merged<H, I>
    decreases |offers|
  {
    if offers == [] then Empty()
    else Enter(c, Enroll(c, offers[..|offers| - 1]), offers[|offers| - 1])
  }

  // ---------- what the merged list holds ----------

  /** The entry with this handle stems from the k-th offer. */
  ghost predicate StemsFrom<H, I>(c: Coding<H, I>, m: Merged<H, I>, handle: H, offers: seq<Offer<H, I>>, k: int)
  {
    && 0 <= k < |offers| && handle in m.sensors
    && Usable(c, offers[k]) && handle == Handle(c, offers[k])
    && m.sensors[handle] == EntryOf(c, offers[k], m.directSubHal)
  }

  /** The k-th offer is the first usable one with direct channels. */
  ghost predicate FirstDirect<H, I>(c: Coding<H, I>, offers: seq<Offer<H, I>>, k: int)
  {
    && 0 <= k < |offers| && Usable(c, offers[k]) && offers[k].sensor.direct
    && NoDirect(c, offers[..k])
  }

  predicate NoDirect<H, I>(c: Coding<H, I>, offers: seq<Offer<H, I>>)
  {
    forall j :: 0 <= j < |offers| && Usable(c, offers[j]) ==> !offers[j].sensor.direct
  }

  /** The sub-HAL that keeps its direct channels is the first that offered any. */
  ghost predicate DirectOk<H, I>(c: Coding<H, I>, direct: Option<I>, offers: seq<Offer<H, I>>)
  {
    match direct
    case None => NoDirect(c, offers)
    case Some(i) => exists k :: FirstDirect(c, offers, k) && offers[k].subHal == i
  }

  ghost predicate Faithful<H(!new), I(!new)>(c: Coding<H, I>, m: Merged<H, I>, offers: seq<Offer<H, I>>)
  {
    && (forall h :: h in m.sensors ==> exists k :: StemsFrom(c, m, h, offers, k))
    && (forall k :: 0 <= k < |offers| && Usable(c, offers[k]) ==> Handle(c, offers[k]) in m.sensors)
    && DirectOk(c, m.directSubHal, offers)
  }

  lemma EnterKeepsStem<H, I>(c: Coding<H, I>, m: Merged<H, I>, o: Offer<H, I>, h: H, offers: seq<Offer<H, I>>, k: int)
    requires StemsFrom(c, m, h, offers, k) && h != Handle(c, o)
    requires m.directSubHal == None ==> !offers[k].sensor.direct
    ensures StemsFrom(c, Enter(c, m, o), h, offers + [o], k)
  {
    assert (offers + [o])[k] == offers[k];
  }

  lemma EnterAddsStem<H, I>(c: Coding<H, I>, m: Merged<H, I>, o: Offer<H, I>, offers: seq<Offer<H, I>>)
    requires Usable(c, o)
    ensures StemsFrom(c, Enter(c, m, o), Handle(c, o), offers + [o], |offers|)
  {
    assert (offers + [o])[|offers|] == o;
  }

  lemma EnterDirect<H, I>(c: Coding<H, I>, m: Merged<H, I>, o: Offer<H, I>, offers: seq<Offer<H, I>>)
    requires DirectOk(c, m.directSubHal, offers)
    ensures DirectOk(c, Enter(c, m, o).directSubHal, offers + [o])
  {
    var all := offers + [o];
    if m.directSubHal.Some? {
      var k :| FirstDirect(c, offers, k) && offers[k].subHal == m.directSubHal.value;
      assert all[..k] == offers[..k] && all[k] == offers[k];
      assert FirstDirect(c, all, k);
    } else if Usable(c, o) && o.sensor.direct {
      assert all[..|offers|] == offers;
      assert FirstDirect(c, all, |offers|);
    }
  }

  lemma EnterFaithful<H(!new), I(!new)>(c: Coding<H, I>, m: Merged<H, I>, o: Offer<H, I>, offers: seq<Offer<H, I>>)
    requires Faithful(c, m, offers)
    ensures Faithful(c, Enter(c, m, o), offers + [o])
  {
    var t, all := Enter(c, m, o), offers + [o];
    EnterDirect(c, m, o, offers);
    forall h | h in t.sensors ensures exists k :: StemsFrom(c, t, h, all, k) {
      if Usable(c, o) && h == Handle(c, o) {
        EnterAddsStem(c, m, o, offers);
      } else {
        var k :| StemsFrom(c, m, h, offers, k);
        if Usable(c, o) {
          EnterKeepsStem(c, m, o, h, offers, k);
        } else {
          assert StemsFrom(c, t, h, all, k);
        }
      }
    }
  }

  lemma {:induction false} EnrollFaithful<H(!new), I(!new)>(c: Coding<H, I>, offers: seq<Offer<H, I>>)
    ensures Faithful(c, Enroll(c, offers), offers)
    decreases |offers|
  {
    if offers != [] {
      var n := |offers| - 1;
      EnrollFaithful(c, offers[..n]);
      EnterFaithful(c, Enroll(c, offers[..n]), offers[n], offers[..n]);
      assert offers == offers[..n] + [offers[n]];
    }
  }

  /** The list holds exactly the handles made of the clear handles that were offered. */
  lemma ListedIff<H(!new), I(!new)>(c: Coding<H, I>, offers: seq<Offer<H, I>>, h: H)
    ensures h in Enroll(c, offers).sensors <==> exists k ::
      0 <= k < |offers| && c.isClear(offers[k].sensor.handle) && h == c.tag(offers[k].sensor.handle, offers[k].subHal)
  {
    EnrollFaithful(c, offers);
    if h in Enroll(c, offers).sensors {
      var k :| StemsFrom(c, Enroll(c, offers), h, offers, k);
    }
    if k :| 0 <= k < |offers| && Usable(c, offers[k]) && h == Handle(c, offers[k]) {
      assert Handle(c, offers[k]) in Enroll(c, offers).sensors;
    }
  }

  /** When a sensor is offered again under the same handle, the last offer stands. */
  lemma {:induction false} LastOfferStands<H(!new), I(!new)>(c: Coding<H, I>, offers: seq<Offer<H, I>>, k: nat)
    requires k < |offers| && Usable(c, offers[k])
    requires forall j :: k < j < |offers| && Usable(c, offers[j]) ==> Handle(c, offers[j]) != Handle(c, offers[k])
    ensures StemsFrom(c, Enroll(c, offers), Handle(c, offers[k]), offers, k)
    decreases |offers|
  {
    var n := |offers| - 1;
    var before, o := offers[..n], offers[n];
    assert offers == before + [o];
    if k == n {
      EnterAddsStem(c, Enroll(c, before), o, before);
    } else {
      assert before[k] == offers[k];
      LastOfferStands(c, before, k);
      EnrollFaithful(c, before);
      if Usable(c, o) {
        EnterKeepsStem(c, Enroll(c, before), o, Handle(c, offers[k]), before, k);
      }
    }
  }

  /** What is listed of an offer that no later one replaces: its wake-up flag and its name unchanged, the handle
      the framework knows, and direct channels exactly when it has them and no sub-HAL before its own had. */
  lemma ListedAsOffered<H(!new), I(!new)>(c: Coding<H, I>, offers: seq<Offer<H, I>>, k: nat)
    requires k < |offers| && c.isClear(offers[k].sensor.handle)
    requires forall j :: k < j < |offers| && Usable(c, offers[j]) ==> Handle(c, offers[j]) != Handle(c, offers[k])
    ensures var o, m, h := offers[k], Enroll(c, offers).sensors, c.tag(offers[k].sensor.handle, offers[k].subHal);
      && h in m && m[h].handle == h && m[h].wakeUp == o.sensor.wakeUp && m[h].name == o.sensor.name
      && (m[h].direct <==> o.sensor.direct && exists f :: FirstDirect(c, offers, f) && offers[f].subHal == o.subHal)
  {
    EnrollFaithful(c, offers);
    LastOfferStands(c, offers, k);
    if f :| FirstDirect(c, offers, f) && offers[f].subHal == offers[k].subHal {
      if g :| FirstDirect(c, offers, g) && Enroll(c, offers).directSubHal == Some(offers[g].subHal) {
        FirstDirectIsUnique(c, offers, f, g);
      }
    }
  }

  predicate FewSubHals<H, I>(c: Coding<H, I>, offers: seq<Offer<H, I>>)
  {
    forall k :: 0 <= k < |offers| ==> c.small(offers[k].subHal)
  }

  ghost predicate Decodes<H, I>(c: Coding<H, I>, h: H, o: Offer<H, I>)
  {
    c.origin(h) == o.subHal && c.clear(h) == o.sensor.handle
  }

  /** With at most 128 sub-HALs, whose indices are all small, every handle the framework sees decodes to the
      sub-HAL and the local handle of the sensor behind it. */
  lemma HandlesDecode<H(!new), I(!new)>(c: Coding<H, I>, offers: seq<Offer<H, I>>, h: H)
    requires Lawful(c) && FewSubHals(c, offers) && h in Enroll(c, offers).sensors
    ensures exists k :: StemsFrom(c, Enroll(c, offers), h, offers, k) && Decodes(c, h, offers[k])
  {
    EnrollFaithful(c, offers);
    var k :| StemsFrom(c, Enroll(c, offers), h, offers, k);
    assert Decodes(c, h, offers[k]);
  }

  /** Every usable sensor is listed, and sensors of different sub-HALs, or with different local handles, are
      listed under different handles. */
  lemma HandlesAreUnique<H(!new), I(!new)>(c: Coding<H, I>, offers: seq<Offer<H, I>>, i: nat, j: nat)
    requires Lawful(c) && FewSubHals(c, offers)
    requires i < |offers| && j < |offers| && Usable(c, offers[i]) && Usable(c, offers[j])
    ensures Handle(c, offers[i]) in Enroll(c, offers).sensors
    ensures Handle(c, offers[i]) == Handle(c, offers[j]) <==>
      offers[i].subHal == offers[j].subHal && offers[i].sensor.handle == offers[j].sensor.handle
  {
    EnrollFaithful(c, offers);
    assert Decodes(c, Handle(c, offers[i]), offers[i]);
    assert Decodes(c, Handle(c, offers[j]), offers[j]);
  }

  lemma FirstDirectIsUnique<H, I>(c: Coding<H, I>, offers: seq<Offer<H, I>>, i: int, j: int)
    requires FirstDirect(c, offers, i) && FirstDirect(c, offers, j)
    ensures i == j
  {
    if i < j {
      DirectBlocks(c, offers, i, j);
    } else if j < i {
      DirectBlocks(c, offers, j, i);
    }
  }

  lemma DirectBlocks<H, I>(c: Coding<H, I>, offers: seq<Offer<H, I>>, i: int, j: int)
    requires 0 <= i < j < |offers| && Usable(c, offers[i]) && offers[i].sensor.direct
    ensures !NoDirect(c, offers[..j])
  {
    assert offers[..j][i] == offers[i];
  }

  /** A listed sensor has direct channels exactly when it offered them and belongs to the sub-HAL that was
      the first to offer any. */
  lemma OneDirectSubHal<H(!new), I(!new)>(c: Coding<H, I>, offers: seq<Offer<H, I>>, h: H, f: int)
    requires h in Enroll(c, offers).sensors && FirstDirect(c, offers, f)
    ensures exists k ::
      && StemsFrom(c, Enroll(c, offers), h, offers, k)
      && (Enroll(c, offers).sensors[h].direct <==> offers[k].sensor.direct && offers[k].subHal == offers[f].subHal)
  {
    EnrollFaithful(c, offers);
    var m := Enroll(c, offers);
    if m.directSubHal.Some? {
      var g :| FirstDirect(c, offers, g) && offers[g].subHal == m.directSubHal.value;
      FirstDirectIsUnique(c, offers, f, g);
    }
    var k :| StemsFrom(c, m, h, offers, k);
    assert m.sensors[h].direct <==> offers[k].sensor.direct && offers[k].subHal == offers[f].subHal;
  }

  // ---------- the loops ----------

  datatype SubHal<H, I> = SubHal(index: I, list: seq<SensorInfo<H>>)

  function OffersOf<H, I>(s: SubHal<H, I>): seq<Offer<H, I>>
  {
    seq(|s.list|, j requires 0 <= j < |s.list| => Offer(s.index, s.list[j]))
  }

  /** All sensors of all sub-HALs, in the order in which they are asked for. */
  function Offers<H, I>(subHals: seq<SubHal<H, I>>): seq<Offer<H, I>>
    decreases |subHals|
  {
    if subHals == [] then []
    else Offers(subHals[..|subHals| - 1]) + OffersOf(subHals[|subHals| - 1])
  }

  /** The sensors of one sub-HAL are offered in the order in which it lists them. */
  lemma OffersOfOne<H, I>(s: SubHal<H, I>)
    ensures |Offers([s])| == |s.list|
    ensures forall j :: 0 <= j < |s.list| ==> Offers([s])[j] == Offer(s.index, s.list[j])
  {
    assert [s][..0] == [] && Offers([s][..0]) == [];
  }

  /** The sensors of some sub-HALs come before those of the sub-HALs after them. */
  lemma {:induction false} OffersInTurn<H, I>(a: seq<SubHal<H, I>>, b: seq<SubHal<H, I>>)
    ensures Offers(a + b) == Offers(a) + Offers(b)
    decreases |b|
  {
    if b == [] {
      assert a + b == a;
    } else {
      var n := |b| - 1;
      OffersInTurn(a, b[..n]);
      assert (a + b)[..|a + b| - 1] == a + b[..n] && (a + b)[|a + b| - 1] == b[n];
      Regroup(Offers(a), Offers(b[..n]), OffersOf(b[n]));
    }
  }

  class Directory<H(==), I(==)> {
    const coding: Coding<H, I>
    var sensors: map<H, SensorInfo<H>>
    var directChannelSubHal: Option<I>

    ghost function Contents(): Merged<H, I>
      reads this
    {
      Merged(sensors, directChannelSubHal)
    }

    constructor (coding: Coding<H, I>, subHals: seq<SubHal<H, I>>)
      ensures Contents() == Enroll(coding, Offers(subHals))
    {
      this.coding, sensors, directChannelSubHal := coding, map[], None;
      new;
      InitializeSensorList(subHals);
    }

    /** The first sub-HAL with a direct-channel sensor is chosen; the sensors of all others lose their
        flags from then on. */
    method SetDirectChannelFlags(sensor: SensorInfo<H>, subHal: I) returns (r: SensorInfo<H>)
      modifies `directChannelSubHal
      ensures directChannelSubHal == Chosen(old(directChannelSubHal), Offer(subHal, sensor))
      ensures r == sensor.(direct := sensor.direct && directChannelSubHal == Some(subHal))
    {
      r := sensor;
      if directChannelSubHal == None && sensor.direct {
        directChannelSubHal := Some(subHal);
      } else if directChannelSubHal != None && directChannelSubHal != Some(subHal) {
        r := sensor.(direct := false);
      }
    }

    method AddSensor(sensor: SensorInfo<H>, subHalIndex: I)
      modifies this
      ensures Contents() == Enter(coding, old(Contents()), Offer(subHalIndex, sensor))
    {
      if coding.isClear(sensor.handle) {
        var tagged := sensor.(handle := coding.tag(sensor.handle, subHalIndex));
        tagged := SetDirectChannelFlags(tagged, subHalIndex);
        sensors := sensors[tagged.handle := tagged];
      }
    }

    /** Enters every sensor of every sub-HAL in turn. */
    method InitializeSensorList(subHals: seq<SubHal<H, I>>)
      requires Contents() == Empty()
      modifies this
      ensures Contents() == Enroll(coding, Offers(subHals))
    {
      for i := 0 to |subHals|
        invariant Contents() == Enroll(coding, Offers(subHals[..i]))
      {
        var s := subHals[i];
        ghost var before, more := Offers(subHals[..i]), OffersOf(s);
        assert before + more[..0] == before;
        for j := 0 to |s.list|
          invariant Contents() == Enroll(coding, before + more[..j])
        {
          EnrollOneMore(coding, before, more, j);
          AddSensor(s.list[j], s.index);
        }
        assert more[..|s.list|] == more;
        assert subHals[..i + 1][..i] == subHals[..i];
      }
      assert subHals[..|subHals|] == subHals;
    }
  }

  lemma EnrollOneMore<H, I>(c: Coding<H, I>, before: seq<Offer<H, I>>, more: seq<Offer<H, I>>, j: nat)
    requires j < |more|
    ensures Enroll(c, before + more[..j + 1]) == Enter(c, Enroll(c, before + more[..j]), more[j])
  {
    var all := before + more[..j + 1];
    assert all[..|all| - 1] == before + more[..j] && all[|all| - 1] == more[j];
  }

  // ---------- events ----------

  /** An event as a sub-HAL posts it; for the sensor meta type, meta is the handle of the sensor it tells of. */
  datatype Event<H> = Event(handle: H, meta: Option<H>, payload: int)

  function TaggedEvent<H, I>(c: Coding<H, I>, e: Event<H>, subHal: I): Event<H>
  {
    Event(c.tag(e.handle, subHal), if e.meta.Some? then Some(c.tag(e.meta.value, subHal)) else None, e.payload)
  }

  /** The sub-HAL and its own handle can be read off the handle of a posted event, and likewise for the sensor
      a meta event tells of; the rest of the event is unchanged. */
  lemma EventDecodes<H(!new), I(!new)>(c: Coding<H, I>, e: Event<H>, subHal: I)
    requires Lawful(c) && c.small(subHal) && c.isClear(e.handle) && (e.meta.Some? ==> c.isClear(e.meta.value))
    ensures var out := TaggedEvent(c, e, subHal);
      && c.origin(out.handle) == subHal && c.clear(out.handle) == e.handle
      && (out.meta.Some? <==> e.meta.Some?)
      && (e.meta.Some? ==> c.origin(out.meta.value) == subHal && c.clear(out.meta.value) == e.meta.value)
      && out.payload == e.payload
  {
  }

  /** An event of an offered sensor carries a handle that is listed, and the sensor listed there is that one. */
  lemma EventOfOfferedSensor<H(!new), I(!new)>(c: Coding<H, I>, offers: seq<Offer<H, I>>, k: nat, e: Event<H>)
    requires Lawful(c) && FewSubHals(c, offers)
    requires k < |offers| && c.isClear(offers[k].sensor.handle) && e.handle == offers[k].sensor.handle
    ensures var h := TaggedEvent(c, e, offers[k].subHal).handle;
      && h in Enroll(c, offers).sensors
      && (forall j :: StemsFrom(c, Enroll(c, offers), h, offers, j) ==>
            offers[j].subHal == offers[k].subHal && offers[j].sensor.handle == e.handle)
      && exists j :: StemsFrom(c, Enroll(c, offers), h, offers, j)
  {
    EnrollFaithful(c, offers);
    var h := TaggedEvent(c, e, offers[k].subHal).handle;
    assert h == Handle(c, offers[k]) && Decodes(c, h, offers[k]);
    forall j | StemsFrom(c, Enroll(c, offers), h, offers, j)
      ensures offers[j].subHal == offers[k].subHal && offers[j].sensor.handle == e.handle
    {
      assert Decodes(c, h, offers[j]);
    }
  }

  predicate Wakes<H>(sensors: map<H, SensorInfo<H>>, handle: H)
  {
    handle in sensors && sensors[handle].wakeUp
  }

  function CountWakes<H>(sensors: map<H, SensorInfo<H>>, events: seq<Event<H>>): nat
  {
    if events == [] then 0
    else (if Wakes(sensors, events[0].handle) then 1 else 0) + CountWakes(sensors, events[1..])
  }

  lemma {:induction false} CountWakesAppend<H>(sensors: map<H, SensorInfo<H>>, a: seq<Event<H>>, e: Event<H>)
    ensures CountWakes(sensors, a + [e]) == CountWakes(sensors, a) + (if Wakes(sensors, e.handle) then 1 else 0)
  {
    if a == [] {
      assert a + [e] == [e] && CountWakes(sensors, [e][1..]) == 0;
    } else {
      CountWakesAppend(sensors, a[1..], e);
      assert (a + [e])[1..] == a[1..] + [e];
    }
  }

  /** The number of wake-up events is the number of places with an event of a listed wake-up sensor. */
  lemma {:induction false} CountWakesIsCardinality<H>(sensors: map<H, SensorInfo<H>>, events: seq<Event<H>>)
    ensures CountWakes(sensors, events)
         == |set i: int | 0 <= i < |events| && events[i].handle in sensors && sensors[events[i].handle].wakeUp|
    decreases |events|
  {
    var all := set i: int | 0 <= i < |events| && events[i].handle in sensors && sensors[events[i].handle].wakeUp;
    if events == [] {
      assert all == {};
    } else {
      var n := |events| - 1;
      var e, s := events[n], events[..n];
      var before := set i: int | 0 <= i < |s| && s[i].handle in sensors && sensors[s[i].handle].wakeUp;
      CountWakesIsCardinality(sensors, s);
      CountWakesAppend(sensors, s, e);
      assert s + [e] == events;
      assert all == if Wakes(sensors, e.handle) then before + {n} else before;
    }
  }

  /** Looking a sensor up in the map adds an empty description under a handle that is not there. */
  function LookedUp<H>(sensors: map<H, SensorInfo<H>>, handle: H, blank: SensorInfo<H>): map<H, SensorInfo<H>>
  {
    if handle in sensors then sensors else sensors[handle := blank]
  }

  /** A map after look-ups: what was there stays, and each new entry is empty and under one of the handles. */
  ghost predicate OnlyBlanksAdded<H>(before: map<H, SensorInfo<H>>, after: map<H, SensorInfo<H>>,
                                     blank: SensorInfo<H>, events: seq<Event<H>>)
  {
    && (forall h :: h in before ==> h in after && after[h] == before[h])
    && (forall h :: h in after && h !in before ==>
          after[h] == blank && exists i :: 0 <= i < |events| && events[i].handle == h)
    && (forall i :: 0 <= i < |events| ==> events[i].handle in after)
  }

  lemma BlanksDoNotWake<H>(before: map<H, SensorInfo<H>>, after: map<H, SensorInfo<H>>,
                           blank: SensorInfo<H>, events: seq<Event<H>>, handle: H)
    requires OnlyBlanksAdded(before, after, blank, events) && !blank.wakeUp
    ensures Wakes(LookedUp(after, handle, blank), handle) <==> Wakes(before, handle)
  {
  }

  lemma LookUpAddsBlank<H>(before: map<H, SensorInfo<H>>, after: map<H, SensorInfo<H>>,
                           blank: SensorInfo<H>, events: seq<Event<H>>, e: Event<H>)
    requires OnlyBlanksAdded(before, after, blank, events)
    ensures OnlyBlanksAdded(before, LookedUp(after, e.handle, blank), blank, events + [e])
  {
    var all, t := events + [e], LookedUp(after, e.handle, blank);
    forall h | h in t && h !in before ensures t[h] == blank && exists i :: 0 <= i < |all| && all[i].handle == h {
      if h in after {
        var i :| 0 <= i < |events| && events[i].handle == h;
        assert all[i].handle == h;
      } else {
        assert all[|events|].handle == h;
      }
    }
  }

  /** Every event of a post is handed on once and in order, under the handle the framework knows, together
      with the number of those that come from wake-up sensors. A handle that no sensor has wakes nobody, but
      is in the map from then on, with an empty description. */
  method ProcessEvents<H(==), I(==)>(c: Coding<H, I>, events: seq<Event<H>>, subHalIndex: I,
                                     sensors: map<H, SensorInfo<H>>, blank: SensorInfo<H>)
    returns (eventsOut: seq<Event<H>>, numWakeupEvents: nat, sensorsOut: map<H, SensorInfo<H>>)
    requires !blank.wakeUp
    ensures |eventsOut| == |events|
    ensures forall i :: 0 <= i < |events| ==> eventsOut[i] == TaggedEvent(c, events[i], subHalIndex)
    ensures forall i :: 0 <= i < |events| ==>
      && eventsOut[i].handle == c.tag(events[i].handle, subHalIndex) && eventsOut[i].payload == events[i].payload
      && eventsOut[i].meta ==
           match events[i].meta case None => None case Some(h) => Some(c.tag(h, subHalIndex))
    ensures numWakeupEvents == CountWakes(sensors, eventsOut)
    ensures OnlyBlanksAdded(sensors, sensorsOut, blank, eventsOut)
  {
    eventsOut, numWakeupEvents, sensorsOut := [], 0, sensors;
    for i := 0 to |events|
      invariant |eventsOut| == i
      invariant forall k :: 0 <= k < i ==> eventsOut[k] == TaggedEvent(c, events[k], subHalIndex)
      invariant numWakeupEvents == CountWakes(sensors, eventsOut)
      invariant OnlyBlanksAdded(sensors, sensorsOut, blank, eventsOut)
    {
      var event := events[i].(handle := c.tag(events[i].handle, subHalIndex));
      if event.meta.Some? {
        event := event.(meta := Some(c.tag(event.meta.value, subHalIndex)));
      }
      CountWakesAppend(sensors, eventsOut, event);
      BlanksDoNotWake(sensors, sensorsOut, blank, eventsOut, event.handle);
      LookUpAddsBlank(sensors, sensorsOut, blank, eventsOut, event);
      eventsOut := eventsOut + [event];
      sensorsOut := LookedUp(sensorsOut, event.handle, blank);
      if Wakes(sensorsOut, event.handle) {
        numWakeupEvents := numWakeupEvents + 1;
      }
    }
  }
}

// The coding that the proxy uses: signed 32-bit handles with the index in the first byte.
module ProxyHandles {
  import opened HandleCoding
  import opened SensorDirectory

  const PROXY := Coding(SetSubHalIndex, ExtractSubHalIndex, ClearSubHalIndex, SubHalIndexIsClear, (i: bv64) => i < 128)

  lemma ProxyIsLawful()
    ensures Lawful(PROXY)
  {
    forall h: bv32, i: bv64 | PROXY.isClear(h) && PROXY.small(i)
      ensures PROXY.origin(PROXY.tag(h, i)) == i && PROXY.clear(PROXY.tag(h, i)) == h
    {
      ExtractRoundTripIff(h, i);
      ClearRoundTrip(h, i);
    }
  }

  /** After initialisation with at most 128 sub-HALs every handle leads back to the sub-HAL it came from and
      to that sub-HAL's own handle. */
  lemma ProxyHandlesDecode(subHals: seq<SubHal<bv32, bv64>>, h: bv32)
    requires forall k :: 0 <= k < |Offers(subHals)| ==> Offers(subHals)[k].subHal < 128
    requires h in Enroll(PROXY, Offers(subHals)).sensors
    ensures exists k ::
      && StemsFrom(PROXY, Enroll(PROXY, Offers(subHals)), h, Offers(subHals), k)
      && ExtractSubHalIndex(h) == Offers(subHals)[k].subHal
      && ClearSubHalIndex(h) == Offers(subHals)[k].sensor.handle
  {
    ProxyIsLawful();
    HandlesDecode(PROXY, Offers(subHals), h);
    var k :| StemsFrom(PROXY, Enroll(PROXY, Offers(subHals)), h, Offers(subHals), k)
          && Decodes(PROXY, h, Offers(subHals)[k]);
    assert ExtractSubHalIndex(h) == Offers(subHals)[k].subHal;
  }

  /** The same of an event: of up to 128 sub-HALs, the one that posted it and its own handle come back. */
  lemma ProxyEventsDecode(e: Event<bv32>, subHal: bv64)
    requires subHal < 128 && SubHalIndexIsClear(e.handle)
    ensures var h := TaggedEvent(PROXY, e, subHal).handle;
      ExtractSubHalIndex(h) == subHal && ClearSubHalIndex(h) == e.handle
  {
    ExtractRoundTripIff(e.handle, subHal);
    ClearRoundTrip(e.handle, subHal);
  }
}
