// The branch-free bit counter of the legacy HAL, and the sensor list whose arrays it sizes.

/** Words seen as rows of equally wide lanes. Nothing here depends on how a word is represented. */
module Lanes {

  /** How to read the lowest lane of a word as a number, and how to move the next lane down. */
  datatype Row<!Word> = Row(width: nat, low: Word -> nat, rest: Word -> Word)

  /** The sum of the n lowest lanes. */
  function LaneSum<Word>(row: Row<Word>, x: Word, n: nat): nat
    decreases n
  {
    if n == 0 then 0 else row.low(x) + LaneSum(row, row.rest(x), n - 1)
  }

  /** Each of the n lowest lanes holds at most its width, as a lane that counts ones does. */
  predicate Counting<Word>(row: Row<Word>, x: Word, n: nat)
    decreases n
  {
    n == 0 || (row.low(x) <= row.width && Counting(row, row.rest(x), n - 1))
  }

  /** x after its i lowest lanes have been shifted out. */
  function Drop<Word>(row: Row<Word>, x: Word, i: nat): Word
    decreases i
  {
    if i == 0 then x else row.rest(Drop(row, x, i - 1))
  }

  /** A stage adds the two lowest narrow lanes into one wide lane and treats the others alike. */
  ghost predicate Pairs<Word(!new)>(stage: Word -> Word, narrow: Row<Word>, wide: Row<Word>)
  {
    && wide.width == 2 * narrow.width
    && (forall x {:trigger wide.low(stage(x))} ::
          narrow.low(x) <= narrow.width && narrow.low(narrow.rest(x)) <= narrow.width ==>
            wide.low(stage(x)) == narrow.low(x) + narrow.low(narrow.rest(x)))
    && (forall x {:trigger wide.rest(stage(x))} :: wide.rest(stage(x)) == stage(wide.rest(x)))
    && (forall x {:trigger narrow.rest(narrow.rest(x))} :: narrow.rest(narrow.rest(x)) == wide.rest(x))
  }

  /** One stage halves the number of lanes and keeps their sum. */
  lemma {:induction false} StageKeepsSum<Word(!new)>(
    stage: Word -> Word, narrow: Row<Word>, wide: Row<Word>, x: Word, n: nat)
    requires Pairs(stage, narrow, wide)
    requires Counting(narrow, x, 2 * n)
    ensures Counting(wide, stage(x), n)
    ensures LaneSum(wide, stage(x), n) == LaneSum(narrow, x, 2 * n)
    decreases n
  {
    if n > 0 {
      StageKeepsSum(stage, narrow, wide, wide.rest(x), n - 1);
    }
  }

  /** Four stages in a row turn 64 lanes into four with the same sum. */
  lemma FourStages<Word(!new)>(
    s1: Word -> Word, s2: Word -> Word, s4: Word -> Word, s8: Word -> Word,
    r1: Row<Word>, r2: Row<Word>, r4: Row<Word>, r8: Row<Word>, r16: Row<Word>, x: Word)
    requires Pairs(s1, r1, r2) && Pairs(s2, r2, r4) && Pairs(s4, r4, r8) && Pairs(s8, r8, r16)
    requires Counting(r1, x, 64)
    ensures Counting(r16, s8(s4(s2(s1(x)))), 4)
    ensures LaneSum(r16, s8(s4(s2(s1(x)))), 4) == LaneSum(r1, x, 64)
  {
    StageKeepsSum(s1, r1, r2, x, 32);
    StageKeepsSum(s2, r2, r4, s1(x), 16);
    StageKeepsSum(s4, r4, r8, s2(s1(x)), 8);
    StageKeepsSum(s8, r8, r16, s4(s2(s1(x))), 4);
  }

  lemma Unfold4<Word>(row: Row<Word>, x: Word)
    requires Counting(row, x, 4)
    ensures var x1 := row.rest(x); var x2 := row.rest(x1); var x3 := row.rest(x2);
      && row.low(x) <= row.width && row.low(x1) <= row.width && row.low(x2) <= row.width && row.low(x3) <= row.width
      && LaneSum(row, x, 4) == row.low(x) + row.low(x1) + row.low(x2) + row.low(x3)
  {
    assert Counting(row, row.rest(x), 3);
    assert LaneSum(row, row.rest(row.rest(row.rest(row.rest(x)))), 0) == 0;
  }

  lemma {:induction false} LaneSumLast<Word>(row: Row<Word>, x: Word, n: nat)
    ensures LaneSum(row, x, n + 1) == LaneSum(row, x, n) + row.low(Drop(row, x, n))
    decreases n
  {
    if n > 0 {
      LaneSumLast(row, row.rest(x), n - 1);
      DropNext(row, x, n - 1);
    }
  }

  lemma {:induction false} DropNext<Word>(row: Row<Word>, x: Word, i: nat)
    ensures Drop(row, x, i + 1) == Drop(row, row.rest(x), i)
    decreases i
  {
    if i > 0 {
      DropNext(row, x, i - 1);
    }
  }

  /** Lanes of width one that hold a zero or a one are bits. */
  ghost predicate Bits<Word(!new)>(row: Row<Word>)
  {
    row.width == 1 && forall x {:trigger row.low(x)} :: row.low(x) <= 1
  }

  predicate Bit<Word>(row: Row<Word>, x: Word, i: nat)
  {
    row.low(Drop(row, x, i)) == 1
  }

  /** The positions below n at which x has a one. This is what "number of set bits" means. */
  function SetBits<Word>(row: Row<Word>, x: Word, n: nat): set<nat>
  {
    set i: nat | i < n && Bit(row, x, i)
  }

  /** The same positions in ascending order. */
  function Positions<Word>(row: Row<Word>, x: Word, n: nat): seq<nat>
    decreases n
  {
    if n == 0 then []
    else if Bit(row, x, n - 1) then Positions(row, x, n - 1) + [n - 1]
    else Positions(row, x, n - 1)
  }

  lemma SetBitsNext<Word>(row: Row<Word>, x: Word, n: nat)
    ensures |SetBits(row, x, n + 1)| == |SetBits(row, x, n)| + if Bit(row, x, n) then 1 else 0
  {
    if Bit(row, x, n) {
      assert SetBits(row, x, n + 1) == SetBits(row, x, n) + {n};
    } else {
      assert SetBits(row, x, n + 1) == SetBits(row, x, n);
    }
  }

  lemma {:induction false} PositionsCount<Word>(row: Row<Word>, x: Word, n: nat)
    ensures |Positions(row, x, n)| == |SetBits(row, x, n)|
    decreases n
  {
    if n == 0 {
      assert SetBits(row, x, 0) == {};
    } else {
      PositionsCount(row, x, n - 1);
      SetBitsNext(row, x, n - 1);
    }
  }

  lemma {:induction false} PositionsAreSetBits<Word>(row: Row<Word>, x: Word, n: nat)
    ensures forall i: nat :: i in Positions(row, x, n) <==> i < n && Bit(row, x, i)
    ensures forall j, k :: 0 <= j < k < |Positions(row, x, n)| ==> Positions(row, x, n)[j] < Positions(row, x, n)[k]
    decreases n
  {
    if n > 0 {
      PositionsAreSetBits(row, x, n - 1);
      var p := Positions(row, x, n - 1);
      forall j | 0 <= j < |p| ensures p[j] < n - 1 {
        assert p[j] in p;
      }
    }
  }

  lemma {:induction false} PositionsGrow<Word>(row: Row<Word>, x: Word, i: nat, n: nat)
    requires i <= n
    ensures Positions(row, x, i) <= Positions(row, x, n)
    decreases n
  {
    if i < n {
      PositionsGrow(row, x, i, n - 1);
    }
  }

  lemma {:induction false} BitsCount<Word(!new)>(row: Row<Word>, x: Word, n: nat)
    requires Bits(row)
    ensures Counting(row, x, n)
    decreases n
  {
    if n > 0 {
      BitsCount(row, row.rest(x), n - 1);
    }
  }

  lemma {:induction false} SumIsCardinality<Word(!new)>(row: Row<Word>, x: Word, n: nat)
    requires Bits(row)
    ensures LaneSum(row, x, n) == |SetBits(row, x, n)|
    decreases n
  {
    if n == 0 {
      assert SetBits(row, x, 0) == {};
    } else {
      SumIsCardinality(row, x, n - 1);
      LaneSumLast(row, x, n - 1);
      SetBitsNext(row, x, n - 1);
    }
  }
}

module PopCount {
  import opened Lanes

  // A lane holds a count, so its lowest byte (or all of it, while it is narrower) is its value.

  function Low1(x: bv64): nat { ((x & 0x1) as bv8) as nat }
  function Low2(x: bv64): nat { ((x & 0x3) as bv8) as nat }
  function Low4(x: bv64): nat { ((x & 0xf) as bv8) as nat }
  function Low8(x: bv64): nat { ((x & 0xff) as bv8) as nat }

  function Rest1(x: bv64): bv64 { x >> 1 }
  function Rest2(x: bv64): bv64 { x >> 2 }
  function Rest4(x: bv64): bv64 { x >> 4 }
  function Rest8(x: bv64): bv64 { x >> 8 }
  function Rest16(x: bv64): bv64 { x >> 16 }

  const ROW1 := Row(1, Low1, Rest1)
  const ROW2 := Row(2, Low2, Rest2)
  const ROW4 := Row(4, Low4, Rest4)
  const ROW8 := Row(8, Low8, Rest8)
  const ROW16 := Row(16, Low8, Rest16)

  // ---------- the counter, stage by stage ----------

  function Stage1(x: bv64): bv64 { (x & 0x5555555555555555) + ((x >> 1) & 0x5555555555555555) }
  function Stage2(x: bv64): bv64 { (x & 0x3333333333333333) + ((x >> 2) & 0x3333333333333333) }
  function Stage4(x: bv64): bv64 { (x & 0x0f0f0f0f0f0f0f0f) + ((x >> 4) & 0x0f0f0f0f0f0f0f0f) }
  function Stage8(x: bv64): bv64 { (x & 0x00ff00ff00ff00ff) + ((x >> 8) & 0x00ff00ff00ff00ff) }
  function Stage16(x: bv64): bv64 { (x & 0x0000ffff0000ffff) + ((x >> 16) & 0x0000ffff0000ffff) }
  function Stage32(x: bv64): bv64 { (x & 0x00000000ffffffff) + ((x >> 32) & 0x00000000ffffffff) }

  function PopCount64(x: bv64): bv64
  {
    Stage32(Stage16(Stage8(Stage4(Stage2(Stage1(x))))))
  }

  // Each stage adds neighbouring lanes. The facts about words come first, one operation at a time.

  lemma Low1Word(x: bv64)
    ensures (Stage1(x) & 0x3) as bv8 == ((x & 0x1) as bv8) + (((x >> 1) & 0x1) as bv8)
  {
  }

  lemma Rest1Word(x: bv64)
    ensures Stage1(x) >> 2 == Stage1(x >> 2)
  {
  }

  lemma Stage1Low(x: bv64)
    requires Low1(x) <= 1 && Low1(Rest1(x)) <= 1
    ensures Low2(Stage1(x)) == Low1(x) + Low1(Rest1(x))
  {
    Low1Word(x);
    AddBytes((x & 0x1) as bv8, ((x >> 1) & 0x1) as bv8);
  }

  lemma Stage1Rest(x: bv64)
    ensures Rest2(Stage1(x)) == Stage1(Rest2(x))
  {
    Rest1Word(x);
  }

  lemma Rest1Twice(x: bv64)
    ensures Rest1(Rest1(x)) == Rest2(x)
  {
  }

  lemma Pairs1()
    ensures Pairs(Stage1, ROW1, ROW2)
  {
    forall x | Low1(x) <= 1 && Low1(Rest1(x)) <= 1 {
      Stage1Low(x);
    }
    forall x {
      Stage1Rest(x);
    }
    forall x {
      Rest1Twice(x);
    }
  }

  lemma Low2Word(x: bv64)
    ensures (Stage2(x) & 0xf) as bv8 == ((x & 0x3) as bv8) + (((x >> 2) & 0x3) as bv8)
  {
  }

  lemma Rest2Word(x: bv64)
    ensures Stage2(x) >> 4 == Stage2(x >> 4)
  {
  }

  lemma Stage2Low(x: bv64)
    requires Low2(x) <= 2 && Low2(Rest2(x)) <= 2
    ensures Low4(Stage2(x)) == Low2(x) + Low2(Rest2(x))
  {
    Low2Word(x);
    AddBytes((x & 0x3) as bv8, ((x >> 2) & 0x3) as bv8);
  }

  lemma Stage2Rest(x: bv64)
    ensures Rest4(Stage2(x)) == Stage2(Rest4(x))
  {
    Rest2Word(x);
  }

  lemma Rest2Twice(x: bv64)
    ensures Rest2(Rest2(x)) == Rest4(x)
  {
  }

  lemma Pairs2()
    ensures Pairs(Stage2, ROW2, ROW4)
  {
    forall x | Low2(x) <= 2 && Low2(Rest2(x)) <= 2 {
      Stage2Low(x);
    }
    forall x {
      Stage2Rest(x);
    }
    forall x {
      Rest2Twice(x);
    }
  }

  lemma Low4Word(x: bv64)
    ensures (Stage4(x) & 0xff) as bv8 == ((x & 0xf) as bv8) + (((x >> 4) & 0xf) as bv8)
  {
  }

  lemma Rest4Word(x: bv64)
    ensures Stage4(x) >> 8 == Stage4(x >> 8)
  {
  }

  lemma Stage4Low(x: bv64)
    requires Low4(x) <= 4 && Low4(Rest4(x)) <= 4
    ensures Low8(Stage4(x)) == Low4(x) + Low4(Rest4(x))
  {
    Low4Word(x);
    AddBytes((x & 0xf) as bv8, ((x >> 4) & 0xf) as bv8);
  }

  lemma Stage4Rest(x: bv64)
    ensures Rest8(Stage4(x)) == Stage4(Rest8(x))
  {
    Rest4Word(x);
  }

  lemma Rest4Twice(x: bv64)
    ensures Rest4(Rest4(x)) == Rest8(x)
  {
  }

  lemma Pairs4()
    ensures Pairs(Stage4, ROW4, ROW8)
  {
    forall x | Low4(x) <= 4 && Low4(Rest4(x)) <= 4 {
      Stage4Low(x);
    }
    forall x {
      Stage4Rest(x);
    }
    forall x {
      Rest4Twice(x);
    }
  }

  lemma Low8Word(x: bv64)
    ensures (Stage8(x) & 0xff) as bv8 == ((x & 0xff) as bv8) + (((x >> 8) & 0xff) as bv8)
  {
  }

  lemma Rest8Word(x: bv64)
    ensures Stage8(x) >> 16 == Stage8(x >> 16)
  {
  }

  lemma Stage8Low(x: bv64)
    requires Low8(x) <= 8 && Low8(Rest8(x)) <= 8
    ensures Low8(Stage8(x)) == Low8(x) + Low8(Rest8(x))
  {
    Low8Word(x);
    AddBytes((x & 0xff) as bv8, ((x >> 8) & 0xff) as bv8);
  }

  lemma Stage8Rest(x: bv64)
    ensures Rest16(Stage8(x)) == Stage8(Rest16(x))
  {
    Rest8Word(x);
  }

  lemma Rest8Twice(x: bv64)
    ensures Rest8(Rest8(x)) == Rest16(x)
  {
  }

  lemma Pairs8()
    ensures Pairs(Stage8, ROW8, ROW16)
  {
    forall x | Low8(x) <= 8 && Low8(Rest8(x)) <= 8 {
      Stage8Low(x);
    }
    forall x {
      Stage8Rest(x);
    }
    forall x {
      Rest8Twice(x);
    }
  }

  // The last two stages add up four lanes. Only the lowest bytes matter, as no lane reaches 256.

  lemma LowerPairWord(x: bv64)
    ensures (Stage16(x) & 0xff) as bv8 == ((x & 0xff) as bv8) + (((x >> 16) & 0xff) as bv8)
  {
  }

  lemma UpperPairWord(x: bv64)
    ensures ((Stage16(x) >> 32) & 0xff) as bv8 == (((x >> 32) & 0xff) as bv8) + (((x >> 48) & 0xff) as bv8)
  {
  }

  lemma LastPairWord(y: bv64)
    ensures (Stage32(y) & 0xff) as bv8 == ((y & 0xff) as bv8) + (((y >> 32) & 0xff) as bv8)
  {
  }

  lemma LowerPair(x: bv64)
    requires Low8(x) <= 16 && Low8(x >> 16) <= 16
    ensures Low8(Stage16(x)) == Low8(x) + Low8(x >> 16)
  {
    LowerPairWord(x);
    AddBytes((x & 0xff) as bv8, ((x >> 16) & 0xff) as bv8);
  }

  lemma UpperPair(x: bv64)
    requires Low8(x >> 32) <= 16 && Low8(x >> 48) <= 16
    ensures Low8(Stage16(x) >> 32) == Low8(x >> 32) + Low8(x >> 48)
  {
    UpperPairWord(x);
    AddBytes(((x >> 32) & 0xff) as bv8, ((x >> 48) & 0xff) as bv8);
  }

  lemma LastPair(y: bv64)
    requires Low8(y) <= 32 && Low8(y >> 32) <= 32
    ensures Low8(Stage32(y)) == Low8(y) + Low8(y >> 32)
  {
    LastPairWord(y);
    AddBytes((y & 0xff) as bv8, ((y >> 32) & 0xff) as bv8);
  }

  lemma FourLanes(x: bv64)
    requires Counting(ROW16, x, 4)
    ensures Low8(Stage32(Stage16(x))) == LaneSum(ROW16, x, 4)
  {
    LanesOfRow(x);
    FourBytes(x);
  }

  lemma FourBytes(x: bv64)
    requires Low8(x) <= 16 && Low8(x >> 16) <= 16 && Low8(x >> 32) <= 16 && Low8(x >> 48) <= 16
    ensures Low8(Stage32(Stage16(x))) == Low8(x) + Low8(x >> 16) + Low8(x >> 32) + Low8(x >> 48)
  {
    LowerPair(x);
    UpperPair(x);
    LastPair(Stage16(x));
  }

  lemma LanesOfRow(x: bv64)
    requires Counting(ROW16, x, 4)
    ensures Low8(x) <= 16 && Low8(x >> 16) <= 16 && Low8(x >> 32) <= 16 && Low8(x >> 48) <= 16
    ensures LaneSum(ROW16, x, 4) == Low8(x) + Low8(x >> 16) + Low8(x >> 32) + Low8(x >> 48)
  {
    Unfold4(ROW16, x);
    ShiftsAdd(x);
  }

  lemma ShiftsAdd(x: bv64)
    ensures Rest16(x) == x >> 16 && Rest16(Rest16(x)) == x >> 32 && Rest16(Rest16(Rest16(x))) == x >> 48
  {
  }

  /** Addition of small bytes agrees with addition of numbers. */
  lemma AddBytes(a: bv8, b: bv8)
    requires a as nat <= 32 && b as nat <= 32
    ensures (a + b) as nat == a as nat + b as nat
  {
    assert a <= 32 && b <= 32;
  }

  /** The last four stages leave a word below 256, whatever they start from. */
  lemma ResultIsByte(x: bv64)
    ensures Stage32(Stage16(Stage8(Stage4(x)))) <= 240
  {
  }

  lemma RowOfBits()
    ensures Bits(ROW1)
  {
    forall x: bv64 ensures Low1(x) <= 1 {
      assert x & 1 == 0 || x & 1 == 1;
    }
  }

  /** The counter returns the number of ones, for every 64-bit mask. */
  lemma PopCount64Correct(x: bv64)
    ensures PopCount64(x) as nat == LaneSum(ROW1, x, 64) == |SetBits(ROW1, x, 64)|
  {
    RowOfBits();
    BitsCount(ROW1, x, 64);
    SumIsCardinality(ROW1, x, 64);
    Pairs1();
    Pairs2();
    Pairs4();
    Pairs8();
    FourStages(Stage1, Stage2, Stage4, Stage8, ROW1, ROW2, ROW4, ROW8, ROW16, x);
    FourLanes(Stage8(Stage4(Stage2(Stage1(x)))));
    ByteResult(x);
  }

  lemma ByteResult(x: bv64)
    ensures PopCount64(x) as nat == Low8(PopCount64(x))
  {
    ResultIsByte(Stage2(Stage1(x)));
    LowByteOfByte(PopCount64(x));
  }

  lemma LowByteOfByte(x: bv64)
    requires x <= 240
    ensures x as nat == ((x & 0xff) as bv8) as nat
  {
  }

}

/** The list of exposed sensors. */
module SensorList {
  import opened Lanes
  import opened PopCount

  const SENSORLIST_INX_END := 64

  datatype ReportingMode = Continuous | OnChange | OneShot | Special

  /** What the HAL looks up in a sensor description; delays are in microseconds. A description without a
      name is a place holder. */
  datatype SensorT = SensorT(hasName: bool, handle: int, mode: ReportingMode, minDelay: int, maxDelay: int)

  predicate Answers(sensor: SensorT, handle: int)
  {
    sensor.hasName && sensor.handle == handle
  }

  lemma {:induction false} NoMoreBits<Word>(row: Row<Word>, zero: Word, x: Word, i: nat, n: nat)
    requires row.rest(zero) == zero && row.low(zero) == 0
    requires Drop(row, x, i) == zero && i <= n
    ensures Positions(row, x, n) == Positions(row, x, i) && Drop(row, x, n) == zero
    decreases n
  {
    if i < n {
      NoMoreBits(row, zero, x, i, n - 1);
    }
  }

  /** Allocates as many slots as the counter says and fills them with the sensors the mask selects. The
      indices recorded are exactly the positions of the ones, ascending, and they fill the arrays. */
  method GetSensorList(mask: bv64, all: array<SensorT>)
    returns (list: array<SensorT>, bsxListIndex: array<nat>)
    requires all.Length == SENSORLIST_INX_END
    ensures fresh(list) && fresh(bsxListIndex)
    ensures list.Length == bsxListIndex.Length == PopCount64(mask) as nat
    ensures bsxListIndex[..] == Positions(ROW1, mask, SENSORLIST_INX_END)
    ensures Filled(list[..], bsxListIndex[..], all[..], SENSORLIST_INX_END)
  {
    PopCount64Correct(mask);
    PositionsCount(ROW1, mask, SENSORLIST_INX_END);
    var sensorAmount := PopCount64(mask) as nat;
    list := new SensorT[sensorAmount];
    bsxListIndex := new nat[sensorAmount];
    FillSensorList(ROW1, 0, mask, all, list, bsxListIndex);
  }

  /** The entries recorded so far are those of the indices recorded with them, all below a bound. */
  ghost predicate Filled(list: seq<SensorT>, index: seq<nat>, all: seq<SensorT>, bound: nat)
  {
    && |list| == |index| && bound <= |all|
    && forall m :: 0 <= m < |index| ==> index[m] < bound && list[m] == all[index[m]]
  }

  lemma FilledFurther(list: seq<SensorT>, index: seq<nat>, all: seq<SensorT>, i: nat)
    requires Filled(list, index, all, i) && i < |all|
    ensures Filled(list, index, all, i + 1)
    ensures Filled(list + [all[i]], index + [i], all, i + 1)
  {
  }

  /** One round of the loop: the sensor at position i goes to slot j when its bit is set. */
  method FillSlot<Word(==)>(row: Row<Word>, ghost mask: Word, availSensRegval: Word, all: array<SensorT>,
                            list: array<SensorT>, bsxListIndex: array<nat>, i: nat, j: nat)
    returns (next: nat)
    requires i < all.Length && list != all && j <= list.Length == bsxListIndex.Length
    requires availSensRegval == Drop(row, mask, i) && |Positions(row, mask, i + 1)| <= list.Length
    requires bsxListIndex[..j] == Positions(row, mask, i) && Filled(list[..j], bsxListIndex[..j], all[..], i)
    modifies list, bsxListIndex
    ensures next <= list.Length
    ensures bsxListIndex[..next] == Positions(row, mask, i + 1)
    ensures Filled(list[..next], bsxListIndex[..next], all[..], i + 1)
  {
    FilledFurther(list[..j], bsxListIndex[..j], all[..], i);
    next := j;
    if row.low(availSensRegval) == 1 {
      list[j] := all[i];
      bsxListIndex[j] := i;
      assert list[..j + 1] == old(list[..j]) + [all[i]] && bsxListIndex[..j + 1] == old(bsxListIndex[..j]) + [i];
      next := j + 1;
    }
  }

  /** The loop over the mask, over as many bits as there are descriptions; it ends early when no bits are left. */
  method FillSlots<Word(==)>(
    row: Row<Word>, zero: Word, mask: Word, all: array<SensorT>, list: array<SensorT>, bsxListIndex: array<nat>)
    returns (j: nat)
    requires row.rest(zero) == zero && row.low(zero) == 0
    requires list != all
    requires list.Length == bsxListIndex.Length == |Positions(row, mask, all.Length)|
    modifies list, bsxListIndex
    ensures j <= list.Length && bsxListIndex[..j] == Positions(row, mask, all.Length)
    ensures Filled(list[..j], bsxListIndex[..j], all[..], all.Length)
  {
    var availSensRegval := mask;
    var i: nat := 0;
    j := 0;
    while i < all.Length
      invariant i <= all.Length && j <= list.Length
      invariant availSensRegval == Drop(row, mask, i)
      invariant bsxListIndex[..j] == Positions(row, mask, i)
      invariant Filled(list[..j], bsxListIndex[..j], all[..], i)
    {
      if availSensRegval == zero {
        NoMoreBits(row, zero, mask, i, all.Length);
        FilledToEnd(list[..j], bsxListIndex[..j], all[..], i);
        return;
      }
      PositionsGrow(row, mask, i + 1, all.Length);
      j := FillSlot(row, mask, availSensRegval, all, list, bsxListIndex, i, j);
      i, availSensRegval := i + 1, row.rest(availSensRegval);
    }
  }

  method FillSensorList<Word(==)>(
    row: Row<Word>, zero: Word, mask: Word, all: array<SensorT>, list: array<SensorT>, bsxListIndex: array<nat>)
    requires row.rest(zero) == zero && row.low(zero) == 0
    requires list != all
    requires list.Length == bsxListIndex.Length == |Positions(row, mask, all.Length)|
    modifies list, bsxListIndex
    ensures bsxListIndex[..] == Positions(row, mask, all.Length)
    ensures Filled(list[..], bsxListIndex[..], all[..], all.Length)
  {
    var j := FillSlots(row, zero, mask, all, list, bsxListIndex);
    assert bsxListIndex[..j] == bsxListIndex[..] && list[..j] == list[..];
  }

  lemma FilledToEnd(list: seq<SensorT>, index: seq<nat>, all: seq<SensorT>, i: nat)
    requires Filled(list, index, all, i)
    ensures Filled(list, index, all, |all|)
  {
  }

  /** Finds a sensor by handle: the first match that has a name, or none when there is none. */
  method GetSensorT(handle: int, list: seq<SensorT>, bsxListIndex: seq<nat>)
    returns (found: bool, sensor: SensorT, listInx: nat)
    requires |list| == |bsxListIndex|
    ensures found <==> exists i :: 0 <= i < |list| && list[i].hasName && list[i].handle == handle
    ensures found ==> exists i ::
      && 0 <= i < |list| && sensor == list[i] && listInx == bsxListIndex[i]
      && list[i].hasName && list[i].handle == handle
      && forall k :: 0 <= k < i ==> !(list[k].hasName && list[k].handle == handle)
  {
    for i := 0 to |list|
      invariant forall k :: 0 <= k < i ==> !Answers(list[k], handle)
    {
      if list[i].hasName {
        if handle == list[i].handle {
          return true, list[i], bsxListIndex[i];
        }
      }
    }
    return false, SensorT(false, 0, Continuous, 0, 0), 0;
  }
}
