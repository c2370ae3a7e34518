// Every interleaving of the two threads of the legacy HAL, as runs of a step system. What a thread does
// while it holds the mutex is one step.

module PipelineRuns {
  import opened BoundedQueue
  import opened Alignment
  import opened SamplePipeline
  import opened Sequences

  /** Where hwcntl is in its cycle: it reads out one chip, then the other, then hands over. */
  datatype HwPc = ReadingAcc | ReadingGyr | HandingOver

  /** Where sensord is in its loop. */
  datatype SdPc = Waiting | Processing

  /** polled and delivered are logs: all samples ever read, and all packages ever turned into events. */
  datatype State = State(
    clock: int, hwPc: HwPc, hwAcc: seq<Sample>, hwGyr: seq<Sample>,
    shared: seq<Sample>, sdPc: SdPc, sdAcc: seq<Sample>, sdGyr: seq<Sample>,
    polled: seq<Package>, delivered: seq<Package>)

  const INITIAL := State(0, ReadingAcc, [], [], [], Waiting, [], [], [], [])

  /** Read: one more sample is available from the chip whose turn it is, taken at time now.
      ReadEnd: that chip has no more samples. HandOver: both lists are mounted under the mutex.
      Drain: the shared list is demultiplexed under the mutex. Process: the batch is aligned and emitted. */
  datatype Step = Read(x: int, y: int, z: int, now: int) | ReadEnd | HandOver | Drain | Process

  predicate Enabled(s: State, l: Step)
  {
    match l
    case Read(_, _, _, now) => s.hwPc != HandingOver && s.clock <= now && 0 < now
    case ReadEnd => s.hwPc != HandingOver
    case HandOver => s.hwPc == HandingOver
    case Drain => s.sdPc == Waiting
    case Process => s.sdPc == Processing
  }

  /** The sample a reading yields. */
  function Reading(s: State, l: Step): Package
    requires l.Read?
  {
    var kind := if s.hwPc == ReadingAcc then Accel else Gyro;
    Package(kind, Sample(TypeOf(kind), l.x, l.y, l.z, l.now))
  }

  function Next(s: State, l: Step): State
  {
    match l
    case Read(_, _, _, now) =>
      var p := Reading(s, l);
      if p.kind == Accel then
        s.(clock := now, polled := s.polled + [p], hwAcc := Added(s.hwAcc, p.sample, LIMIT))
      else
        s.(clock := now, polled := s.polled + [p], hwGyr := Added(s.hwGyr, p.sample, LIMIT))
    case ReadEnd => s.(hwPc := if s.hwPc == ReadingAcc then ReadingGyr else HandingOver)
    case HandOver =>
      s.(hwPc := ReadingAcc, shared := MountedCycle(s.shared, s.hwAcc, s.hwGyr), hwAcc := [], hwGyr := [])
    case Drain =>
      s.(sdPc := Processing, shared := [],
         sdAcc := AddAll(s.sdAcc, ByType(Accel, s.shared), LIMIT),
         sdGyr := AddAll(s.sdGyr, ByType(Gyro, s.shared), LIMIT))
    case Process =>
      s.(sdPc := Waiting, sdAcc := [], sdGyr := [], delivered := s.delivered + Emitted(s.sdAcc, s.sdGyr))
  }

  /** Taking the steps one after the other leads from s to t. */
  predicate Runs(s: State, steps: seq<Step>, t: State)
    decreases |steps|
  {
    if steps == [] then s == t
    else Enabled(s, steps[0]) && Runs(Next(s, steps[0]), steps[1..], t)
  }

  // ---------- the invariant ----------

  function Samples(ps: seq<Package>): seq<Sample>
  {
    seq(|ps|, i requires 0 <= i < |ps| => ps[i].sample)
  }

  /** In time order, and none from the future or from time zero. */
  predicate Timely(s: seq<Sample>, clock: int)
  {
    Sorted(s) && forall i :: 0 <= i < |s| ==> 0 < s[i].timestamp <= clock
  }

  /** What has been delivered and what the current batch will deliver. */
  function Output(s: State): seq<Package>
  {
    s.delivered + Emitted(s.sdAcc, s.sdGyr)
  }

  /** Everything between the chips and the pipe in one line, the oldest first. */
  function Everything(s: State): seq<Sample>
  {
    Samples(Output(s)) + (s.shared + s.hwAcc + s.hwGyr)
  }

  lemma SamplesAppend(p: seq<Package>, q: seq<Package>)
    ensures Samples(p + q) == Samples(p) + Samples(q)
  {
  }

  /** The four stages: delivered, in the batch, shared, and still private to hwcntl. */
  lemma Stages(s: State)
    ensures var sent, batch := Samples(s.delivered), Samples(Emitted(s.sdAcc, s.sdGyr));
      Everything(s) == sent + (batch + (s.shared + (s.hwAcc + s.hwGyr)))
  {
    SamplesAppend(s.delivered, Emitted(s.sdAcc, s.sdGyr));
    Regroup(s.shared, s.hwAcc, s.hwGyr);
    Regroup(Samples(s.delivered), Samples(Emitted(s.sdAcc, s.sdGyr)), s.shared + (s.hwAcc + s.hwGyr));
  }

  predicate OfKind(kind: Kind, s: seq<Sample>)
  {
    forall i :: 0 <= i < |s| ==> s[i].id == TypeOf(kind)
  }

  predicate OfSomeKind(s: seq<Sample>)
  {
    forall i :: 0 <= i < |s| ==> s[i].id == TypeOf(Accel) || s[i].id == TypeOf(Gyro)
  }

  predicate Shape(s: State)
  {
    && OfKind(Accel, s.hwAcc) && OfKind(Gyro, s.hwGyr) && OfSomeKind(s.shared)
    && |s.hwAcc| <= LIMIT && |s.hwGyr| <= LIMIT && |s.shared| <= LIMIT
    && (s.hwPc == ReadingAcc ==> s.hwGyr == [])
    && (s.sdPc == Waiting ==> s.sdAcc == [] && s.sdGyr == [])
  }

  predicate Inv(s: State)
  {
    Shape(s) && Timely(Everything(s), s.clock)
  }

  // ---------- sequences in time order ----------

  predicate Below(a: seq<Sample>, b: seq<Sample>)
  {
    forall x, y :: x in a && y in b ==> x.timestamp <= y.timestamp
  }

  lemma TimelySplit(a: seq<Sample>, b: seq<Sample>, clock: int)
    requires Timely(a + b, clock)
    ensures Timely(a, clock) && Timely(b, clock) && Below(a, b)
  {
    var c := a + b;
    assert forall i :: 0 <= i < |a| ==> a[i] == c[i];
    assert forall i :: 0 <= i < |b| ==> b[i] == c[|a| + i];
    forall x, y | x in a && y in b ensures x.timestamp <= y.timestamp {
      var i :| 0 <= i < |a| && a[i] == x;
      var j :| 0 <= j < |b| && b[j] == y;
      assert c[i] == x && c[|a| + j] == y;
    }
  }

  lemma TimelyJoin(a: seq<Sample>, b: seq<Sample>, clock: int)
    requires Timely(a, clock) && Timely(b, clock) && Below(a, b)
    ensures Timely(a + b, clock)
  {
    var c := a + b;
    forall i, j | 0 <= i < j < |c| ensures c[i].timestamp <= c[j].timestamp {
      if i < |a| <= j {
        assert c[i] in a && c[j] in b;
      }
    }
  }

  /** Another sorted sequence of the same samples, or of fewer, may stand in for the middle part. */
  lemma TimelyReplace(a: seq<Sample>, m: seq<Sample>, n: seq<Sample>, b: seq<Sample>, clock: int)
    requires Timely(a + (m + b), clock) && Sorted(n)
    requires forall x :: x in n ==> x in m
    ensures Timely(a + (n + b), clock)
  {
    TimelySplit(a, m + b, clock);
    TimelySplit(m, b, clock);
    assert Timely(n, clock) by {
      forall i | 0 <= i < |n| ensures 0 < n[i].timestamp <= clock {
        assert n[i] in m;
      }
    }
    TimelyJoin(n, b, clock);
    TimelyJoin(a, n + b, clock);
  }

  lemma TimelyAppend(s: seq<Sample>, x: Sample, clock: int)
    requires Timely(s, clock) && clock <= x.timestamp && 0 < x.timestamp
    ensures Timely(s + [x], x.timestamp)
  {
  }

  // ---------- every step keeps the invariant ----------

  lemma InitInv()
    ensures Inv(INITIAL)
  {
  }

  /** One more reading: at most the oldest sample of the private list goes, and the newest joins. */
  lemma TimelyRead(before: seq<Sample>, own: seq<Sample>, x: Sample, clock: int)
    requires Timely(before + own, clock) && clock <= x.timestamp && 0 < x.timestamp
    ensures Timely(before + Added(own, x, LIMIT), x.timestamp)
  {
    var kept := if |own| == LIMIT then own[1..] else own;
    assert before + own == before + (own + []);
    TimelySplit(before, own, clock);
    TimelyReplace(before, own, kept, [], clock);
    assert before + kept == before + (kept + []);
    TimelyAppend(before + kept, x, clock);
    assert before + Added(own, x, LIMIT) == before + kept + [x];
  }

  lemma ReadKeepsInv(s: State, l: Step)
    requires Inv(s) && Enabled(s, l) && l.Read?
    ensures Inv(Next(s, l))
  {
    var t := Next(s, l);
    var x := Reading(s, l).sample;
    var out := Samples(Output(s));
    assert Output(t) == Output(s);
    if s.hwPc == ReadingAcc {
      assert Everything(s) == (out + s.shared) + s.hwAcc;
      TimelyRead(out + s.shared, s.hwAcc, x, s.clock);
      assert Everything(t) == (out + s.shared) + t.hwAcc;
    } else {
      assert Everything(s) == (out + (s.shared + s.hwAcc)) + s.hwGyr;
      TimelyRead(out + (s.shared + s.hwAcc), s.hwGyr, x, s.clock);
      assert Everything(t) == (out + (s.shared + s.hwAcc)) + t.hwGyr;
    }
  }

  /** Both mounts together keep the last LIMIT samples of the three lists. */
  lemma MountedCycleIsLastN(shared: seq<Sample>, acc: seq<Sample>, gyr: seq<Sample>)
    requires |shared| <= LIMIT
    ensures MountedCycle(shared, acc, gyr) == LastN(shared + acc + gyr, LIMIT)
  {
    LastNTwice(shared + acc, gyr, LIMIT);
    if acc == [] {
      assert shared + acc == shared;
    }
    if gyr == [] {
      assert shared + acc + gyr == shared + acc;
    }
  }

  lemma TimelyMounted(out: seq<Sample>, all: seq<Sample>, clock: int)
    requires Timely(out + all, clock)
    ensures Timely(out + LastN(all, LIMIT), clock)
  {
    assert out + all == out + (all + []);
    assert out + LastN(all, LIMIT) == out + (LastN(all, LIMIT) + []);
    TimelySplit(out, all, clock);
    TimelyReplace(out, all, LastN(all, LIMIT), [], clock);
  }

  lemma HandOverKeepsInv(s: State)
    requires Inv(s) && s.hwPc == HandingOver
    ensures Inv(Next(s, HandOver))
  {
    var t := Next(s, HandOver);
    MountedCycleIsLastN(s.shared, s.hwAcc, s.hwGyr);
    TimelyMounted(Samples(Output(s)), s.shared + s.hwAcc + s.hwGyr, s.clock);
    assert Everything(t) == Samples(Output(s)) + t.shared;
    MountedKinds(s.shared, s.hwAcc, s.hwGyr);
  }

  lemma MountedKinds(shared: seq<Sample>, acc: seq<Sample>, gyr: seq<Sample>)
    requires OfSomeKind(shared) && OfKind(Accel, acc) && OfKind(Gyro, gyr)
    ensures OfSomeKind(LastN(shared + acc + gyr, LIMIT))
  {
  }

  lemma {:induction false} ByTypeSelects(kind: Kind, s: seq<Sample>)
    ensures |ByType(kind, s)| <= |s|
    ensures forall x :: x in ByType(kind, s) <==> x in s && x.id == TypeOf(kind)
    ensures Sorted(s) ==> Sorted(ByType(kind, s))
  {
    if s != [] {
      ByTypeSelects(kind, s[1..]);
      forall x | x in ByType(kind, s[1..]) && Sorted(s) ensures s[0].timestamp <= x.timestamp {
        assert x in s[1..];
      }
    }
  }

  /** No sample is lost between the shared list and the batch. */
  lemma DrainIsLossless(s: State, kind: Kind)
    requires Shape(s) && s.sdPc == Waiting
    ensures AddAll([], ByType(kind, s.shared), LIMIT) == ByType(kind, s.shared)
  {
    ByTypeSelects(kind, s.shared);
    AddAllIsLastN([], ByType(kind, s.shared), LIMIT);
    assert [] + ByType(kind, s.shared) == ByType(kind, s.shared);
  }

  lemma ByTypeClocked(kind: Kind, s: seq<Sample>, clock: int)
    requires Timely(s, clock)
    ensures Clocked(ByType(kind, s)) && NonZero(ByType(kind, s))
  {
    ByTypeSelects(kind, s);
    var b := ByType(kind, s);
    forall i | 0 <= i < |b| ensures 0 < b[i].timestamp {
      assert b[i] in s;
    }
  }

  lemma SplitAndMerged(shared: seq<Sample>, clock: int)
    requires Timely(shared, clock)
    ensures var batch := Samples(Emitted(ByType(Accel, shared), ByType(Gyro, shared)));
      Sorted(batch) && forall x :: x in batch ==> x in shared
  {
    var acc, gyr := ByType(Accel, shared), ByType(Gyro, shared);
    ByTypeClocked(Accel, shared, clock);
    ByTypeClocked(Gyro, shared, clock);
    EmittedSortedIff(acc, gyr);
    EmittedComesFrom(acc, gyr);
    var batch := Samples(Emitted(acc, gyr));
    forall x | x in batch ensures x in shared {
      var i :| 0 <= i < |batch| && batch[i] == x;
      assert Emitted(acc, gyr)[i] in Emitted(acc, gyr);
      ByTypeSelects(Accel, shared);
      ByTypeSelects(Gyro, shared);
    }
  }

  lemma TimelyDrained(sent: seq<Sample>, shared: seq<Sample>, rest: seq<Sample>, clock: int)
    requires Timely(sent + (shared + rest), clock)
    ensures Timely(sent + (Samples(Emitted(ByType(Accel, shared), ByType(Gyro, shared))) + rest), clock)
  {
    TimelySplit(sent, shared + rest, clock);
    TimelySplit(shared, rest, clock);
    SplitAndMerged(shared, clock);
    TimelyReplace(sent, shared, Samples(Emitted(ByType(Accel, shared), ByType(Gyro, shared))), rest, clock);
  }

  lemma DrainKeepsInv(s: State)
    requires Inv(s) && s.sdPc == Waiting
    ensures Inv(Next(s, Drain))
  {
    var t := Next(s, Drain);
    DrainIsLossless(s, Accel);
    DrainIsLossless(s, Gyro);
    Stages(s);
    Stages(t);
    assert Samples(Emitted([], [])) == [];
    Left(s.shared + (s.hwAcc + s.hwGyr));
    Left(s.hwAcc + s.hwGyr);
    TimelyDrained(Samples(s.delivered), s.shared, s.hwAcc + s.hwGyr, s.clock);
  }

  lemma StepKeepsInv(s: State, l: Step)
    requires Inv(s) && Enabled(s, l)
    ensures Inv(Next(s, l))
  {
    match l
    case Read(_, _, _, _) => ReadKeepsInv(s, l);
    case ReadEnd =>
    case HandOver => HandOverKeepsInv(s);
    case Drain => DrainKeepsInv(s);
    case Process => assert Output(Next(s, l)) == Output(s);
  }

  lemma {:induction false} RunKeepsInv(s: State, steps: seq<Step>, t: State)
    requires Inv(s) && Runs(s, steps, t)
    ensures Inv(t)
    decreases |steps|
  {
    if steps != [] {
      StepKeepsInv(s, steps[0]);
      RunKeepsInv(Next(s, steps[0]), steps[1..], t);
    }
  }

  /** Over every interleaving of the two threads the whole delivered stream is in time order, across
      sensors and across batches, and so are the events made of it. */
  lemma DeliveredInTimeOrder(steps: seq<Step>, t: State, r: Ranges)
    requires Runs(INITIAL, steps, t)
    ensures SortedPackages(t.delivered)
    ensures SortedEvents(Events(t.delivered, r))
  {
    InitInv();
    RunKeepsInv(INITIAL, steps, t);
    Stages(t);
    TimelySplit(Samples(t.delivered),
      Samples(Emitted(t.sdAcc, t.sdGyr)) + (t.shared + (t.hwAcc + t.hwGyr)), t.clock);
    SortedSamples(t.delivered);
    EventsSorted(t.delivered, r);
  }

  lemma SortedSamples(ps: seq<Package>)
    requires Sorted(Samples(ps))
    ensures SortedPackages(ps)
  {
    forall i, j | 0 <= i < j < |ps| ensures ps[i].sample.timestamp <= ps[j].sample.timestamp {
      assert Samples(ps)[i].timestamp <= Samples(ps)[j].timestamp;
    }
  }

  // ---------- what becomes of each sample ----------

  /** The samples that wait in front of the demultiplexer. */
  function Upstream(s: State): seq<Sample>
  {
    s.shared + s.hwAcc + s.hwGyr
  }

  /** All samples of one sensor that still exist somewhere or have been delivered, the oldest first. */
  function Line(kind: Kind, s: State): seq<Sample>
  {
    Only(kind, Output(s)) + ByType(kind, Upstream(s))
  }

  function Own(s: State): seq<Sample>
  {
    if s.hwPc == ReadingAcc then s.hwAcc else s.hwGyr
  }

  /** How many samples a step drops: one when a reading meets a full private list, and on a hand-over
      whatever exceeds the limit of the shared list. No other step drops any. */
  function Lost(s: State, l: Step): nat
  {
    match l
    case Read(_, _, _, _) => if |Own(s)| == LIMIT then 1 else 0
    case HandOver => if |Upstream(s)| > LIMIT then |Upstream(s)| - LIMIT else 0
    case _ => 0
  }

  function TotalLost(s: State, steps: seq<Step>): nat
    decreases |steps|
  {
    if steps == [] then 0 else Lost(s, steps[0]) + TotalLost(Next(s, steps[0]), steps[1..])
  }

  /** Which samples a step drops, as a range of Upstream. */
  function DropAt(s: State, l: Step): nat
  {
    if l.Read? && s.hwPc == ReadingAcc then |s.shared|
    else if l.Read? then |s.shared| + |s.hwAcc|
    else 0
  }

  /** The new readings of a step. */
  function Fresh(s: State, l: Step): seq<Package>
  {
    if l.Read? then [Reading(s, l)] else []
  }

  lemma CutAdded(before: seq<Sample>, own: seq<Sample>, x: Sample)
    ensures var all, n := before + own, if |own| == LIMIT then 1 else 0;
      before + Added(own, x, LIMIT) == all[..|before|] + all[|before| + n..] + [x]
  {
  }

  lemma UpstreamRead(s: State, l: Step)
    requires Inv(s) && Enabled(s, l) && l.Read?
    ensures DropAt(s, l) + Lost(s, l) <= |Upstream(s)|
    ensures Upstream(Next(s, l))
         == Upstream(s)[..DropAt(s, l)] + Upstream(s)[DropAt(s, l) + Lost(s, l)..] + [Reading(s, l).sample]
  {
    var x := Reading(s, l).sample;
    if s.hwPc == ReadingAcc {
      CutAdded(s.shared, s.hwAcc, x);
      assert Upstream(s) == s.shared + s.hwAcc;
      assert Upstream(Next(s, l)) == s.shared + Added(s.hwAcc, x, LIMIT);
    } else {
      CutAdded(s.shared + s.hwAcc, s.hwGyr, x);
    }
  }

  /** What a step of hwcntl does to the samples in front of the demultiplexer. */
  lemma UpstreamStep(s: State, l: Step)
    requires Inv(s) && Enabled(s, l) && l != Drain
    ensures DropAt(s, l) + Lost(s, l) <= |Upstream(s)|
    ensures Upstream(Next(s, l))
         == Upstream(s)[..DropAt(s, l)] + Upstream(s)[DropAt(s, l) + Lost(s, l)..] + Samples(Fresh(s, l))
  {
    match l
    case Read(_, _, _, _) =>
      UpstreamRead(s, l);
      SamplesOfOne(Reading(s, l));
    case HandOver =>
      MountedCycleIsLastN(s.shared, s.hwAcc, s.hwGyr);
      UpstreamHandOver(Upstream(s));
      assert Upstream(Next(s, l)) == Next(s, l).shared;
    case _ =>
      CutNothing(Upstream(s));
  }

  lemma SamplesOfOne(p: Package)
    ensures Samples([p]) == [p.sample]
  {
  }

  lemma UpstreamHandOver(u: seq<Sample>)
    ensures LastN(u, LIMIT) == u[..0] + u[(if |u| > LIMIT then |u| - LIMIT else 0)..] + []
  {
  }

  lemma {:induction false} ByTypeAppend(kind: Kind, s: seq<Sample>, t: seq<Sample>)
    ensures ByType(kind, s + t) == ByType(kind, s) + ByType(kind, t)
  {
    if s == [] {
      assert s + t == t;
    } else {
      ByTypeAppend(kind, s[1..], t);
      assert (s + t)[1..] == s[1..] + t;
    }
  }

  /** What a sequence loses when its middle part goes and something new joins. */
  lemma ByTypeCut(kind: Kind, s: seq<Sample>, i: nat, j: nat, added: seq<Sample>)
    requires i <= j <= |s|
    ensures ByType(kind, s) == ByType(kind, s[..i]) + ByType(kind, s[i..j]) + ByType(kind, s[j..])
    ensures ByType(kind, s[..i] + s[j..] + added)
         == ByType(kind, s[..i]) + ByType(kind, s[j..]) + ByType(kind, added)
  {
    ByTypeAppend(kind, s[..i], s[i..j]);
    ByTypeAppend(kind, s[..j], s[j..]);
    assert s == s[..j] + s[j..] && s[..j] == s[..i] + s[i..j];
    ByTypeAppend(kind, s[..i], s[j..]);
    ByTypeAppend(kind, s[..i] + s[j..], added);
  }

  lemma DrainedLine(kind: Kind, sent: seq<Package>, shared: seq<Sample>, rest: seq<Sample>)
    ensures Only(kind, sent + Emitted(ByType(Accel, shared), ByType(Gyro, shared))) + ByType(kind, rest)
         == Only(kind, sent) + ByType(kind, shared + rest)
  {
    var acc, gyr := ByType(Accel, shared), ByType(Gyro, shared);
    EmittedIsInterleaving(acc, gyr);
    OnlyAppend(kind, sent, Emitted(acc, gyr));
    ByTypeAppend(kind, shared, rest);
    Regroup(Only(kind, sent), ByType(kind, shared), ByType(kind, rest));
  }

  /** Draining and processing lose nothing: the line of each sensor is exactly what it was. */
  lemma DownstreamIsLossless(s: State, l: Step, kind: Kind)
    requires Inv(s) && Enabled(s, l) && (l.Drain? || l.Process? || l.ReadEnd?)
    ensures Line(kind, Next(s, l)) == Line(kind, s)
  {
    var t := Next(s, l);
    match l
    case Drain =>
      DrainIsLossless(s, Accel);
      DrainIsLossless(s, Gyro);
      DrainedLine(kind, s.delivered, s.shared, s.hwAcc + s.hwGyr);
      Regroup(s.shared, s.hwAcc, s.hwGyr);
      Regroup([], s.hwAcc, s.hwGyr);
      Left(s.hwAcc + s.hwGyr);
      assert Output(s) == s.delivered;
    case Process =>
      assert Output(t) == Output(s);
    case ReadEnd =>
  }

  /** Each step drops one contiguous range of each line and adds at most one sample to its end. */
  lemma LineStep(s: State, l: Step, kind: Kind)
    returns (a: seq<Sample>, gone: seq<Sample>, b: seq<Sample>)
    requires Inv(s) && Enabled(s, l)
    ensures Line(kind, s) == a + gone + b
    ensures Line(kind, Next(s, l)) == a + b + Only(kind, Fresh(s, l))
    ensures Lost(s, l) == 0 ==> gone == []
  {
    if l.Drain? || l.Process? || l.ReadEnd? {
      DownstreamIsLossless(s, l, kind);
      a, gone, b := Line(kind, s), [], [];
      assert a + gone + b == a && Only(kind, Fresh(s, l)) == [] && a + b + [] == a;
    } else {
      UpstreamStep(s, l);
      FreshKind(s, l, kind);
      assert Output(Next(s, l)) == Output(s);
      a, gone, b := LineCut(kind, Only(kind, Output(s)), Upstream(s), DropAt(s, l), Lost(s, l), Samples(Fresh(s, l)));
    }
  }

  lemma LineCut(kind: Kind, out: seq<Sample>, u: seq<Sample>, i: nat, n: nat, added: seq<Sample>)
    returns (a: seq<Sample>, gone: seq<Sample>, b: seq<Sample>)
    requires i + n <= |u|
    ensures out + ByType(kind, u) == a + gone + b
    ensures out + ByType(kind, u[..i] + u[i + n..] + added) == a + b + ByType(kind, added)
    ensures n == 0 ==> gone == []
  {
    ByTypeCut(kind, u, i, i + n, added);
    var kept := ByType(kind, u[..i]);
    a, gone, b := out + kept, ByType(kind, u[i..i + n]), ByType(kind, u[i + n..]);
    Regroup4(out, kept, gone, b);
    Regroup4(out, kept, b, ByType(kind, added));
    assert n == 0 ==> u[i..i + n] == [];
  }

  lemma FreshKind(s: State, l: Step, kind: Kind)
    ensures ByType(kind, Samples(Fresh(s, l))) == Only(kind, Fresh(s, l))
  {
    if l.Read? {
      var p := Reading(s, l);
      assert Samples([p]) == [p.sample] && p.sample.id == TypeOf(p.kind);
    }
  }

  /** f picks the elements of a out of b, each at another place and in the same order. */
  ghost predicate Picks<T>(f: seq<nat>, a: seq<T>, b: seq<T>)
  {
    && |f| == |a|
    && (forall i :: 0 <= i < |f| ==> f[i] < |b| && b[f[i]] == a[i])
    && (forall i, j :: 0 <= i < j < |f| ==> f[i] < f[j])
  }

  ghost predicate Subsequence<T>(a: seq<T>, b: seq<T>)
  {
    exists f: seq<nat> :: Picks(f, a, b)
  }

  lemma SubsequenceCut<T>(a: seq<T>, gone: seq<T>, b: seq<T>, all: seq<T>)
    requires Subsequence(a + gone + b, all)
    ensures Subsequence(a + b, all)
  {
    var f: seq<nat> :| Picks(f, a + gone + b, all);
    var n := |a| + |gone|;
    assert forall i :: 0 <= i < |b| ==> (a + gone + b)[n + i] == b[i];
    assert Picks(f[..|a|] + f[n..], a + b, all);
  }

  lemma SubsequenceAppend<T>(a: seq<T>, b: seq<T>, x: seq<T>)
    requires Subsequence(a, b) && |x| <= 1
    ensures Subsequence(a + x, b + x)
  {
    var f: seq<nat> :| Picks(f, a, b);
    if x == [] {
      assert a + x == a && b + x == b;
    } else {
      assert Picks(f + [|b|], a + x, b + x);
    }
  }

  lemma LineFollows(s: State, l: Step, kind: Kind)
    requires Inv(s) && Enabled(s, l)
    requires Subsequence(Line(kind, s), Only(kind, s.polled))
    ensures Subsequence(Line(kind, Next(s, l)), Only(kind, Next(s, l).polled))
    ensures Line(kind, s) == Only(kind, s.polled) && Lost(s, l) == 0 ==>
      Line(kind, Next(s, l)) == Only(kind, Next(s, l).polled)
  {
    var a, gone, b := LineStep(s, l, kind);
    OnlyAppend(kind, s.polled, Fresh(s, l));
    PolledGrows(s, l);
    SubsequenceCut(a, gone, b, Only(kind, s.polled));
    SubsequenceAppend(a + b, Only(kind, s.polled), Only(kind, Fresh(s, l)));
    if gone == [] {
      assert a + gone + b == a + b;
    }
  }

  lemma PolledGrows(s: State, l: Step)
    ensures Next(s, l).polled == s.polled + Fresh(s, l)
  {
    assert s.polled + [] == s.polled;
  }

  lemma {:induction false} RunLine(s: State, steps: seq<Step>, t: State, kind: Kind)
    requires Inv(s) && Runs(s, steps, t)
    requires Subsequence(Line(kind, s), Only(kind, s.polled))
    ensures Subsequence(Line(kind, t), Only(kind, t.polled))
    ensures Line(kind, s) == Only(kind, s.polled) && TotalLost(s, steps) == 0 ==> Line(kind, t) == Only(kind, t.polled)
    decreases |steps|
  {
    if steps != [] {
      LineFollows(s, steps[0], kind);
      StepKeepsInv(s, steps[0]);
      RunLine(Next(s, steps[0]), steps[1..], t, kind);
    }
  }

  /** Over every interleaving each sample yields at most one event and a sensor's events keep the order
      in which its samples were read. When no list overflowed nothing is missing: what was read is what was
      delivered followed by what is still on its way. */
  lemma EachSampleAtMostOnce(steps: seq<Step>, t: State, kind: Kind)
    requires Runs(INITIAL, steps, t)
    ensures Subsequence(Only(kind, t.delivered), Only(kind, t.polled))
    ensures TotalLost(INITIAL, steps) == 0 ==> Line(kind, t) == Only(kind, t.polled)
  {
    InitInv();
    assert Line(kind, INITIAL) == [];
    assert Picks([], Line(kind, INITIAL), Only(kind, INITIAL.polled));
    RunLine(INITIAL, steps, t, kind);
    OnlyAppend(kind, t.delivered, Emitted(t.sdAcc, t.sdGyr));
    SubsequencePrefix(Only(kind, t.delivered), Only(kind, Emitted(t.sdAcc, t.sdGyr)), ByType(kind, Upstream(t)),
      Only(kind, t.polled));
  }

  /** When no list overflowed and all lists are empty again, each sensor's delivered samples are exactly
      those read from it, in order. */
  lemma AtRestNothingIsMissing(steps: seq<Step>, t: State, kind: Kind)
    requires Runs(INITIAL, steps, t) && TotalLost(INITIAL, steps) == 0
    requires Upstream(t) == [] && t.sdAcc == [] && t.sdGyr == []
    ensures Only(kind, t.delivered) == Only(kind, t.polled)
  {
    EachSampleAtMostOnce(steps, t, kind);
    assert Output(t) == t.delivered;
    assert Line(kind, t) == Only(kind, t.delivered);
  }

  lemma SubsequencePrefix<T>(a: seq<T>, b: seq<T>, c: seq<T>, all: seq<T>)
    requires Subsequence(a + b + c, all)
    ensures Subsequence(a, all)
  {
    assert a + b + c == a + (b + c) + [] && a + [] == a;
    SubsequenceCut(a, b + c, [], all);
  }

  /** How many samples exist: delivered, in the batch, or in front of the demultiplexer. */
  function Count(s: State): nat
  {
    |Output(s)| + |Upstream(s)|
  }

  lemma CountStep(s: State, l: Step)
    requires Inv(s) && Enabled(s, l)
    ensures Count(Next(s, l)) + Lost(s, l) == Count(s) + |Fresh(s, l)|
  {
    var t := Next(s, l);
    match l
    case Drain =>
      DrainIsLossless(s, Accel);
      DrainIsLossless(s, Gyro);
      EmittedIsInterleaving(t.sdAcc, t.sdGyr);
      ByTypePartition(s.shared);
    case _ =>
      UpstreamStep(s, l);
      assert Output(t) == Output(s);
  }

  lemma {:induction false} ByTypePartition(s: seq<Sample>)
    requires OfSomeKind(s)
    ensures |ByType(Accel, s)| + |ByType(Gyro, s)| == |s|
  {
    if s != [] {
      ByTypePartition(s[1..]);
    }
  }

  lemma {:induction false} RunCount(s: State, steps: seq<Step>, t: State)
    requires Inv(s) && Runs(s, steps, t)
    ensures Count(t) - |t.polled| + TotalLost(s, steps) == Count(s) - |s.polled|
    decreases |steps|
  {
    if steps != [] {
      CountStep(s, steps[0]);
      StepKeepsInv(s, steps[0]);
      RunCount(Next(s, steps[0]), steps[1..], t);
    }
  }

  /** Conservation over every interleaving: each sample read was delivered, or is still in one of the
      lists, or was dropped by a full list in front of the demultiplexer. */
  lemma SamplesAreConserved(steps: seq<Step>, t: State)
    requires Runs(INITIAL, steps, t)
    ensures |t.polled| == |t.delivered| + |t.sdAcc| + |t.sdGyr|
                        + |t.shared| + |t.hwAcc| + |t.hwGyr| + TotalLost(INITIAL, steps)
  {
    InitInv();
    RunCount(INITIAL, steps, t);
    EmittedIsInterleaving(t.sdAcc, t.sdGyr);
  }

  // ---------- what the samples carry ----------

  /** A reading in a run, with the number of times that some chip had no more samples before it. */
  datatype Taken = Taken(step: Step, ends: nat)

  function ReadsOf(steps: seq<Step>, ends: nat): seq<Taken>
    decreases |steps|
  {
    if steps == [] then []
    else
      var later := ReadsOf(steps[1..], if steps[0].ReadEnd? then ends + 1 else ends);
      if steps[0].Read? then [Taken(steps[0], ends)] + later else later
  }

  /** A sample has the values and the time of the reading. The chips take turns, the accelerometer first. */
  predicate IsReading(p: Package, r: Taken)
  {
    && r.step.Read?
    && p.sample.x == r.step.x && p.sample.y == r.step.y && p.sample.z == r.step.z && p.sample.timestamp == r.step.now
    && p.kind == (if r.ends % 2 == 0 then Accel else Gyro)
    && p.sample.id == (if r.ends % 2 == 0 then SENSOR_TYPE_ACCELEROMETER else SENSOR_TYPE_GYROSCOPE_UNCALIBRATED)
  }

  predicate AreReadings(ps: seq<Package>, rs: seq<Taken>)
  {
    |ps| == |rs| && forall i :: 0 <= i < |ps| ==> IsReading(ps[i], rs[i])
  }

  /** Whose turn it is shows in how many times a chip was read out. */
  predicate InTurn(s: State, ends: nat)
  {
    s.hwPc == ReadingGyr <==> ends % 2 == 1
  }

  lemma {:induction false} RunReadings(s: State, steps: seq<Step>, t: State, ends: nat, before: seq<Taken>)
    requires Runs(s, steps, t) && InTurn(s, ends) && AreReadings(s.polled, before)
    ensures AreReadings(t.polled, before + ReadsOf(steps, ends))
    decreases |steps|
  {
    if steps == [] {
      Right(before);
    } else {
      var l, u := steps[0], Next(s, steps[0]);
      var now := if l.Read? then [Taken(l, ends)] else [];
      var later := if l.ReadEnd? then ends + 1 else ends;
      assert AreReadings(u.polled, before + now) by {
        Right(before);
      }
      RunReadings(u, steps[1..], t, later, before + now);
      Left(ReadsOf(steps[1..], later));
      Regroup(before, now, ReadsOf(steps[1..], later));
    }
  }

  /** Over every interleaving the samples that go through the pipeline are the readings of the chips, one of
      each and in order, with all values and times unchanged. */
  lemma SamplesAreReadings(steps: seq<Step>, t: State)
    requires Runs(INITIAL, steps, t)
    ensures AreReadings(t.polled, ReadsOf(steps, 0))
  {
    RunReadings(INITIAL, steps, t, 0, []);
    Left(ReadsOf(steps, 0));
  }

  // ---------- everything can be delivered ----------

  /** What can be done next, without another reading, to bring the samples nearer to the pipe. */
  function Forward(s: State): Step
  {
    if s.sdPc == Processing then Process
    else if s.shared != [] then Drain
    else if s.hwPc != HandingOver then ReadEnd
    else HandOver
  }

  predicate AtRest(s: State)
  {
    Upstream(s) == [] && s.sdPc == Waiting
  }

  function HwRank(s: State): nat
  {
    if s.hwAcc == [] && s.hwGyr == [] then 0
    else match s.hwPc case ReadingAcc => 3 case ReadingGyr => 2 case HandingOver => 1
  }

  function SdRank(s: State): nat
  {
    (if s.shared == [] then 0 else 2) + (if s.sdPc == Processing then 1 else 0)
  }

  lemma ForwardIsEnabled(s: State)
    requires Shape(s) && |Upstream(s)| <= LIMIT && !AtRest(s)
    ensures var l, t := Forward(s), Next(s, Forward(s));
      && Enabled(s, l) && !l.Read? && Lost(s, l) == 0 && |Upstream(t)| <= LIMIT
      && (HwRank(t) < HwRank(s) || (HwRank(t) == HwRank(s) && SdRank(t) < SdRank(s)))
  {
    if Forward(s).HandOver? {
      MountedCycleIsLastN(s.shared, s.hwAcc, s.hwGyr);
    }
  }

  lemma ForwardKeepsLine(s: State, kind: Kind)
    requires Inv(s) && Enabled(s, Forward(s)) && Lost(s, Forward(s)) == 0 && !Forward(s).Read?
    ensures Line(kind, Next(s, Forward(s))) == Line(kind, s)
  {
    var a, gone, b := LineStep(s, Forward(s), kind);
    Right(a);
    Right(a + b);
  }

  lemma RestingLine(s: State, kind: Kind)
    requires Shape(s) && AtRest(s)
    ensures Line(kind, s) == Only(kind, s.delivered)
  {
    Right(s.delivered);
    Right(Only(kind, s.delivered));
  }

  predicate NoReads(steps: seq<Step>)
  {
    forall i :: 0 <= i < |steps| ==> !steps[i].Read?
  }

  lemma StepFirst(s: State, l: Step, rest: seq<Step>, t: State)
    requires Enabled(s, l) && Runs(Next(s, l), rest, t) && NoReads(rest) && !l.Read?
    ensures Runs(s, [l] + rest, t) && NoReads([l] + rest)
  {
    RunOf(s, l, rest, t);
  }

  /** Whatever has happened, as long as what waits in front of the demultiplexer fits into the shared list, all
      samples that still exist can be delivered without another reading. */
  lemma {:induction false} LineCanBeDelivered(s: State) returns (steps: seq<Step>, t: State)
    requires Inv(s) && |Upstream(s)| <= LIMIT
    ensures Runs(s, steps, t) && NoReads(steps) && AtRest(t)
    ensures Only(Accel, t.delivered) == Line(Accel, s) && Only(Gyro, t.delivered) == Line(Gyro, s)
    decreases HwRank(s), SdRank(s)
  {
    if AtRest(s) {
      steps, t := [], s;
      RestingLine(s, Accel);
      RestingLine(s, Gyro);
    } else {
      var l := Forward(s);
      ForwardIsEnabled(s);
      StepKeepsInv(s, l);
      ForwardKeepsLine(s, Accel);
      ForwardKeepsLine(s, Gyro);
      var rest;
      rest, t := LineCanBeDelivered(Next(s, l));
      steps := [l] + rest;
      StepFirst(s, l, rest, t);
    }
  }

  lemma RunOf(s: State, l: Step, rest: seq<Step>, t: State)
    requires Enabled(s, l) && Runs(Next(s, l), rest, t)
    ensures Runs(s, [l] + rest, t)
  {
    assert ([l] + rest)[1..] == rest;
  }

  /** One reading of each chip is polled, handed over, split and delivered as it was read. */
  lemma OneCycleDelivers(a: Step, g: Step)
    requires a.Read? && g.Read? && 0 < a.now <= g.now
    ensures exists t ::
      && Runs(INITIAL, [a, ReadEnd, g, ReadEnd, HandOver, Drain, Process], t)
      && |t.delivered| == 2
      && t.delivered[0] == Package(Accel, Sample(1, a.x, a.y, a.z, a.now))
      && t.delivered[1] == Package(Gyro, Sample(16, g.x, g.y, g.z, g.now))
  {
    var x, y := Sample(1, a.x, a.y, a.z, a.now), Sample(16, g.x, g.y, g.z, g.now);
    var s := PollBoth(a, g, x, y);
    var t := Downstream(s, x, y);
    RunsJoin(INITIAL, [a, ReadEnd, g, ReadEnd], s, [HandOver, Drain, Process], t);
    assert [a, ReadEnd, g, ReadEnd] + [HandOver, Drain, Process] == [a, ReadEnd, g, ReadEnd, HandOver, Drain, Process];
  }

  lemma PollBoth(a: Step, g: Step, x: Sample, y: Sample) returns (s: State)
    requires a.Read? && g.Read? && 0 < a.now <= g.now
    requires x == Sample(1, a.x, a.y, a.z, a.now) && y == Sample(16, g.x, g.y, g.z, g.now)
    ensures Runs(INITIAL, [a, ReadEnd, g, ReadEnd], s)
    ensures s.hwPc == HandingOver && s.hwAcc == [x] && s.hwGyr == [y] && s.shared == []
    ensures s.sdPc == Waiting && s.sdAcc == [] && s.sdGyr == [] && s.delivered == []
  {
    var s1 := Next(INITIAL, a);
    var s2 := Next(s1, ReadEnd);
    var s3 := Next(s2, g);
    s := Next(s3, ReadEnd);
    RunOf(s3, ReadEnd, [], s);
    RunOf(s2, g, [ReadEnd] + [], s);
    RunOf(s1, ReadEnd, [g] + ([ReadEnd] + []), s);
    RunOf(INITIAL, a, [ReadEnd] + ([g] + ([ReadEnd] + [])), s);
    assert [a] + ([ReadEnd] + ([g] + ([ReadEnd] + []))) == [a, ReadEnd, g, ReadEnd];
  }

  lemma PairMounted(x: Sample, y: Sample)
    ensures MountedCycle([], [x], [y]) == [x, y]
  {
    MountedCycleIsLastN([], [x], [y]);
    assert [] + [x] + [y] == [x, y];
  }

  lemma PairSplit(x: Sample, y: Sample)
    requires x.id == 1 && y.id == 16
    ensures AddAll([], ByType(Accel, [x, y]), LIMIT) == [x] && AddAll([], ByType(Gyro, [x, y]), LIMIT) == [y]
  {
    assert [x, y] == [x] + [y];
    ByTypeAppend(Accel, [x], [y]);
    ByTypeAppend(Gyro, [x], [y]);
    assert ByType(Accel, [x]) == [x] && ByType(Gyro, [x]) == [];
    assert ByType(Accel, [y]) == [] && ByType(Gyro, [y]) == [y];
    AddAllIsLastN([], [x], LIMIT);
    AddAllIsLastN([], [y], LIMIT);
  }

  lemma PairEmitted(x: Sample, y: Sample)
    requires 0 < x.timestamp <= y.timestamp
    ensures Emitted([x], [y]) == [Package(Accel, x), Package(Gyro, y)]
  {
    var t := BaseTime([x], [y]);
    assert t == x.timestamp && Rest([x], t) == [];
    assert Emitted([], [y]) == [Package(Gyro, y)] + Emitted([], []);
    assert Emitted([x], [y]) == Slot([x], [y], t) + Emitted([], Rest([y], t));
  }

  lemma Downstream(s: State, x: Sample, y: Sample) returns (t: State)
    requires x.id == 1 && y.id == 16 && 0 < x.timestamp <= y.timestamp
    requires s.hwPc == HandingOver && s.hwAcc == [x] && s.hwGyr == [y] && s.shared == []
    requires s.sdPc == Waiting && s.sdAcc == [] && s.sdGyr == [] && s.delivered == []
    ensures Runs(s, [HandOver, Drain, Process], t)
    ensures t.delivered == [Package(Accel, x), Package(Gyro, y)]
  {
    PairMounted(x, y);
    PairSplit(x, y);
    PairEmitted(x, y);
    var s1 := Next(s, HandOver);
    var s2 := Next(s1, Drain);
    t := Next(s2, Process);
    RunOf(s2, Process, [], t);
    RunOf(s1, Drain, [Process] + [], t);
    RunOf(s, HandOver, [Drain] + ([Process] + []), t);
    assert [HandOver] + ([Drain] + ([Process] + [])) == [HandOver, Drain, Process];
  }

  lemma {:induction false} RunsJoin(s: State, a: seq<Step>, t: State, b: seq<Step>, u: State)
    requires Runs(s, a, t) && Runs(t, b, u)
    ensures Runs(s, a + b, u)
    decreases |a|
  {
    if a == [] {
      assert a + b == b;
    } else {
      RunsJoin(Next(s, a[0]), a[1..], t, b, u);
      assert (a + b)[1..] == a[1..] + b;
    }
  }
}
