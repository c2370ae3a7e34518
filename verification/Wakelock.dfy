// The reference-counted wake lock that all sub-HALs share, and the tokens that hold it.

module Wakelock {

  /** held says whether the system's wake lock has been acquired and not released again. */
  datatype Counter = Counter(refCount: nat, held: bool, running: bool, startTime: int, resetTime: int)

  /** Says that the caller does not know when its share of the count began. */
  const NO_START := -1

  /** Nothing happens while the threads are stopped. */
  function Increment(c: Counter, delta: nat, now: int): Counter
  {
    if !c.running then c
    else c.(held := c.held || c.refCount == 0, startTime := now, refCount := c.refCount + delta)
  }

  /** A share that began before the last reset is stale and no longer counts. */
  function Decrement(c: Counter, delta: nat, timeoutStart: int): Counter
  {
    var start := if timeoutStart == NO_START then c.resetTime else timeoutStart;
    if !c.running || c.refCount == 0 || start < c.resetTime then c
    else if delta < c.refCount then c.(refCount := c.refCount - delta)
    else c.(refCount := 0, held := false)
  }

  function Reset(c: Counter, now: int): Counter
  {
    Decrement(c, c.refCount, NO_START).(resetTime := now)
  }

  /** A token that is not locked, for instance one that was moved away, has no share in the count. */
  datatype Token = Token(locked: bool, createdAt: int)

  const MOVED := Token(false, 0)

  /** Moving takes over the source's state, then clears the source. */
  function Moved(tokens: map<int, Token>, src: int, dst: int): map<int, Token>
    requires src in tokens
  {
    tokens[dst := tokens[src]][src := MOVED]
  }

  predicate DidTimeout(c: Counter, now: int, timeout: int)
  {
    now - c.startTime > timeout
  }

  /** The lock is held exactly while somebody counts on it. */
  predicate Consistent(c: Counter)
  {
    c.held <==> c.refCount > 0
  }

  /** An increment keeps the lock and the count together unless it acquires the lock for nothing. */
  lemma IncrementConsistentIff(c: Counter, delta: nat, now: int)
    requires Consistent(c)
    ensures Consistent(Increment(c, delta, now)) <==> !(c.running && c.refCount == 0 && delta == 0)
  {
  }

  /** However large and however stale it is, a decrement keeps lock and count together and never goes
      below zero. */
  lemma DecrementConsistent(c: Counter, delta: nat, timeoutStart: int)
    requires Consistent(c)
    ensures Consistent(Decrement(c, delta, timeoutStart))
    ensures Decrement(c, delta, timeoutStart).refCount <= c.refCount
  {
  }

  /** A reset empties the count exactly when the threads run; a stopped one leaves count and lock. */
  lemma ResetIff(c: Counter, now: int)
    requires Consistent(c)
    ensures Consistent(Reset(c, now))
    ensures Reset(c, now).refCount == 0 <==> c.running || c.refCount == 0
    ensures c.running ==> !Reset(c, now).held
  {
  }

  /** Stopping the threads before the reset, as an initialisation does, leaves a held lock held. */
  lemma StoppedResetKeepsLock()
    ensures exists c, now :: Consistent(c) && !c.running && Reset(c, now).held && Reset(c, now).refCount == 1
  {
    var c := Counter(1, true, false, 0, 0);
    assert Reset(c, 5).held && Reset(c, 5).refCount == 1;
  }

  datatype Op =
    | Inc(delta: nat, now: int) | Dec(delta: nat, timeoutStart: int)
    | TimeoutReset(now: int) | Stop | Start

  function Apply(c: Counter, op: Op): Counter
  {
    match op
    case Inc(delta, now) => Increment(c, delta, now)
    case Dec(delta, timeoutStart) => Decrement(c, delta, timeoutStart)
    case TimeoutReset(now) => Reset(c, now)
    case Stop => c.(running := false)
    case Start => c.(running := true)
  }

  function ApplyAll(c: Counter, ops: seq<Op>): Counter
    decreases |ops|
  {
    if ops == [] then c else ApplyAll(Apply(c, ops[0]), ops[1..])
  }

  /** Over every run, with timeouts, over-large and stale releases and stopped threads: the system's wake
      lock is held exactly while the count is positive, given that increments are positive. */
  lemma {:induction false} HeldIffCounted(c: Counter, ops: seq<Op>)
    requires Consistent(c)
    requires forall i :: 0 <= i < |ops| && ops[i].Inc? ==> ops[i].delta > 0
    ensures Consistent(ApplyAll(c, ops))
    decreases |ops|
  {
    if ops != [] {
      HeldIffCounted(Apply(c, ops[0]), ops[1..]);
    }
  }

  predicate NeverStops(ops: seq<Op>)
  {
    forall i :: 0 <= i < |ops| ==> !ops[i].Stop?
  }

  /** Increments come in the order of their times, none before the given one. */
  predicate ForwardsFrom(start: int, ops: seq<Op>)
  {
    && (forall i :: 0 <= i < |ops| && ops[i].Inc? ==> start <= ops[i].now)
    && (forall i, j :: 0 <= i < j < |ops| && ops[i].Inc? && ops[j].Inc? ==> ops[i].now <= ops[j].now)
  }

  lemma {:induction false} StartIsLatest(c: Counter, ops: seq<Op>)
    requires c.running && NeverStops(ops) && ForwardsFrom(c.startTime, ops)
    ensures c.startTime <= ApplyAll(c, ops).startTime
    ensures forall i :: 0 <= i < |ops| && ops[i].Inc? ==> ops[i].now <= ApplyAll(c, ops).startTime
    decreases |ops|
  {
    if ops != [] {
      var d := Apply(c, ops[0]);
      assert forall i :: 0 <= i < |ops[1..]| ==> ops[1..][i] == ops[i + 1];
      StartIsLatest(d, ops[1..]);
      forall i | 0 <= i < |ops| && ops[i].Inc? ensures ops[i].now <= ApplyAll(c, ops).startTime {
        if i > 0 {
          assert ops[1..][i - 1] == ops[i];
        }
      }
    }
  }

  /** A timeout strikes only when every increment lies further back than the limit: as long as events or
      tokens keep coming, nothing is reset. */
  lemma TimeoutMeansIdle(c: Counter, ops: seq<Op>, now: int, timeout: int)
    requires c.running && NeverStops(ops) && ForwardsFrom(c.startTime, ops)
    requires DidTimeout(ApplyAll(c, ops), now, timeout)
    ensures forall i :: 0 <= i < |ops| && ops[i].Inc? ==> now - ops[i].now > timeout
  {
    StartIsLatest(c, ops);
  }

  /** Without the condition it fails: a locked post without wake-up events, after a reset has emptied the
      count, acquires the lock for nobody. */
  lemma EmptyIncrementLeaks()
    ensures exists ops, c :: Consistent(c) && ApplyAll(c, ops).held && ApplyAll(c, ops).refCount == 0
  {
    var c := Counter(0, false, true, 0, 0);
    var ops := [Inc(1, 1), TimeoutReset(2), Inc(0, 3)];
    assert ops[1..] == [TimeoutReset(2), Inc(0, 3)] && ops[1..][1..] == [Inc(0, 3)];
    assert [Inc(0, 3)][1..] == [];
    var c1 := Apply(c, ops[0]);
    var c2 := Apply(c1, TimeoutReset(2));
    var c3 := Apply(c2, Inc(0, 3));
    assert ApplyAll(c, ops) == ApplyAll(c1, ops[1..]);
    assert ApplyAll(c1, ops[1..]) == ApplyAll(c2, [Inc(0, 3)]);
    assert ApplyAll(c2, [Inc(0, 3)]) == c3;
  }
}

// Runs of tokens: created, moved, destroyed, with timeout resets in between.
module TokenRuns {
  import opened Wakelock

  datatype State = State(clock: nat, counter: Counter, tokens: map<int, Token>)

  datatype Step =
    | Create(id: int, lock: bool, now: nat)
    | MoveConstruct(src: int, dst: int)
    | MoveAssign(src: int, dst: int)
    | Destroy(id: int)
    | TimeoutReset(now: nat)

  predicate Enabled(s: State, l: Step)
  {
    match l
    case Create(id, _, now) => id !in s.tokens && s.clock < now
    case MoveConstruct(src, dst) => src in s.tokens && dst !in s.tokens
    case MoveAssign(src, dst) => src in s.tokens && dst in s.tokens
    case Destroy(id) => id in s.tokens
    case TimeoutReset(now) => s.clock < now
  }

  function Next(s: State, l: Step): State
    requires Enabled(s, l)
  {
    match l
    case Create(id, lock, now) =>
      if lock then
        s.(clock := now, counter := Increment(s.counter, 1, now),
           tokens := s.tokens[id := Token(s.counter.running, now)])
      else s.(clock := now, tokens := s.tokens[id := Token(false, 0)])
    case MoveConstruct(src, dst) => s.(tokens := Moved(s.tokens, src, dst))
    case MoveAssign(src, dst) => s.(tokens := Moved(s.tokens, src, dst))
    case Destroy(id) =>
      var t := s.tokens[id];
      s.(counter := if t.locked then Decrement(s.counter, 1, t.createdAt) else s.counter, tokens := s.tokens - {id})
    case TimeoutReset(now) => s.(clock := now, counter := Reset(s.counter, now))
  }

  /** The tokens that still hold a share: locked, and created after the last reset. */
  function Holders(s: State): set<int>
  {
    set id | id in s.tokens && s.tokens[id].locked && s.counter.resetTime < s.tokens[id].createdAt
  }

  predicate Inv(s: State)
  {
    && s.counter.running && 0 <= s.counter.resetTime <= s.clock
    && (forall id :: id in s.tokens && s.tokens[id].locked ==>
          0 < s.tokens[id].createdAt <= s.clock && s.tokens[id].createdAt != s.counter.resetTime)
    && (forall a, b :: a in s.tokens && b in s.tokens && a != b && s.tokens[a].locked && s.tokens[b].locked ==>
          s.tokens[a].createdAt != s.tokens[b].createdAt)
  }

  predicate Balanced(s: State)
  {
    s.counter.refCount == |Holders(s)|
  }

  lemma StepKeepsInv(s: State, l: Step)
    requires Inv(s) && Enabled(s, l)
    ensures Inv(Next(s, l))
  {
  }

  /** Overwriting a token that holds a share loses that share; every other step keeps the balance. */
  predicate Overwrites(s: State, l: Step)
  {
    l.MoveAssign? && l.dst in Holders(s)
  }

  lemma MoveHolders(s: State, l: Step)
    requires Enabled(s, l) && (l.MoveConstruct? || l.MoveAssign?)
    ensures Holders(Next(s, l)) ==
      if l.src in Holders(s) && l.src != l.dst then Holders(s) - {l.src} + {l.dst}
      else Holders(s) - {l.src, l.dst}
  {
  }

  lemma MoveBalance(s: State, l: Step)
    requires Enabled(s, l) && (l.MoveConstruct? || l.MoveAssign?)
    ensures |Holders(Next(s, l))| == if l.dst in Holders(s) then |Holders(s)| - 1 else |Holders(s)|
  {
    MoveHolders(s, l);
    var h := Holders(s);
    if l.src in h && l.src != l.dst {
      if l.dst in h {
        assert h - {l.src} + {l.dst} == h - {l.src};
      } else {
        assert |h - {l.src} + {l.dst}| == |h - {l.src}| + 1;
      }
    } else if l.dst in h {
      assert h - {l.src, l.dst} == h - {l.dst};
    } else {
      assert h - {l.src, l.dst} == h;
    }
  }

  lemma CreateBalance(s: State, l: Step)
    requires Inv(s) && Balanced(s) && Enabled(s, l) && l.Create?
    ensures Balanced(Next(s, l))
  {
    var h := Holders(s);
    assert l.id !in h;
    if l.lock {
      assert Holders(Next(s, l)) == h + {l.id};
    } else {
      assert Holders(Next(s, l)) == h;
    }
  }

  lemma DestroyBalance(s: State, l: Step)
    requires Inv(s) && Balanced(s) && Enabled(s, l) && l.Destroy?
    ensures Balanced(Next(s, l))
  {
    var h := Holders(s);
    assert Holders(Next(s, l)) == h - {l.id};
    if l.id in h {
      assert |h - {l.id}| == |h| - 1;
    } else {
      assert h - {l.id} == h;
      StaleDestroyIsNoOp(s, l.id);
    }
  }

  lemma ResetBalance(s: State, l: Step)
    requires Inv(s) && Enabled(s, l) && l.TimeoutReset?
    ensures Balanced(Next(s, l))
  {
    var t := Next(s, l);
    assert t.tokens == s.tokens && t.counter.resetTime == l.now;
    forall id | id in s.tokens ensures id !in Holders(t) {
      assert s.tokens[id].locked ==> s.tokens[id].createdAt <= s.clock;
    }
    assert Holders(t) == {};
  }

  /** The balance survives a step exactly when the step does not overwrite a holder. */
  lemma BalanceKeptIff(s: State, l: Step)
    requires Inv(s) && Balanced(s) && Enabled(s, l)
    ensures Balanced(Next(s, l)) <==> !Overwrites(s, l)
  {
    match l
    case Create(_, _, _) => CreateBalance(s, l);
    case MoveConstruct(_, _) => MoveBalance(s, l);
    case MoveAssign(_, _) => MoveBalance(s, l);
    case Destroy(_) => DestroyBalance(s, l);
    case TimeoutReset(_) => ResetBalance(s, l);
  }

  /** Two tokens are created and one is moved onto the other: the share of the second is never given back. */
  lemma OverwriteLosesShare()
    ensures exists s, l :: Inv(s) && Balanced(s) && Enabled(s, l) && !Balanced(Next(s, l))
  {
    var s := State(2, Counter(2, true, true, 2, 0), map[1 := Token(true, 1), 2 := Token(true, 2)]);
    assert Holders(s) == {1, 2};
    var l := MoveAssign(1, 2);
    BalanceKeptIff(s, l);
    assert Inv(s) && Balanced(s) && Enabled(s, l) && !Balanced(Next(s, l));
  }

  /** Destroying a token that is older than the last reset changes nothing in the counter. */
  lemma StaleDestroyIsNoOp(s: State, id: int)
    requires Inv(s) && id in s.tokens && id !in Holders(s)
    ensures Next(s, Destroy(id)).counter == s.counter
  {
  }

  /** Who holds a share after a step: a token created locked, the target of a move out of a holder, and every
      other holder that was neither destroyed, moved away, overwritten nor outlived by a reset. */
  lemma HoldersAfter(s: State, l: Step, x: int)
    requires Inv(s) && Enabled(s, l)
    ensures x in Holders(Next(s, l)) <==>
      match l
      case Create(id, lock, _) => x in Holders(s) || (x == id && lock)
      case MoveConstruct(src, dst) => (x == dst && src in Holders(s)) || (x !in {src, dst} && x in Holders(s))
      case MoveAssign(src, dst) => (x == dst != src && src in Holders(s)) || (x !in {src, dst} && x in Holders(s))
      case Destroy(id) => x != id && x in Holders(s)
      case TimeoutReset(_) => false
    ensures Next(s, l).counter.refCount ==
      match l
      case Create(_, lock, _) => s.counter.refCount + (if lock then 1 else 0)
      case Destroy(id) =>
        if id in Holders(s) && s.counter.refCount > 0 then s.counter.refCount - 1 else s.counter.refCount
      case TimeoutReset(_) => 0
      case _ => s.counter.refCount
  {
  }

  predicate Runs(s: State, steps: seq<Step>, t: State)
    decreases |steps|
  {
    if steps == [] then s == t
    else Enabled(s, steps[0]) && Runs(Next(s, steps[0]), steps[1..], t)
  }

  predicate NeverOverwrites(s: State, steps: seq<Step>)
    decreases |steps|
  {
    steps == [] || (Enabled(s, steps[0]) && !Overwrites(s, steps[0]) && NeverOverwrites(Next(s, steps[0]), steps[1..]))
  }

  function Start(now: nat): State
  {
    State(now, Counter(0, false, true, now, now), map[])
  }

  lemma {:induction false} RunKeepsBalance(s: State, steps: seq<Step>, t: State)
    requires Inv(s) && Balanced(s) && Runs(s, steps, t) && NeverOverwrites(s, steps)
    ensures Inv(t) && Balanced(t)
    decreases |steps|
  {
    if steps != [] {
      StepKeepsInv(s, steps[0]);
      BalanceKeptIff(s, steps[0]);
      RunKeepsBalance(Next(s, steps[0]), steps[1..], t);
    }
  }

  /** Over every run with a strictly increasing clock in which no holder is overwritten, the count is the
      number of live locked tokens created after the last reset, and no two of them stem from the same
      acquisition. */
  lemma CountIsHolders(now: nat, steps: seq<Step>, t: State)
    requires Runs(Start(now), steps, t) && NeverOverwrites(Start(now), steps)
    ensures t.counter.refCount == |Holders(t)|
    ensures forall a, b :: a in Holders(t) && b in Holders(t) && a != b ==>
      t.tokens[a].createdAt != t.tokens[b].createdAt
  {
    assert Holders(Start(now)) == {};
    RunKeepsBalance(Start(now), steps, t);
  }

  /** A token that is created locked, moved on and destroyed takes the count to one and back; what it was moved
      out of does not matter. */
  lemma OneTokenRun(now: nat, later: nat, src: int, dst: int)
    requires now < later && src != dst
    ensures exists t, u ::
      && Runs(Start(now), [Create(src, true, later), MoveConstruct(src, dst), Destroy(src)], t)
      && t.counter.refCount == 1 && t.counter.held && Holders(t) == {dst}
      && Runs(t, [Destroy(dst)], u) && u.counter.refCount == 0 && !u.counter.held && u.tokens == map[]
  {
    var s1 := Next(Start(now), Create(src, true, later));
    var s2 := Next(s1, MoveConstruct(src, dst));
    var t := Next(s2, Destroy(src));
    var u := Next(t, Destroy(dst));
    RunOf(t, Destroy(dst), [], u);
    RunOf(s2, Destroy(src), [], t);
    RunOf(s1, MoveConstruct(src, dst), [Destroy(src)], t);
    RunOf(Start(now), Create(src, true, later), [MoveConstruct(src, dst), Destroy(src)], t);
    assert t.tokens == map[dst := Token(true, later)];
    assert [Destroy(src)] + [] == [Destroy(src)] && [Destroy(dst)] + [] == [Destroy(dst)];
    assert [MoveConstruct(src, dst)] + [Destroy(src)] == [MoveConstruct(src, dst), Destroy(src)];
    assert [Create(src, true, later)] + [MoveConstruct(src, dst), Destroy(src)]
        == [Create(src, true, later), MoveConstruct(src, dst), Destroy(src)];
  }

  lemma RunOf(s: State, l: Step, rest: seq<Step>, t: State)
    requires Enabled(s, l) && Runs(Next(s, l), rest, t)
    ensures Runs(s, [l] + rest, t)
  {
    assert ([l] + rest)[1..] == rest;
  }
}
