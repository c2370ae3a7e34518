// The multi-HAL event path: posts from many sub-HALs, one bounded event queue to the framework, and a
// background thread that writes what did not fit. All interleavings, as a step system.

module EventChannel {
  import opened Arithmetic
  import opened Sequences

  const MAX_PENDING := 100000

  /** serial is the event's place in the log of all posted events; no step looks at it. */
  datatype Event = Event(serial: nat, handle: int, payload: int)

  /** What did not fit of one post, with the number of wake-up events that was recorded for it. */
  datatype Entry = Entry(events: seq<Event>, numWakeup: nat)

  /** The writer thread holds the mutex only while Idle. Writing: it has let go of the mutex and is about to
      write n events. Finishing: the write is over, the mutex not yet taken back. */
  datatype Writer = Idle | Writing(n: nat, numWakeup: nat) | Finishing(n: nat)

  /** A poster holds the mutex from taking it to the end of its post. */
  datatype Poster = Free | Posting(events: seq<Event>, numWakeup: nat)

  /** capacity: the quantum count of the event queue. wakeups: the handles of the wake-up sensors. */
  datatype Config = Config(capacity: nat, wakeups: set<int>)

  datatype State = State(
    queue: seq<Event>, pending: seq<Entry>, pendingSize: int, writer: Writer, poster: Poster,
    posted: seq<Event>, delivered: seq<Event>, dropped: seq<Event>, rejected: seq<Event>)

  const INITIAL := State([], [], 0, Idle, Free, [], [], [], [])

  /** What a sub-HAL hands in for one event. */
  datatype Reading = Reading(handle: int, payload: int)

  /** PostBegin: a poster takes the mutex. PostCommit: it writes what fits into the free slots it saw, unless
      the write fails, and queues the rest. */
  datatype Step =
    | PostBegin(readings: seq<Reading>)
    | PostCommit(free: nat, writeOk: bool)
    | FrameworkRead(n: nat)
    | WriterTake
    | WriterWrite(ok: bool)
    | WriterFinish

  // ---------- sequences of events ----------

  function Stamp(readings: seq<Reading>, serial: nat): (r: seq<Event>)
    ensures |r| == |readings|
  {
    seq(|readings|, i requires 0 <= i < |readings| => Event(serial + i, readings[i].handle, readings[i].payload))
  }

  function CountWakeup(events: seq<Event>, wakeups: set<int>): nat
  {
    if events == [] then 0
    else (if events[0].handle in wakeups then 1 else 0) + CountWakeup(events[1..], wakeups)
  }

  function Flat(pending: seq<Entry>): seq<Event>
  {
    if pending == [] then [] else pending[0].events + Flat(pending[1..])
  }

  function Min(a: nat, b: nat): nat
  {
    if a <= b then a else b
  }

  // ---------- the steps ----------

  /** The mutex is free for the writer and for other posters. */
  predicate MutexFree(s: State)
  {
    s.poster == Free
  }

  predicate Enabled(c: Config, s: State, l: Step)
  {
    match l
    case PostBegin(_) => MutexFree(s)
    case PostCommit(free, _) => s.poster.Posting? && free + |s.queue| <= c.capacity
    case FrameworkRead(n) => n <= |s.queue|
    case WriterTake => MutexFree(s) && s.writer == Idle && s.pending != []
    case WriterWrite(ok) => s.writer.Writing? && (ok ==> s.writer.n + |s.queue| <= c.capacity)
    case WriterFinish => MutexFree(s) && s.writer.Finishing?
  }

  function Begin(c: Config, s: State, readings: seq<Reading>): State
  {
    var events := Stamp(readings, |s.posted|);
    s.(poster := Posting(events, CountWakeup(events, c.wakeups)))
  }

  function Receive(s: State, n: nat): State
    requires n <= |s.queue|
  {
    s.(queue := s.queue[n..], delivered := s.delivered + s.queue[..n])
  }

  /** How many events of a post go straight to the event queue. */
  function Direct(s: State, l: Step): nat
    requires s.poster.Posting? && l.PostCommit?
  {
    if s.pending == [] && l.writeOk then Min(|s.poster.events|, l.free) else 0
  }

  /** The rest of a post is queued unless the pending queue would exceed its bound. */
  predicate Accepted(s: State, left: nat)
  {
    s.pendingSize + left <= MAX_PENDING
  }

  function Commit(s: State, l: Step): State
    requires s.poster.Posting? && l.PostCommit?
  {
    var events, k := s.poster.events, Direct(s, l);
    var left := events[k..];
    var t := s.(poster := Free, posted := s.posted + events, queue := s.queue + events[..k]);
    if k == |events| then t
    else if Accepted(s, |left|) then
      t.(pending := s.pending + [Entry(left, s.poster.numWakeup)], pendingSize := s.pendingSize + |left|)
    else t.(rejected := s.rejected + left)
  }

  function Take(c: Config, s: State): State
    requires s.pending != []
  {
    s.(writer := Writing(Min(|s.pending[0].events|, c.capacity), s.pending[0].numWakeup))
  }

  function Write(s: State, ok: bool): State
    requires s.writer.Writing? && s.pending != [] && s.writer.n <= |s.pending[0].events|
  {
    var chunk := s.pending[0].events[..s.writer.n];
    if ok then s.(writer := Finishing(s.writer.n), queue := s.queue + chunk)
    else s.(writer := Finishing(s.writer.n), dropped := s.dropped + chunk)
  }

  function Finish(c: Config, s: State): State
    requires s.writer.Finishing? && s.pending != []
  {
    var front := s.pending[0];
    s.(writer := Idle, pendingSize := s.pendingSize - s.writer.n,
       pending := if |front.events| > c.capacity
                  then [front.(events := front.events[c.capacity..])] + s.pending[1..]
                  else s.pending[1..])
  }

  function Next(c: Config, s: State, l: Step): State
    requires Enabled(c, s, l) && WriterOk(c, s)
  {
    match l
    case PostBegin(readings) => Begin(c, s, readings)
    case PostCommit(_, _) => Commit(s, l)
    case FrameworkRead(n) => Receive(s, n)
    case WriterTake => Take(c, s)
    case WriterWrite(ok) => Write(s, ok)
    case WriterFinish => Finish(c, s)
  }

  // ---------- the invariant ----------

  /** While the writer works on a chunk, that chunk is still the beginning of the front entry. */
  predicate WriterOk(c: Config, s: State)
  {
    s.writer != Idle ==> s.pending != [] && s.writer.n == Min(|s.pending[0].events|, c.capacity)
  }

  predicate NoEmptyEntry(pending: seq<Entry>)
  {
    forall i :: 0 <= i < |pending| ==> pending[i].events != []
  }

  /** How many events at the front of the pending queue have already been written or dropped. */
  function Done(s: State): nat
  {
    if s.writer.Finishing? then s.writer.n else 0
  }

  /** What is still to be written by the writer thread. */
  function Backlog(s: State): seq<Event>
    requires Done(s) <= |Flat(s.pending)|
  {
    Flat(s.pending)[Done(s)..]
  }

  /** The recorded size is the number of pending events, within the bound. */
  predicate SizeOk(s: State)
  {
    s.pendingSize == |Flat(s.pending)| <= MAX_PENDING
  }

  /** Serials rise strictly and lead back to the log of posted events. */
  predicate InOrder(s: seq<Event>, posted: seq<Event>)
  {
    && (forall i :: 0 <= i < |s| ==> s[i].serial < |posted| && posted[s[i].serial] == s[i])
    && (forall i, j :: 0 <= i < j < |s| ==> s[i].serial < s[j].serial)
  }

  /** Everything that is on its way or has arrived, the oldest first. */
  function Line(s: State): seq<Event>
    requires Done(s) <= |Flat(s.pending)|
  {
    s.delivered + s.queue + Backlog(s)
  }

  predicate Stamped(events: seq<Event>, serial: nat)
  {
    forall i :: 0 <= i < |events| ==> events[i].serial == serial + i
  }

  predicate PosterOk(c: Config, s: State)
  {
    s.poster.Posting? ==>
      && Stamped(s.poster.events, |s.posted|)
      && s.poster.numWakeup == CountWakeup(s.poster.events, c.wakeups)
  }

  predicate Inv(c: Config, s: State)
  {
    && NoEmptyEntry(s.pending) && WriterOk(c, s) && SizeOk(s) && PosterOk(c, s)
    && |s.queue| <= c.capacity
    && Done(s) <= |Flat(s.pending)|
    && InOrder(Line(s), s.posted)
    && Conserved(s.posted, Line(s), s.dropped, s.rejected)
  }

  /** Every posted event is accounted for exactly once. */
  predicate Conserved(posted: seq<Event>, line: seq<Event>, dropped: seq<Event>, rejected: seq<Event>)
  {
    && Stamped(posted, 0)
    && multiset(posted) == multiset(line) + multiset(dropped) + multiset(rejected)
  }

  // ---------- sequences in order ----------

  lemma {:induction false} FlatAppend(pending: seq<Entry>, e: Entry)
    ensures Flat(pending + [e]) == Flat(pending) + e.events
  {
    if pending == [] {
      assert pending + [e] == [e] && Flat([e][1..]) == [];
    } else {
      FlatAppend(pending[1..], e);
      assert (pending + [e])[1..] == pending[1..] + [e];
    }
  }

  lemma InOrderCut(a: seq<Event>, gone: seq<Event>, b: seq<Event>, posted: seq<Event>)
    requires InOrder(a + gone + b, posted)
    ensures InOrder(a + b, posted)
  {
    var all, rest := a + gone + b, a + b;
    forall i | |a| <= i < |rest| ensures rest[i] == all[i + |gone|] {
    }
    forall i | 0 <= i < |a| ensures rest[i] == all[i] {
    }
  }

  /** New events carry the serials that follow those already posted. */
  lemma InOrderAppend(line: seq<Event>, posted: seq<Event>, events: seq<Event>, n: nat)
    requires InOrder(line, posted) && Stamped(events, |posted|) && n <= |events|
    ensures InOrder(line + events[..n], posted + events)
  {
    var all, log := line + events[..n], posted + events;
    forall i | 0 <= i < |all| ensures all[i].serial < |log| && log[all[i].serial] == all[i] {
      if i >= |line| {
        assert all[i] == events[i - |line|];
      }
    }
    forall i, j | 0 <= i < j < |all| ensures all[i].serial < all[j].serial {
      if j >= |line| {
        assert all[j] == events[j - |line|];
        if i >= |line| {
          assert all[i] == events[i - |line|];
        }
      }
    }
  }

  // ---------- what each step does to the line ----------

  /** The front entry is the beginning of the pending events. */
  lemma FrontOfFlat(pending: seq<Entry>, n: nat)
    requires pending != [] && n <= |pending[0].events|
    ensures n <= |Flat(pending)| && Flat(pending)[..n] == pending[0].events[..n]
    ensures Flat(pending)[n..] == pending[0].events[n..] + Flat(pending[1..])
  {
  }

  lemma ReadKeepsLine(c: Config, s: State, n: nat)
    requires Done(s) <= |Flat(s.pending)| && n <= |s.queue|
    ensures Line(Receive(s, n)) == Line(s)
  {
    var q := s.queue;
    assert q == q[..n] + q[n..];
    Middle(s.delivered, q[..n], q[n..], Backlog(s));
    assert s.delivered + q[..n] + (q[n..] + Backlog(s)) == s.delivered + q[..n] + q[n..] + Backlog(s);
  }

  lemma TakeKeepsLine(c: Config, s: State)
    requires s.writer == Idle && s.pending != []
    ensures Done(Take(c, s)) == Done(s) == 0 && Line(Take(c, s)) == Line(s)
  {
  }

  /** A chunk that is written moves from the pending queue to the event queue. */
  lemma WriteKeepsLine(c: Config, s: State)
    requires Inv(c, s) && s.writer.Writing?
    ensures Done(Write(s, true)) <= |Flat(s.pending)| && Line(Write(s, true)) == Line(s)
  {
    var n, f := s.writer.n, Flat(s.pending);
    FrontOfFlat(s.pending, n);
    assert f[0..] == f && f == f[..n] + f[n..];
    Regroup(s.delivered + s.queue, f[..n], f[n..]);
    Regroup(s.delivered, s.queue, f[..n]);
  }

  /** A chunk that could not be written is cut out of the line. */
  lemma DropCutsLine(c: Config, s: State)
    requires Inv(c, s) && s.writer.Writing?
    ensures var t, n := Write(s, false), s.writer.n;
      && Done(t) <= |Flat(s.pending)|
      && Line(s) == (s.delivered + s.queue) + s.pending[0].events[..n] + Backlog(t)
      && Line(t) == (s.delivered + s.queue) + Backlog(t)
  {
    var n, f := s.writer.n, Flat(s.pending);
    FrontOfFlat(s.pending, n);
    assert f[0..] == f && f == f[..n] + f[n..];
    Regroup(s.delivered + s.queue, f[..n], f[n..]);
  }

  /** The accounting after a write takes the chunk off the pending queue and its size. */
  lemma FinishKeepsLine(c: Config, s: State)
    requires Inv(c, s) && s.writer.Finishing?
    ensures var t := Finish(c, s);
      && NoEmptyEntry(t.pending) && SizeOk(t) && Flat(t.pending) == Backlog(s) && Line(t) == Line(s)
  {
    var n, front, t := s.writer.n, s.pending[0], Finish(c, s);
    FrontOfFlat(s.pending, n);
    if |front.events| > c.capacity {
      assert t.pending[1..] == s.pending[1..];
    } else {
      assert front.events[n..] == [];
      assert t.pending == s.pending[1..];
      Left(Flat(s.pending[1..]));
    }
    assert Flat(t.pending)[0..] == Flat(t.pending);
  }

  /** How much of a post gets onto the line: all of it, or only what went straight to the event queue. */
  function Kept(s: State, l: Step): nat
    requires s.poster.Posting? && l.PostCommit?
  {
    var k, n := Direct(s, l), |s.poster.events|;
    if k == n || Accepted(s, n - k) then n else k
  }

  lemma QueueingAppends(s: State, l: Step)
    requires NoEmptyEntry(s.pending) && SizeOk(s) && Done(s) <= |Flat(s.pending)|
    requires s.poster.Posting? && l.PostCommit?
    requires Direct(s, l) < |s.poster.events| && Accepted(s, |s.poster.events| - Direct(s, l))
    ensures var t, e, k := Commit(s, l), s.poster.events, Direct(s, l);
      && NoEmptyEntry(t.pending) && SizeOk(t) && Done(t) <= |Flat(t.pending)|
      && Line(t) == Line(s) + (e[..k] + e[k..])
  {
    var t, e, k := Commit(s, l), s.poster.events, Direct(s, l);
    CommitQueue(s, l);
    FlatAppend(s.pending, Entry(e[k..], s.poster.numWakeup));
    DropOfSum(Flat(s.pending), e[k..], Done(s));
    CommitLine(s.delivered, s.queue, Backlog(s), e[..k], e[k..]);
  }

  lemma DirectAppends(s: State, l: Step)
    requires SizeOk(s) && Done(s) <= |Flat(s.pending)|
    requires s.poster.Posting? && l.PostCommit?
    requires var k, n := Direct(s, l), |s.poster.events|; k == n || !Accepted(s, n - k)
    ensures var t := Commit(s, l);
      && t.pending == s.pending && SizeOk(t) && Done(t) <= |Flat(t.pending)|
      && Line(t) == Line(s) + s.poster.events[..Direct(s, l)]
  {
    var t, k := Commit(s, l), Direct(s, l);
    CommitQueue(s, l);
    CommitLine(s.delivered, s.queue, Backlog(s), s.poster.events[..k], []);
    Right(Backlog(s));
    Right(s.poster.events[..k]);
  }

  lemma CommitAppends(c: Config, s: State, l: Step)
    requires Inv(c, s) && s.poster.Posting? && l.PostCommit? && Enabled(c, s, l)
    ensures var t, e := Commit(s, l), s.poster.events;
      && NoEmptyEntry(t.pending) && SizeOk(t) && Done(t) <= |Flat(t.pending)|
      && Line(t) == Line(s) + e[..Kept(s, l)]
      && t.rejected == s.rejected + e[Kept(s, l)..]
      && |t.queue| <= c.capacity
  {
    var e, k := s.poster.events, Direct(s, l);
    CommitQueue(s, l);
    WholeSlice(e, k);
    Right(s.rejected);
    if k < |e| && Accepted(s, |e| - k) {
      QueueingAppends(s, l);
    } else {
      DirectAppends(s, l);
    }
  }

  /** Exactly what becomes of a post of the events e. The first k go straight to the event queue: as many as
      there are free slots when nothing is pending and the write succeeds, and none otherwise. The rest waits
      behind what is pending, and is rejected exactly when more than 100000 events would then be pending. */
  lemma CommitDecides(c: Config, s: State, l: Step)
    requires Reachable(c, s) && s.poster.Posting? && l.PostCommit? && Enabled(c, s, l)
    ensures var t, e := Commit(s, l), s.poster.events; var k := |t.queue| - |s.queue|;
      && k == (if s.pending != [] || !l.writeOk then 0 else if |e| <= l.free then |e| else l.free)
      && t.queue == s.queue + e[..k]
      && (t.rejected != s.rejected <==> k < |e| && |Flat(s.pending)| + |e| - k > 100000)
      && (t.rejected == s.rejected ==> Flat(t.pending) == Flat(s.pending) + e[k..])
      && (t.rejected != s.rejected ==> t.rejected == s.rejected + e[k..] && t.pending == s.pending)
      && (t.pending != s.pending ==> t.pending == s.pending + [Entry(e[k..], s.poster.numWakeup)])
      && t.posted == s.posted + e && t.delivered == s.delivered && t.dropped == s.dropped
  {
    var e, k := s.poster.events, Direct(s, l);
    ReachableInv(c, s);
    Right(Flat(s.pending));
    if k < |e| && Accepted(s, |e| - k) {
      FlatAppend(s.pending, Entry(e[k..], s.poster.numWakeup));
    } else if k < |e| {
      assert |s.rejected + e[k..]| > |s.rejected|;
    }
  }

  /** Events go straight to the event queue only when nothing is pending. */
  lemma CommitQueue(s: State, l: Step)
    requires s.poster.Posting? && l.PostCommit?
    ensures Direct(s, l) <= |s.poster.events| && Direct(s, l) <= l.free
    ensures Direct(s, l) > 0 ==> Flat(s.pending) == []
  {
  }

  lemma CommitLine(d: seq<Event>, q: seq<Event>, b: seq<Event>, direct: seq<Event>, left: seq<Event>)
    requires direct == [] || b == []
    ensures d + (q + direct) + (b + left) == d + q + b + (direct + left)
  {
  }

  // ---------- every step keeps the invariant ----------

  lemma ConservedCut(posted: seq<Event>, a: seq<Event>, gone: seq<Event>, b: seq<Event>,
                     dropped: seq<Event>, rejected: seq<Event>)
    requires Conserved(posted, a + gone + b, dropped, rejected)
    ensures Conserved(posted, a + b, dropped + gone, rejected)
  {
  }

  lemma ConservedAppend(posted: seq<Event>, line: seq<Event>, dropped: seq<Event>, rejected: seq<Event>,
                        events: seq<Event>, n: nat)
    requires Conserved(posted, line, dropped, rejected) && Stamped(events, |posted|) && n <= |events|
    ensures Conserved(posted + events, line + events[..n], dropped, rejected + events[n..])
  {
    assert events == events[..n] + events[n..];
  }

  lemma DropKeepsInv(c: Config, s: State)
    requires Inv(c, s) && s.writer.Writing?
    ensures Inv(c, Write(s, false))
  {
    var t, chunk := Write(s, false), s.pending[0].events[..s.writer.n];
    DropCutsLine(c, s);
    InOrderCut(s.delivered + s.queue, chunk, Backlog(t), s.posted);
    ConservedCut(s.posted, s.delivered + s.queue, chunk, Backlog(t), s.dropped, s.rejected);
  }

  lemma CommitKeepsInv(c: Config, s: State, l: Step)
    requires Inv(c, s) && l.PostCommit? && Enabled(c, s, l)
    ensures Inv(c, Commit(s, l))
  {
    CommitAppends(c, s, l);
    InOrderAppend(Line(s), s.posted, s.poster.events, Kept(s, l));
    ConservedAppend(s.posted, Line(s), s.dropped, s.rejected, s.poster.events, Kept(s, l));
  }

  lemma BeginKeepsInv(c: Config, s: State, readings: seq<Reading>)
    requires Inv(c, s)
    ensures Inv(c, Begin(c, s, readings))
  {
    assert Line(Begin(c, s, readings)) == Line(s);
  }

  lemma ReceiveKeepsInv(c: Config, s: State, n: nat)
    requires Inv(c, s) && n <= |s.queue|
    ensures Inv(c, Receive(s, n))
  {
    ReadKeepsLine(c, s, n);
  }

  lemma TakeKeepsInv(c: Config, s: State)
    requires Inv(c, s) && s.writer == Idle && s.pending != []
    ensures Inv(c, Take(c, s))
  {
    TakeKeepsLine(c, s);
  }

  lemma WriteKeepsInv(c: Config, s: State)
    requires Inv(c, s) && s.writer.Writing? && s.writer.n + |s.queue| <= c.capacity
    ensures Inv(c, Write(s, true))
  {
    WriteKeepsLine(c, s);
  }

  lemma FinishKeepsInv(c: Config, s: State)
    requires Inv(c, s) && s.writer.Finishing?
    ensures Inv(c, Finish(c, s))
  {
    FinishKeepsLine(c, s);
  }

  lemma StepKeepsInv(c: Config, s: State, l: Step)
    requires Inv(c, s) && Enabled(c, s, l)
    ensures Inv(c, Next(c, s, l))
  {
    match l
    case PostBegin(readings) => BeginKeepsInv(c, s, readings);
    case PostCommit(_, _) => CommitKeepsInv(c, s, l);
    case FrameworkRead(n) => ReceiveKeepsInv(c, s, n);
    case WriterTake => TakeKeepsInv(c, s);
    case WriterWrite(true) => WriteKeepsInv(c, s);
    case WriterWrite(false) => DropKeepsInv(c, s);
    case WriterFinish => FinishKeepsInv(c, s);
  }

  /** Taking the steps one after the other leads from s to t. */
  predicate Runs(c: Config, s: State, steps: seq<Step>, t: State)
    decreases |steps|
  {
    if steps == [] then s == t
    else Enabled(c, s, steps[0]) && WriterOk(c, s) && Runs(c, Next(c, s, steps[0]), steps[1..], t)
  }

  lemma {:induction false} RunKeepsInv(c: Config, s: State, steps: seq<Step>, t: State)
    requires Inv(c, s) && Runs(c, s, steps, t)
    ensures Inv(c, t)
    decreases |steps|
  {
    if steps != [] {
      StepKeepsInv(c, s, steps[0]);
      RunKeepsInv(c, Next(c, s, steps[0]), steps[1..], t);
    }
  }

  lemma {:induction false} RunsOn(c: Config, s: State, steps: seq<Step>, t: State, l: Step)
    requires Runs(c, s, steps, t) && Enabled(c, t, l) && WriterOk(c, t)
    ensures Runs(c, s, steps + [l], Next(c, t, l))
    decreases |steps|
  {
    if steps == [] {
      assert ([l])[1..] == [] && steps + [l] == [l];
    } else {
      RunsOn(c, Next(c, s, steps[0]), steps[1..], t, l);
      assert (steps + [l])[1..] == steps[1..] + [l];
    }
  }

  /** A state that some run leads to. */
  ghost predicate Reachable(c: Config, s: State)
  {
    exists steps: seq<Step> :: Runs(c, INITIAL, steps, s)
  }

  /** The guard on the writer's chunk excludes no run: in a reachable state it holds, and so every step that
      the program and the mutex allow continues the run. */
  lemma NoRunIsExcluded(c: Config, s: State, l: Step)
    requires Reachable(c, s) && Enabled(c, s, l)
    ensures WriterOk(c, s) && Reachable(c, Next(c, s, l))
  {
    ReachableInv(c, s);
    var steps: seq<Step> :| Runs(c, INITIAL, steps, s);
    RunsOn(c, INITIAL, steps, s, l);
  }

  lemma ReachableInv(c: Config, s: State)
    requires Reachable(c, s)
    ensures Inv(c, s)
  {
    var steps: seq<Step> :| Runs(c, INITIAL, steps, s);
    InitInv(c);
    RunKeepsInv(c, INITIAL, steps, s);
  }

  lemma InitialReachable(c: Config)
    ensures Reachable(c, INITIAL)
  {
    assert Runs(c, INITIAL, [], INITIAL);
  }

  lemma InitInv(c: Config)
    ensures Inv(c, INITIAL)
  {
  }

  // ---------- main results ----------

  /** Over every interleaving of posters, writer and framework, what the framework has received is in the
      order in which it was posted, and each event came at most once: the serials lead strictly upwards
      through the log of posted events. */
  lemma DeliveredInPostOrder(c: Config, steps: seq<Step>, t: State)
    requires Runs(c, INITIAL, steps, t)
    ensures InOrder(t.delivered, t.posted)
  {
    InitInv(c);
    RunKeepsInv(c, INITIAL, steps, t);
    var rest := t.queue + Backlog(t);
    assert Line(t) == t.delivered + rest + [];
    InOrderCut(t.delivered, rest, [], t.posted);
    assert t.delivered + [] == t.delivered;
  }

  lemma {:induction false} OccursOnce(events: seq<Event>, base: nat, i: nat)
    requires Stamped(events, base) && i < |events|
    ensures multiset(events)[events[i]] == 1
    decreases |events|
  {
    var n := |events| - 1;
    var last := events[n];
    assert events == events[..n] + [last];
    if i < n {
      OccursOnce(events[..n], base, i);
      assert last.serial != events[i].serial;
    } else {
      assert forall k :: 0 <= k < n ==> events[k].serial != last.serial;
      assert last !in events[..n];
    }
  }

  /** Each posted event has exactly one fate: it was delivered, is in the event queue, waits to be written,
      was dropped by a failed write, or was rejected by a full pending queue. */
  lemma EveryEventHasOneFate(c: Config, steps: seq<Step>, t: State, i: nat)
    requires Runs(c, INITIAL, steps, t) && i < |t.posted|
    ensures Done(t) <= |Flat(t.pending)|
    ensures var e := t.posted[i];
      multiset(t.delivered)[e] + multiset(t.queue)[e] + multiset(Backlog(t))[e]
      + multiset(t.dropped)[e] + multiset(t.rejected)[e] == 1
  {
    InitInv(c);
    RunKeepsInv(c, INITIAL, steps, t);
    OccursOnce(t.posted, 0, i);
  }

  /** In every reachable state the recorded size is the number of pending events, at most 100000, no entry
      is empty, and what the writer will subtract does not exceed the size. */
  lemma PendingIsBounded(c: Config, steps: seq<Step>, t: State)
    requires Runs(c, INITIAL, steps, t)
    ensures t.pendingSize == |Flat(t.pending)| <= MAX_PENDING
    ensures NoEmptyEntry(t.pending)
    ensures t.writer != Idle ==> t.writer.n <= t.pendingSize
  {
    InitInv(c);
    RunKeepsInv(c, INITIAL, steps, t);
    if t.writer != Idle {
      FrontOfFlat(t.pending, t.writer.n);
    }
  }

  lemma {:induction false} SerialAtLeastIndex(s: seq<Event>, posted: seq<Event>, i: nat)
    requires InOrder(s, posted) && i < |s|
    ensures i <= s[i].serial
  {
    if i > 0 {
      SerialAtLeastIndex(s, posted, i - 1);
    }
  }

  lemma {:induction false} SerialAtMostIndex(s: seq<Event>, posted: seq<Event>, i: nat)
    requires InOrder(s, posted) && i < |s|
    ensures s[i].serial <= |posted| - (|s| - i)
    decreases |s| - i
  {
    if i + 1 < |s| {
      SerialAtMostIndex(s, posted, i + 1);
    }
  }

  lemma AllInOrder(s: seq<Event>, posted: seq<Event>)
    requires InOrder(s, posted) && |s| == |posted|
    ensures s == posted
  {
    forall i | 0 <= i < |posted| ensures s[i] == posted[i] {
      SerialAtLeastIndex(s, posted, i);
      SerialAtMostIndex(s, posted, i);
    }
  }

  lemma SameSize(a: seq<Event>, b: seq<Event>)
    requires multiset(a) == multiset(b)
    ensures |a| == |b|
  {
    assert |multiset(a)| == |a| && |multiset(b)| == |b|;
  }

  /** When no write failed and no post was rejected, an event path that has come to rest has delivered
      exactly what was posted, in the same order. */
  lemma AtRestAllIsDelivered(c: Config, steps: seq<Step>, t: State)
    requires Runs(c, INITIAL, steps, t)
    requires t.dropped == [] && t.rejected == [] && t.pending == [] && t.queue == []
    ensures t.delivered == t.posted
  {
    InitInv(c);
    RunKeepsInv(c, INITIAL, steps, t);
    Right(t.delivered);
    assert Line(t) == t.delivered;
    SameSize(t.delivered, t.posted);
    AllInOrder(t.delivered, t.posted);
  }

  // ---------- what the events carry ----------

  /** Everything that was handed in during a run. */
  function HandedIn(steps: seq<Step>): seq<Reading>
  {
    if steps == [] then []
    else (if steps[0].PostBegin? then steps[0].readings else []) + HandedIn(steps[1..])
  }

  /** The log with what is being posted. */
  function Log(s: State): seq<Event>
  {
    if s.poster.Posting? then s.posted + s.poster.events else s.posted
  }

  /** The i-th event of a log has the handle and the payload of the i-th reading. */
  predicate Carries(log: seq<Event>, readings: seq<Reading>)
  {
    && |log| == |readings|
    && forall i :: 0 <= i < |log| ==> log[i] == Event(i, readings[i].handle, readings[i].payload)
  }

  lemma BeginCarries(c: Config, s: State, readings: seq<Reading>, before: seq<Reading>)
    requires MutexFree(s) && Carries(s.posted, before)
    ensures Carries(Log(Begin(c, s, readings)), before + readings)
  {
  }

  lemma StepCarries(c: Config, s: State, l: Step, before: seq<Reading>)
    requires Enabled(c, s, l) && WriterOk(c, s) && Carries(Log(s), before)
    ensures Carries(Log(Next(c, s, l)), before + if l.PostBegin? then l.readings else [])
  {
    if l.PostBegin? {
      BeginCarries(c, s, l.readings, before);
    } else {
      Right(before);
      assert Log(Next(c, s, l)) == Log(s);
    }
  }

  lemma {:induction false} RunCarries(c: Config, s: State, steps: seq<Step>, t: State, before: seq<Reading>)
    requires Runs(c, s, steps, t) && Carries(Log(s), before)
    ensures Carries(Log(t), before + HandedIn(steps))
    decreases |steps|
  {
    if steps == [] {
      Right(before);
    } else {
      var l := steps[0];
      var readings := if l.PostBegin? then l.readings else [];
      StepCarries(c, s, l, before);
      RunCarries(c, Next(c, s, l), steps[1..], t, before + readings);
      Regroup(before, readings, HandedIn(steps[1..]));
    }
  }

  /** What the framework has received are readings that were handed in, with handle and payload unchanged, in
      the order in which they were handed in, and each at most once. */
  lemma DeliveredWereHandedIn(c: Config, steps: seq<Step>, t: State)
    requires Runs(c, INITIAL, steps, t)
    ensures var r, d := HandedIn(steps), t.delivered;
      && (forall i :: 0 <= i < |d| ==> d[i].serial < |r|)
      && (forall i :: 0 <= i < |d| ==> Reading(d[i].handle, d[i].payload) == r[d[i].serial])
      && (forall i, j :: 0 <= i < j < |d| ==> d[i].serial < d[j].serial)
  {
    DeliveredInPostOrder(c, steps, t);
    RunCarries(c, INITIAL, steps, t, []);
    Left(HandedIn(steps));
  }

  lemma {:induction false} CountAppend(a: seq<Event>, b: seq<Event>, wakeups: set<int>)
    ensures CountWakeup(a + b, wakeups) == CountWakeup(a, wakeups) + CountWakeup(b, wakeups)
  {
    if a == [] {
      assert a + b == b;
    } else {
      CountAppend(a[1..], b, wakeups);
      assert (a + b)[1..] == a[1..] + b;
    }
  }

  lemma CountOneMore(events: seq<Event>, i: nat, wakeups: set<int>)
    requires i < |events|
    ensures CountWakeup(events[..i + 1], wakeups)
         == CountWakeup(events[..i], wakeups) + (if events[i].handle in wakeups then 1 else 0)
  {
    assert events[..i + 1] == events[..i] + [events[i]];
    CountAppend(events[..i], [events[i]], wakeups);
  }

  /** The number of wake-up events is the number of places that hold one. */
  lemma {:induction false} CountWakeupIsCardinality(events: seq<Event>, wakeups: set<int>)
    ensures CountWakeup(events, wakeups)
         == |set i: int | 0 <= i < |events| && events[i].handle in wakeups|
    decreases |events|
  {
    var all := set i: int | 0 <= i < |events| && events[i].handle in wakeups;
    if events == [] {
      assert all == {};
    } else {
      var n := |events| - 1;
      var before := set i: int | 0 <= i < |events[..n]| && events[..n][i].handle in wakeups;
      CountWakeupIsCardinality(events[..n], wakeups);
      CountOneMore(events, n, wakeups);
      assert events[..n + 1] == events;
      assert all == if events[n].handle in wakeups then before + {n} else before;
    }
  }

  // ---------- draining ----------

  /** How many chunks of at most q events it takes to write n events. */
  function Chunks(n: nat, q: nat): nat
    requires q > 0
  {
    if n == 0 then 0 else if n <= q then 1 else 1 + Chunks(n - q, q)
  }

  /** It is the quotient, rounded up. */
  lemma {:induction false} ChunksIsCeiling(n: nat, q: nat)
    requires q > 0
    ensures Chunks(n, q) == (n + q - 1) / q
  {
    if n == 0 {
      QuotientIs(q - 1, q, 0);
    } else if n <= q {
      QuotientIs(n + q - 1, q, 1);
    } else {
      ChunksIsCeiling(n - q, q);
      var k := Chunks(n - q, q);
      QuotientBounds(n - 1, q);
      assert (k + 1) * q == k * q + q && (k + 2) * q == (k + 1) * q + q;
      QuotientIs(n + q - 1, q, k + 1);
    }
  }

  /** How many rounds the writer needs for what is pending. */
  function Rounds(pending: seq<Entry>, q: nat): nat
    requires q > 0
  {
    if pending == [] then 0 else Chunks(|pending[0].events|, q) + Rounds(pending[1..], q)
  }

  /** What the number of rounds depends on. */
  predicate Drainable(c: Config, s: State)
  {
    NoEmptyEntry(s.pending) && WriterOk(c, s)
  }

  lemma FinishTakesOneRound(c: Config, s: State)
    requires Drainable(c, s) && s.writer.Finishing? && c.capacity > 0
    ensures Rounds(Finish(c, s).pending, c.capacity) + 1 == Rounds(s.pending, c.capacity)
  {
    var front := s.pending[0];
    if |front.events| > c.capacity {
      assert Finish(c, s).pending[1..] == s.pending[1..];
    } else {
      assert Finish(c, s).pending == s.pending[1..];
    }
  }

  function Finishes(steps: seq<Step>): nat
  {
    if steps == [] then 0 else (if steps[0].WriterFinish? then 1 else 0) + Finishes(steps[1..])
  }

  predicate NoPosts(steps: seq<Step>)
  {
    forall i :: 0 <= i < |steps| ==> !steps[i].PostBegin? && !steps[i].PostCommit?
  }

  lemma StepRounds(c: Config, s: State, l: Step)
    requires Drainable(c, s) && Enabled(c, s, l) && !l.PostBegin? && !l.PostCommit? && c.capacity > 0
    ensures Drainable(c, Next(c, s, l))
    ensures Rounds(Next(c, s, l).pending, c.capacity) + (if l.WriterFinish? then 1 else 0)
         == Rounds(s.pending, c.capacity)
  {
    if l.WriterFinish? {
      FinishTakesOneRound(c, s);
    }
  }

  lemma {:induction false} RunRounds(c: Config, s: State, steps: seq<Step>, t: State)
    requires Drainable(c, s) && Runs(c, s, steps, t) && NoPosts(steps) && c.capacity > 0
    ensures Drainable(c, t)
    ensures Rounds(t.pending, c.capacity) + Finishes(steps) == Rounds(s.pending, c.capacity)
    decreases |steps|
  {
    if steps != [] {
      StepRounds(c, s, steps[0]);
      RunRounds(c, Next(c, s, steps[0]), steps[1..], t);
    }
  }

  /** Without new posts each completed round takes one off the number that is needed, and nothing else
      changes that number; so after that many rounds, successful or not, nothing is pending. */
  lemma DrainsInRounds(c: Config, s: State, steps: seq<Step>, t: State)
    requires Drainable(c, s) && Runs(c, s, steps, t) && NoPosts(steps) && c.capacity > 0
    ensures Rounds(t.pending, c.capacity) + Finishes(steps) == Rounds(s.pending, c.capacity)
    ensures Finishes(steps) == Rounds(s.pending, c.capacity) <==> t.pending == []
  {
    RunRounds(c, s, steps, t);
    RoundsZeroIff(t.pending, c.capacity);
  }

  lemma RoundsZeroIff(pending: seq<Entry>, q: nat)
    requires q > 0 && NoEmptyEntry(pending)
    ensures Rounds(pending, q) == 0 <==> pending == []
  {
    if pending != [] {
      assert Chunks(|pending[0].events|, q) > 0;
    }
  }

  /** As long as something is pending and no poster holds the mutex, the writer has a step to take. */
  lemma WriterIsNeverStuck(c: Config, s: State)
    requires Inv(c, s) && MutexFree(s) && s.pending != []
    ensures Enabled(c, s, WriterTake) || Enabled(c, s, WriterWrite(false)) || Enabled(c, s, WriterFinish)
  {
  }

  // ---------- everything can arrive ----------

  lemma StepKeepsLine(c: Config, s: State, l: Step)
    requires Inv(c, s) && Enabled(c, s, l) && !l.PostBegin? && !l.PostCommit? && l != WriterWrite(false)
    ensures var t := Next(c, s, l);
      Done(t) <= |Flat(t.pending)| && Line(t) == Line(s) && t.dropped == s.dropped && t.rejected == s.rejected
  {
    match l
    case FrameworkRead(n) => ReadKeepsLine(c, s, n);
    case WriterTake => TakeKeepsLine(c, s);
    case WriterWrite(_) => WriteKeepsLine(c, s);
    case WriterFinish => FinishKeepsLine(c, s);
  }

  /** What can be done next to bring the events nearer to the framework. */
  function Forward(s: State): Step
    requires s.queue != [] || s.pending != []
  {
    if s.queue != [] then FrameworkRead(|s.queue|)
    else if s.writer == Idle then WriterTake
    else if s.writer.Writing? then WriterWrite(true)
    else WriterFinish
  }

  function Rank(writer: Writer): nat
  {
    match writer case Idle => 2 case Writing(_, _) => 1 case Finishing(_) => 0
  }

  lemma ForwardIsEnabled(c: Config, s: State)
    requires WriterOk(c, s) && |s.queue| <= c.capacity && MutexFree(s) && (s.queue != [] || s.pending != [])
    ensures var l := Forward(s);
      && Enabled(c, s, l) && MutexFree(Next(c, s, l))
      && !l.PostBegin? && !l.PostCommit? && l != WriterWrite(false)
  {
  }

  lemma ForwardComesNearer(c: Config, s: State)
    requires Drainable(c, s) && |s.queue| <= c.capacity && MutexFree(s) && c.capacity > 0
    requires s.queue != [] || s.pending != []
    requires Enabled(c, s, Forward(s))
    ensures var t := Next(c, s, Forward(s)); var r, r' := Rounds(s.pending, c.capacity), Rounds(t.pending, c.capacity);
      r' < r || (r' == r && (Rank(t.writer) < Rank(s.writer) || (t.writer == s.writer && |t.queue| < |s.queue|)))
  {
    if Forward(s).WriterFinish? {
      FinishTakesOneRound(c, s);
    }
  }

  lemma StepFirst(c: Config, s: State, l: Step, rest: seq<Step>, t: State)
    requires Enabled(c, s, l) && WriterOk(c, s) && Runs(c, Next(c, s, l), rest, t)
    requires NoPosts(rest) && !l.PostBegin? && !l.PostCommit?
    ensures Runs(c, s, [l] + rest, t) && NoPosts([l] + rest)
  {
    var steps := [l] + rest;
    assert steps[0] == l && steps[1..] == rest;
  }

  lemma EmptyLine(c: Config, s: State)
    requires WriterOk(c, s) && s.queue == [] && s.pending == []
    ensures Done(s) <= |Flat(s.pending)| && Line(s) == s.delivered
  {
    Right(s.delivered);
  }

  /** Whatever has happened, everything on the line can still reach the framework in its order: there is a
      continuation without new posts, with no event dropped, after which nothing is queued or pending. */
  lemma {:induction false} LineCanArrive(c: Config, s: State) returns (steps: seq<Step>, t: State)
    requires Inv(c, s) && MutexFree(s) && c.capacity > 0
    ensures Runs(c, s, steps, t) && NoPosts(steps)
    ensures t.delivered == Line(s) && t.queue == [] && t.pending == []
    ensures t.dropped == s.dropped && t.rejected == s.rejected
    decreases Rounds(s.pending, c.capacity), Rank(s.writer), |s.queue|
  {
    if s.queue == [] && s.pending == [] {
      steps, t := [], s;
      EmptyLine(c, s);
    } else {
      var u := GoForward(c, s);
      var rest;
      rest, t := LineCanArrive(c, u);
      steps := [Forward(s)] + rest;
      StepFirst(c, s, Forward(s), rest, t);
    }
  }

  lemma GoForward(c: Config, s: State) returns (u: State)
    requires Inv(c, s) && MutexFree(s) && c.capacity > 0 && (s.queue != [] || s.pending != [])
    ensures var l := Forward(s); Enabled(c, s, l) && u == Next(c, s, l) && !l.PostBegin? && !l.PostCommit?
    ensures Inv(c, u) && MutexFree(u) && Line(u) == Line(s) && u.dropped == s.dropped && u.rejected == s.rejected
    ensures var r, r' := Rounds(s.pending, c.capacity), Rounds(u.pending, c.capacity);
      r' < r || (r' == r && (Rank(u.writer) < Rank(s.writer) || (u.writer == s.writer && |u.queue| < |s.queue|)))
  {
    ForwardIsEnabled(c, s);
    u := Next(c, s, Forward(s));
    StepKeepsInv(c, s, Forward(s));
    StepKeepsLine(c, s, Forward(s));
    ForwardComesNearer(c, s);
  }

  /** So after any run without a loss, exactly the readings that were handed in can still arrive. */
  lemma HandedInCanArrive(c: Config, steps: seq<Step>, s: State) returns (more: seq<Step>, t: State)
    requires Runs(c, INITIAL, steps, s) && MutexFree(s) && c.capacity > 0
    requires s.dropped == [] && s.rejected == []
    ensures Runs(c, s, more, t) && NoPosts(more) && t.queue == [] && t.pending == []
    ensures |t.delivered| == |HandedIn(steps)|
    ensures forall i :: 0 <= i < |t.delivered| ==>
      Reading(t.delivered[i].handle, t.delivered[i].payload) == HandedIn(steps)[i]
  {
    InitInv(c);
    RunKeepsInv(c, INITIAL, steps, s);
    SameSize(Line(s), s.posted);
    AllInOrder(Line(s), s.posted);
    RunCarries(c, INITIAL, steps, s, []);
    Left(HandedIn(steps));
    more, t := LineCanArrive(c, s);
  }
}
