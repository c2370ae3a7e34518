// The event path and the shared wake lock together: what the reference count counts.

module MultiHal {
  import opened Wakelock
  import opened EventChannel

  /** acked: how many wake-up events the framework has acknowledged. */
  datatype Hal = Hal(clock: nat, channel: State, counter: Counter, tokens: map<int, Token>, acked: nat)

  /** Post: a sub-HAL begins to post events together with one of its tokens. Channel: a step of the event path.
      Ack: the wake lock thread reads an acknowledgement. */
  datatype Move =
    | Create(id: int, lock: bool, now: nat)
    | Hand(src: int, dst: int)
    | Destroy(id: int)
    | Post(id: int, readings: seq<Reading>, now: nat)
    | Channel(l: Step)
    | Ack(n: nat)
    | Timeout(now: nat)

  function Start(now: nat): Hal
  {
    Hal(now, INITIAL, Counter(0, false, true, now, now), map[], 0)
  }

  /** What the program and the locks allow. */
  predicate Possible(c: Config, s: Hal, m: Move)
  {
    match m
    case Create(id, _, now) => id !in s.tokens && s.clock <= now
    case Hand(src, dst) => src in s.tokens && dst !in s.tokens
    case Destroy(id) => id in s.tokens
    case Post(id, readings, now) => id in s.tokens && s.clock <= now && Enabled(c, s.channel, PostBegin(readings))
    case Channel(l) => !l.PostBegin? && Enabled(c, s.channel, l)
    case Ack(_) => true
    case Timeout(now) => s.clock <= now
  }

  /** Possible, and the writer's chunk lies within the front entry, without which a move is not defined. */
  predicate CanMove(c: Config, s: Hal, m: Move)
  {
    Possible(c, s, m) && WriterOk(c, s.channel)
  }

  /** By how much a failed write lowers the count: by the wake-up events of the chunk when the entry does not
      fit into the event queue at once, and otherwise by the number recorded for the whole post. */
  function FailureDelta(c: Config, ch: State): nat
    requires ch.writer.Writing? && ch.pending != []
  {
    var events := ch.pending[0].events;
    if ch.writer.numWakeup == 0 then 0
    else if |events| > c.capacity then CountWakeup(events[..c.capacity], c.wakeups)
    else ch.writer.numWakeup
  }

  function AfterFailure(c: Config, ch: State, counter: Counter): Counter
    requires ch.writer.Writing? && ch.pending != []
  {
    var d := FailureDelta(c, ch);
    if d > 0 then Decrement(counter, d, NO_START) else counter
  }

  function After(c: Config, s: Hal, m: Move): Hal
    requires CanMove(c, s, m)
  {
    match m
    case Create(id, lock, now) =>
      if lock then
        s.(clock := now, counter := Increment(s.counter, 1, now),
           tokens := s.tokens[id := Token(s.counter.running, now)])
      else s.(clock := now, tokens := s.tokens[id := Token(false, 0)])
    case Hand(src, dst) => s.(tokens := Moved(s.tokens, src, dst))
    case Destroy(id) =>
      var t := s.tokens[id];
      s.(counter := if t.locked then Decrement(s.counter, 1, t.createdAt) else s.counter, tokens := s.tokens - {id})
    case Post(id, readings, now) =>
      var ch := Begin(c, s.channel, readings);
      if s.tokens[id].locked then
        s.(clock := now, channel := ch, counter := Increment(s.counter, ch.poster.numWakeup, now))
      else s.(clock := now, channel := ch)
    case Channel(l) =>
      s.(channel := Next(c, s.channel, l),
         counter := if l == WriterWrite(false) then AfterFailure(c, s.channel, s.counter) else s.counter)
    case Ack(n) => s.(acked := s.acked + n, counter := Decrement(s.counter, n, NO_START))
    case Timeout(now) => s.(clock := now, counter := Reset(s.counter, now))
  }

  // ---------- what the count owes ----------

  /** The tokens that hold a share: locked, and not older than the last reset. */
  function HolderIds(tokens: map<int, Token>, resetTime: int): set<int>
  {
    set id | id in tokens && IsHolder(tokens[id], resetTime)
  }

  predicate IsHolder(x: Token, resetTime: int)
  {
    x.locked && resetTime <= x.createdAt
  }

  function Holders(s: Hal): set<int>
  {
    HolderIds(s.tokens, s.counter.resetTime)
  }

  function Locked(s: Hal): set<int>
  {
    set id | id in s.tokens && s.tokens[id].locked
  }

  function Wakeups(c: Config, events: seq<Event>): nat
  {
    CountWakeup(events, c.wakeups)
  }

  function InPost(ch: State): nat
  {
    if ch.poster.Posting? then ch.poster.numWakeup else 0
  }

  /** Wake-up events of the post under way, on the line, and the ones that a full pending queue rejected. */
  function Weight(c: Config, ch: State): nat
    requires Done(ch) <= |Flat(ch.pending)|
  {
    InPost(ch) + Wakeups(c, Line(ch)) + Wakeups(c, ch.rejected)
  }

  /** Tokens that hold a share, and the wake-up events of the event path that are not acknowledged. */
  function Owed(c: Config, s: Hal): int
    requires Done(s.channel) <= |Flat(s.channel.pending)|
  {
    |Holders(s)| + Weight(c, s.channel) - s.acked
  }

  /** The number recorded with an entry is at least the number of wake-up events that are left in it. */
  predicate Recorded(c: Config, pending: seq<Entry>)
  {
    forall i :: 0 <= i < |pending| ==> Wakeups(c, pending[i].events) <= pending[i].numWakeup
  }

  predicate ChannelOk(c: Config, ch: State, acked: nat)
  {
    && Inv(c, ch) && Recorded(c, ch.pending)
    && (ch.writer.Writing? ==> ch.writer.numWakeup == ch.pending[0].numWakeup)
    && acked <= Wakeups(c, ch.delivered)
  }

  predicate TokensOk(s: Hal)
  {
    && s.counter.running && 0 <= s.counter.resetTime <= s.clock
    && forall id :: id in s.tokens && s.tokens[id].locked ==> 0 <= s.tokens[id].createdAt
  }

  predicate HalInv(c: Config, s: Hal)
  {
    ChannelOk(c, s.channel, s.acked) && TokensOk(s)
  }

  /** The framework acknowledges only wake-up events it has read. */
  predicate ReadFirst(c: Config, s: Hal, m: Move)
  {
    m.Ack? ==> s.acked + m.n <= Wakeups(c, s.channel.delivered)
  }

  /** A post is locked exactly when it carries wake-up events. */
  predicate LockedIffWakeup(c: Config, s: Hal, m: Move)
  {
    m.Post? ==>
      && m.id in s.tokens
      && (s.tokens[m.id].locked <==> CountWakeup(Stamp(m.readings, |s.channel.posted|), c.wakeups) > 0)
  }

  /** The rules the callers keep, and no timeout strikes. */
  predicate Disciplined(c: Config, s: Hal, m: Move)
  {
    ReadFirst(c, s, m) && LockedIffWakeup(c, s, m) && !m.Timeout?
  }

  /** When a failed write lowers the count by exactly what it drops. */
  predicate FailsExactly(c: Config, s: Hal)
    requires s.channel.writer.Writing? && WriterOk(c, s.channel)
  {
    var front := s.channel.pending[0];
    || |front.events| > c.capacity
    || front.numWakeup == Wakeups(c, front.events)
    || s.counter.refCount == Wakeups(c, front.events[..s.channel.writer.n])
  }

  predicate Exact(c: Config, s: Hal, m: Move)
  {
    m == Channel(WriterWrite(false)) && s.channel.writer.Writing? && WriterOk(c, s.channel) ==> FailsExactly(c, s)
  }

  lemma CountSplit(a: seq<Event>, k: nat, wakeups: set<int>)
    requires k <= |a|
    ensures CountWakeup(a, wakeups) == CountWakeup(a[..k], wakeups) + CountWakeup(a[k..], wakeups)
  {
    CountAppend(a[..k], a[k..], wakeups);
    assert a == a[..k] + a[k..];
  }

  /** The parts of the weight: what is on the line is in the event queue, waits, or was delivered. */
  lemma WeightParts(c: Config, ch: State)
    requires Done(ch) <= |Flat(ch.pending)|
    ensures Weight(c, ch) == InPost(ch) + Wakeups(c, ch.queue) + Wakeups(c, Backlog(ch))
                           + Wakeups(c, ch.delivered) + Wakeups(c, ch.rejected)
  {
    CountAppend(ch.delivered + ch.queue, Backlog(ch), c.wakeups);
    CountAppend(ch.delivered, ch.queue, c.wakeups);
  }

  /** The count never exceeds what is owed, and after an exact move it does not fall short either. */
  predicate Settled(c: Config, s: Hal, t: Hal, exact: bool)
    requires Done(s.channel) <= |Flat(s.channel.pending)| && Done(t.channel) <= |Flat(t.channel.pending)|
  {
    && t.counter.refCount <= Owed(c, t)
    && (exact && s.counter.refCount == Owed(c, s) ==> t.counter.refCount == Owed(c, t))
  }

  // ---------- tokens and timeouts ----------

  lemma CreateHolder(tokens: map<int, Token>, reset: int, id: int, x: Token)
    requires id !in tokens
    ensures |HolderIds(tokens[id := x], reset)| == |HolderIds(tokens, reset)| + (if IsHolder(x, reset) then 1 else 0)
  {
    var h := HolderIds(tokens, reset);
    assert id !in h;
    assert HolderIds(tokens[id := x], reset) == if IsHolder(x, reset) then h + {id} else h;
  }

  lemma HandHolder(tokens: map<int, Token>, reset: int, src: int, dst: int)
    requires src in tokens && dst !in tokens
    ensures |HolderIds(Moved(tokens, src, dst), reset)| == |HolderIds(tokens, reset)|
  {
    var h := HolderIds(tokens, reset);
    assert dst !in h;
    if src in h {
      assert HolderIds(Moved(tokens, src, dst), reset) == h - {src} + {dst};
      assert |h - {src} + {dst}| == |h - {src}| + 1;
    } else {
      assert HolderIds(Moved(tokens, src, dst), reset) == h;
    }
  }

  lemma DestroyHolder(tokens: map<int, Token>, reset: int, id: int)
    requires id in tokens
    ensures |HolderIds(tokens - {id}, reset)|
         == |HolderIds(tokens, reset)| - (if IsHolder(tokens[id], reset) then 1 else 0)
  {
    var h := HolderIds(tokens, reset);
    assert HolderIds(tokens - {id}, reset) == h - {id};
    assert id !in h ==> h - {id} == h;
  }

  /** Which tokens are locked: a creation adds the new one when it is created locked, handing over puts the
      target in the place of the source, a destruction takes the token away, and nothing else matters. */
  lemma LockedAfter(c: Config, s: Hal, m: Move, x: int)
    requires CanMove(c, s, m) && s.counter.running
    ensures x in Locked(After(c, s, m)) <==>
      match m
      case Create(id, lock, _) => if x == id then lock else x in Locked(s)
      case Hand(src, dst) => if x == dst then src in Locked(s) else x != src && x in Locked(s)
      case Destroy(id) => x != id && x in Locked(s)
      case _ => x in Locked(s)
  {
  }

  lemma CreateMove(c: Config, s: Hal, m: Move)
    requires HalInv(c, s) && CanMove(c, s, m) && m.Create? && s.counter.refCount <= Owed(c, s)
    ensures HalInv(c, After(c, s, m)) && Settled(c, s, After(c, s, m), true)
  {
    CreateHolder(s.tokens, s.counter.resetTime, m.id, Token(m.lock, if m.lock then m.now else 0));
  }

  lemma HandMove(c: Config, s: Hal, m: Move)
    requires HalInv(c, s) && CanMove(c, s, m) && m.Hand? && s.counter.refCount <= Owed(c, s)
    ensures HalInv(c, After(c, s, m)) && Settled(c, s, After(c, s, m), true)
  {
    HandHolder(s.tokens, s.counter.resetTime, m.src, m.dst);
  }

  /** A stale token gives nothing back; one that holds a share gives back one. */
  lemma DestroyMove(c: Config, s: Hal, m: Move)
    requires HalInv(c, s) && CanMove(c, s, m) && m.Destroy? && s.counter.refCount <= Owed(c, s)
    ensures HalInv(c, After(c, s, m)) && Settled(c, s, After(c, s, m), true)
  {
    WeightParts(c, s.channel);
    DestroyHolder(s.tokens, s.counter.resetTime, m.id);
  }

  /** A timeout empties the count, and what is owed is never negative. */
  lemma TimeoutMove(c: Config, s: Hal, m: Move)
    requires HalInv(c, s) && CanMove(c, s, m) && m.Timeout?
    ensures HalInv(c, After(c, s, m)) && After(c, s, m).counter.refCount == 0 <= Owed(c, After(c, s, m))
  {
    WeightParts(c, s.channel);
  }

  // ---------- posts, acknowledgements and the writer ----------

  lemma BeginWeight(c: Config, ch: State, readings: seq<Reading>)
    requires Done(ch) <= |Flat(ch.pending)| && MutexFree(ch)
    ensures Weight(c, Begin(c, ch, readings)) == Weight(c, ch) + Wakeups(c, Stamp(readings, |ch.posted|))
  {
    assert Line(Begin(c, ch, readings)) == Line(ch);
  }

  lemma BeginChannel(c: Config, ch: State, readings: seq<Reading>, acked: nat)
    requires ChannelOk(c, ch, acked) && MutexFree(ch)
    ensures var events := Stamp(readings, |ch.posted|); var u := Begin(c, ch, readings);
      && u == ch.(poster := Posting(events, Wakeups(c, events)))
      && ChannelOk(c, u, acked) && Weight(c, u) == Weight(c, ch) + Wakeups(c, events)
  {
    BeginKeepsInv(c, ch, readings);
    BeginWeight(c, ch, readings);
  }

  /** A post that starts raises count and debt alike, and only the debt when it carries wake-up events without
      a lock. */
  lemma BeginMove(c: Config, s: Hal, m: Move)
    requires HalInv(c, s) && CanMove(c, s, m) && m.Post?
    requires s.counter.refCount <= Owed(c, s)
    ensures HalInv(c, After(c, s, m)) && Settled(c, s, After(c, s, m), LockedIffWakeup(c, s, m))
  {
    BeginChannel(c, s.channel, m.readings, s.acked);
    var t := After(c, s, m);
    assert t.channel == Begin(c, s.channel, m.readings) && Holders(t) == Holders(s);
  }

  lemma AckMove(c: Config, s: Hal, m: Move)
    requires HalInv(c, s) && CanMove(c, s, m) && ReadFirst(c, s, m) && m.Ack?
    requires s.counter.refCount <= Owed(c, s)
    ensures HalInv(c, After(c, s, m)) && Settled(c, s, After(c, s, m), true)
  {
    WeightParts(c, s.channel);
    assert Holders(After(c, s, m)) == Holders(s);
  }

  lemma CommitWeight(c: Config, ch: State, l: Step)
    requires Inv(c, ch) && Enabled(c, ch, l) && l.PostCommit?
    ensures Done(Commit(ch, l)) <= |Flat(Commit(ch, l).pending)|
    ensures Weight(c, Commit(ch, l)) == Weight(c, ch)
  {
    var e, n := ch.poster.events, Kept(ch, l);
    CommitAppends(c, ch, l);
    CountAppend(Line(ch), e[..n], c.wakeups);
    CountAppend(ch.rejected, e[n..], c.wakeups);
    CountSplit(e, n, c.wakeups);
  }

  lemma CommitRecorded(c: Config, ch: State, l: Step)
    requires Recorded(c, ch.pending) && PosterOk(c, ch) && ch.poster.Posting? && l.PostCommit?
    ensures Recorded(c, Commit(ch, l).pending)
  {
    CountSplit(ch.poster.events, Direct(ch, l), c.wakeups);
  }

  lemma CommitFront(ch: State, l: Step)
    requires ch.poster.Posting? && l.PostCommit?
    ensures Commit(ch, l).delivered == ch.delivered && Commit(ch, l).writer == ch.writer
    ensures ch.pending != [] ==> Commit(ch, l).pending != [] && Commit(ch, l).pending[0] == ch.pending[0]
  {
  }

  /** The events of a post end up on the line or are rejected. */
  lemma CommitChannel(c: Config, ch: State, l: Step, acked: nat)
    requires ChannelOk(c, ch, acked) && Enabled(c, ch, l) && l.PostCommit?
    ensures ChannelOk(c, Next(c, ch, l), acked) && Weight(c, Next(c, ch, l)) == Weight(c, ch)
  {
    CommitKeepsInv(c, ch, l);
    CommitWeight(c, ch, l);
    CommitRecorded(c, ch, l);
    CommitFront(ch, l);
  }

  lemma FinishRecorded(c: Config, s: State)
    requires Recorded(c, s.pending) && s.writer.Finishing? && s.pending != []
    ensures Recorded(c, Finish(c, s).pending)
  {
    var front := s.pending[0];
    if |front.events| > c.capacity {
      CountSplit(front.events, c.capacity, c.wakeups);
      assert Finish(c, s).pending[1..] == s.pending[1..];
    }
  }

  lemma ReadChannel(c: Config, ch: State, n: nat, acked: nat)
    requires ChannelOk(c, ch, acked) && n <= |ch.queue|
    ensures ChannelOk(c, Receive(ch, n), acked) && Weight(c, Receive(ch, n)) == Weight(c, ch)
  {
    ReceiveKeepsInv(c, ch, n);
    ReadKeepsLine(c, ch, n);
    CountAppend(ch.delivered, ch.queue[..n], c.wakeups);
  }

  lemma FinishChannel(c: Config, ch: State, acked: nat)
    requires ChannelOk(c, ch, acked) && Enabled(c, ch, WriterFinish)
    ensures ChannelOk(c, Finish(c, ch), acked) && Weight(c, Finish(c, ch)) == Weight(c, ch)
  {
    FinishKeepsInv(c, ch);
    FinishKeepsLine(c, ch);
    FinishRecorded(c, ch);
  }

  lemma TakeChannel(c: Config, ch: State, acked: nat)
    requires ChannelOk(c, ch, acked) && Enabled(c, ch, WriterTake)
    ensures ChannelOk(c, Take(c, ch), acked) && Weight(c, Take(c, ch)) == Weight(c, ch)
  {
    TakeKeepsInv(c, ch);
    TakeKeepsLine(c, ch);
    SameWeight(c, Take(c, ch), ch);
  }

  lemma SameWeight(c: Config, a: State, b: State)
    requires Done(a) <= |Flat(a.pending)| && Done(b) <= |Flat(b.pending)|
    requires Line(a) == Line(b) && a.poster == b.poster && a.rejected == b.rejected
    ensures Weight(c, a) == Weight(c, b)
  {
  }

  lemma WriteChannel(c: Config, ch: State, acked: nat)
    requires ChannelOk(c, ch, acked) && Enabled(c, ch, WriterWrite(true))
    ensures ChannelOk(c, Write(ch, true), acked) && Weight(c, Write(ch, true)) == Weight(c, ch)
  {
    WriteKeepsInv(c, ch);
    WriteKeepsLine(c, ch);
    SameWeight(c, Write(ch, true), ch);
  }

  /** Committing, reading, taking, successful writing and accounting change neither the count nor the debt. */
  lemma QuietMove(c: Config, s: Hal, l: Step)
    requires HalInv(c, s) && CanMove(c, s, Channel(l)) && l != WriterWrite(false)
    requires s.counter.refCount <= Owed(c, s)
    ensures HalInv(c, After(c, s, Channel(l))) && Settled(c, s, After(c, s, Channel(l)), true)
  {
    match l
    case PostCommit(_, _) => CommitChannel(c, s.channel, l, s.acked);
    case FrameworkRead(n) => ReadChannel(c, s.channel, n, s.acked);
    case WriterFinish => FinishChannel(c, s.channel, s.acked);
    case WriterTake => TakeChannel(c, s.channel, s.acked);
    case _ => WriteChannel(c, s.channel, s.acked);
  }

  /** A failed write lowers the count by at least the wake-up events it drops. */
  lemma FailureCovers(c: Config, s: Hal)
    requires HalInv(c, s) && s.channel.writer.Writing?
    ensures var d, w := FailureDelta(c, s.channel), Wakeups(c, s.channel.pending[0].events[..s.channel.writer.n]);
      && w <= d
      && (s.counter.refCount >= w ==> (d == w || s.counter.refCount == w <==> FailsExactly(c, s)))
  {
    var front := s.channel.pending[0];
    CountSplit(front.events, s.channel.writer.n, c.wakeups);
    if |front.events| <= c.capacity {
      assert front.events[..s.channel.writer.n] == front.events;
    }
  }

  lemma DropWeight(c: Config, ch: State)
    requires Inv(c, ch) && ch.writer.Writing?
    ensures Done(Write(ch, false)) <= |Flat(Write(ch, false).pending)|
    ensures Weight(c, ch) == Weight(c, Write(ch, false)) + Wakeups(c, ch.pending[0].events[..ch.writer.n])
  {
    var u := Write(ch, false);
    var chunk, sent := ch.pending[0].events[..ch.writer.n], ch.delivered + ch.queue;
    DropCutsLine(c, ch);
    CountAppend(sent + chunk, Backlog(u), c.wakeups);
    CountAppend(sent, chunk, c.wakeups);
    CountAppend(sent, Backlog(u), c.wakeups);
  }

  lemma DropChannel(c: Config, ch: State, acked: nat)
    requires ChannelOk(c, ch, acked) && ch.writer.Writing?
    ensures ChannelOk(c, Write(ch, false), acked)
    ensures Weight(c, ch) == Weight(c, Write(ch, false)) + Wakeups(c, ch.pending[0].events[..ch.writer.n])
    ensures acked <= Weight(c, Write(ch, false))
  {
    DropKeepsInv(c, ch);
    DropWeight(c, ch);
    WeightParts(c, Write(ch, false));
  }

  function Lowered(count: nat, delta: nat): nat
  {
    if delta < count then count - delta else 0
  }

  lemma LoweredBy(count: nat, owed: int, w: nat, d: nat)
    requires w <= d && count <= owed && w <= owed
    ensures Lowered(count, d) <= owed - w
    ensures count == owed ==> (Lowered(count, d) == owed - w <==> d == w || count == w)
  {
  }

  lemma FailCounter(c: Config, ch: State, counter: Counter)
    requires ch.writer.Writing? && ch.pending != [] && counter.running
    ensures var k := AfterFailure(c, ch, counter);
      && (Consistent(counter) ==> Consistent(k)) && k.running && k.resetTime == counter.resetTime
      && k.refCount == Lowered(counter.refCount, FailureDelta(c, ch))
  {
  }

  /** A failed write keeps what is counted at what is owed exactly under the condition on the entry. */
  lemma FailMove(c: Config, s: Hal)
    requires HalInv(c, s) && s.channel.writer.Writing?
    requires s.counter.refCount <= Owed(c, s)
    ensures CanMove(c, s, Channel(WriterWrite(false)))
    ensures var t := After(c, s, Channel(WriterWrite(false)));
      && HalInv(c, t) && Settled(c, s, t, FailsExactly(c, s))
      && (s.counter.refCount == Owed(c, s) ==> (t.counter.refCount == Owed(c, t) <==> FailsExactly(c, s)))
  {
    var w := Wakeups(c, s.channel.pending[0].events[..s.channel.writer.n]);
    FailCounter(c, s.channel, s.counter);
    DropChannel(c, s.channel, s.acked);
    FailureCovers(c, s);
    LoweredBy(s.counter.refCount, Owed(c, s), w, FailureDelta(c, s.channel));
    assert Holders(After(c, s, Channel(WriterWrite(false)))) == Holders(s);
  }

  lemma MoveKeeps(c: Config, s: Hal, m: Move)
    requires HalInv(c, s) && CanMove(c, s, m) && ReadFirst(c, s, m)
    requires s.counter.refCount <= Owed(c, s)
    ensures HalInv(c, After(c, s, m))
    ensures Settled(c, s, After(c, s, m), Disciplined(c, s, m) && Exact(c, s, m))
  {
    match m
    case Create(_, _, _) => CreateMove(c, s, m);
    case Hand(_, _) => HandMove(c, s, m);
    case Destroy(_) => DestroyMove(c, s, m);
    case Post(_, _, _) => BeginMove(c, s, m);
    case Ack(_) => AckMove(c, s, m);
    case Channel(l) =>
      if l == WriterWrite(false) {
        FailMove(c, s);
      } else {
        QuietMove(c, s, l);
      }
    case Timeout(_) => TimeoutMove(c, s, m);
  }

  /** Without timeouts no token becomes stale, and increments that carry wake-up events keep the lock held
      exactly while the count is positive. */
  predicate Sound(s: Hal)
  {
    && Consistent(s.counter)
    && forall id :: id in s.tokens && s.tokens[id].locked ==> s.counter.resetTime <= s.tokens[id].createdAt
  }

  lemma SoundHolders(s: Hal)
    requires Sound(s)
    ensures Holders(s) == Locked(s)
  {
    assert forall id :: id in Locked(s) <==> id in Holders(s);
    assert Holders(s) == Locked(s);
  }

  lemma MoveSound(c: Config, s: Hal, m: Move)
    requires TokensOk(s) && Sound(s) && CanMove(c, s, m) && Disciplined(c, s, m)
    ensures Sound(After(c, s, m))
  {
    if m.Channel? && m.l == WriterWrite(false) {
      FailCounter(c, s.channel, s.counter);
    }
  }

  // ---------- runs ----------

  predicate Runs(c: Config, s: Hal, moves: seq<Move>, t: Hal)
    decreases |moves|
  {
    if moves == [] then s == t
    else CanMove(c, s, moves[0]) && Runs(c, After(c, s, moves[0]), moves[1..], t)
  }

  lemma MoveKeepsChannel(c: Config, s: Hal, m: Move)
    requires Inv(c, s.channel) && CanMove(c, s, m)
    ensures Inv(c, After(c, s, m).channel)
  {
    match m
    case Post(_, readings, _) => StepKeepsInv(c, s.channel, PostBegin(readings));
    case Channel(l) => StepKeepsInv(c, s.channel, l);
    case _ =>
  }

  lemma {:induction false} RunKeepsChannel(c: Config, s: Hal, moves: seq<Move>, t: Hal)
    requires Inv(c, s.channel) && Runs(c, s, moves, t)
    ensures Inv(c, t.channel)
    decreases |moves|
  {
    if moves != [] {
      MoveKeepsChannel(c, s, moves[0]);
      RunKeepsChannel(c, After(c, s, moves[0]), moves[1..], t);
    }
  }

  /** The second part of a move's guard holds in every reachable state and so excludes no run. */
  lemma NoRunIsExcluded(c: Config, now: nat, moves: seq<Move>, t: Hal, m: Move)
    requires Runs(c, Start(now), moves, t)
    ensures Possible(c, t, m) <==> CanMove(c, t, m)
  {
    InitInv(c);
    RunKeepsChannel(c, Start(now), moves, t);
  }

  predicate AllDisciplined(c: Config, s: Hal, moves: seq<Move>)
    decreases |moves|
  {
    if moves == [] then true
    else CanMove(c, s, moves[0]) && Disciplined(c, s, moves[0]) && AllDisciplined(c, After(c, s, moves[0]), moves[1..])
  }

  predicate AllExact(c: Config, s: Hal, moves: seq<Move>)
    decreases |moves|
  {
    if moves == [] then true
    else CanMove(c, s, moves[0]) && Exact(c, s, moves[0]) && AllExact(c, After(c, s, moves[0]), moves[1..])
  }

  predicate AllReadFirst(c: Config, s: Hal, moves: seq<Move>)
    decreases |moves|
  {
    if moves == [] then true
    else CanMove(c, s, moves[0]) && ReadFirst(c, s, moves[0]) && AllReadFirst(c, After(c, s, moves[0]), moves[1..])
  }

  lemma {:induction false} RunNeverExceeds(c: Config, s: Hal, moves: seq<Move>, t: Hal)
    requires HalInv(c, s) && s.counter.refCount <= Owed(c, s)
    requires Runs(c, s, moves, t) && AllReadFirst(c, s, moves)
    ensures HalInv(c, t) && t.counter.refCount <= Owed(c, t)
    decreases |moves|
  {
    if moves != [] {
      MoveKeeps(c, s, moves[0]);
      RunNeverExceeds(c, After(c, s, moves[0]), moves[1..], t);
    }
  }

  lemma {:induction false} RunKeeps(c: Config, s: Hal, moves: seq<Move>, t: Hal)
    requires HalInv(c, s) && Sound(s) && s.counter.refCount <= Owed(c, s)
    requires Runs(c, s, moves, t) && AllDisciplined(c, s, moves)
    ensures HalInv(c, t) && Sound(t) && t.counter.refCount <= Owed(c, t)
    ensures s.counter.refCount == Owed(c, s) && AllExact(c, s, moves) ==> t.counter.refCount == Owed(c, t)
    decreases |moves|
  {
    if moves != [] {
      MoveKeeps(c, s, moves[0]);
      MoveSound(c, s, moves[0]);
      RunKeeps(c, After(c, s, moves[0]), moves[1..], t);
    }
  }

  lemma StartInv(c: Config, now: nat)
    ensures HalInv(c, Start(now)) && Sound(Start(now)) && Owed(c, Start(now)) == 0
  {
    InitInv(c);
    assert HolderIds(map[], now) == {};
  }

  /** Over every interleaving of sub-HALs, writer, framework and wake lock thread, timeouts, failed writes and
      posts with the wrong lock included, in which the framework acknowledges only what it has read: the
      count never exceeds the tokens that hold a share plus the wake-up events that are under way, on the
      line but not acknowledged, or rejected. */
  lemma CountNeverExceedsOwed(c: Config, now: nat, moves: seq<Move>, t: Hal)
    requires Runs(c, Start(now), moves, t) && AllReadFirst(c, Start(now), moves)
    ensures Done(t.channel) <= |Flat(t.channel.pending)|
    ensures t.counter.refCount <= Owed(c, t)
  {
    StartInv(c, now);
    RunNeverExceeds(c, Start(now), moves, t);
  }

  lemma Reached(c: Config, now: nat, moves: seq<Move>, t: Hal)
    requires Runs(c, Start(now), moves, t) && AllDisciplined(c, Start(now), moves)
    ensures HalInv(c, t) && Sound(t)
    ensures AllExact(c, Start(now), moves) ==> t.counter.refCount == Owed(c, t)
  {
    StartInv(c, now);
    RunKeeps(c, Start(now), moves, t);
  }

  /** When callers keep the rules and no timeout strikes, every live locked token holds a share, and the count
      is exactly the sum that is owed unless a failed write dropped the tail of a split post. */
  lemma CountIsOwed(c: Config, now: nat, moves: seq<Move>, t: Hal)
    requires Runs(c, Start(now), moves, t)
    requires AllDisciplined(c, Start(now), moves) && AllExact(c, Start(now), moves)
    ensures Done(t.channel) <= |Flat(t.channel.pending)|
    ensures Holders(t) == Locked(t) && t.counter.refCount == Owed(c, t)
  {
    Reached(c, now, moves, t);
    SoundHolders(t);
  }

  predicate HasWakeup(events: seq<Event>, wakeups: set<int>)
  {
    exists i :: 0 <= i < |events| && events[i].handle in wakeups
  }

  lemma {:induction false} CountedIffThere(events: seq<Event>, wakeups: set<int>)
    ensures CountWakeup(events, wakeups) > 0 <==> HasWakeup(events, wakeups)
  {
    if events != [] {
      CountedIffThere(events[1..], wakeups);
      if HasWakeup(events[1..], wakeups) {
        var i :| 0 <= i < |events[1..]| && events[1..][i].handle in wakeups;
        assert events[i + 1].handle in wakeups;
      }
    }
  }

  /** What has to keep the system awake: a locked token, or a wake-up event that waits to be written, is in
      the event queue, or was delivered and is not acknowledged. */
  predicate Outstanding(c: Config, s: Hal)
    requires Done(s.channel) <= |Flat(s.channel.pending)|
  {
    || Locked(s) != {}
    || HasWakeup(s.channel.queue, c.wakeups)
    || HasWakeup(Backlog(s.channel), c.wakeups)
    || s.acked < Wakeups(c, s.channel.delivered)
  }

  lemma OwedIff(c: Config, s: Hal)
    requires HalInv(c, s) && Holders(s) == Locked(s)
    ensures Owed(c, s) > 0 <==> Outstanding(c, s) || InPost(s.channel) > 0 || Wakeups(c, s.channel.rejected) > 0
  {
    WeightParts(c, s.channel);
    CountedIffThere(s.channel.queue, c.wakeups);
    CountedIffThere(Backlog(s.channel), c.wakeups);
  }

  /** So on such runs the system's wake lock is held exactly while something is outstanding, a post with wake-up
      events is under way, or wake-up events have been rejected. */
  lemma HeldIffOwed(c: Config, now: nat, moves: seq<Move>, t: Hal)
    requires Runs(c, Start(now), moves, t)
    requires AllDisciplined(c, Start(now), moves) && AllExact(c, Start(now), moves)
    ensures Done(t.channel) <= |Flat(t.channel.pending)|
    ensures t.counter.held <==> Outstanding(c, t) || InPost(t.channel) > 0 || Wakeups(c, t.channel.rejected) > 0
  {
    Reached(c, now, moves, t);
    SoundHolders(t);
    OwedIff(c, t);
  }

  /** A wake-up event that a full pending queue rejected is never paid back: the lock stays held until a
      timeout strikes. */
  lemma RejectedIsNeverReleased(c: Config, now: nat, moves: seq<Move>, t: Hal)
    requires Runs(c, Start(now), moves, t)
    requires AllDisciplined(c, Start(now), moves) && AllExact(c, Start(now), moves)
    requires Wakeups(c, t.channel.rejected) > 0
    ensures t.counter.held && t.counter.refCount >= Wakeups(c, t.channel.rejected)
    ensures forall later :: !Reset(t.counter, later).held
  {
    Reached(c, now, moves, t);
    WeightParts(c, t.channel);
    forall later ensures !Reset(t.counter, later).held {
      ResetIff(t.counter, later);
    }
  }

  // ---------- where it fails ----------

  const WAKE := 7

  /** Two slots, one wake-up sensor. */
  const SMALL := Config(2, {WAKE})

  function Wake(serial: nat): Event
  {
    Event(serial, WAKE, 0)
  }

  const THREE := [Reading(WAKE, 0), Reading(WAKE, 0), Reading(WAKE, 0)]

  lemma {:induction false} AllWake(events: seq<Event>)
    requires forall i :: 0 <= i < |events| ==> events[i].handle == WAKE
    ensures Wakeups(SMALL, events) == |events|
  {
    if events != [] {
      AllWake(events[1..]);
    }
  }

  lemma RunOn(c: Config, s: Hal, m: Move, moves: seq<Move>, t: Hal)
    requires CanMove(c, s, m) && Disciplined(c, s, m) && Runs(c, After(c, s, m), moves, t)
    requires AllDisciplined(c, After(c, s, m), moves)
    ensures Runs(c, s, [m] + moves, t) && AllDisciplined(c, s, [m] + moves)
    ensures Exact(c, s, m) && AllExact(c, After(c, s, m), moves) ==> AllExact(c, s, [m] + moves)
  {
    assert ([m] + moves)[1..] == moves;
  }

  const TOKENS := map[1 := Token(true, 1)]

  /** One locked token exists, and it was handed in with a post of three wake-up events. */
  const BEGUN :=
    Hal(2, State([], [], 0, Idle, Posting([Wake(0), Wake(1), Wake(2)], 3), [], [], [], []),
        Counter(4, true, true, 2, 0), TOKENS, 0)

  lemma BeginThree() returns (moves: seq<Move>)
    ensures Runs(SMALL, Start(0), moves, BEGUN) && AllDisciplined(SMALL, Start(0), moves)
  {
    var s := After(SMALL, Start(0), Create(1, true, 1));
    var events := [Wake(0), Wake(1), Wake(2)];
    assert Stamp(THREE, 0) == events;
    AllWake(events);
    assert After(SMALL, s, Post(1, THREE, 2)) == BEGUN;
    RunOn(SMALL, s, Post(1, THREE, 2), [], BEGUN);
    moves := [Post(1, THREE, 2)] + [];
    RunOn(SMALL, Start(0), Create(1, true, 1), moves, BEGUN);
    moves := [Create(1, true, 1)] + moves;
  }

  /** Two events go straight to the event queue, one waits. */
  lemma CommitThree() returns (moves: seq<Move>, t: Hal)
    ensures Runs(SMALL, BEGUN, moves, t) && AllDisciplined(SMALL, BEGUN, moves)
    ensures t.channel.queue == [Wake(0), Wake(1)] && t.channel.pending == [Entry([Wake(2)], 3)]
    ensures t.channel.writer == Idle && t.channel.poster == Free
    ensures t.counter == BEGUN.counter && t.tokens == TOKENS
  {
    var events := [Wake(0), Wake(1), Wake(2)];
    assert events[..2] == [Wake(0), Wake(1)] && events[2..] == [Wake(2)];
    t := After(SMALL, BEGUN, Channel(PostCommit(2, true)));
    RunOn(SMALL, BEGUN, Channel(PostCommit(2, true)), [], t);
    moves := [Channel(PostCommit(2, true))] + [];
  }

  /** The token goes, and the write of the waiting event fails. */
  lemma FailThird(s: Hal) returns (moves: seq<Move>, t: Hal)
    requires s.channel.pending == [Entry([Wake(2)], 3)] && s.channel.writer == Idle && s.channel.poster == Free
    requires s.counter == Counter(4, true, true, 2, 0) && s.tokens == TOKENS
    ensures Runs(SMALL, s, moves, t) && AllDisciplined(SMALL, s, moves)
    ensures t.channel.queue == s.channel.queue && t.counter.refCount == 0 && !t.counter.held
  {
    var s1 := After(SMALL, s, Destroy(1));
    var s2 := After(SMALL, s1, Channel(WriterTake));
    t := After(SMALL, s2, Channel(WriterWrite(false)));
    moves := [Channel(WriterWrite(false))] + [];
    RunOn(SMALL, s2, Channel(WriterWrite(false)), [], t);
    RunOn(SMALL, s1, Channel(WriterTake), moves, t);
    moves := [Channel(WriterTake)] + moves;
    RunOn(SMALL, s, Destroy(1), moves, t);
    moves := [Destroy(1)] + moves;
  }

  /** One more reading than the pending queue takes. */
  function TooMany(): seq<Reading>
  {
    seq(MAX_PENDING + 1, i requires 0 <= i < MAX_PENDING + 1 => Reading(WAKE, 0))
  }

  lemma AllStampedWake(serial: nat)
    ensures Wakeups(SMALL, Stamp(TooMany(), serial)) == MAX_PENDING + 1
  {
    AllWake(Stamp(TooMany(), serial));
  }

  /** A post that large, to an event queue without room, has begun. */
  const LARGE_POST :=
    Hal(2, State([], [], 0, Idle, Posting(Stamp(TooMany(), 0), MAX_PENDING + 1), [], [], [], []),
        Counter(MAX_PENDING + 2, true, true, 2, 0), TOKENS, 0)

  lemma BeginTooMany() returns (moves: seq<Move>)
    ensures Runs(SMALL, Start(0), moves, LARGE_POST) && AllDisciplined(SMALL, Start(0), moves)
    ensures AllExact(SMALL, Start(0), moves)
  {
    var s := After(SMALL, Start(0), Create(1, true, 1));
    AllStampedWake(0);
    assert After(SMALL, s, Post(1, TooMany(), 2)) == LARGE_POST;
    RunOn(SMALL, s, Post(1, TooMany(), 2), [], LARGE_POST);
    moves := [Post(1, TooMany(), 2)] + [];
    RunOn(SMALL, Start(0), Create(1, true, 1), moves, LARGE_POST);
    moves := [Create(1, true, 1)] + moves;
  }

  lemma RejectTooMany() returns (moves: seq<Move>, t: Hal)
    ensures Runs(SMALL, LARGE_POST, moves, t) && AllDisciplined(SMALL, LARGE_POST, moves)
    ensures AllExact(SMALL, LARGE_POST, moves)
    ensures t.channel.queue == [] && t.channel.pending == [] && t.channel.poster == Free && t.tokens == map[]
    ensures t.channel.delivered == [] && t.channel.rejected == Stamp(TooMany(), 0) && t.counter.held
  {
    var events := Stamp(TooMany(), 0);
    assert events[0..] == events && events[..0] == [];
    var s := After(SMALL, LARGE_POST, Channel(PostCommit(0, true)));
    t := After(SMALL, s, Destroy(1));
    RunOn(SMALL, s, Destroy(1), [], t);
    moves := [Destroy(1)] + [];
    RunOn(SMALL, LARGE_POST, Channel(PostCommit(0, true)), moves, t);
    moves := [Channel(PostCommit(0, true))] + moves;
  }

  /** A post of 100001 wake-up events that nothing keeps pending, queued, delivered or locked afterwards: the
      lock is held all the same. */
  lemma RejectedPostLeaks()
    ensures exists c, moves, t ::
      && Runs(c, Start(0), moves, t) && AllDisciplined(c, Start(0), moves) && AllExact(c, Start(0), moves)
      && t.channel.queue == [] && t.channel.pending == [] && t.channel.delivered == [] && t.tokens == map[]
      && t.channel.poster == Free && Wakeups(c, t.channel.rejected) > 0 && t.counter.held
  {
    var first := BeginTooMany();
    var second, t := RejectTooMany();
    RunsJoin(SMALL, Start(0), first, LARGE_POST, second, t);
    AllStampedWake(0);
  }

  lemma {:induction false} RunsJoin(c: Config, s: Hal, a: seq<Move>, t: Hal, b: seq<Move>, u: Hal)
    requires Runs(c, s, a, t) && AllDisciplined(c, s, a) && Runs(c, t, b, u) && AllDisciplined(c, t, b)
    ensures Runs(c, s, a + b, u) && AllDisciplined(c, s, a + b)
    ensures AllExact(c, s, a) && AllExact(c, t, b) ==> AllExact(c, s, a + b)
    decreases |a|
  {
    if a == [] {
      assert a + b == b;
    } else {
      RunsJoin(c, After(c, s, a[0]), a[1..], t, b, u);
      assert (a + b)[1..] == a[1..] + b;
    }
  }

  /** The failed write of the third event lowers the count by three: nobody holds the lock any more while two
      wake-up events are still in the event queue. */
  lemma SplitTailReleasesEarly()
    ensures exists c, moves, t ::
      && Runs(c, Start(0), moves, t) && AllDisciplined(c, Start(0), moves)
      && !t.counter.held && Wakeups(c, t.channel.queue) == 2
  {
    var first := BeginThree();
    var second, s := CommitThree();
    var third, t := FailThird(s);
    RunsJoin(SMALL, BEGUN, second, s, third, t);
    RunsJoin(SMALL, Start(0), first, BEGUN, second + third, t);
    AllWake(t.channel.queue);
  }
}
