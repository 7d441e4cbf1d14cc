/** An observed channel: a bounded window of recent messages in memory, and the log it is rebuilt from. */
module ChannelHistory {
  import opened Options

  /** `wall` is None for a message taken before the channel was observed. */
  datatype Entry = Entry(user: string, text: string, thread: string, msg: string, wall: Option<int>)

  /** A line of the log; `Junk` cannot be read back. */
  datatype Line = Message(entry: Entry) | Junk

  /** How many messages a window holds, and for how long. */
  datatype Limits = Limits(capacity: nat, ttl: nat)

  predicate Expired(l: Limits, e: Entry, now: int) {
    e.wall.Some? && e.wall.value < now - l.ttl
  }

  function LastN(es: seq<Entry>, n: nat): seq<Entry> {
    if |es| > n then es[|es| - n..] else es
  }

  /** Eviction stops at the first entry that is not expired. */
  function Evicted(l: Limits, es: seq<Entry>, now: int): seq<Entry> {
    if es != [] && Expired(l, es[0], now) then Evicted(l, es[1..], now) else es
  }

  /** The entries a load keeps: readable, stamped and not expired. */
  function Fresh(l: Limits, log: seq<Line>, now: int): seq<Entry> {
    if log == [] then []
    else
      var before := Fresh(l, log[..|log| - 1], now);
      match log[|log| - 1]
      case Message(e) => if e.wall.Some? && !Expired(l, e, now) then before + [e] else before
      case Junk => before
  }

  /** The stamped entries of the log, expired or not. */
  function Entries(log: seq<Line>): seq<Entry> {
    if log == [] then []
    else
      var before := Entries(log[..|log| - 1]);
      match log[|log| - 1]
      case Message(e) => if e.wall.Some? then before + [e] else before
      case Junk => before
  }

  /** What a restart at time `now` rebuilds from the log. */
  function Rebuilt(l: Limits, log: seq<Line>, now: int): seq<Entry> {
    LastN(Fresh(l, log, now), l.capacity)
  }

  /** Stamped, in the order of their stamps, none in the future. */
  ghost predicate Ordered(es: seq<Entry>, now: int) {
    && (forall i :: 0 <= i < |es| ==> es[i].wall.Some? && es[i].wall.value <= now)
    && forall i, j :: 0 <= i < j < |es| ==> es[i].wall.value <= es[j].wall.value
  }

  /** The window is the end of the log, and what it lacks is expired or beyond its capacity. */
  ghost predicate InStep(l: Limits, buf: seq<Entry>, log: seq<Line>, now: int) {
    var es := Entries(log);
    && Ordered(es, now) && |buf| <= l.capacity && |buf| <= |es|
    && buf == es[|es| - |buf|..]
    && (|buf| == l.capacity || forall i :: 0 <= i < |es| - |buf| ==> Expired(l, es[i], now))
  }

  // ----- a log in order -----

  function Unexpired(l: Limits, es: seq<Entry>, now: int): seq<Entry> {
    if es == [] then []
    else Unexpired(l, es[..|es| - 1], now) + if Expired(l, es[|es| - 1], now) then [] else [es[|es| - 1]]
  }

  lemma {:induction false} FreshIsUnexpired(l: Limits, log: seq<Line>, now: int)
    ensures Fresh(l, log, now) == Unexpired(l, Entries(log), now)
  {
    if log != [] {
      FreshIsUnexpired(l, log[..|log| - 1], now);
      var before := Entries(log[..|log| - 1]);
      if log[|log| - 1].Message? {
        var e := log[|log| - 1].entry;
        assert (before + [e])[..|before|] == before;
        assert Unexpired(l, before, now) + [] == Unexpired(l, before, now);
      }
    }
  }

  lemma {:induction false} UnexpiredConcat(l: Limits, a: seq<Entry>, b: seq<Entry>, now: int)
    ensures Unexpired(l, a + b, now) == Unexpired(l, a, now) + Unexpired(l, b, now)
    decreases |b|
  {
    if b == [] {
      assert a + b == a;
    } else {
      assert (a + b)[..|a + b| - 1] == a + b[..|b| - 1];
      UnexpiredConcat(l, a, b[..|b| - 1], now);
    }
  }

  lemma {:induction false} UnexpiredNone(l: Limits, es: seq<Entry>, now: int)
    requires forall i :: 0 <= i < |es| ==> Expired(l, es[i], now)
    ensures Unexpired(l, es, now) == []
  {
    if es != [] {
      UnexpiredNone(l, es[..|es| - 1], now);
    }
  }

  lemma {:induction false} UnexpiredAll(l: Limits, es: seq<Entry>, now: int)
    requires forall i :: 0 <= i < |es| ==> !Expired(l, es[i], now)
    ensures Unexpired(l, es, now) == es
  {
    if es != [] {
      UnexpiredAll(l, es[..|es| - 1], now);
    }
  }

  lemma OrderedPart(es: seq<Entry>, i: nat, now: int)
    requires Ordered(es, now) && i <= |es|
    ensures Ordered(es[i..], now)
  {
  }

  lemma OrderedLive(l: Limits, es: seq<Entry>, now: int, top: int)
    requires Ordered(es, top) && es != [] && !Expired(l, es[0], now)
    ensures forall i :: 0 <= i < |es| ==> !Expired(l, es[i], now)
  {
    forall i | 0 <= i < |es| ensures !Expired(l, es[i], now) {
      assert i > 0 ==> es[0].wall.value <= es[i].wall.value;
    }
  }

  /** In order, the expired entries come first, so evicting from the front is filtering. */
  lemma {:induction false} EvictedIsUnexpired(l: Limits, es: seq<Entry>, now: int, top: int)
    requires Ordered(es, top)
    ensures Evicted(l, es, now) == Unexpired(l, es, now)
    decreases |es|
  {
    if es != [] {
      hide Ordered, Unexpired;
      if Expired(l, es[0], now) {
        OrderedPart(es, 1, top);
        EvictedIsUnexpired(l, es[1..], now, top);
        UnexpiredConcat(l, [es[0]], es[1..], now);
        assert [es[0]] + es[1..] == es;
        UnexpiredNone(l, [es[0]], now);
      } else {
        OrderedLive(l, es, now, top);
        UnexpiredAll(l, es, now);
      }
    }
  }

  lemma {:induction false} EvictedSuffix(l: Limits, es: seq<Entry>, now: int)
    ensures |Evicted(l, es, now)| <= |es| && Evicted(l, es, now) == es[|es| - |Evicted(l, es, now)|..]
    ensures forall i :: 0 <= i < |es| - |Evicted(l, es, now)| ==> Expired(l, es[i], now)
  {
    if es != [] && Expired(l, es[0], now) {
      EvictedSuffix(l, es[1..], now);
    }
  }

  /** What lies before an expired entry is expired. */
  lemma ExpiredBefore(l: Limits, es: seq<Entry>, n: nat, now: int, top: int)
    requires Ordered(es, top) && n < |es| && Expired(l, es[n], now)
    ensures forall i :: 0 <= i < n ==> Expired(l, es[i], now)
  {
  }

  /** A suffix that is full, or in front of which everything is expired, holds the last unexpired entries. */
  lemma SuffixIsEnough(l: Limits, out: seq<Entry>, buf: seq<Entry>, later: int, now: int)
    requires Ordered(out + buf, now) && |buf| <= l.capacity
    requires |buf| == l.capacity || forall i :: 0 <= i < |out| ==> Expired(l, out[i], later)
    ensures LastN(Unexpired(l, out + buf, later), l.capacity) == Evicted(l, buf, later)
  {
    hide Ordered, Unexpired, Evicted;
    OrderedPart(out + buf, |out|, now);
    assert (out + buf)[|out|..] == buf;
    UnexpiredConcat(l, out, buf, later);
    EvictedIsUnexpired(l, buf, later, now);
    EvictedSuffix(l, buf, later);
    if buf != [] && Expired(l, buf[0], later) {
      assert (out + buf)[|out|] == buf[0];
      ExpiredBefore(l, out + buf, |out|, later, now);
      forall i | 0 <= i < |out| ensures Expired(l, out[i], later) { assert (out + buf)[i] == out[i]; }
    }
    if forall i :: 0 <= i < |out| ==> Expired(l, out[i], later) {
      UnexpiredNone(l, out, later);
    }
  }

  /** The window, evicted, is what a restart would rebuild; now and at any later time. */
  lemma WindowIsRebuilt(l: Limits, buf: seq<Entry>, log: seq<Line>, now: int, later: int)
    requires InStep(l, buf, log, now) && later >= now
    ensures Evicted(l, buf, later) == Rebuilt(l, log, later)
  {
    hide Ordered, Unexpired, Evicted, Entries, Fresh;
    var es := Entries(log);
    var out := es[..|es| - |buf|];
    assert es == out + buf;
    FreshIsUnexpired(l, log, later);
    SuffixIsEnough(l, out, buf, later, now);
  }

  // ----- the operations -----

  function Appended(l: Limits, buf: seq<Entry>, e: Entry): seq<Entry> {
    LastN(buf + [e], l.capacity)
  }

  /** push(): evict, append with the current stamp, drop the oldest beyond the capacity; the log grows by one. */
  function Pushed(l: Limits, buf: seq<Entry>, e: Entry, evictAt: int): seq<Entry> {
    Appended(l, Evicted(l, buf, evictAt), e)
  }

  function Lines(es: seq<Entry>): seq<Line> {
    if es == [] then []
    else Lines(es[..|es| - 1]) + if es[|es| - 1].wall.Some? then [Message(es[|es| - 1])] else []
  }

  predicate HasExpired(l: Limits, log: seq<Line>, now: int) {
    exists i :: 0 <= i < |log| && log[i].Message? && log[i].entry.wall.Some? && Expired(l, log[i].entry, now)
  }

  /** A load: the disk entries, then what was in memory; the log is rewritten if something had expired. */
  function Loaded(l: Limits, buf: seq<Entry>, log: seq<Line>, now: int, compacts: bool): (seq<Entry>, seq<Line>) {
    var merged := LastN(Fresh(l, log, now) + buf, l.capacity);
    (merged, if HasExpired(l, log, now) && compacts then Lines(merged) else log)
  }

  lemma OrderedLater(es: seq<Entry>, now: int, later: int)
    requires Ordered(es, now) && later >= now
    ensures Ordered(es, later)
  {
  }

  lemma EvictKeepsStep(l: Limits, buf: seq<Entry>, log: seq<Line>, now: int, at: int)
    requires InStep(l, buf, log, now) && at >= now
    ensures InStep(l, Evicted(l, buf, at), log, at)
  {
    var es := Entries(log);
    var kept := Evicted(l, buf, at);
    EvictedSuffix(l, buf, at);
    var gone := |es| - |kept|;
    if |kept| < |buf| {
      assert Expired(l, buf[0], at);
      forall i | 0 <= i < gone ensures Expired(l, es[i], at) {
        if i >= |es| - |buf| { assert es[i] == buf[i - (|es| - |buf|)]; } else { assert buf[0] == es[|es| - |buf|]; }
      }
    }
  }

  lemma EntriesSnoc(log: seq<Line>, x: Line)
    ensures Entries(log + [x]) == Entries(log) + if x.Message? && x.entry.wall.Some? then [x.entry] else []
  {
    assert (log + [x])[..|log|] == log;
  }

  lemma PushKeepsStep(l: Limits, buf: seq<Entry>, log: seq<Line>, now: int, e: Entry, evictAt: int)
    requires InStep(l, buf, log, now) && e.wall.Some? && now <= evictAt <= e.wall.value
    ensures InStep(l, Pushed(l, buf, e, evictAt), log + [Message(e)], e.wall.value)
  {
    hide Evicted, Entries;
    EvictKeepsStep(l, buf, log, now, evictAt);
    EntriesSnoc(log, Message(e));
    var kept := Evicted(l, buf, evictAt);
    var es := Entries(log);
    assert kept + [e] == (es + [e])[|es| - |kept|..];
    assert Ordered(es + [e], e.wall.value);
  }

  lemma {:induction false} LinesEntries(es: seq<Entry>)
    requires forall i :: 0 <= i < |es| ==> es[i].wall.Some?
    ensures Entries(Lines(es)) == es
  {
    if es != [] {
      LinesEntries(es[..|es| - 1]);
      EntriesSnoc(Lines(es[..|es| - 1]), Message(es[|es| - 1]));
    }
  }

  /** The last entries of an ordered list, cut where they expire, are in step with a log of the list. */
  lemma SuffixInStep(l: Limits, es: seq<Entry>, live: seq<Entry>, now: int)
    requires Ordered(es, now) && live == Evicted(l, es, now)
    ensures var merged := LastN(live, l.capacity);
      |merged| <= |es| && merged == es[|es| - |merged|..]
      && (|merged| == l.capacity || forall i :: 0 <= i < |es| - |merged| ==> Expired(l, es[i], now))
  {
    hide Evicted, Ordered;
    EvictedSuffix(l, es, now);
  }

  /** A start: the window loaded from the log is in step with it, compacted or not. */
  lemma LoadIsInStep(l: Limits, log: seq<Line>, now: int, compacts: bool)
    requires Ordered(Entries(log), now)
    ensures var r := Loaded(l, [], log, now, compacts);
      InStep(l, r.0, r.1, now) && r.0 == Rebuilt(l, log, now)
  {
    hide Evicted, Unexpired, Fresh, Entries, Lines, HasExpired, Expired;
    var es := Entries(log);
    var unexpired := Fresh(l, log, now);
    assert unexpired + [] == unexpired;
    FreshIsUnexpired(l, log, now);
    EvictedIsUnexpired(l, es, now, now);
    SuffixInStep(l, es, unexpired, now);
    var merged := LastN(unexpired, l.capacity);
    OrderedPart(es, |es| - |merged|, now);
    LinesEntries(merged);
  }

  // ----- runs -----

  /** One step in the life of an observed channel: a message, a look at the window, or a restart. */
  datatype Step = Push(entry: Entry, evictAt: int) | Look(at: int) | Restart(at: int, compacts: bool)

  datatype State = State(buf: seq<Entry>, log: seq<Line>, now: int)

  /** The wall clock does not go back, and a message is stamped after the eviction before it. */
  predicate Timely(s: State, step: Step) {
    match step
    case Push(e, evictAt) => e.wall.Some? && s.now <= evictAt <= e.wall.value
    case Look(at) => s.now <= at
    case Restart(at, _) => s.now <= at
  }

  function Next(l: Limits, s: State, step: Step): State
    requires Timely(s, step)
  {
    match step
    case Push(e, evictAt) => State(Pushed(l, s.buf, e, evictAt), s.log + [Message(e)], e.wall.value)
    case Look(at) => State(Evicted(l, s.buf, at), s.log, at)
    case Restart(at, compacts) => var r := Loaded(l, [], s.log, at, compacts); State(r.0, r.1, at)
  }

  ghost predicate RunTimely(l: Limits, s: State, steps: seq<Step>)
    decreases |steps|
  {
    steps != [] ==> Timely(s, steps[0]) && RunTimely(l, Next(l, s, steps[0]), steps[1..])
  }

  function Run(l: Limits, s: State, steps: seq<Step>): State
    requires RunTimely(l, s, steps)
    decreases |steps|
  {
    if steps == [] then s else Run(l, Next(l, s, steps[0]), steps[1..])
  }

  lemma NextInStep(l: Limits, s: State, step: Step)
    requires InStep(l, s.buf, s.log, s.now) && Timely(s, step)
    ensures var r := Next(l, s, step); InStep(l, r.buf, r.log, r.now) && r.now >= s.now
  {
    match step
    case Push(e, evictAt) => PushKeepsStep(l, s.buf, s.log, s.now, e, evictAt);
    case Look(at) => EvictKeepsStep(l, s.buf, s.log, s.now, at);
    case Restart(at, compacts) =>
      OrderedLater(Entries(s.log), s.now, at);
      LoadIsInStep(l, s.log, at, compacts);
  }

  lemma {:induction false} RunInStep(l: Limits, s: State, steps: seq<Step>)
    requires InStep(l, s.buf, s.log, s.now) && RunTimely(l, s, steps)
    ensures var r := Run(l, s, steps); InStep(l, r.buf, r.log, r.now) && r.now >= s.now
    decreases |steps|
  {
    if steps != [] {
      NextInStep(l, s, steps[0]);
      RunInStep(l, Next(l, s, steps[0]), steps[1..]);
    }
  }

  /** After any mix of messages, evictions, capacity drops, restarts and compactions since the channel was
      first observed, the evicted window is exactly what a restart would rebuild, at that time and later. */
  lemma RestartTransparent(l: Limits, log: seq<Line>, boot: int, compacts: bool, steps: seq<Step>, at: int)
    requires Ordered(Entries(log), boot)
    requires var r := Loaded(l, [], log, boot, compacts); RunTimely(l, State(r.0, r.1, boot), steps)
    requires var r := Loaded(l, [], log, boot, compacts); at >= Run(l, State(r.0, r.1, boot), steps).now
    ensures var r := Loaded(l, [], log, boot, compacts);
      var s := Run(l, State(r.0, r.1, boot), steps);
      Evicted(l, s.buf, at) == Rebuilt(l, s.log, at)
  {
    LoadIsInStep(l, log, boot, compacts);
    var r := Loaded(l, [], log, boot, compacts);
    var s := State(r.0, r.1, boot);
    RunInStep(l, s, steps);
    WindowIsRebuilt(l, Run(l, s, steps).buf, Run(l, s, steps).log, Run(l, s, steps).now, at);
  }

  /** Observing a channel that is observed already puts the disk entries in front of the same entries in
      memory. The window stays right exactly when it is full, or when nothing in it is live. */
  lemma ObserveAgainIff(l: Limits, buf: seq<Entry>, log: seq<Line>, now: int, at: int, compacts: bool)
    requires InStep(l, buf, log, now) && at >= now
    ensures var again := Loaded(l, buf, log, at, compacts).0;
      Evicted(l, again, at) == Rebuilt(l, log, at) <==> |buf| == l.capacity || Rebuilt(l, log, at) == []
  {
    var live := Evicted(l, buf, at);
    WindowIsRebuilt(l, buf, log, now, at);
    EvictedSuffix(l, buf, at);
    var unexpired := Fresh(l, log, at);
    var again := LastN(unexpired + buf, l.capacity);
    if |buf| == l.capacity {
      assert again == buf;
    } else if live == [] {
      NothingLive(l, unexpired, at);
      assert again == buf;
    } else {
      FreshLives(l, log, at);
      LiveStays(l, again, at, unexpired, buf);
    }
  }

  lemma {:induction false} FreshLives(l: Limits, log: seq<Line>, at: int)
    ensures forall i :: 0 <= i < |Fresh(l, log, at)| ==> !Expired(l, Fresh(l, log, at)[i], at)
  {
    if log != [] {
      FreshLives(l, log[..|log| - 1], at);
    }
  }

  lemma NothingLive(l: Limits, unexpired: seq<Entry>, at: int)
    requires LastN(unexpired, l.capacity) == [] && l.capacity > 0
    ensures unexpired == []
  {
  }

  lemma LiveStays(l: Limits, again: seq<Entry>, at: int, unexpired: seq<Entry>, buf: seq<Entry>)
    requires again == LastN(unexpired + buf, l.capacity) && |buf| < l.capacity && unexpired != []
    requires forall i :: 0 <= i < |unexpired| ==> !Expired(l, unexpired[i], at)
    ensures |Evicted(l, again, at)| > |buf|
  {
    assert |again| > |buf|;
    assert again[0] == unexpired[|unexpired| + |buf| - |again|];
  }
}
