/** What an observed channel shows, said of every message it ever saw. */
module ChannelLaws {
  import opened Options
  import opened ChannelHistory

  /** Stamped no longer than the time limit ago. */
  predicate Alive(l: Limits, e: Entry, now: int) {
    e.wall.Some? && now - e.wall.value <= l.ttl
  }

  predicate AliveLine(l: Limits, x: Line, now: int) {
    x.Message? && Alive(l, x.entry, now)
  }

  ghost predicate Rising(ps: seq<nat>, bound: nat) {
    (forall i :: 0 <= i < |ps| ==> ps[i] < bound) && forall i, j :: 0 <= i < j < |ps| ==> ps[i] < ps[j]
  }

  /** The entries are the live messages at the positions `ps` of the log, in order; any other live message comes before
      them, and then the capacity is used up. */
  ghost predicate ShowsAt(l: Limits, log: seq<Line>, now: int, es: seq<Entry>, ps: seq<nat>) {
    && |ps| == |es| <= l.capacity && Rising(ps, |log|)
    && (forall i :: 0 <= i < |es| ==> log[ps[i]] == Message(es[i]) && Alive(l, es[i], now))
    && forall n :: 0 <= n < |log| && AliveLine(l, log[n], now) ==>
         n in ps || (|es| == l.capacity && forall i :: 0 <= i < |ps| ==> n < ps[i])
  }

  /** The entries are the live messages of the log, or the last of them when there are more than the capacity. */
  ghost predicate Shows(l: Limits, log: seq<Line>, now: int, es: seq<Entry>) {
    exists ps :: ShowsAt(l, log, now, es, ps)
  }

  lemma FreshSnoc(l: Limits, log: seq<Line>, x: Line, now: int)
    ensures Fresh(l, log + [x], now) == Fresh(l, log, now) + if AliveLine(l, x, now) then [x.entry] else []
  {
    assert (log + [x])[..|log|] == log;
  }

  /** The entries a load keeps are the live messages, each of them. */
  ghost predicate AllAlive(l: Limits, log: seq<Line>, now: int, es: seq<Entry>, ps: seq<nat>) {
    && |ps| == |es| && Rising(ps, |log|)
    && (forall i :: 0 <= i < |es| ==> log[ps[i]] == Message(es[i]) && Alive(l, es[i], now))
    && forall n :: 0 <= n < |log| && AliveLine(l, log[n], now) ==> n in ps
  }

  lemma AllAliveSnoc(l: Limits, log: seq<Line>, x: Line, now: int, es: seq<Entry>, before: seq<nat>) returns (ps: seq<nat>)
    requires AllAlive(l, log, now, es, before)
    ensures AllAlive(l, log + [x], now, es + if AliveLine(l, x, now) then [x.entry] else [], ps)
  {
    hide Alive;
    ps := if AliveLine(l, x, now) then before + [|log|] else before;
    forall n | 0 <= n < |log + [x]| && AliveLine(l, (log + [x])[n], now) ensures n in ps {
      if n < |log| {
        assert log[n] == (log + [x])[n] && n in before;
      } else {
        assert ps[|before|] == n;
      }
    }
  }

  lemma {:induction false} FreshAt(l: Limits, log: seq<Line>, now: int) returns (ps: seq<nat>)
    ensures AllAlive(l, log, now, Fresh(l, log, now), ps)
  {
    if log == [] {
      ps := [];
    } else {
      hide AllAlive, Fresh, AliveLine;
      var init, x := log[..|log| - 1], log[|log| - 1];
      var before := FreshAt(l, init, now);
      assert log == init + [x];
      FreshSnoc(l, init, x, now);
      ps := AllAliveSnoc(l, init, x, now, Fresh(l, init, now), before);
    }
  }

  lemma LastCovers(ps: seq<nat>, bound: nat, cut: nat, n: nat)
    requires Rising(ps, bound) && cut <= |ps| && n in ps
    ensures n in ps[cut..] || (cut > 0 && forall i :: 0 <= i < |ps[cut..]| ==> n < ps[cut..][i])
  {
    var k :| 0 <= k < |ps| && ps[k] == n;
    if k >= cut { assert ps[cut..][k - cut] == n; }
  }

  lemma LastShown(l: Limits, log: seq<Line>, now: int, es: seq<Entry>, ps: seq<nat>)
    requires AllAlive(l, log, now, es, ps)
    ensures Shows(l, log, now, LastN(es, l.capacity))
  {
    hide Alive, AliveLine;
    var last := LastN(es, l.capacity);
    var cut := |es| - |last|;
    var kept := ps[cut..];
    forall n | 0 <= n < |log| && AliveLine(l, log[n], now)
      ensures n in kept || (|last| == l.capacity && forall i :: 0 <= i < |kept| ==> n < kept[i])
    {
      LastCovers(ps, |log|, cut, n);
    }
    assert Rising(kept, |log|);
    assert ShowsAt(l, log, now, last, kept);
  }

  /** What a restart rebuilds is what the log shows. */
  lemma RebuiltShows(l: Limits, log: seq<Line>, now: int)
    ensures Shows(l, log, now, Rebuilt(l, log, now))
  {
    hide Fresh, AllAlive, Shows;
    var ps := FreshAt(l, log, now);
    LastShown(l, log, now, Fresh(l, log, now), ps);
  }

  /** A start rewrites the log exactly when some stamped message has outlived the limit and compaction is on: one line for
      each message of the window, and no others. */
  lemma LogAfterStart(l: Limits, log: seq<Line>, now: int, compacts: bool)
    ensures var (window, after) := Loaded(l, [], log, now, compacts);
      if compacts && exists n :: 0 <= n < |log| && log[n].Message? && log[n].entry.wall.Some? && now - log[n].entry.wall.value > l.ttl
      then |after| == |window| && forall i :: 0 <= i < |window| ==> after[i] == Message(window[i])
      else after == log
  {
    var ps := FreshAt(l, log, now);
    var window := Loaded(l, [], log, now, compacts).0;
    assert Fresh(l, log, now) + [] == Fresh(l, log, now);
    LinesAre(window);
  }

  lemma {:induction false} LinesAre(es: seq<Entry>)
    requires forall i :: 0 <= i < |es| ==> es[i].wall.Some?
    ensures |Lines(es)| == |es| && forall i :: 0 <= i < |es| ==> Lines(es)[i] == Message(es[i])
  {
    if es != [] {
      LinesAre(es[..|es| - 1]);
    }
  }

  // ----- every message ever seen -----

  /** The log as it was at first, then every message since, whatever compaction has dropped. */
  function History(log: seq<Line>, steps: seq<Step>): seq<Line>
    decreases |steps|
  {
    if steps == [] then log
    else History(if steps[0].Push? then log + [Message(steps[0].entry)] else log, steps[1..])
  }

  lemma NextHistory(l: Limits, s: State, all: seq<Line>, step: Step)
    requires InStep(l, s.buf, s.log, s.now) && InStep(l, s.buf, all, s.now) && Timely(s, step)
    ensures var r := Next(l, s, step);
      InStep(l, r.buf, r.log, r.now) && InStep(l, r.buf, if step.Push? then all + [Message(step.entry)] else all, r.now)
  {
    hide InStep;
    NextInStep(l, s, step);
    match step
    case Push(e, evictAt) => PushKeepsStep(l, s.buf, all, s.now, e, evictAt);
    case Look(at) => EvictKeepsStep(l, s.buf, all, s.now, at);
    case Restart(at, compacts) =>
      LogOrdered(l, s.buf, s.log, s.now, at);
      LoadIsInStep(l, s.log, at, compacts);
      WindowIsRebuilt(l, s.buf, s.log, s.now, at);
      EvictKeepsStep(l, s.buf, all, s.now, at);
  }

  lemma LogOrdered(l: Limits, buf: seq<Entry>, log: seq<Line>, now: int, at: int)
    requires InStep(l, buf, log, now) && at >= now
    ensures Ordered(Entries(log), at)
  {
    OrderedLater(Entries(log), now, at);
  }

  lemma {:induction false} RunHistory(l: Limits, s: State, all: seq<Line>, steps: seq<Step>)
    requires InStep(l, s.buf, s.log, s.now) && InStep(l, s.buf, all, s.now) && RunTimely(l, s, steps)
    ensures InStep(l, Run(l, s, steps).buf, History(all, steps), Run(l, s, steps).now)
    decreases |steps|
  {
    hide InStep;
    if steps != [] {
      NextHistory(l, s, all, steps[0]);
      RunHistory(l, Next(l, s, steps[0]), if steps[0].Push? then all + [Message(steps[0].entry)] else all, steps[1..]);
    }
  }

  /** After any mix of messages, looks, restarts and compactions since the channel was first observed, the window shows the
      live messages of all that were ever seen, or the last of them up to the capacity: none is lost to a restart or a
      compaction, none is repeated, and none outlives the time limit. */
  lemma WindowShowsHistory(l: Limits, log: seq<Line>, boot: int, compacts: bool, steps: seq<Step>, at: int)
    requires Ordered(Entries(log), boot)
    requires var r := Loaded(l, [], log, boot, compacts); RunTimely(l, State(r.0, r.1, boot), steps)
    requires var r := Loaded(l, [], log, boot, compacts); at >= Run(l, State(r.0, r.1, boot), steps).now
    ensures var r := Loaded(l, [], log, boot, compacts);
      Shows(l, History(log, steps), at, Evicted(l, Run(l, State(r.0, r.1, boot), steps).buf, at))
  {
    hide InStep, Shows, Loaded, Evicted, Rebuilt;
    var r := Loaded(l, [], log, boot, compacts);
    var s := State(r.0, r.1, boot);
    LoadIsInStep(l, log, boot, compacts);
    LoadIsInStep(l, log, boot, false);
    LoadsTheSame(l, log, boot, compacts);
    RunHistory(l, s, log, steps);
    var f := Run(l, s, steps);
    WindowIsRebuilt(l, f.buf, History(log, steps), f.now, at);
    RebuiltShows(l, History(log, steps), at);
  }

  /** Compaction changes the log only. */
  lemma LoadsTheSame(l: Limits, log: seq<Line>, now: int, compacts: bool)
    ensures Loaded(l, [], log, now, compacts).0 == Loaded(l, [], log, now, false).0 && Loaded(l, [], log, now, false).1 == log
  {
  }
}
