/** One observed channel as the program keeps it: a deque changed at both ends, and a log appended to. */
module ChannelService {
  import opened Options
  import opened ChannelHistory

  class ObservedChannel {
    const limits: Limits
    var buf: seq<Entry>
    var log: seq<Line>

    /** The start: set_observe() with nothing in memory yet. */
    constructor (limits: Limits, log: seq<Line>, now: int, compacts: bool)
      ensures this.limits == limits
      ensures (this.buf, this.log) == Loaded(limits, [], log, now, compacts)
      ensures Ordered(Entries(log), now) ==> InStep(limits, this.buf, this.log, now)
    {
      this.limits := limits;
      this.buf := [];
      this.log := log;
      new;
      LoadObserve(now, compacts);
      if Ordered(Entries(log), now) {
        LoadIsInStep(limits, log, now, compacts);
      }
    }

    /** Pops expired entries off the front. */
    method Evict(now: int)
      modifies this`buf
      ensures buf == Evicted(limits, old(buf), now)
    {
      while buf != [] && Expired(limits, buf[0], now)
        invariant Evicted(limits, buf, now) == Evicted(limits, old(buf), now)
        decreases |buf|
      {
        buf := buf[1..];
      }
    }

    /** A bounded append: at capacity the oldest entry falls out. */
    method Append(e: Entry)
      requires |buf| <= limits.capacity
      modifies this`buf
      ensures buf == Appended(limits, old(buf), e) && |buf| <= limits.capacity
    {
      buf := buf + [e];
      if |buf| > limits.capacity {
        buf := buf[1..];
      }
    }

    /** push(): evict, append, write the line. */
    method Push(e: Entry, evictAt: int, ghost now: int)
      requires |buf| <= limits.capacity
      modifies this
      ensures buf == Pushed(limits, old(buf), e, evictAt) && log == old(log) + [Message(e)]
      ensures old(InStep(limits, buf, log, now)) && e.wall.Some? && now <= evictAt <= e.wall.value ==>
        InStep(limits, buf, log, e.wall.value)
    {
      if InStep(limits, buf, log, now) && e.wall.Some? && now <= evictAt <= e.wall.value {
        PushKeepsStep(limits, buf, log, now, e, evictAt);
      }
      EvictedSuffix(limits, buf, evictAt);
      Evict(evictAt);
      Append(e);
      log := log + [Message(e)];
    }

    /** Reads the log line by line: what is unexpired, and whether anything had expired. */
    method ReadLog(now: int) returns (entries: seq<Entry>, hadExpired: bool)
      ensures entries == Fresh(limits, log, now) && hadExpired == HasExpired(limits, log, now)
    {
      entries, hadExpired := [], false;
      assert log[..0] == [];
      for i := 0 to |log|
        invariant entries == Fresh(limits, log[..i], now)
        invariant hadExpired <==>
          exists j :: 0 <= j < i && log[j].Message? && log[j].entry.wall.Some? && Expired(limits, log[j].entry, now)
      {
        assert log[..i + 1][..i] == log[..i];
        if log[i].Message? && log[i].entry.wall.Some? {
          if Expired(limits, log[i].entry, now) {
            hadExpired := true;
          } else {
            entries := entries + [log[i].entry];
          }
        }
      }
      assert log[..|log|] == log;
    }

    /** _load_observe(): disk entries first, then what was in memory. */
    method LoadObserve(now: int, compacts: bool)
      modifies this
      ensures (buf, log) == Loaded(limits, old(buf), old(log), now, compacts)
    {
      var entries, hadExpired := ReadLog(now);
      var existing := buf;
      buf := [];
      var all := entries + existing;
      assert all[..0] == [];
      for i := 0 to |all|
        invariant |buf| <= limits.capacity && buf == LastN(all[..i], limits.capacity) && log == old(log)
      {
        assert all[..i + 1] == all[..i] + [all[i]];
        Append(all[i]);
      }
      assert all[..|all|] == all;
      if hadExpired && compacts {
        Compact();
      }
    }

    /** _compact(): the log is rewritten from the stamped entries in memory. */
    method Compact()
      modifies this`log
      ensures log == Lines(buf)
    {
      log := [];
      assert buf[..0] == [];
      for i := 0 to |buf|
        invariant log == Lines(buf[..i])
      {
        assert buf[..i + 1][..i] == buf[..i];
        if buf[i].wall.Some? {
          log := log + [Message(buf[i])];
        }
      }
      assert buf[..|buf|] == buf;
    }
  }
}
