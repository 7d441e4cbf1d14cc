/** Appending user hooks to the bundled ones: validated, without repetitions, and capped. */
module HookMerge {
  import opened Options

  const MAX_PER_EVENT := 10
  const MAX_TOTAL := 20
  const MAX_MATCHER_LEN := 200

  type Event = string

  /** A command and a matcher: what makes two hooks the same hook. */
  type Key = (Option<string>, Option<string>)

  /** A hook of the config; `Opaque` is an entry that is not a dictionary. */
  datatype Hook = Hook(key: Key) | Opaque(text: string)

  datatype RawMatcher = Absent | Text(text: string) | NotText

  /** An entry as the user wrote it; `command` is None when there is none or it is not a string. */
  datatype RawEntry = Entry(command: Option<string>, matcher: RawMatcher) | NotDict

  /** What is not modelled of validation: the known events, the command check, the matcher's characters. */
  datatype Rules = Rules(knows: Event -> bool, resolve: (string, Event) -> Option<string>, safe: string -> bool)

  /** User hooks in their order; None is a bucket that is not a list. */
  type UserHooks = seq<(Event, Option<seq<RawEntry>>)>

  type Hooks = map<Event, seq<Hook>>

  function Min(a: nat, b: nat): nat {
    if a < b then a else b
  }

  /** The hook that an entry stands for, if it is valid. */
  function Candidate(r: Rules, event: Event, e: RawEntry): Option<Key> {
    if e.NotDict? || e.command == None || e.command.value == "" then None
    else match r.resolve(e.command.value, event)
      case None => None
      case Some(path) =>
        match e.matcher
        case NotText => None
        case Absent => Some((Some(path), None))
        case Text(m) => if |m| > MAX_MATCHER_LEN || !r.safe(m) then None else Some((Some(path), Some(m)))
  }

  function Candidates(r: Rules, event: Event, es: seq<RawEntry>): seq<Key> {
    if es == [] then []
    else
      var c := Candidate(r, event, es[|es| - 1]);
      Candidates(r, event, es[..|es| - 1]) + if c.Some? then [c.value] else []
  }

  /** The candidates that are not known yet, each at its first occurrence. */
  function News(known: set<Key>, cs: seq<Key>): seq<Key> {
    if cs == [] then []
    else
      var before := News(known, cs[..|cs| - 1]);
      var c := cs[|cs| - 1];
      if c in known || c in before then before else before + [c]
  }

  function KeysOf(hs: seq<Hook>): set<Key> {
    set h | h in hs && h.Hook? :: h.key
  }

  function AsHooks(ks: seq<Key>): seq<Hook> {
    seq(|ks|, i requires 0 <= i < |ks| => Hook(ks[i]))
  }

  /** What one event's bucket adds: the first new valid hooks, up to both caps. */
  function Added(r: Rules, event: Event, existing: seq<Hook>, es: seq<RawEntry>, total: nat): seq<Key> {
    var news := News(KeysOf(existing), Candidates(r, event, es));
    news[..Min(|news|, Min(MAX_PER_EVENT, if total < MAX_TOTAL then MAX_TOTAL - total else 0))]
  }

  function BundledAt(hooks: Hooks, event: Event): seq<Hook> {
    if event in hooks then hooks[event] else []
  }

  /** One bucket: the new hook table and the running total. */
  function MergeBucket(r: Rules, hooks: Hooks, total: nat, bucket: (Event, Option<seq<RawEntry>>)): (Hooks, nat) {
    if !r.knows(bucket.0) || bucket.1 == None then (hooks, total)
    else
      var existing := BundledAt(hooks, bucket.0);
      var added := Added(r, bucket.0, existing, bucket.1.value, total);
      (hooks[bucket.0 := existing + AsHooks(added)], total + |added|)
  }

  function MergeAll(r: Rules, hooks: Hooks, total: nat, user: UserHooks): (Hooks, nat)
    decreases |user|
  {
    if user == [] then (hooks, total)
    else
      var init := MergeAll(r, hooks, total, user[..|user| - 1]);
      MergeBucket(r, init.0, init.1, user[|user| - 1])
  }

  // ----- what the plain statement gives -----

  lemma {:induction false} NewsMember(known: set<Key>, cs: seq<Key>, k: Key)
    ensures k in News(known, cs) <==> k in cs && k !in known
  {
    if cs != [] {
      NewsMember(known, cs[..|cs| - 1], k);
      assert cs == cs[..|cs| - 1] + [cs[|cs| - 1]];
    }
  }

  lemma {:induction false} NewsDistinct(known: set<Key>, cs: seq<Key>)
    ensures forall i, j :: 0 <= i < j < |News(known, cs)| ==> News(known, cs)[i] != News(known, cs)[j]
  {
    if cs != [] {
      NewsDistinct(known, cs[..|cs| - 1]);
    }
  }

  lemma {:induction false} NewsPrefix(known: set<Key>, a: seq<Key>, b: seq<Key>)
    ensures News(known, a) <= News(known, a + b)
    decreases |b|
  {
    if b == [] {
      assert a + b == a;
    } else {
      NewsPrefix(known, a, b[..|b| - 1]);
      assert (a + b)[..|a + b| - 1] == a + b[..|b| - 1];
    }
  }

  lemma {:induction false} CandidatesConcat(r: Rules, event: Event, a: seq<RawEntry>, b: seq<RawEntry>)
    ensures Candidates(r, event, a + b) == Candidates(r, event, a) + Candidates(r, event, b)
    decreases |b|
  {
    if b == [] {
      assert a + b == a;
    } else {
      CandidatesConcat(r, event, a, b[..|b| - 1]);
      assert (a + b)[..|a + b| - 1] == a + b[..|b| - 1];
    }
  }

  /** A bucket's additions are valid, new and all different; there are none left out that fit. */
  lemma AddedExactly(r: Rules, event: Event, existing: seq<Hook>, es: seq<RawEntry>, total: nat)
    ensures var added := Added(r, event, existing, es, total);
      && |added| <= MAX_PER_EVENT && (total <= MAX_TOTAL ==> total + |added| <= MAX_TOTAL)
      && (forall k :: k in added ==> k !in KeysOf(existing) && exists e :: e in es && Candidate(r, event, e) == Some(k))
      && (forall i, j :: 0 <= i < j < |added| ==> added[i] != added[j])
      && (|added| < MAX_PER_EVENT && total + |added| < MAX_TOTAL ==>
           forall e :: e in es && Candidate(r, event, e).Some? ==>
             Candidate(r, event, e).value in added || Candidate(r, event, e).value in KeysOf(existing))
  {
    var added := Added(r, event, existing, es, total);
    var cs := Candidates(r, event, es);
    NewsDistinct(KeysOf(existing), cs);
    forall k | k in added ensures k !in KeysOf(existing) && exists e :: e in es && Candidate(r, event, e) == Some(k) {
      NewsMember(KeysOf(existing), cs, k);
      CandidateOf(r, event, es, k);
    }
    if |added| < MAX_PER_EVENT && total + |added| < MAX_TOTAL {
      assert added == News(KeysOf(existing), cs);
      forall e | e in es && Candidate(r, event, e).Some?
        ensures Candidate(r, event, e).value in added || Candidate(r, event, e).value in KeysOf(existing)
      {
        NewsMember(KeysOf(existing), cs, Candidate(r, event, e).value);
        CandidateOf(r, event, es, Candidate(r, event, e).value);
      }
    }
  }

  lemma {:induction false} CandidateOf(r: Rules, event: Event, es: seq<RawEntry>, k: Key)
    ensures k in Candidates(r, event, es) <==> exists e :: e in es && Candidate(r, event, e) == Some(k)
  {
    if es != [] {
      var init, last := es[..|es| - 1], es[|es| - 1];
      CandidateOf(r, event, init, k);
      assert es == init + [last];
    }
  }

  // ----- the whole merge -----

  ghost predicate EventsDistinct(user: UserHooks) {
    forall i, j :: 0 <= i < j < |user| ==> user[i].0 != user[j].0
  }

  /** How many hooks the user's buckets gained, all together. */
  function Gained(hooks: Hooks, merged: Hooks, user: UserHooks): int {
    if user == [] then 0
    else
      var e := user[|user| - 1].0;
      Gained(hooks, merged, user[..|user| - 1]) + |BundledAt(merged, e)| - |BundledAt(hooks, e)|
  }

  /** The bundled hooks of an event are a prefix; what follows is new, all different, and at most ten. */
  ghost predicate Extended(bundled: seq<Hook>, merged: seq<Hook>) {
    exists ks: seq<Key> ::
      && merged == bundled + AsHooks(ks) && |ks| <= MAX_PER_EVENT
      && (forall k :: k in ks ==> k !in KeysOf(bundled))
      && forall i, j :: 0 <= i < j < |ks| ==> ks[i] != ks[j]
  }

  lemma ExtendedByNothing(hs: seq<Hook>)
    ensures Extended(hs, hs)
  {
    assert hs == hs + AsHooks([]);
  }

  lemma BucketExtends(r: Rules, hooks: Hooks, total: nat, bucket: (Event, Option<seq<RawEntry>>))
    requires total <= MAX_TOTAL
    ensures var m := MergeBucket(r, hooks, total, bucket);
      && Extended(BundledAt(hooks, bucket.0), BundledAt(m.0, bucket.0))
      && (forall e :: e != bucket.0 ==> BundledAt(m.0, e) == BundledAt(hooks, e))
      && m.1 == total + |BundledAt(m.0, bucket.0)| - |BundledAt(hooks, bucket.0)| && m.1 <= MAX_TOTAL
  {
    var existing := BundledAt(hooks, bucket.0);
    if !r.knows(bucket.0) || bucket.1 == None {
      ExtendedByNothing(existing);
    } else {
      var added := Added(r, bucket.0, existing, bucket.1.value, total);
      AddedExactly(r, bucket.0, existing, bucket.1.value, total);
      var m := MergeBucket(r, hooks, total, bucket);
      assert BundledAt(m.0, bucket.0) == existing + AsHooks(added);
    }
  }

  lemma {:induction false} GainedElsewhere(hooks: Hooks, a: Hooks, b: Hooks, user: UserHooks)
    requires forall i :: 0 <= i < |user| ==> BundledAt(a, user[i].0) == BundledAt(b, user[i].0)
    ensures Gained(hooks, a, user) == Gained(hooks, b, user)
  {
    if user != [] {
      GainedElsewhere(hooks, a, b, user[..|user| - 1]);
    }
  }

  /** For every event the bundled hooks stay in front, followed by at most ten new distinct ones; events the
      user does not mention stay as they are; and all events together gain at most twenty. */
  ghost predicate MergedWell(hooks: Hooks, user: UserHooks, m: (Hooks, nat)) {
    && (forall e :: Extended(BundledAt(hooks, e), BundledAt(m.0, e)))
    && (forall e :: (forall i :: 0 <= i < |user| ==> user[i].0 != e) ==> BundledAt(m.0, e) == BundledAt(hooks, e))
    && m.1 == Gained(hooks, m.0, user) && m.1 <= MAX_TOTAL
  }

  lemma BucketKeepsMergedWell(r: Rules, hooks: Hooks, user: UserHooks, before: (Hooks, nat))
    requires user != [] && EventsDistinct(user) && MergedWell(hooks, user[..|user| - 1], before)
    ensures MergedWell(hooks, user, MergeBucket(r, before.0, before.1, user[|user| - 1]))
  {
    hide Extended, MergeBucket, BundledAt;
    var init, last := user[..|user| - 1], user[|user| - 1];
    var m := MergeBucket(r, before.0, before.1, last);
    BucketExtends(r, before.0, before.1, last);
    assert BundledAt(before.0, last.0) == BundledAt(hooks, last.0);
    GainedElsewhere(hooks, before.0, m.0, init);
    forall e | forall i :: 0 <= i < |user| ==> user[i].0 != e ensures BundledAt(m.0, e) == BundledAt(hooks, e) {
      assert user[|user| - 1].0 != e;
      assert forall i :: 0 <= i < |init| ==> init[i].0 == user[i].0;
    }
  }

  lemma {:induction false} MergeExtends(r: Rules, hooks: Hooks, user: UserHooks)
    requires EventsDistinct(user)
    ensures MergedWell(hooks, user, MergeAll(r, hooks, 0, user))
  {
    if user == [] {
      forall e ensures Extended(BundledAt(hooks, e), BundledAt(hooks, e)) { ExtendedByNothing(BundledAt(hooks, e)); }
    } else {
      MergeExtends(r, hooks, user[..|user| - 1]);
      BucketKeepsMergedWell(r, hooks, user, MergeAll(r, hooks, 0, user[..|user| - 1]));
    }
  }

  // ----- the loop -----

  lemma CandidatesSnoc(r: Rules, event: Event, es: seq<RawEntry>, e: RawEntry)
    ensures Candidates(r, event, es + [e])
         == Candidates(r, event, es) + if Candidate(r, event, e).Some? then [Candidate(r, event, e).value] else []
  {
    assert (es + [e])[..|es|] == es;
  }

  lemma NewsSnoc(known: set<Key>, cs: seq<Key>, c: Key)
    ensures var before := News(known, cs);
      News(known, cs + [c]) == if c in known || c in before then before else before + [c]
  {
    assert (cs + [c])[..|cs|] == cs;
  }

  /** Stopping early loses nothing: the pass is over, or a cap is reached and the rest would be cut off. */
  lemma StoppedInTime(r: Rules, event: Event, bundled: seq<Hook>, es: seq<RawEntry>, total: nat, i: nat)
    requires i <= |es|
    requires var news := News(KeysOf(bundled), Candidates(r, event, es[..i]));
      && |news| <= MAX_PER_EVENT && (total + |news| <= MAX_TOTAL || news == [])
      && (i == |es| || |news| == MAX_PER_EVENT || total + |news| >= MAX_TOTAL)
    ensures Added(r, event, bundled, es, total) == News(KeysOf(bundled), Candidates(r, event, es[..i]))
  {
    assert es == es[..i] + es[i..];
    CandidatesConcat(r, event, es[..i], es[i..]);
    NewsPrefix(KeysOf(bundled), Candidates(r, event, es[..i]), Candidates(r, event, es[i..]));
    assert i == |es| ==> es[..i] == es;
  }

  /** One bucket, entry by entry, with the two counters and the growing set of known keys. */
  method AddBucket(r: Rules, event: Event, bundled: seq<Hook>, es: seq<RawEntry>, total: nat)
      returns (existing: seq<Hook>, newTotal: nat)
    ensures existing == bundled + AsHooks(Added(r, event, bundled, es, total))
    ensures newTotal == total + |Added(r, event, bundled, es, total)|
  {
    hide Candidate, Candidates, News, Added;
    existing, newTotal := bundled, total;
    var known := KeysOf(bundled);
    var added := 0;
    ghost var news: seq<Key> := [];
    var i := 0;
    EmptyNews(r, event, KeysOf(bundled));
    assert es[..0] == [];
    while i < |es| && added < MAX_PER_EVENT && newTotal < MAX_TOTAL
      invariant i <= |es|
      invariant news == News(KeysOf(bundled), Candidates(r, event, es[..i]))
      invariant known == KeysOf(bundled) + set k | k in news
      invariant existing == bundled + AsHooks(news)
      invariant added == |news| <= MAX_PER_EVENT && newTotal == total + added
      invariant newTotal <= MAX_TOTAL || news == []
    {
      assert es[..i + 1] == es[..i] + [es[i]];
      CandidatesSnoc(r, event, es[..i], es[i]);
      var c := Candidate(r, event, es[i]);
      if c.Some? {
        NewsSnoc(KeysOf(bundled), Candidates(r, event, es[..i]), c.value);
        if c.value !in known {
          existing := existing + [Hook(c.value)];
          known := known + {c.value};
          news := news + [c.value];
          added, newTotal := added + 1, newTotal + 1;
        }
      } else {
        assert Candidates(r, event, es[..i]) + [] == Candidates(r, event, es[..i]);
      }
      i := i + 1;
    }
    StoppedInTime(r, event, bundled, es, total, i);
  }

  lemma EmptyNews(r: Rules, event: Event, known: set<Key>)
    ensures News(known, Candidates(r, event, [])) == []
  {
  }

  /** _merge_kiro_hooks(). */
  method MergeKiroHooks(r: Rules, hooks: Hooks, user: UserHooks) returns (merged: Hooks)
    ensures merged == MergeAll(r, hooks, 0, user).0
  {
    merged := hooks;
    var total := 0;
    assert user[..0] == [];
    for i := 0 to |user|
      invariant (merged, total) == MergeAll(r, hooks, 0, user[..i])
    {
      assert user[..i + 1][..i] == user[..i];
      var event := user[i].0;
      if r.knows(event) && user[i].1.Some? {
        var existing := BundledAt(merged, event);
        existing, total := AddBucket(r, event, existing, user[i].1.value, total);
        merged := merged[event := existing];
      }
    }
    assert user[..|user|] == user;
  }
}
