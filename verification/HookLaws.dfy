/** What merging the user's hooks comes to, entry by entry. */
module HookLaws {
  import opened Options
  import opened HookMerge

  /** The entry is a valid hook with this command and matcher. */
  predicate Accepts(r: Rules, event: Event, e: RawEntry, k: Key) {
    && e.Entry? && e.command.Some? && e.command.value != ""
    && k.0.Some? && r.resolve(e.command.value, event) == k.0
    && (e.matcher == Absent <==> k.1 == None)
    && (k.1.Some? ==> e.matcher == Text(k.1.value) && |k.1.value| <= 200 && r.safe(k.1.value))
  }

  ghost predicate Rising(ps: seq<nat>, bound: nat) {
    (forall i :: 0 <= i < |ps| ==> ps[i] < bound) && forall i, j :: 0 <= i < j < |ps| ==> ps[i] < ps[j]
  }

  /** No more than this many hooks can be added. */
  predicate Full(count: nat, total: nat) {
    count >= 10 || total + count >= 20
  }

  /** The keys come from the entries at the positions `ps`, in their order, and are new and all different. */
  ghost predicate Picked(r: Rules, event: Event, existing: seq<Hook>, es: seq<RawEntry>, ks: seq<Key>, ps: seq<nat>) {
    && |ps| == |ks| && Rising(ps, |es|)
    && (forall i :: 0 <= i < |ks| ==> Accepts(r, event, es[ps[i]], ks[i]) && Hook(ks[i]) !in existing)
    && forall i, j :: 0 <= i < j < |ks| ==> ks[i] != ks[j]
  }

  /** The valid entry `n` brings nothing: its hook is there already, or was added by it or before it. */
  ghost predicate Covered(existing: seq<Hook>, ks: seq<Key>, ps: seq<nat>, k: Key, n: nat)
    requires |ps| == |ks|
  {
    Hook(k) in existing || exists i :: 0 <= i < |ks| && ks[i] == k && ps[i] <= n
  }

  /** Entry `n` comes after all that was added, and no more can be. */
  ghost predicate Behind(ps: seq<nat>, total: nat, n: nat) {
    Full(|ps|, total) && forall i :: 0 <= i < |ps| ==> ps[i] < n
  }

  /** One event's list: the hooks that were there, then the hook of each valid entry that brings a new one, in order,
      until ten are added to the event or twenty to all events. */
  ghost predicate BucketIs(r: Rules, event: Event, existing: seq<Hook>, es: seq<RawEntry>, total: nat, after: seq<Hook>, ks: seq<Key>,
                           ps: seq<nat>) {
    && |after| == |existing| + |ks| && after[..|existing|] == existing
    && (forall i :: 0 <= i < |ks| ==> after[|existing| + i] == Hook(ks[i]))
    && Picked(r, event, existing, es, ks, ps)
    && |ks| <= 10 && (ks == [] || total + |ks| <= 20)
    && forall n, k :: 0 <= n < |es| && Accepts(r, event, es[n], k) ==> Covered(existing, ks, ps, k, n) || Behind(ps, total, n)
  }

  ghost predicate BucketWords(r: Rules, event: Event, existing: seq<Hook>, es: seq<RawEntry>, total: nat, after: seq<Hook>) {
    exists ks, ps :: BucketIs(r, event, existing, es, total, after, ks, ps)
  }

  // ----- one bucket -----

  lemma CandidateIs(r: Rules, event: Event, e: RawEntry, k: Key)
    ensures Candidate(r, event, e) == Some(k) <==> Accepts(r, event, e, k)
  {
  }

  lemma KeyThere(hs: seq<Hook>, k: Key)
    ensures k in KeysOf(hs) <==> Hook(k) in hs
  {
    if k in KeysOf(hs) {
      var h :| h in hs && h.Hook? && h.key == k;
      assert h == Hook(k);
    }
  }

  lemma CoveredLater(existing: seq<Hook>, ks: seq<Key>, ps: seq<nat>, k: Key, n: nat, x: Key, p: nat)
    requires |ps| == |ks| && Covered(existing, ks, ps, k, n)
    ensures Covered(existing, ks + [x], ps + [p], k, n)
  {
    if Hook(k) !in existing {
      var i :| 0 <= i < |ks| && ks[i] == k && ps[i] <= n;
      assert (ks + [x])[i] == k && (ps + [p])[i] == ps[i];
    }
  }

  /** Without the caps: every valid entry is covered. */
  lemma {:induction false} NewsPicked(r: Rules, event: Event, existing: seq<Hook>, es: seq<RawEntry>) returns (ps: seq<nat>)
    ensures Picked(r, event, existing, es, News(KeysOf(existing), Candidates(r, event, es)), ps)
    ensures forall n, k :: 0 <= n < |es| && Accepts(r, event, es[n], k) ==>
      Covered(existing, News(KeysOf(existing), Candidates(r, event, es)), ps, k, n)
  {
    if es == [] {
      ps := [];
    } else {
      var init, e := es[..|es| - 1], es[|es| - 1];
      var before := NewsPicked(r, event, existing, init);
      assert es == init + [e];
      ps := EntryPicked(r, event, existing, init, e, before);
    }
  }

  lemma EntryPicked(r: Rules, event: Event, existing: seq<Hook>, es: seq<RawEntry>, e: RawEntry, before: seq<nat>)
      returns (ps: seq<nat>)
    requires Picked(r, event, existing, es, News(KeysOf(existing), Candidates(r, event, es)), before)
    requires forall n, k :: 0 <= n < |es| && Accepts(r, event, es[n], k) ==>
      Covered(existing, News(KeysOf(existing), Candidates(r, event, es)), before, k, n)
    ensures Picked(r, event, existing, es + [e], News(KeysOf(existing), Candidates(r, event, es + [e])), ps)
    ensures forall n, k :: 0 <= n < |es + [e]| && Accepts(r, event, (es + [e])[n], k) ==>
      Covered(existing, News(KeysOf(existing), Candidates(r, event, es + [e])), ps, k, n)
  {
    hide KeysOf, News, Candidates, Candidate, Accepts, Covered;
    var known, cs := KeysOf(existing), Candidates(r, event, es);
    var ks := News(known, cs);
    CandidatesSnoc(r, event, es, e);
    assert cs + [] == cs;
    forall k ensures Candidate(r, event, e) == Some(k) <==> Accepts(r, event, e, k) { CandidateIs(r, event, e, k); }
    ps := before;
    if Candidate(r, event, e).Some? {
      var c := Candidate(r, event, e).value;
      NewsSnoc(known, cs, c);
      KeyThere(existing, c);
      if c !in known && c !in ks { ps := before + [|es|]; }
      assert Covered(existing, News(known, cs + [c]), ps, c, |es|) by { CoversItself(existing, ks, before, c, |es|); }
      forall n, k | 0 <= n < |es| && Accepts(r, event, es[n], k)
        ensures Covered(existing, News(known, cs + [c]), ps, k, n)
      {
        CoveredLater(existing, ks, before, k, n, c, |es|);
      }
    }
    forall n, k | 0 <= n < |es + [e]| && Accepts(r, event, (es + [e])[n], k)
      ensures Covered(existing, News(known, Candidates(r, event, es + [e])), ps, k, n)
    {
      assert (es + [e])[n] == if n < |es| then es[n] else e;
    }
  }

  lemma CoversItself(existing: seq<Hook>, ks: seq<Key>, ps: seq<nat>, c: Key, n: nat)
    requires |ps| == |ks| && forall i :: 0 <= i < |ps| ==> ps[i] < n
    ensures Hook(c) in existing || c in ks ==> Covered(existing, ks, ps, c, n)
    ensures Covered(existing, ks + [c], ps + [n], c, n)
  {
    assert (ks + [c])[|ks|] == c && (ps + [n])[|ks|] == n;
    if c in ks { var i :| 0 <= i < |ks| && ks[i] == c; }
  }

  lemma PickedPrefix(r: Rules, event: Event, existing: seq<Hook>, es: seq<RawEntry>, ks: seq<Key>, ps: seq<nat>, m: nat)
    requires Picked(r, event, existing, es, ks, ps) && m <= |ks|
    ensures Picked(r, event, existing, es, ks[..m], ps[..m])
  {
    hide Accepts;
  }

  lemma PickedHas(r: Rules, event: Event, existing: seq<Hook>, es: seq<RawEntry>, ks: seq<Key>, ps: seq<nat>)
    requires Picked(r, event, existing, es, ks, ps)
    ensures |ps| == |ks| && Rising(ps, |es|)
  {
  }

  lemma CoveredOrBehind(existing: seq<Hook>, ks: seq<Key>, ps: seq<nat>, m: nat, bound: nat, total: nat, k: Key, n: nat)
    requires |ps| == |ks| && Rising(ps, bound) && m <= |ks| && (m < |ks| ==> Full(m, total))
    requires Covered(existing, ks, ps, k, n)
    ensures Covered(existing, ks[..m], ps[..m], k, n) || Behind(ps[..m], total, n)
  {
    if Hook(k) !in existing {
      var i :| 0 <= i < |ks| && ks[i] == k && ps[i] <= n;
      if i < m { assert ks[..m][i] == k && ps[..m][i] == ps[i]; }
    }
  }

  /** What a bucket adds. */
  lemma AddedIs(r: Rules, event: Event, existing: seq<Hook>, es: seq<RawEntry>, total: nat)
    ensures BucketWords(r, event, existing, es, total, existing + AsHooks(Added(r, event, existing, es, total)))
  {
    hide News, Candidates, Accepts, KeysOf, Covered, Behind, Picked;
    var news := News(KeysOf(existing), Candidates(r, event, es));
    var all := NewsPicked(r, event, existing, es);
    var ks := Added(r, event, existing, es, total);
    assert |all| == |news| && Rising(all, |es|) by { PickedHas(r, event, existing, es, news, all); }
    var ps := all[..|ks|];
    PickedPrefix(r, event, existing, es, news, all, |ks|);
    forall n, k | 0 <= n < |es| && Accepts(r, event, es[n], k) ensures Covered(existing, ks, ps, k, n) || Behind(ps, total, n) {
      CoveredOrBehind(existing, news, all, |ks|, |es|, total, k, n);
    }
    assert BucketIs(r, event, existing, es, total, existing + AsHooks(ks), ks, ps);
  }

  // ----- the whole merge -----

  /** What bucket `i` of the user's hooks does to its event. */
  ghost predicate EventWords(r: Rules, hooks: Hooks, user: UserHooks, merged: Hooks, i: nat, total: int)
    requires i < |user|
  {
    var (event, bucket) := user[i];
    var before, after := BundledAt(hooks, event), BundledAt(merged, event);
    if r.knows(event) && bucket.Some? then total >= 0 && BucketWords(r, event, before, bucket.value, total, after)
    else after == before
  }

  /** Every bucket adds its own valid entries, counting what the earlier ones have added; other events stay. */
  ghost predicate MergeWords(r: Rules, hooks: Hooks, user: UserHooks, merged: Hooks) {
    && (forall i :: 0 <= i < |user| ==> EventWords(r, hooks, user, merged, i, Gained(hooks, merged, user[..i])))
    && forall e :: (forall i :: 0 <= i < |user| ==> user[i].0 != e) ==> BundledAt(merged, e) == BundledAt(hooks, e)
  }

  lemma {:induction false} MergeIs(r: Rules, hooks: Hooks, user: UserHooks)
    requires EventsDistinct(user)
    ensures MergeWords(r, hooks, user, MergeAll(r, hooks, 0, user).0)
  {
    if user != [] {
      var init, last := user[..|user| - 1], user[|user| - 1];
      MergeIs(r, hooks, init);
      MergeExtends(r, hooks, init);
      MergeExtends(r, hooks, user);
      LastBucketIs(r, hooks, user, MergeAll(r, hooks, 0, init));
    }
  }

  lemma LastBucketIs(r: Rules, hooks: Hooks, user: UserHooks, before: (Hooks, nat))
    requires user != [] && EventsDistinct(user)
    requires MergeWords(r, hooks, user[..|user| - 1], before.0)
    requires before.1 == Gained(hooks, before.0, user[..|user| - 1])
    ensures MergeWords(r, hooks, user, MergeBucket(r, before.0, before.1, user[|user| - 1]).0)
  {
    hide BucketWords, Added, Gained;
    var init, last := user[..|user| - 1], user[|user| - 1];
    var m := MergeBucket(r, before.0, before.1, last).0;
    assert forall e :: e != last.0 ==> BundledAt(m, e) == BundledAt(before.0, e);
    assert BundledAt(before.0, last.0) == BundledAt(hooks, last.0);
    forall i | 0 <= i < |user| ensures EventWords(r, hooks, user, m, i, Gained(hooks, m, user[..i])) {
      assert forall n :: 0 <= n < i ==> user[..i][n].0 != last.0;
      GainedElsewhere(hooks, before.0, m, user[..i]);
      if i < |init| {
        assert init[..i] == user[..i] && init[i] == user[i];
        assert EventWords(r, hooks, init, before.0, i, Gained(hooks, before.0, init[..i]));
      } else {
        assert user[..i] == init;
        if r.knows(last.0) && last.1.Some? { AddedIs(r, last.0, BundledAt(hooks, last.0), last.1.value, before.1); }
      }
    }
    forall e | forall i :: 0 <= i < |user| ==> user[i].0 != e ensures BundledAt(m, e) == BundledAt(hooks, e) {
      assert user[|user| - 1].0 != e;
      assert forall i :: 0 <= i < |init| ==> init[i].0 == user[i].0;
    }
  }
}
