/** What merging a fetch and capping the list come to, comment by comment. */
module CommentLaws {
  import opened ArtifactComments
  import P = CommentPruning
  import M = CommentMerge

  ghost predicate Ascending(ps: seq<nat>, bound: nat) {
    (forall i :: 0 <= i < |ps| ==> ps[i] < bound) && forall i, j :: 0 <= i < j < |ps| ==> ps[i] < ps[j]
  }

  /** `part` is `s` at the positions `ps`, which are those of the members that pass. */
  ghost predicate PartAt<T(!new)>(p: T -> bool, s: seq<T>, part: seq<T>, ps: seq<nat>) {
    && |ps| == |part| && Ascending(ps, |s|)
    && (forall i :: 0 <= i < |ps| ==> s[ps[i]] == part[i])
    && forall n :: 0 <= n < |s| ==> (n in ps <==> p(s[n]))
  }

  lemma PartSnoc<T(!new)>(p: T -> bool, s: seq<T>, x: T, part: seq<T>, before: seq<nat>) returns (ps: seq<nat>)
    requires PartAt(p, s, part, before)
    ensures PartAt(p, s + [x], if p(x) then part + [x] else part, ps)
  {
    ps := if p(x) then before + [|s|] else before;
    forall n | 0 <= n < |s + [x]| ensures n in ps <==> p((s + [x])[n]) {
      if n < |s| {
        assert (s + [x])[n] == s[n] && (n in ps <==> n in before);
      } else {
        assert p(x) ==> ps[|before|] == n;
      }
    }
  }

  lemma {:induction false} FilterAt<T(!new)>(p: T -> bool, s: seq<T>) returns (ps: seq<nat>)
    ensures PartAt(p, s, Filter(p, s), ps)
    decreases |s|
  {
    if s == [] {
      ps := [];
    } else {
      hide PartAt;
      var init, x := s[..|s| - 1], s[|s| - 1];
      var before := FilterAt(p, init);
      assert s == init + [x];
      FilterSnoc(p, init, x);
      ps := PartSnoc(p, init, x, Filter(p, init), before);
    }
  }

  // ----- the fetch -----

  /** `rc` is the last comment of the fetch that the provider has under its origin. */
  ghost predicate Latest(remote: seq<Comment>, rc: Comment) {
    rc.origin != "" && rc.origin != "local" && exists i :: LastAt(remote, rc, i)
  }

  ghost predicate LastAt(remote: seq<Comment>, rc: Comment, i: nat) {
    i < |remote| && remote[i] == rc && forall j :: i < j < |remote| ==> remote[j].origin != rc.origin
  }

  lemma {:induction false} LatestIs(remote: seq<Comment>, rc: Comment)
    ensures var f := M.Incoming(remote); Latest(remote, rc) <==> rc.origin in f.latest && f.latest[rc.origin] == rc
  {
    if remote != [] {
      var init, last := remote[..|remote| - 1], remote[|remote| - 1];
      LatestIs(init, rc);
      M.IncomingOk(init);
      LatestSnoc(init, last, rc);
      assert remote == init + [last];
      M.IncomingSnoc(init, last);
    }
  }

  lemma LatestSnoc(remote: seq<Comment>, x: Comment, rc: Comment)
    ensures Latest(remote + [x], rc) <==>
      if x.origin == rc.origin then x == rc && rc.origin != "" && rc.origin != "local" else Latest(remote, rc)
  {
    var all := remote + [x];
    if x == rc { assert LastAt(all, rc, |remote|); }
    if i: nat :| LastAt(remote, rc, i) {
      if x.origin != rc.origin { assert LastAt(all, rc, i); }
    }
    if i: nat :| LastAt(all, rc, i) {
      assert i < |remote| ==> all[|remote|].origin != rc.origin;
      if x.origin != rc.origin {
        assert forall j :: i < j < |remote| ==> all[j] == remote[j];
        assert LastAt(remote, rc, i);
      }
    }
  }

  /** The first comment with this origin is at position `i` of the fetch. */
  ghost predicate FirstAt(remote: seq<Comment>, o: string, i: nat) {
    i < |remote| && remote[i].origin == o && forall j :: 0 <= j < i ==> remote[j].origin != o
  }

  ghost predicate OrderAt(remote: seq<Comment>, order: seq<string>, qs: seq<nat>) {
    && |qs| == |order| && Ascending(qs, |remote|)
    && forall i :: 0 <= i < |qs| ==> FirstAt(remote, order[i], qs[i])
  }

  lemma FirstSnoc(remote: seq<Comment>, x: Comment, o: string, i: nat)
    requires FirstAt(remote, o, i)
    ensures FirstAt(remote + [x], o, i)
  {
  }

  lemma {:induction false} NotFetched(remote: seq<Comment>, o: string)
    requires o !in M.Incoming(remote).latest && o != "" && o != "local"
    ensures forall j :: 0 <= j < |remote| ==> remote[j].origin != o
  {
    if remote != [] {
      NotFetched(remote[..|remote| - 1], o);
    }
  }

  lemma {:induction false} OrderIs(remote: seq<Comment>) returns (qs: seq<nat>)
    ensures OrderAt(remote, M.Incoming(remote).order, qs)
  {
    if remote == [] {
      qs := [];
    } else {
      var init, x := remote[..|remote| - 1], remote[|remote| - 1];
      qs := OrderIs(init);
      assert remote == init + [x];
      var f := M.Incoming(init);
      M.IncomingSnoc(init, x);
      forall i | 0 <= i < |qs| ensures FirstAt(remote, f.order[i], qs[i]) { FirstSnoc(init, x, f.order[i], qs[i]); }
      if !M.IsLocal(x) && x.origin !in f.latest {
        NotFetched(init, x.origin);
        assert FirstAt(remote, x.origin, |init|);
        qs := qs + [|init|];
      }
    }
  }

  // ----- the merge -----

  predicate RootIn(c: Comment, t: string) {
    (c.parent == "" || c.thread == c.id) && (t == c.thread || t == c.id)
  }

  ghost predicate TombstoneFor(remote: seq<Comment>, rc: Comment, o: string) {
    Latest(remote, rc) && rc.deleted && rc.origin == o
  }

  /** Thread `t` goes: a tombstone of the fetch is its root, or the mirror of one is. */
  ghost predicate Gone(es: seq<Comment>, remote: seq<Comment>, t: string) {
    || (exists rc: Comment :: TombstoneFor(remote, rc, rc.origin) && RootIn(rc, t))
    || exists c, rc :: c in es && TombstoneFor(remote, rc, c.origin) && RootIn(c, t)
  }

  ghost predicate Stays(es: seq<Comment>, remote: seq<Comment>, c: Comment) {
    !Gone(es, remote, c.thread) && !exists rc :: TombstoneFor(remote, rc, c.origin)
  }

  /** What a comment that stays looks like afterwards: it takes status, body and author from the provider's latest, and
      the time of its update, if it has one, when any of the three differs. */
  ghost predicate Seen(remote: seq<Comment>, c: Comment, x: Comment) {
    && (forall rc :: Latest(remote, rc) && rc.origin == c.origin ==>
         if c.status == rc.status && c.body == rc.body && c.author == rc.author then x == c
         else x == c.(status := rc.status, body := rc.body, author := rc.author,
                      updated := if rc.updated == "" then c.updated else rc.updated))
    && ((forall rc :: Latest(remote, rc) ==> rc.origin != c.origin) ==> x == c)
  }

  /** The provider's latest that is added: live, of a thread that stays, and without a mirror that stays. */
  ghost predicate Added(es: seq<Comment>, remote: seq<Comment>, rc: Comment) {
    && Latest(remote, rc) && !rc.deleted && !Gone(es, remote, rc.thread)
    && forall c :: c in es && Stays(es, remote, c) ==> c.origin != rc.origin
  }

  /** First the comments that stay, in their order; then the added ones, by where the fetch first has their origins. */
  ghost predicate MergedAt(es: seq<Comment>, remote: seq<Comment>, m: seq<Comment>, ps: seq<nat>, qs: seq<nat>) {
    && |m| == |ps| + |qs| && Ascending(ps, |es|) && Ascending(qs, |remote|)
    && (forall n :: 0 <= n < |es| ==> (n in ps <==> Stays(es, remote, es[n])))
    && (forall i :: 0 <= i < |ps| ==> Seen(remote, es[ps[i]], m[i]))
    && (forall i :: 0 <= i < |qs| ==> Added(es, remote, m[|ps| + i]) && FirstAt(remote, m[|ps| + i].origin, qs[i]))
    && forall rc :: Added(es, remote, rc) ==> rc in m[|ps|..]
  }

  lemma LatestAll(remote: seq<Comment>)
    ensures forall rc :: Latest(remote, rc) <==> rc.origin in M.Incoming(remote).latest && M.Incoming(remote).latest[rc.origin] == rc
  {
    forall rc ensures Latest(remote, rc) <==> rc.origin in M.Incoming(remote).latest && M.Incoming(remote).latest[rc.origin] == rc {
      LatestIs(remote, rc);
    }
  }

  lemma TombstoneIs(remote: seq<Comment>, o: string)
    ensures M.Tombstoned(M.Incoming(remote), o) <==> exists rc :: TombstoneFor(remote, rc, o)
  {
    hide Latest;
    var f := M.Incoming(remote);
    LatestAll(remote);
    M.IncomingOk(remote);
    if M.Tombstoned(f, o) { assert TombstoneFor(remote, f.latest[o], o); }
  }

  lemma GoneIs(es: seq<Comment>, remote: seq<Comment>, t: string)
    ensures M.Dead(es, M.Incoming(remote), t) <==> Gone(es, remote, t)
  {
    hide Latest, TombstoneFor;
    var f := M.Incoming(remote);
    M.IncomingOk(remote);
    if o :| o in f.latest && f.latest[o].deleted && M.Kills(f.latest[o], t) { UpstreamGone(remote, f.latest[o]); }
    if rc: Comment :| TombstoneFor(remote, rc, rc.origin) && RootIn(rc, t) {
      UpstreamGone(remote, rc);
      assert M.Kills(f.latest[rc.origin], t);
    }
    forall c: Comment ensures M.Tombstoned(f, c.origin) <==> exists rc :: TombstoneFor(remote, rc, c.origin) {
      TombstoneIs(remote, c.origin);
    }
  }

  lemma UpstreamGone(remote: seq<Comment>, rc: Comment)
    ensures var f := M.Incoming(remote);
      TombstoneFor(remote, rc, rc.origin) <==> rc.origin in f.latest && f.latest[rc.origin] == rc && rc.deleted
  {
    LatestIs(remote, rc);
  }

  lemma StaysIs(es: seq<Comment>, remote: seq<Comment>, c: Comment)
    ensures M.Survives(es, M.Incoming(remote), c) <==> Stays(es, remote, c)
  {
    hide Latest, M.Dead, Gone, TombstoneFor, M.Tombstoned;
    GoneIs(es, remote, c.thread);
    TombstoneIs(remote, c.origin);
    if M.IsLocal(c) { LocalHasNone(remote, c.origin); }
  }

  lemma LocalHasNone(remote: seq<Comment>, o: string)
    requires o == "" || o == "local"
    ensures !exists rc :: TombstoneFor(remote, rc, o)
  {
  }

  lemma SeenIs(remote: seq<Comment>, c: Comment)
    ensures Seen(remote, c, M.Refreshed(M.Incoming(remote), c))
  {
    hide Latest;
    LatestAll(remote);
    M.IncomingOk(remote);
    var f := M.Incoming(remote);
    if !M.IsLocal(c) && c.origin in f.latest { assert Latest(remote, f.latest[c.origin]); }
  }

  lemma AddedIs(es: seq<Comment>, remote: seq<Comment>, o: string, rc: Comment)
    requires o in M.Incoming(remote).latest && M.Incoming(remote).latest[o] == rc
    ensures M.Arrives(es, M.Incoming(remote), o) <==> Added(es, remote, rc)
  {
    hide Latest, M.Dead, Gone, M.Survives, Stays;
    var f := M.Incoming(remote);
    M.IncomingOk(remote);
    LatestIs(remote, rc);
    GoneIs(es, remote, rc.thread);
    forall c ensures c in M.Survivors(es, f) <==> c in es && Stays(es, remote, c) {
      M.SurvivorMember(es, f, c);
      StaysIs(es, remote, c);
    }
    if M.Mirrored(M.Survivors(es, f), o) {
      var c :| c in M.Survivors(es, f) && !M.IsLocal(c) && c.origin == o;
      assert c in es && Stays(es, remote, c);
    }
    if exists c :: c in es && Stays(es, remote, c) && c.origin == o {
      var c :| c in es && Stays(es, remote, c) && c.origin == o;
      assert c in M.Survivors(es, f);
    }
  }

  /** A merge, whole: what stays and how it looks, what is added, and in which order. */
  lemma MergedIs(es: seq<Comment>, remote: seq<Comment>) returns (ps: seq<nat>, qs: seq<nat>)
    requires M.FetchOk(M.Incoming(remote))
    ensures MergedAt(es, remote, M.Merge(es, M.Incoming(remote)), ps, qs)
  {
    hide M.FetchOk, Stays, Seen, Added, FirstAt, Filter;
    var f := M.Incoming(remote);
    ps := KeptAt(es, remote);
    qs := AddedAt(es, remote);
    M.ArrivalsKnown(es, f);
  }

  lemma KeptAt(es: seq<Comment>, remote: seq<Comment>) returns (ps: seq<nat>)
    ensures var kept := M.Refresh(M.Incoming(remote), M.Survivors(es, M.Incoming(remote)));
      && |kept| == |ps| && Ascending(ps, |es|)
      && (forall n :: 0 <= n < |es| ==> (n in ps <==> Stays(es, remote, es[n])))
      && forall i :: 0 <= i < |ps| ==> Seen(remote, es[ps[i]], kept[i])
  {
    hide Stays, Seen, M.Survives, M.Refreshed, Filter, M.Incoming;
    var f := M.Incoming(remote);
    var kept := M.Survivors(es, f);
    ps := FilterAt(c => M.Survives(es, f, c), es);
    M.RefreshOrigins(f, kept);
    forall c ensures M.Survives(es, f, c) <==> Stays(es, remote, c) { StaysIs(es, remote, c); }
    forall c ensures Seen(remote, c, M.Refreshed(f, c)) { SeenIs(remote, c); }
  }

  lemma AddedAt(es: seq<Comment>, remote: seq<Comment>) returns (qs: seq<nat>)
    ensures forall o :: o in M.Arrivals(es, M.Incoming(remote)) ==> o in M.Incoming(remote).latest
    ensures var added := M.Take(M.Incoming(remote), M.Arrivals(es, M.Incoming(remote)));
      && |added| == |qs| && Ascending(qs, |remote|)
      && (forall i :: 0 <= i < |qs| ==> Added(es, remote, added[i]) && FirstAt(remote, added[i].origin, qs[i]))
      && forall rc :: Added(es, remote, rc) ==> rc in added
  {
    hide M.Arrives, Added, Filter, M.Incoming, FirstAt, Latest;
    var f := M.Incoming(remote);
    M.IncomingOk(remote);
    M.ArrivalsKnown(es, f);
    var os := M.Arrivals(es, f);
    forall o | o in os ensures o in f.latest { assert o in f.order; }
    M.TakeOrigins(f, os);
    var added := M.Take(f, os);
    var first := OrderIs(remote);
    var at := FilterAt(o => M.Arrives(es, f, o), f.order);
    qs := seq(|at|, i requires 0 <= i < |at| => first[at[i]]);
    forall i | 0 <= i < |qs| ensures Added(es, remote, added[i]) && FirstAt(remote, added[i].origin, qs[i]) {
      TakenIs(f, os, i);
      assert os[i] in os && M.Arrives(es, f, os[i]);
      AddedIs(es, remote, os[i], added[i]);
    }
    forall rc | Added(es, remote, rc) ensures rc in added {
      AddedIsLatest(es, remote, rc);
      LatestIs(remote, rc);
      AddedIs(es, remote, rc.origin, rc);
      FilterMember(o => M.Arrives(es, f, o), f.order, rc.origin);
      M.TakeMember(f, os, rc);
    }
  }

  lemma AddedIsLatest(es: seq<Comment>, remote: seq<Comment>, rc: Comment)
    requires Added(es, remote, rc)
    ensures Latest(remote, rc)
  {
  }

  lemma {:induction false} TakenIs(f: M.Fetch, os: seq<string>, i: nat)
    requires (forall o :: o in os ==> o in f.latest) && i < |os|
    ensures i < |M.Take(f, os)| && os[i] in f.latest && M.Take(f, os)[i] == f.latest[os[i]]
  {
    assert os[0] in os;
    if i > 0 {
      TakenIs(f, os[1..], i - 1);
    }
  }

  // ----- the cap -----

  predicate InThread(c: Comment, k: string) {
    if c.thread == "" then c.id == k else c.thread == k
  }

  /** The thread of the first comment with this id, or the id itself. */
  ghost predicate KeptThread(cs: seq<Comment>, id: string, k: string) {
    || (exists i :: 0 <= i < |cs| && cs[i].id == id && InThread(cs[i], k) && forall j :: 0 <= j < i ==> cs[j].id != id)
    || (k == id && forall i :: 0 <= i < |cs| ==> cs[i].id != id)
  }

  /** Comment `n` is in a thread, other than `keep`, that begins before the bound. */
  ghost predicate Falls(cs: seq<Comment>, keep: string, bound: nat, n: nat)
    requires n < |cs|
  {
    !InThread(cs[n], keep) && exists j, k :: 0 <= j < bound && j < |cs| && InThread(cs[j], k) && InThread(cs[n], k)
  }

  /** With that bound there are still more than 500. */
  ghost predicate Crowded(cs: seq<Comment>, keep: string, bound: nat) {
    exists rs :: |rs| > 500 && Ascending(rs, |cs|) && forall i :: 0 <= i < |rs| ==> !Falls(cs, keep, bound, rs[i])
  }

  /** The list without the whole threads that begin before the bound, which is as low as the cap of 500 allows; beyond the
      cap only the thread `keep` is left. */
  ghost predicate CappedAt(cs: seq<Comment>, keep: string, m: seq<Comment>, ps: seq<nat>, bound: nat) {
    && |m| == |ps| && Ascending(ps, |cs|) && (forall i :: 0 <= i < |ps| ==> m[i] == cs[ps[i]])
    && (forall n :: 0 <= n < |cs| ==> (n in ps <==> !Falls(cs, keep, bound, n)))
    && (|m| <= 500 || forall c :: c in m ==> InThread(c, keep))
    && forall j: nat :: j < bound ==> Crowded(cs, keep, j)
  }

  lemma {:induction false} KeptIs(cs: seq<Comment>, id: string)
    ensures KeptThread(cs, id, P.KeepThread(cs, id))
  {
    if cs != [] && cs[0].id != id {
      KeptIs(cs[1..], id);
      var k := P.KeepThread(cs[1..], id);
      if i :| 0 <= i < |cs[1..]| && cs[1..][i].id == id && InThread(cs[1..][i], k) && forall j :: 0 <= j < i ==> cs[1..][j].id != id {
        assert cs[i + 1] == cs[1..][i] && forall j :: 0 < j < i + 1 ==> cs[j] == cs[1..][j - 1];
      } else {
        assert forall i :: 0 < i < |cs| ==> cs[i] == cs[1..][i - 1];
      }
    } else if cs != [] {
      assert InThread(cs[0], P.KeepThread(cs, id));
    }
  }

  /** Where each thread of the order begins. */
  ghost predicate BeginAt(cs: seq<Comment>, order: seq<string>, fs: seq<nat>) {
    && |fs| == |order| && Ascending(fs, |cs|)
    && (forall i :: 0 <= i < |fs| ==> InThread(cs[fs[i]], order[i]))
    && forall i, n :: 0 <= i < |fs| && 0 <= n < |cs| && InThread(cs[n], order[i]) ==> fs[i] <= n
  }

  lemma BeginSnoc(cs: seq<Comment>, c: Comment, order: seq<string>, before: seq<nat>, k: string) returns (fs: seq<nat>)
    requires BeginAt(cs, order, before) && InThread(c, k)
    requires k !in order ==> forall n :: 0 <= n < |cs| ==> !InThread(cs[n], k)
    ensures BeginAt(cs + [c], if k in order then order else order + [k], fs)
  {
    fs := if k in order then before else before + [|cs|];
  }

  lemma NotBegun(cs: seq<Comment>, k: string)
    requires k !in P.Order(cs)
    ensures forall n :: 0 <= n < |cs| ==> !InThread(cs[n], k)
  {
    P.OrderMember(cs, k);
    assert forall n :: 0 <= n < |cs| ==> cs[n] in cs;
  }

  lemma {:induction false} ThreadsBegin(cs: seq<Comment>) returns (fs: seq<nat>)
    ensures BeginAt(cs, P.Order(cs), fs)
  {
    if cs == [] {
      fs := [];
    } else {
      hide BeginAt, P.Order, P.KeepThread;
      var init, c := cs[..|cs| - 1], cs[|cs| - 1];
      var before := ThreadsBegin(init);
      assert cs == init + [c];
      P.OrderSnoc(init, c);
      var k := P.ThreadOf(c);
      if k !in P.Order(init) { NotBegun(init, k); }
      fs := BeginSnoc(init, c, P.Order(init), before, k);
    }
  }

  /** Dropping the first `n` threads, in the words above. */
  lemma OldestFall(cs: seq<Comment>, keep: string, fs: seq<nat>, n: nat, bound: nat, p: nat)
    requires BeginAt(cs, P.Order(cs), fs) && n <= |fs| && p < |cs|
    requires forall i :: 0 <= i < |fs| ==> (i < n <==> fs[i] < bound)
    ensures Falls(cs, keep, bound, p) <==> P.ThreadOf(cs[p]) in P.Oldest(cs, keep, n)
  {
    hide P.Order;
    var k := P.ThreadOf(cs[p]);
    P.OrderMember(cs, k);
    assert cs[p] in cs;
    var i :| 0 <= i < |P.Order(cs)| && P.Order(cs)[i] == k;
    P.InOldest(cs, keep, n, i);
    assert InThread(cs[p], k) && InThread(cs[fs[i]], k);
    if Falls(cs, keep, bound, p) {
      var j, q :| 0 <= j < bound && j < |cs| && InThread(cs[j], q) && InThread(cs[p], q);
      assert q == k && fs[i] <= j;
    }
  }

  lemma KeptAfter(cs: seq<Comment>, keep: string, fs: seq<nat>, n: nat, bound: nat) returns (ps: seq<nat>)
    requires BeginAt(cs, P.Order(cs), fs) && n <= |fs| == |P.Order(cs)|
    requires forall i :: 0 <= i < |fs| ==> (i < n <==> fs[i] < bound)
    ensures var m := Filter(P.Outside(P.Oldest(cs, keep, n)), cs);
      && |m| == |ps| && Ascending(ps, |cs|) && (forall i :: 0 <= i < |ps| ==> m[i] == cs[ps[i]])
      && forall p :: 0 <= p < |cs| ==> (p in ps <==> !Falls(cs, keep, bound, p))
  {
    hide BeginAt, Falls, P.Order, P.Oldest, Filter;
    ps := FilterAt(P.Outside(P.Oldest(cs, keep, n)), cs);
    forall p | 0 <= p < |cs| ensures Falls(cs, keep, bound, p) <==> P.ThreadOf(cs[p]) in P.Oldest(cs, keep, n) {
      OldestFall(cs, keep, fs, n, bound, p);
    }
  }

  /** How many threads begin before the bound. */
  lemma BeginBefore(fs: seq<nat>, top: nat, bound: nat) returns (n: nat)
    requires Ascending(fs, top)
    ensures n <= |fs| && forall i :: 0 <= i < |fs| ==> (i < n <==> fs[i] < bound)
  {
    n := 0;
    while n < |fs| && fs[n] < bound
      invariant n <= |fs| && forall i :: 0 <= i < n ==> fs[i] < bound
    {
      n := n + 1;
    }
  }

  /** The capped list, whole. */
  lemma CappedIs(cs: seq<Comment>, keepId: string) returns (keep: string, ps: seq<nat>, bound: nat)
    ensures KeptThread(cs, keepId, keep)
    ensures CappedAt(cs, keep, P.Pruned(cs, P.KeepThread(cs, keepId)), ps, bound)
  {
    hide P.Pruned, P.Order, P.Oldest, Filter, Falls, KeptThread, P.KeepThread, Crowded;
    keep := P.KeepThread(cs, keepId);
    KeptIs(cs, keepId);
    var fs := ThreadsBegin(cs);
    var n := P.OldestGoFirst(cs, keep);
    bound := if n == 0 then 0 else fs[n - 1] + 1;
    ps := KeptAfter(cs, keep, fs, n, bound);
    forall j: nat | j < bound ensures Crowded(cs, keep, j) { StillCrowded(cs, keep, fs, n, j); }
    var drop := P.PrunedDropsThreads(cs, keep);
    forall c: Comment ensures P.ThreadOf(c) == keep <==> InThread(c, keep) {}
  }

  lemma StillCrowded(cs: seq<Comment>, keep: string, fs: seq<nat>, n: nat, j: nat)
    requires BeginAt(cs, P.Order(cs), fs) && 0 < n <= |fs| == |P.Order(cs)| && j <= fs[n - 1]
    requires forall m: nat :: m < n ==> |Filter(P.Outside(P.Oldest(cs, keep, m)), cs)| > 500
    ensures Crowded(cs, keep, j)
  {
    hide P.Order, P.Oldest, Filter, Falls;
    var m := BeginBefore(fs, |cs|, j);
    var rs := KeptAfter(cs, keep, fs, m, j);
    forall i | 0 <= i < |rs| ensures !Falls(cs, keep, j, rs[i]) { assert rs[i] in rs; }
  }
}
