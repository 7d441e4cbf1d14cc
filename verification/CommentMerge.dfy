/** Reconciling the comments a provider returned with the local mirror. */
module CommentMerge {
  import opened ArtifactComments

  /** What a fetch says: its origins in order of first appearance, and the last comment with each. */
  datatype Fetch = Fetch(order: seq<string>, latest: map<string, Comment>)

  predicate IsLocal(c: Comment) {
    c.origin == "" || c.origin == "local"
  }

  predicate IsRoot(c: Comment) {
    c.parent == "" || c.thread == c.id
  }

  /** The `incoming` dictionary. */
  function Incoming(remote: seq<Comment>): Fetch {
    if remote == [] then Fetch([], map[])
    else
      var before := Incoming(remote[..|remote| - 1]);
      var c := remote[|remote| - 1];
      if IsLocal(c) then before
      else Fetch(if c.origin in before.latest then before.order else before.order + [c.origin],
                 before.latest[c.origin := c])
  }

  ghost predicate FetchOk(f: Fetch) {
    && (forall o :: o in f.latest ==> f.latest[o].origin == o && !IsLocal(f.latest[o]))
    && (forall o :: o in f.order <==> o in f.latest)
    && (forall i, j :: 0 <= i < j < |f.order| ==> f.order[i] != f.order[j])
  }

  lemma {:induction false} IncomingOk(remote: seq<Comment>)
    ensures FetchOk(Incoming(remote))
  {
    if remote != [] {
      IncomingOk(remote[..|remote| - 1]);
    }
  }

  predicate Tombstoned(f: Fetch, o: string) {
    o in f.latest && f.latest[o].deleted
  }

  predicate Kills(c: Comment, t: string) {
    IsRoot(c) && (t == c.thread || t == c.id)
  }

  /** Thread `t` goes: its root came back deleted, or is mirrored here and came back deleted. */
  predicate Dead(es: seq<Comment>, f: Fetch, t: string) {
    || (exists o :: o in f.latest && f.latest[o].deleted && Kills(f.latest[o], t))
    || (exists c :: c in es && Tombstoned(f, c.origin) && Kills(c, t))
  }

  predicate Survives(es: seq<Comment>, f: Fetch, c: Comment) {
    !Dead(es, f, c.thread) && (IsLocal(c) || !Tombstoned(f, c.origin))
  }

  /** A mirror takes over the provider's status, body and author. */
  function Refreshed(f: Fetch, c: Comment): Comment {
    if IsLocal(c) || c.origin !in f.latest then c
    else
      var rc := f.latest[c.origin];
      if c.status != rc.status || c.body != rc.body || c.author != rc.author
      then c.(status := rc.status, body := rc.body, author := rc.author,
              updated := if rc.updated != "" then rc.updated else c.updated)
      else c
  }

  function Refresh(f: Fetch, cs: seq<Comment>): seq<Comment> {
    if cs == [] then [] else [Refreshed(f, cs[0])] + Refresh(f, cs[1..])
  }

  predicate Mirrored(cs: seq<Comment>, o: string) {
    exists c :: c in cs && !IsLocal(c) && c.origin == o
  }

  predicate Arrives(es: seq<Comment>, f: Fetch, o: string) {
    o in f.latest && !f.latest[o].deleted && !Dead(es, f, f.latest[o].thread)
      && !Mirrored(Filter(c => Survives(es, f, c), es), o)
  }

  function Take(f: Fetch, os: seq<string>): seq<Comment>
    requires forall o :: o in os ==> o in f.latest
  {
    if os == [] then [] else [f.latest[os[0]]] + Take(f, os[1..])
  }

  function Survivors(es: seq<Comment>, f: Fetch): seq<Comment> {
    Filter(c => Survives(es, f, c), es)
  }

  function Arrivals(es: seq<Comment>, f: Fetch): seq<string> {
    Filter(o => Arrives(es, f, o), f.order)
  }

  /** What merge_remote_comments() leaves: the surviving mirrors refreshed in place, then what is new. */
  function Merge(es: seq<Comment>, f: Fetch): seq<Comment>
    requires FetchOk(f)
  {
    ArrivalsKnown(es, f);
    Refresh(f, Survivors(es, f)) + Take(f, Arrivals(es, f))
  }

  lemma ArrivalsKnown(es: seq<Comment>, f: Fetch)
    ensures forall o :: o in Arrivals(es, f) ==> o in f.order && Arrives(es, f, o)
  {
    forall o | o in Arrivals(es, f) ensures o in f.order && Arrives(es, f, o) {
      FilterMember(o => Arrives(es, f, o), f.order, o);
    }
  }

  lemma SurvivorMember(es: seq<Comment>, f: Fetch, c: Comment)
    ensures c in Survivors(es, f) <==> c in es && Survives(es, f, c)
  {
    FilterMember(c => Survives(es, f, c), es, c);
  }

  // ----- members of the result -----

  lemma {:induction false} RefreshMember(f: Fetch, cs: seq<Comment>, x: Comment)
    ensures x in Refresh(f, cs) <==> exists c :: c in cs && Refreshed(f, c) == x
  {
    if cs != [] {
      RefreshMember(f, cs[1..], x);
      assert cs[0] in cs && forall c :: c in cs <==> c == cs[0] || c in cs[1..];
    }
  }

  lemma {:induction false} TakeMember(f: Fetch, os: seq<string>, x: Comment)
    requires forall o :: o in os ==> o in f.latest
    ensures x in Take(f, os) <==> exists o :: o in os && f.latest[o] == x
  {
    if os != [] {
      TakeMember(f, os[1..], x);
      assert os[0] in os && forall o :: o in os <==> o == os[0] || o in os[1..];
    }
  }

  /** Exactly what is in the list afterwards. */
  lemma MergeMember(es: seq<Comment>, f: Fetch, x: Comment)
    requires FetchOk(f)
    ensures x in Merge(es, f) <==>
      || (exists c :: c in es && Survives(es, f, c) && Refreshed(f, c) == x)
      || (x.origin in f.latest && f.latest[x.origin] == x && Arrives(es, f, x.origin))
  {
    ArrivalsKnown(es, f);
    RefreshMember(f, Survivors(es, f), x);
    TakeMember(f, Arrivals(es, f), x);
    forall c ensures c in Survivors(es, f) <==> c in es && Survives(es, f, c) { SurvivorMember(es, f, c); }
    FilterMember(o => Arrives(es, f, o), f.order, x.origin);
  }

  /** No comment of a thread whose root is tombstoned survives or comes back. */
  lemma DeadThreadsGo(es: seq<Comment>, f: Fetch, x: Comment)
    requires FetchOk(f) && x in Merge(es, f)
    ensures !Dead(es, f, x.thread) && !Tombstoned(f, x.origin)
  {
    MergeMember(es, f, x);
  }

  /** Every mirror shows what the provider says, and every comment of the fetch in a live thread is mirrored. */
  lemma FetchIsReflected(es: seq<Comment>, f: Fetch, o: string)
    requires FetchOk(f) && o in f.latest && !f.latest[o].deleted
    ensures forall x :: x in Merge(es, f) && x.origin == o ==>
      x.status == f.latest[o].status && x.body == f.latest[o].body && x.author == f.latest[o].author
    ensures !Dead(es, f, f.latest[o].thread) ==> Mirrored(Merge(es, f), o)
  {
    forall x | x in Merge(es, f) && x.origin == o
      ensures x.status == f.latest[o].status && x.body == f.latest[o].body && x.author == f.latest[o].author
    {
      MergeMember(es, f, x);
    }
    if !Dead(es, f, f.latest[o].thread) {
      if Mirrored(Survivors(es, f), o) {
        var c :| c in Survivors(es, f) && !IsLocal(c) && c.origin == o;
        SurvivorMember(es, f, c);
        MergeMember(es, f, Refreshed(f, c));
      } else {
        MergeMember(es, f, f.latest[o]);
      }
    }
  }

  // ----- local comments -----

  function Locals(es: seq<Comment>): seq<Comment> {
    Filter((c: Comment) => IsLocal(c), es)
  }

  lemma {:induction false} RefreshLocals(f: Fetch, cs: seq<Comment>)
    ensures Locals(Refresh(f, cs)) == Locals(cs)
  {
    if cs != [] {
      RefreshLocals(f, cs[1..]);
      assert Refresh(f, cs)[1..] == Refresh(f, cs[1..]);
    }
  }

  /** The local comments of live threads are all kept, unchanged and in order, and no other is left. */
  lemma LocalsUntouched(es: seq<Comment>, f: Fetch)
    requires FetchOk(f)
    ensures Locals(Merge(es, f)) == Filter((c: Comment) => IsLocal(c) && !Dead(es, f, c.thread), es)
  {
    var local := (c: Comment) => IsLocal(c);
    ArrivalsKnown(es, f);
    var new' := Take(f, Arrivals(es, f));
    forall x | x in new' ensures !IsLocal(x) { TakeMember(f, Arrivals(es, f), x); }
    FilterNone(local, new');
    FilterConcat(local, Refresh(f, Survivors(es, f)), new');
    RefreshLocals(f, Survivors(es, f));
    FilterTwice(c => Survives(es, f, c), local, (c: Comment) => IsLocal(c) && !Dead(es, f, c.thread), es);
  }

  // ----- origins -----

  /** Each provider comment is mirrored once. */
  ghost predicate OriginsUnique(cs: seq<Comment>) {
    forall i, j :: 0 <= i < j < |cs| && !IsLocal(cs[i]) ==> cs[i].origin != cs[j].origin
  }

  lemma {:induction false} FilterUnique(p: Comment -> bool, cs: seq<Comment>)
    requires OriginsUnique(cs)
    ensures OriginsUnique(Filter(p, cs))
  {
    if cs != [] {
      var rest := Filter(p, cs[1..]);
      FilterUnique(p, cs[1..]);
      forall j | 0 <= j < |rest| && !IsLocal(cs[0]) ensures rest[j].origin != cs[0].origin {
        FilterMember(p, cs[1..], rest[j]);
        var k :| 0 <= k < |cs[1..]| && cs[1..][k] == rest[j];
      }
    }
  }

  lemma {:induction false} RefreshOrigins(f: Fetch, cs: seq<Comment>)
    ensures |Refresh(f, cs)| == |cs|
    ensures forall i :: 0 <= i < |cs| ==> Refresh(f, cs)[i] == Refreshed(f, cs[i]) && Refresh(f, cs)[i].origin == cs[i].origin
  {
    if cs != [] {
      RefreshOrigins(f, cs[1..]);
    }
  }

  lemma {:induction false} TakeOrigins(f: Fetch, os: seq<string>)
    requires FetchOk(f) && forall o :: o in os ==> o in f.latest
    ensures |Take(f, os)| == |os| && forall i :: 0 <= i < |os| ==> Take(f, os)[i].origin == os[i]
  {
    if os != [] {
      assert os[0] in os;
      TakeOrigins(f, os[1..]);
    }
  }

  lemma {:induction false} FilterDistinct(p: string -> bool, s: seq<string>)
    requires forall i, j :: 0 <= i < j < |s| ==> s[i] != s[j]
    ensures forall i, j :: 0 <= i < j < |Filter(p, s)| ==> Filter(p, s)[i] != Filter(p, s)[j]
  {
    if s != [] {
      var rest := Filter(p, s[1..]);
      FilterDistinct(p, s[1..]);
      forall j | 0 <= j < |rest| ensures rest[j] != s[0] {
        FilterMember(p, s[1..], rest[j]);
        var k :| 0 <= k < |s[1..]| && s[1..][k] == rest[j];
      }
    }
  }

  lemma OriginsStayUnique(es: seq<Comment>, f: Fetch)
    requires FetchOk(f) && OriginsUnique(es)
    ensures OriginsUnique(Merge(es, f))
  {
    hide Survives, Refreshed, Refresh, Take;
    var kept, os := Survivors(es, f), Arrivals(es, f);
    ArrivalsKnown(es, f);
    FilterUnique(c => Survives(es, f, c), es);
    RefreshOrigins(f, kept);
    FilterDistinct(o => Arrives(es, f, o), f.order);
    assert forall i, j :: 0 <= i < j < |os| ==> os[i] != os[j];
    TakeOrigins(f, os);
    forall i, j | 0 <= i < |kept| && 0 <= j < |os| && !IsLocal(kept[i]) ensures kept[i].origin != os[j] {
      assert os[j] in os && kept[i] in kept;
      assert Mirrored(kept, kept[i].origin);
    }
    var m := Merge(es, f);
    forall i, j | 0 <= i < j < |m| && !IsLocal(m[i]) ensures m[i].origin != m[j].origin {
      assert m[i].origin == if i < |kept| then kept[i].origin else os[i - |kept|];
      assert m[j].origin == if j < |kept| then kept[j].origin else os[j - |kept|];
      if i >= |kept| {
        assert os[i - |kept|] != os[j - |kept|];
      } else if j < |kept| {
        assert !IsLocal(kept[i]);
      }
    }
  }

  // ----- merging the same fetch twice -----

  /** Mirrors agree with the fetch on id, thread and parent. */
  ghost predicate Aligned(es: seq<Comment>, f: Fetch) {
    forall c :: c in es && !IsLocal(c) && c.origin in f.latest ==>
      var rc := f.latest[c.origin]; c.id == rc.id && c.thread == rc.thread && c.parent == rc.parent
  }

  /** The threads the fetch alone tells to drop. */
  predicate DeadUpstream(f: Fetch, t: string) {
    Dead([], f, t)
  }

  lemma AlignedDead(es: seq<Comment>, f: Fetch, t: string)
    requires FetchOk(f) && Aligned(es, f)
    ensures Dead(es, f, t) <==> DeadUpstream(f, t)
  {
    if exists c :: c in es && Tombstoned(f, c.origin) && Kills(c, t) {
      var c :| c in es && Tombstoned(f, c.origin) && Kills(c, t);
      assert Kills(f.latest[c.origin], t);
    }
  }

  /** After a merge no tombstoned mirror is left, so a second one drops what the fetch alone tells it to. */
  lemma SecondDead(es: seq<Comment>, f: Fetch, t: string)
    requires FetchOk(f)
    ensures Dead(Merge(es, f), f, t) <==> DeadUpstream(f, t)
  {
    var m := Merge(es, f);
    forall c | c in m ensures !Tombstoned(f, c.origin) { DeadThreadsGo(es, f, c); }
    assert !exists c :: c in m && Tombstoned(f, c.origin) && Kills(c, t);
  }

  lemma {:induction false} RefreshFixed(f: Fetch, cs: seq<Comment>)
    requires forall c :: c in cs ==> Refreshed(f, c) == c
    ensures Refresh(f, cs) == cs
  {
    if cs != [] {
      assert cs[0] in cs;
      RefreshFixed(f, cs[1..]);
    }
  }

  lemma SecondKeepsAll(es: seq<Comment>, f: Fetch)
    requires FetchOk(f)
    ensures var m := Merge(es, f); Survivors(m, f) == m && Refresh(f, m) == m
  {
    var m := Merge(es, f);
    forall c | c in m ensures Survives(m, f, c) && Refreshed(f, c) == c {
      DeadThreadsGo(es, f, c);
      SecondDead(es, f, c.thread);
      MergeMember(es, f, c);
    }
    FilterAll(c => Survives(m, f, c), m);
    RefreshFixed(f, m);
  }

  /** A mirror of `o` that the merge keeps. */
  predicate KeptMirror(es: seq<Comment>, f: Fetch, o: string) {
    exists c :: c in es && !IsLocal(c) && c.origin == o && Survives(es, f, c)
  }

  /** What the provider has as `o` is live and its thread is not tombstoned. */
  predicate LiveUpstream(f: Fetch, o: string) {
    o in f.latest && !f.latest[o].deleted && !DeadUpstream(f, f.latest[o].thread)
  }

  /** A live comment of the fetch is mirrored afterwards exactly when no mirror here kills its thread or a
      mirror of it is kept anyway. */
  lemma MirroredIff(es: seq<Comment>, f: Fetch, o: string)
    requires FetchOk(f) && o in f.latest && !f.latest[o].deleted
    ensures Mirrored(Merge(es, f), o) <==> !Dead(es, f, f.latest[o].thread) || KeptMirror(es, f, o)
  {
    if !Dead(es, f, f.latest[o].thread) {
      FetchIsReflected(es, f, o);
    } else if KeptMirror(es, f, o) {
      var c :| c in es && !IsLocal(c) && c.origin == o && Survives(es, f, c);
      MergeMember(es, f, Refreshed(f, c));
    } else if Mirrored(Merge(es, f), o) {
      var x :| x in Merge(es, f) && !IsLocal(x) && x.origin == o;
      MergeMember(es, f, x);
    }
  }

  /** Merging the same fetch again changes nothing exactly when every comment that is live upstream has a thread
      that no mirror here kills, or a mirror that is kept. */
  lemma MergeTwiceIff(es: seq<Comment>, f: Fetch)
    requires FetchOk(f)
    ensures Merge(Merge(es, f), f) == Merge(es, f) <==>
      forall o :: LiveUpstream(f, o) ==> !Dead(es, f, f.latest[o].thread) || KeptMirror(es, f, o)
  {
    hide Merge, Dead, KeptMirror;
    forall o | LiveUpstream(f, o)
      ensures Mirrored(Merge(es, f), o) <==> !Dead(es, f, f.latest[o].thread) || KeptMirror(es, f, o)
    {
      MirroredIff(es, f, o);
    }
    SecondAddsNothingIff(es, f);
  }

  lemma SecondAddsNothingIff(es: seq<Comment>, f: Fetch)
    requires FetchOk(f)
    ensures var m := Merge(es, f);
      Merge(m, f) == m <==> forall o :: LiveUpstream(f, o) ==> Mirrored(m, o)
  {
    var m := Merge(es, f);
    SecondKeepsAll(es, f);
    ArrivalsKnown(m, f);
    TakeOrigins(f, Arrivals(m, f));
    forall o | o in f.latest
      ensures Arrives(m, f, o) <==> LiveUpstream(f, o) && !Mirrored(m, o)
    {
      SecondDead(es, f, f.latest[o].thread);
    }
    forall o ensures o in Arrivals(m, f) <==> o in f.order && Arrives(m, f, o) {
      FilterMember(o => Arrives(m, f, o), f.order, o);
    }
    assert Merge(m, f) == m + Take(f, Arrivals(m, f));
  }

  /** With aligned mirrors, merging the same fetch twice equals merging it once. */
  lemma MergeTwice(es: seq<Comment>, f: Fetch)
    requires FetchOk(f) && Aligned(es, f)
    ensures Merge(Merge(es, f), f) == Merge(es, f)
  {
    forall o | LiveUpstream(f, o) ensures !Dead(es, f, f.latest[o].thread) {
      AlignedDead(es, f, f.latest[o].thread);
    }
    MergeTwiceIff(es, f);
  }

  lemma TwoIncoming(a: Comment, b: Comment)
    requires !IsLocal(a) && !IsLocal(b) && a.origin != b.origin
    ensures Incoming([a, b]) == Fetch([a.origin, b.origin], map[a.origin := a, b.origin := b])
  {
    assert [a, b][..1] == [a] && [a][..0] == [];
    assert Incoming([]) == Fetch([], map[]);
    assert Incoming([a]) == Fetch([a.origin], map[a.origin := a]);
  }

  lemma HeldBack(es: seq<Comment>, f: Fetch)
    requires FetchOk(f) && (forall c :: c in es ==> !Survives(es, f, c)) && forall o :: o in f.order ==> !Arrives(es, f, o)
    ensures Merge(es, f) == []
  {
    FilterNone(c => Survives(es, f, c), es);
    FilterNone(o => Arrives(es, f, o), f.order);
  }

  lemma ArrivesLast(f: Fetch, a: string, b: string)
    requires FetchOk(f) && f.order == [a, b] && !Arrives([], f, a) && Arrives([], f, b)
    ensures Merge([], f) == [f.latest[b]]
  {
    FilterNone(o => Arrives([], f, o), [a]);
    FilterSnoc(o => Arrives([], f, o), [a], b);
    assert [a] + [b] == f.order;
    assert Arrivals([], f) == [b];
    assert Take(f, [b]) == [f.latest[b]];
    assert Survivors([], f) == [] && Refresh(f, []) == [];
  }

  /** Without alignment a second merge can bring back what the first held back: here the mirror is a root, the
      tombstone that removes it is not, and the reply stays out only as long as the mirror is there. */
  lemma SecondMergeBringsBack(root: Comment, tomb: Comment, reply: Comment)
    requires root.origin == tomb.origin == "p:1" && reply.origin == "p:2"
    requires root.id == "r" && root.thread == "r" && root.parent == ""
    requires tomb.deleted && tomb.id == "q" && tomb.thread == "s" && tomb.parent == "s"
    requires !reply.deleted && reply.thread == "r"
    ensures var f := Incoming([tomb, reply]);
      FetchOk(f) && Merge([root], f) == [] && Merge([], f) == [reply]
  {
    hide Merge, Survivors, Arrivals, Filter, Incoming;
    var f := Incoming([tomb, reply]);
    IncomingOk([tomb, reply]);
    TwoIncoming(tomb, reply);
    assert root in [root] && Tombstoned(f, root.origin) && Kills(root, "r");
    assert Dead([root], f, "r");
    HeldBack([root], f);
    EmptySurvivors(f);
    assert !Mirrored(Filter(c => Survives([], f, c), []), "p:2") by { FilterNone(c => Survives([], f, c), []); }
    ArrivesLast(f, "p:1", "p:2");
  }

  lemma EmptySurvivors(f: Fetch)
    ensures Survivors([], f) == []
  {
  }

  // ----- the loops -----

  lemma IncomingSnoc(remote: seq<Comment>, c: Comment)
    ensures var before := Incoming(remote);
      Incoming(remote + [c]) == if IsLocal(c) then before
        else Fetch(if c.origin in before.latest then before.order else before.order + [c.origin], before.latest[c.origin := c])
  {
    assert (remote + [c])[..|remote|] == remote;
  }

  lemma {:induction false} RefreshSnoc(f: Fetch, cs: seq<Comment>, c: Comment)
    ensures Refresh(f, cs + [c]) == Refresh(f, cs) + [Refreshed(f, c)]
  {
    if cs == [] {
      assert [] + [c] == [c];
    } else {
      RefreshSnoc(f, cs[1..], c);
      assert (cs + [c])[1..] == cs[1..] + [c];
    }
  }

  lemma {:induction false} TakeSnoc(f: Fetch, os: seq<string>, o: string)
    requires o in f.latest && forall p :: p in os ==> p in f.latest
    ensures Take(f, os + [o]) == Take(f, os) + [f.latest[o]]
  {
    if os == [] {
      assert [] + [o] == [o];
    } else {
      TakeSnoc(f, os[1..], o);
      assert (os + [o])[1..] == os[1..] + [o];
    }
  }

  /** A dead thread by the positions at which the two passes meet what kills it. */
  lemma DeadAt(es: seq<Comment>, f: Fetch, t: string)
    requires FetchOk(f)
    ensures Dead(es, f, t) <==>
      || (exists j :: 0 <= j < |f.order| && f.latest[f.order[j]].deleted && Kills(f.latest[f.order[j]], t))
      || (exists j :: 0 <= j < |es| && Tombstoned(f, es[j].origin) && Kills(es[j], t))
  {
    if exists o :: o in f.latest && f.latest[o].deleted && Kills(f.latest[o], t) {
      var o :| o in f.latest && f.latest[o].deleted && Kills(f.latest[o], t);
      assert o in f.order;
      var j :| 0 <= j < |f.order| && f.order[j] == o;
    }
    if exists c :: c in es && Tombstoned(f, c.origin) && Kills(c, t) {
      var c :| c in es && Tombstoned(f, c.origin) && Kills(c, t);
      var j :| 0 <= j < |es| && es[j] == c;
    }
    if j :| 0 <= j < |f.order| && f.latest[f.order[j]].deleted && Kills(f.latest[f.order[j]], t) {
      assert f.order[j] in f.order;
    }
    if j :| 0 <= j < |es| && Tombstoned(f, es[j].origin) && Kills(es[j], t) {
      assert es[j] in es;
    }
  }

  class CommentMirror {
    var comments: seq<Comment>

    method ReadFetch(remote: seq<Comment>) returns (f: Fetch)
      ensures f == Incoming(remote)
    {
      f := Fetch([], map[]);
      assert remote[..0] == [];
      for i := 0 to |remote|
        invariant f == Incoming(remote[..i])
      {
        var c := remote[i];
        assert remote[..i + 1] == remote[..i] + [c];
        IncomingSnoc(remote[..i], c);
        if !IsLocal(c) {
          f := Fetch(if c.origin in f.latest then f.order else f.order + [c.origin], f.latest[c.origin := c]);
        }
      }
      assert remote[..|remote|] == remote;
    }

    method DroppedThreads(es: seq<Comment>, f: Fetch) returns (dropped: set<string>)
      requires FetchOk(f)
      ensures forall t :: t in dropped <==> Dead(es, f, t)
    {
      dropped := {};
      for i := 0 to |f.order|
        invariant forall t :: t in dropped <==>
          exists j :: 0 <= j < i && f.latest[f.order[j]].deleted && Kills(f.latest[f.order[j]], t)
      {
        var c := f.latest[f.order[i]];
        if c.deleted && IsRoot(c) {
          dropped := dropped + {c.thread, c.id};
        }
      }
      ghost var upstream := dropped;
      for i := 0 to |es|
        invariant forall t :: t in dropped <==>
          t in upstream || exists j :: 0 <= j < i && Tombstoned(f, es[j].origin) && Kills(es[j], t)
      {
        var c := es[i];
        if Tombstoned(f, c.origin) && IsRoot(c) {
          dropped := dropped + {c.thread, c.id};
        }
      }
      forall t ensures t in dropped <==> Dead(es, f, t) { DeadAt(es, f, t); }
    }

    /** The surviving mirrors, refreshed, and the origins they cover. */
    method KeepSurvivors(es: seq<Comment>, f: Fetch, dropped: set<string>)
        returns (result: seq<Comment>, seen: set<string>, changed: bool)
      requires FetchOk(f) && forall t :: t in dropped <==> Dead(es, f, t)
      ensures result == Refresh(f, Survivors(es, f))
      ensures forall o :: o in seen <==> o in f.latest && Mirrored(Survivors(es, f), o)
      ensures !changed ==> result == es
    {
      hide Dead;
      result, seen, changed := [], {}, false;
      assert es[..0] == [];
      ghost var kept: seq<Comment> := [];
      for i := 0 to |es|
        invariant kept == Filter(c => Survives(es, f, c), es[..i]) && result == Refresh(f, kept)
        invariant forall o :: o in seen <==> o in f.latest && Mirrored(kept, o)
        invariant !changed ==> result == es[..i]
      {
        var c := es[i];
        assert es[..i + 1] == es[..i] + [c];
        FilterSnoc(c => Survives(es, f, c), es[..i], c);
        RefreshSnoc(f, kept, c);
        if Survives(es, f, c) {
          MirroredSnoc(kept, c);
          kept := kept + [c];
        }
        if c.thread in dropped || (!IsLocal(c) && Tombstoned(f, c.origin)) {
          changed := true;
        } else if IsLocal(c) || c.origin !in f.latest {
          result := result + [c];
        } else {
          seen := seen + {c.origin};
          if Refreshed(f, c) != c {
            changed := true;
          }
          result := result + [Refreshed(f, c)];
        }
      }
      assert es[..|es|] == es;
    }

    /** What the fetch adds behind the survivors. */
    method AddArrivals(es: seq<Comment>, f: Fetch, dropped: set<string>, seen: set<string>)
        returns (added: seq<Comment>)
      requires FetchOk(f) && forall t :: t in dropped <==> Dead(es, f, t)
      requires forall o :: o in seen <==> o in f.latest && Mirrored(Survivors(es, f), o)
      ensures (forall o :: o in Arrivals(es, f) ==> o in f.latest) && added == Take(f, Arrivals(es, f))
    {
      hide Dead, Filter, Survives;
      added := [];
      ghost var taken: seq<string> := [];
      assert f.order[..0] == [];
      EmptyArrivals(es, f);
      for i := 0 to |f.order|
        invariant taken == Filter(o => Arrives(es, f, o), f.order[..i]) && forall o :: o in taken ==> o in f.latest
        invariant added == Take(f, taken)
      {
        var o := f.order[i];
        var rc := f.latest[o];
        assert f.order[..i + 1] == f.order[..i] + [o];
        FilterSnoc(o => Arrives(es, f, o), f.order[..i], o);
        assert Arrives(es, f, o) <==> o !in seen && !rc.deleted && rc.thread !in dropped;
        if !(o in seen || rc.deleted) && rc.thread !in dropped {
          TakeSnoc(f, taken, o);
          taken := taken + [o];
          added := added + [rc];
        }
      }
      assert f.order[..|f.order|] == f.order;
    }

    /** merge_remote_comments(): the list is replaced only when something changed. */
    method MergeRemoteComments(remote: seq<Comment>)
      modifies this`comments
      ensures FetchOk(Incoming(remote)) && comments == Merge(old(comments), Incoming(remote))
    {
      IncomingOk(remote);
      var f := ReadFetch(remote);
      var dropped := DroppedThreads(comments, f);
      var kept, seen, changed := KeepSurvivors(comments, f, dropped);
      var added := AddArrivals(comments, f, dropped, seen);
      if changed || added != [] {
        comments := kept + added;
      }
    }
  }

  lemma EmptyArrivals(es: seq<Comment>, f: Fetch)
    ensures Filter(o => Arrives(es, f, o), []) == []
  {
  }

  lemma MirroredSnoc(cs: seq<Comment>, c: Comment)
    ensures forall o :: Mirrored(cs + [c], o) <==> Mirrored(cs, o) || (!IsLocal(c) && c.origin == o)
  {
    forall o ensures Mirrored(cs + [c], o) <==> Mirrored(cs, o) || (!IsLocal(c) && c.origin == o) {
      if Mirrored(cs, o) {
        var d :| d in cs && !IsLocal(d) && d.origin == o;
        assert d in cs + [c];
      }
      assert c in cs + [c];
    }
  }
}
