/** Keeping the comment list within its cap by dropping whole threads, the oldest first. */
module CommentPruning {
  import opened ArtifactComments

  function ThreadOf(c: Comment): string {
    if c.thread != "" then c.thread else c.id
  }

  function Outside(drop: set<string>): Comment -> bool {
    (c: Comment) => ThreadOf(c) !in drop
  }

  function Inside(drop: set<string>): Comment -> bool {
    (c: Comment) => ThreadOf(c) in drop
  }

  /** The thread keys in order of first appearance: the list is in append order, so oldest first. */
  function Order(cs: seq<Comment>): seq<string> {
    if cs == [] then []
    else
      var before := Order(cs[..|cs| - 1]);
      var k := ThreadOf(cs[|cs| - 1]);
      if k in before then before else before + [k]
  }

  /** The plain statement: as long as the list is too long, drop the oldest thread that is not `keep`. */
  function Pruned(cs: seq<Comment>, keep: string): seq<Comment>
    decreases |cs|
  {
    var others := Filter((c: Comment) => ThreadOf(c) != keep, cs);
    if |cs| <= MAX_COMMENTS || others == [] then cs
    else
      var k := ThreadOf(others[0]);
      FilterMember((c: Comment) => ThreadOf(c) != keep, cs, others[0]);
      FilterShrinks(Outside({k}), cs);
      Pruned(Filter(Outside({k}), cs), keep)
  }

  /** The thread that must stay: that of the first comment with this id. */
  function KeepThread(cs: seq<Comment>, keepId: string): string {
    if cs == [] then keepId
    else if cs[0].id == keepId then ThreadOf(cs[0])
    else KeepThread(cs[1..], keepId)
  }

  // ----- what the plain statement gives -----

  /** A list of threads is gone as a whole and the rest of the list stays, in order; `keep` stays; and the
      list fits, unless only that thread is left. */
  lemma {:induction false} PrunedDropsThreads(cs: seq<Comment>, keep: string) returns (drop: set<string>)
    ensures Pruned(cs, keep) == Filter(Outside(drop), cs) && keep !in drop
    ensures |Pruned(cs, keep)| <= MAX_COMMENTS || forall c :: c in Pruned(cs, keep) ==> ThreadOf(c) == keep
    ensures drop != {} ==> |cs| > MAX_COMMENTS
    decreases |cs|
  {
    var isOther := (c: Comment) => ThreadOf(c) != keep;
    var others := Filter(isOther, cs);
    if |cs| <= MAX_COMMENTS || others == [] {
      drop := {};
      FilterAll(Outside({}), cs);
      if others == [] {
        forall c | c in cs ensures ThreadOf(c) == keep { FilterMember(isOther, cs, c); }
      }
    } else {
      var k := ThreadOf(others[0]);
      FilterMember(isOther, cs, others[0]);
      FilterShrinks(Outside({k}), cs);
      var more := PrunedDropsThreads(Filter(Outside({k}), cs), keep);
      drop := {k} + more;
      FilterTwice(Outside({k}), Outside(more), Outside(drop), cs);
    }
  }

  /** The new comment survives if no earlier comment has its id under another thread. */
  lemma AddedSurvives(cs: seq<Comment>, c: Comment)
    requires forall d :: d in cs && d.id == c.id ==> ThreadOf(d) == ThreadOf(c)
    ensures KeepThread(cs + [c], c.id) == ThreadOf(c)
    ensures c in Pruned(cs + [c], KeepThread(cs + [c], c.id))
  {
    KeepIs(cs, c);
    var drop := PrunedDropsThreads(cs + [c], ThreadOf(c));
    FilterMember(Outside(drop), cs + [c], c);
  }

  lemma {:induction false} KeepIs(cs: seq<Comment>, c: Comment)
    requires forall d :: d in cs && d.id == c.id ==> ThreadOf(d) == ThreadOf(c)
    ensures KeepThread(cs + [c], c.id) == ThreadOf(c)
  {
    if cs != [] {
      assert cs[0] in cs && (cs + [c])[1..] == cs[1..] + [c];
      KeepIs(cs[1..], c);
    }
  }

  /** With a clash of ids the comment just added can be the one dropped: its id is looked up from the front. */
  lemma ClashDropsAdded(cs: seq<Comment>, c: Comment, root: Comment)
    requires |cs| == MAX_COMMENTS && cs[0] == root && root.id == c.id && ThreadOf(root) != ThreadOf(c)
    requires forall d :: d in cs ==> ThreadOf(d) == ThreadOf(root)
    ensures c !in Pruned(cs + [c], KeepThread(cs + [c], c.id))
  {
    var all := cs + [c];
    var keep := ThreadOf(root);
    var isOther := (d: Comment) => ThreadOf(d) != keep;
    assert all[0] == root;
    FilterNone(isOther, cs);
    FilterConcat(isOther, cs, [c]);
    assert Filter(isOther, all) == [c];
    var rest := Filter(Outside({ThreadOf(c)}), all);
    FilterMember(Outside({ThreadOf(c)}), all, c);
    FilterShrinks(Outside({ThreadOf(c)}), all);
    assert c in all;
    assert Pruned(rest, keep) == rest;
  }

  // ----- one pass over the thread order -----

  lemma {:induction false} OrderMember(cs: seq<Comment>, k: string)
    ensures k in Order(cs) <==> exists c :: c in cs && ThreadOf(c) == k
  {
    if cs != [] {
      var init, last := cs[..|cs| - 1], cs[|cs| - 1];
      OrderMember(init, k);
      assert cs == init + [last];
    }
  }

  lemma {:induction false} OrderDistinct(cs: seq<Comment>, i: nat, j: nat)
    requires i < j < |Order(cs)|
    ensures Order(cs)[i] != Order(cs)[j]
  {
    var before := Order(cs[..|cs| - 1]);
    if j < |before| {
      OrderDistinct(cs[..|cs| - 1], i, j);
    } else {
      assert Order(cs)[i] in before;
    }
  }

  /** The thread of a list's first comment is the first in the order. */
  lemma {:induction false} OrderFirst(cs: seq<Comment>)
    requires cs != []
    ensures Order(cs) != [] && Order(cs)[0] == ThreadOf(cs[0])
  {
    if |cs| > 1 {
      OrderFirst(cs[..|cs| - 1]);
    }
  }

  lemma OrderSnoc(cs: seq<Comment>, c: Comment)
    ensures Order(cs + [c]) == if ThreadOf(c) in Order(cs) then Order(cs) else Order(cs) + [ThreadOf(c)]
  {
    assert (cs + [c])[..|cs|] == cs;
  }

  function NotIn(drop: set<string>): string -> bool {
    (k: string) => k !in drop
  }

  lemma {:induction false} OrderFilter(cs: seq<Comment>, drop: set<string>)
    ensures Order(Filter(Outside(drop), cs)) == Filter(NotIn(drop), Order(cs))
  {
    if cs != [] {
      hide Order, Filter;
      var init, last := cs[..|cs| - 1], cs[|cs| - 1];
      var k := ThreadOf(last);
      OrderFilter(init, drop);
      assert cs == init + [last];
      OrderSnoc(init, last);
      FilterSnoc(Outside(drop), init, last);
      FilterSnoc(NotIn(drop), Order(init), k);
      FilterMember(NotIn(drop), Order(init), k);
      OrderSnoc(Filter(Outside(drop), init), last);
    } else {
      assert Filter(Outside(drop), cs) == [] && Order([]) == [] && Filter(NotIn(drop), []) == [];
    }
  }

  lemma {:induction false} FilterFirst(drop: set<string>, ks: seq<string>, i: nat)
    requires i < |ks| && ks[i] !in drop && forall j :: 0 <= j < i ==> ks[j] in drop
    ensures Filter(NotIn(drop), ks) != [] && Filter(NotIn(drop), ks)[0] == ks[i]
  {
    if i > 0 {
      FilterFirst(drop, ks[1..], i - 1);
    }
  }

  /** One turn of the pass: when every older thread is dropped or kept on purpose, thread i is the next to go. */
  lemma PassStep(cs: seq<Comment>, keep: string, drop: set<string>, i: nat)
    requires i < |Order(cs)| && Order(cs)[i] != keep && keep !in drop
    requires forall j :: 0 <= j < i ==> Order(cs)[j] == keep || Order(cs)[j] in drop
    requires Order(cs)[i] !in drop && |Filter(Outside(drop), cs)| > MAX_COMMENTS
    ensures Pruned(Filter(Outside(drop), cs), keep) == Pruned(Filter(Outside(drop + {Order(cs)[i]}), cs), keep)
  {
    hide Order;
    var k := Order(cs)[i];
    var f := Filter(Outside(drop), cs);
    var isOther := (c: Comment) => ThreadOf(c) != keep;
    var others := Filter(isOther, f);
    FilterTwice(Outside(drop), isOther, Outside(drop + {keep}), cs);
    OrderFilter(cs, drop + {keep});
    FilterFirst(drop + {keep}, Order(cs), i);
    assert Order(others) != [];
    assert others != [] by { if others == [] { EmptyOrder(); } }
    OrderFirst(others);
    assert ThreadOf(others[0]) == k;
    FilterTwice(Outside(drop), Outside({k}), Outside(drop + {k}), cs);
  }

  lemma EmptyOrder()
    ensures Order([]) == []
  {
  }

  /** Nothing left to drop, or no need to: the pass is over. */
  lemma PassEnd(cs: seq<Comment>, keep: string, drop: set<string>, i: nat)
    requires i <= |Order(cs)| && forall j :: 0 <= j < i ==> Order(cs)[j] == keep || Order(cs)[j] in drop
    requires |Filter(Outside(drop), cs)| <= MAX_COMMENTS || i == |Order(cs)|
    ensures Pruned(Filter(Outside(drop), cs), keep) == Filter(Outside(drop), cs)
  {
    var f := Filter(Outside(drop), cs);
    var isOther := (c: Comment) => ThreadOf(c) != keep;
    if |f| > MAX_COMMENTS {
      forall c | c in f ensures !isOther(c) {
        FilterMember(Outside(drop), cs, c);
        OrderMember(cs, ThreadOf(c));
      }
      FilterNone(isOther, f);
    }
  }

  /** How many comments a thread has, and what is left without it. */
  lemma PassCount(cs: seq<Comment>, drop: set<string>, k: string)
    requires k !in drop
    ensures |Filter(Outside(drop + {k}), cs)| == |Filter(Outside(drop), cs)| - |Filter(Inside({k}), cs)|
  {
    var f := Filter(Outside(drop), cs);
    FilterTwice(Outside(drop), Outside({k}), Outside(drop + {k}), cs);
    FilterCount(Outside({k}), Inside({k}), f);
    FilterTwice(Outside(drop), Inside({k}), Inside({k}), cs);
  }

  function Oldest(cs: seq<Comment>, keep: string, n: nat): set<string>
    requires n <= |Order(cs)|
  {
    set k | k in Order(cs)[..n] && k != keep
  }

  /** The threads dropped are the oldest ones, and no more of them than the cap requires. */
  lemma OldestGoFirst(cs: seq<Comment>, keep: string) returns (n: nat)
    ensures n <= |Order(cs)| && Pruned(cs, keep) == Filter(Outside(Oldest(cs, keep, n)), cs)
    ensures forall m: nat :: m < n ==> |Filter(Outside(Oldest(cs, keep, m)), cs)| > MAX_COMMENTS
  {
    hide Pruned, Filter, Order;
    n := 0;
    FilterAll(Outside({}), cs);
    assert Oldest(cs, keep, 0) == {};
    while n < |Order(cs)| && |Filter(Outside(Oldest(cs, keep, n)), cs)| > MAX_COMMENTS
      invariant n <= |Order(cs)|
      invariant Pruned(cs, keep) == Pruned(Filter(Outside(Oldest(cs, keep, n)), cs), keep)
      invariant forall m: nat :: m < n ==> |Filter(Outside(Oldest(cs, keep, m)), cs)| > MAX_COMMENTS
    {
      var k := Order(cs)[n];
      var drop := Oldest(cs, keep, n);
      forall j | 0 <= j < n ensures Order(cs)[j] != k && (Order(cs)[j] == keep || Order(cs)[j] in drop) {
        OrderDistinct(cs, j, n);
        assert Order(cs)[j] in Order(cs)[..n];
      }
      assert Order(cs)[..n + 1] == Order(cs)[..n] + [k];
      if k != keep {
        PassStep(cs, keep, drop, n);
        assert Oldest(cs, keep, n + 1) == drop + {k};
      } else {
        assert Oldest(cs, keep, n + 1) == drop;
      }
      n := n + 1;
    }
    forall j | 0 <= j < n ensures Order(cs)[j] == keep || Order(cs)[j] in Oldest(cs, keep, n) {
      assert Order(cs)[j] in Order(cs)[..n];
    }
    PassEnd(cs, keep, Oldest(cs, keep, n), n);
  }

  // ----- when the comment just added stays -----

  function Position(ks: seq<string>, k: string): (i: nat)
    requires k in ks
    ensures i < |ks| && ks[i] == k
  {
    if ks[0] == k then 0 else 1 + Position(ks[1..], k)
  }

  /** The threads that appear before `k` in the list, `keep` apart. */
  function Older(cs: seq<Comment>, k: string, keep: string): set<string> {
    if k in Order(cs) then Oldest(cs, keep, Position(Order(cs), k)) else {}
  }

  /** Either nothing has to go, or the id lookup finds the comment's own thread, or dropping the older threads
      makes room already. */
  predicate StaysAdded(cs: seq<Comment>, c: Comment) {
    var all := cs + [c];
    var keep := KeepThread(all, c.id);
    || |cs| < MAX_COMMENTS || ThreadOf(c) == keep
    || |Filter(Outside(Older(all, ThreadOf(c), keep)), all)| <= MAX_COMMENTS
  }

  lemma FewerStay(cs: seq<Comment>, a: set<string>, b: set<string>)
    requires a <= b
    ensures |Filter(Outside(b), cs)| <= |Filter(Outside(a), cs)|
  {
    FilterTwice(Outside(a), Outside(b), Outside(b), cs);
    FilterShrinks(Outside(b), Filter(Outside(a), cs));
  }

  lemma OldestGrows(cs: seq<Comment>, keep: string, m: nat, n: nat)
    requires m <= n <= |Order(cs)|
    ensures Oldest(cs, keep, m) <= Oldest(cs, keep, n)
  {
    assert Order(cs)[..m] <= Order(cs)[..n];
    forall k | k in Order(cs)[..m] ensures k in Order(cs)[..n] {}
  }

  lemma InOldest(cs: seq<Comment>, keep: string, n: nat, i: nat)
    requires n <= |Order(cs)| && i < |Order(cs)|
    ensures Order(cs)[i] in Oldest(cs, keep, n) <==> Order(cs)[i] != keep && i < n
  {
    var k := Order(cs)[i];
    if k in Order(cs)[..n] {
      var j :| 0 <= j < n && Order(cs)[..n][j] == k;
      if i < j { OrderDistinct(cs, i, j); } else if j < i { OrderDistinct(cs, j, i); }
    }
    if i < n { assert Order(cs)[..n][i] == k; }
  }

  /** The comment just added is kept exactly then. */
  lemma AddedKeptIff(cs: seq<Comment>, c: Comment)
    ensures c in Pruned(cs + [c], KeepThread(cs + [c], c.id)) <==> StaysAdded(cs, c)
  {
    hide Order, Filter, Pruned, KeepThread;
    var all := cs + [c];
    var keep, k := KeepThread(all, c.id), ThreadOf(c);
    var n := OldestGoFirst(all, keep);
    OrderMember(all, k);
    assert c in all;
    var i := Position(Order(all), k);
    InOldest(all, keep, n, i);
    FilterMember(Outside(Oldest(all, keep, n)), all, c);
    assert c in Pruned(all, keep) <==> k == keep || n <= i;
    if n <= i && k != keep {
      var drop := PrunedDropsThreads(all, keep);
      OldestGrows(all, keep, n, i);
      FewerStay(all, Oldest(all, keep, n), Oldest(all, keep, i));
    }
    if |cs| < MAX_COMMENTS { ShortIsKept(all, keep); }
  }

  lemma ShortIsKept(cs: seq<Comment>, keep: string)
    requires |cs| <= MAX_COMMENTS
    ensures Pruned(cs, keep) == cs
  {
  }

  class CommentList {
    var comments: seq<Comment>

    /** The code's single pass over the thread order, with a drop set and a running count, does what the plain
        statement says. */
    method PruneOldestThreads(cs: seq<Comment>, keepId: string) returns (r: seq<Comment>)
      ensures r == Pruned(cs, KeepThread(cs, keepId))
    {
      hide Pruned, Filter;
      var keep := KeepThread(cs, keepId);
      var order: seq<string> := [];
      assert cs[..0] == [];
      for i := 0 to |cs|
        invariant order == Order(cs[..i])
      {
        assert cs[..i + 1] == cs[..i] + [cs[i]];
        OrderSnoc(cs[..i], cs[i]);
        if ThreadOf(cs[i]) !in order {
          order := order + [ThreadOf(cs[i])];
        }
      }
      assert cs[..|cs|] == cs;
      var drop: set<string> := {};
      var remaining := |cs|;
      var i := 0;
      FilterAll(Outside({}), cs);
      while i < |order| && remaining > MAX_COMMENTS
        invariant i <= |order| && keep !in drop
        invariant forall k :: k in drop <==> k != keep && k in order[..i]
        invariant remaining == |Filter(Outside(drop), cs)|
        invariant Pruned(cs, keep) == Pruned(Filter(Outside(drop), cs), keep)
        decreases |order| - i
      {
        var k := order[i];
        forall j | 0 <= j < i ensures order[j] != k && (order[j] == keep || order[j] in drop) {
          OrderDistinct(cs, j, i);
          assert order[j] in order[..i];
        }
        assert k !in order[..i];
        if k != keep {
          var members := CountMembers(cs, k);
          PassStep(cs, keep, drop, i);
          PassCount(cs, drop, k);
          drop := drop + {k};
          remaining := remaining - members;
        }
        assert order[..i + 1] == order[..i] + [k];
        i := i + 1;
      }
      forall j | 0 <= j < i ensures order[j] == keep || order[j] in drop {
        assert order[j] in order[..i];
      }
      PassEnd(cs, keep, drop, i);
      if drop == {} {
        return cs;
      }
      r := Filter(Outside(drop), cs);
    }

    method CountMembers(cs: seq<Comment>, k: string) returns (n: nat)
      ensures n == |Filter(Inside({k}), cs)|
    {
      n := 0;
      assert cs[..0] == [] && |Filter(Inside({k}), [])| == 0;
      for i := 0 to |cs|
        invariant n == |Filter(Inside({k}), cs[..i])|
      {
        assert cs[..i + 1] == cs[..i] + [cs[i]];
        FilterSnoc(Inside({k}), cs[..i], cs[i]);
        if ThreadOf(cs[i]) == k {
          n := n + 1;
        }
      }
      assert cs[..|cs|] == cs;
    }

    method AddComment(c: Comment)
      modifies this`comments
      ensures comments == Pruned(old(comments) + [c], KeepThread(old(comments) + [c], c.id))
      ensures c in comments <==> StaysAdded(old(comments), c)
    {
      AddedKeptIff(comments, c);
      var all := comments + [c];
      if |all| > MAX_COMMENTS {
        all := PruneOldestThreads(all, c.id);
      }
      comments := all;
    }
  }
}
