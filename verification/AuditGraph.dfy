/** The advisories behind a vulnerable package: npm audit's `via` graph, resolved with a trail. */
module AuditGraph {
  import opened Options

  type Package = string

  datatype Advisory = Advisory(id: string, severity: string, title: string)

  datatype Item = Ref(package: Package) | Direct(advisory: Advisory)

  /** What is behind each package; every reference names a package of the map. */
  type Graph = map<Package, seq<Item>>

  ghost predicate Closed(g: Graph) {
    forall p, i :: p in g && i in g[p] && i.Ref? ==> i.package in g
  }

  /** The packages that are not on the trail yet. */
  function Left(g: Graph, trail: seq<Package>): set<Package> {
    g.Keys - set q | q in trail
  }

  lemma LeftShrinks(g: Graph, p: Package, trail: seq<Package>)
    requires p in g && p !in trail
    ensures Left(g, trail + [p]) < Left(g, trail)
  {
    assert p in Left(g, trail) && p in trail + [p];
  }

  /** None stands for the error raised on a cycle. */
  type Resolved = Option<seq<Advisory>>

  /** _resolve_advisories(). The trail holds different packages of the map, so the recursion ends. */
  function Resolve(g: Graph, p: Package, trail: seq<Package>): Resolved
    requires Closed(g) && p in g
    decreases Left(g, trail), 1, 0
  {
    if p in trail then None else ResolveItems(g, p, g[p], trail)
  }

  function ResolveItems(g: Graph, p: Package, items: seq<Item>, trail: seq<Package>): Resolved
    requires Closed(g) && p in g && p !in trail && forall i :: i in items ==> i in g[p]
    decreases Left(g, trail), 0, |items|
  {
    if items == [] then Some([])
    else
      assert items[0] in g[p];
      LeftShrinks(g, p, trail);
      var head := if items[0].Direct? then Some([items[0].advisory]) else Resolve(g, items[0].package, trail + [p]);
      if head == None then None
      else
        var tail := ResolveItems(g, p, items[1..], trail);
        if tail == None then None else Some(head.value + tail.value)
  }

  // ----- reference walks -----

  /** `w` follows references from package to package. */
  ghost predicate Walk(g: Graph, w: seq<Package>) {
    && w != []
    && (forall i :: 0 <= i < |w| ==> w[i] in g)
    && forall i :: 0 <= i < |w| - 1 ==> Ref(w[i + 1]) in g[w[i]]
  }

  ghost predicate Reaches(g: Graph, p: Package, q: Package) {
    exists w :: Walk(g, w) && w[0] == p && w[|w| - 1] == q
  }

  /** `q` is on a reference cycle. */
  ghost predicate OnCycle(g: Graph, q: Package) {
    exists w :: Walk(g, w) && |w| > 1 && w[0] == q && w[|w| - 1] == q
  }

  /** A walk from `p` that ends on the trail or on a package it has been at. */
  ghost predicate Returns(g: Graph, p: Package, trail: seq<Package>, w: seq<Package>) {
    Walk(g, w) && w[0] == p && w[|w| - 1] in trail + w[..|w| - 1]
  }

  lemma WalkCons(g: Graph, p: Package, w: seq<Package>)
    requires Walk(g, w) && p in g && Ref(w[0]) in g[p]
    ensures Walk(g, [p] + w)
  {
  }

  lemma WalkTail(g: Graph, w: seq<Package>)
    requires Walk(g, w) && |w| > 1
    ensures Walk(g, w[1..])
  {
  }

  lemma {:induction false} ErrorHasWalk(g: Graph, p: Package, trail: seq<Package>) returns (w: seq<Package>)
    requires Closed(g) && p in g && Resolve(g, p, trail) == None
    ensures Returns(g, p, trail, w)
    decreases Left(g, trail), 1, 0
  {
    if p in trail {
      w := [p];
    } else {
      w := ItemsErrorHasWalk(g, p, g[p], trail);
    }
  }

  lemma {:induction false} ItemsErrorHasWalk(g: Graph, p: Package, items: seq<Item>, trail: seq<Package>) returns (w: seq<Package>)
    requires Closed(g) && p in g && p !in trail && forall i :: i in items ==> i in g[p]
    requires ResolveItems(g, p, items, trail) == None
    ensures Returns(g, p, trail, w)
    decreases Left(g, trail), 0, |items|
  {
    assert items[0] in g[p];
    if items[0].Ref? && Resolve(g, items[0].package, trail + [p]) == None {
      LeftShrinks(g, p, trail);
      var v := ErrorHasWalk(g, items[0].package, trail + [p]);
      w := [p] + v;
      WalkCons(g, p, v);
      assert trail + w[..|w| - 1] == trail + [p] + v[..|v| - 1];
    } else {
      w := ItemsErrorHasWalk(g, p, items[1..], trail);
    }
  }

  lemma {:induction false} WalkGivesError(g: Graph, p: Package, trail: seq<Package>, w: seq<Package>)
    requires Closed(g) && p in g && Returns(g, p, trail, w)
    ensures Resolve(g, p, trail) == None
    decreases |w|
  {
    if p !in trail {
      assert |w| > 1;
      WalkTail(g, w);
      assert trail + w[..|w| - 1] == trail + [p] + w[1..][..|w| - 2];
      WalkGivesError(g, w[1], trail + [p], w[1..]);
      ItemError(g, p, g[p], trail, w[1]);
    }
  }

  lemma {:induction false} ItemError(g: Graph, p: Package, items: seq<Item>, trail: seq<Package>, q: Package)
    requires Closed(g) && p in g && p !in trail && forall i :: i in items ==> i in g[p]
    requires Ref(q) in items && q in g && Resolve(g, q, trail + [p]) == None
    ensures ResolveItems(g, p, items, trail) == None
  {
    if items[0] != Ref(q) {
      ItemError(g, p, items[1..], trail, q);
    }
  }

  lemma JoinWalks(g: Graph, v: seq<Package>, c: seq<Package>) returns (w: seq<Package>)
    requires Walk(g, v) && Walk(g, c) && |c| > 1 && v[|v| - 1] == c[0] == c[|c| - 1]
    ensures Returns(g, v[0], [], w)
  {
    w := v + c[1..];
    forall i | 0 <= i < |w| - 1 ensures Ref(w[i + 1]) in g[w[i]] {
      if i >= |v| - 1 {
        assert w[i] == c[i - |v| + 1] && w[i + 1] == c[i - |v| + 2];
      }
    }
    assert w[..|w| - 1][|v| - 1] == c[0];
    assert [] + w[..|w| - 1] == w[..|w| - 1];
  }

  lemma SplitWalk(g: Graph, p: Package, w: seq<Package>) returns (q: Package)
    requires Returns(g, p, [], w)
    ensures Reaches(g, p, q) && OnCycle(g, q)
  {
    q := w[|w| - 1];
    assert [] + w[..|w| - 1] == w[..|w| - 1];
    var i :| 0 <= i < |w| - 1 && w[i] == q;
    WalkSuffix(g, w, i);
    assert w[i..][0] == q && w[i..][|w| - i - 1] == q;
    assert OnCycle(g, q);
  }

  lemma {:induction false} WalkSuffix(g: Graph, w: seq<Package>, i: nat)
    requires Walk(g, w) && i < |w|
    ensures Walk(g, w[i..])
    decreases i
  {
    if i == 0 {
      assert w[0..] == w;
    } else {
      WalkTail(g, w);
      WalkSuffix(g, w[1..], i - 1);
      assert w[1..][i - 1..] == w[i..];
    }
  }

  /** The resolver raises exactly when a reference cycle is reachable. */
  lemma RaisesIffCycleReachable(g: Graph, p: Package)
    requires Closed(g) && p in g
    ensures Resolve(g, p, []) == None <==> exists q :: Reaches(g, p, q) && OnCycle(g, q)
  {
    if Resolve(g, p, []) == None {
      var w := ErrorHasWalk(g, p, []);
      var q := SplitWalk(g, p, w);
    }
    if exists q :: Reaches(g, p, q) && OnCycle(g, q) {
      var q :| Reaches(g, p, q) && OnCycle(g, q);
      var v :| Walk(g, v) && v[0] == p && v[|v| - 1] == q;
      var c :| Walk(g, c) && |c| > 1 && c[0] == q && c[|c| - 1] == q;
      var w := JoinWalks(g, v, c);
      WalkGivesError(g, p, [], w);
    }
  }

  // ----- what is resolved -----

  ghost predicate Behind(g: Graph, p: Package, a: Advisory) {
    exists q :: Reaches(g, p, q) && q in g && Direct(a) in g[q]
  }

  lemma BehindStep(g: Graph, p: Package, q: Package, a: Advisory)
    requires p in g && Ref(q) in g[p] && Behind(g, q, a)
    ensures Behind(g, p, a)
  {
    var r :| Reaches(g, q, r) && r in g && Direct(a) in g[r];
    var w :| Walk(g, w) && w[0] == q && w[|w| - 1] == r;
    WalkCons(g, p, w);
    assert ([p] + w)[|w|] == r;
    assert Reaches(g, p, r);
  }

  lemma {:induction false} ResolvedIsBehind(g: Graph, p: Package, trail: seq<Package>, a: Advisory)
    requires Closed(g) && p in g && Resolve(g, p, trail).Some? && a in Resolve(g, p, trail).value
    ensures Behind(g, p, a)
    decreases Left(g, trail), 1, 0
  {
    ItemsAreBehind(g, p, g[p], trail, a);
  }

  lemma {:induction false} ItemsAreBehind(g: Graph, p: Package, items: seq<Item>, trail: seq<Package>, a: Advisory)
    requires Closed(g) && p in g && p !in trail && forall i :: i in items ==> i in g[p]
    requires ResolveItems(g, p, items, trail).Some? && a in ResolveItems(g, p, items, trail).value
    ensures Behind(g, p, a)
    decreases Left(g, trail), 0, |items|
  {
    assert items[0] in g[p];
    if a in ResolveItems(g, p, items[1..], trail).value {
      ItemsAreBehind(g, p, items[1..], trail, a);
    } else if items[0].Direct? {
      assert Walk(g, [p]);
      assert Reaches(g, p, p);
    } else {
      LeftShrinks(g, p, trail);
      ResolvedIsBehind(g, items[0].package, trail + [p], a);
      BehindStep(g, p, items[0].package, a);
    }
  }

  lemma {:induction false} WalkIsResolved(g: Graph, p: Package, trail: seq<Package>, w: seq<Package>, a: Advisory)
    requires Closed(g) && p in g && Resolve(g, p, trail).Some?
    requires Walk(g, w) && w[0] == p && Direct(a) in g[w[|w| - 1]]
    ensures a in Resolve(g, p, trail).value
    decreases |w|
  {
    if |w| == 1 {
      ItemResolved(g, p, g[p], trail, Direct(a), a);
    } else {
      WalkTail(g, w);
      if Resolve(g, w[1], trail + [p]) == None {
        ItemError(g, p, g[p], trail, w[1]);
      } else {
        WalkIsResolved(g, w[1], trail + [p], w[1..], a);
        ItemResolved(g, p, g[p], trail, Ref(w[1]), a);
      }
    }
  }

  lemma {:induction false} ItemResolved(g: Graph, p: Package, items: seq<Item>, trail: seq<Package>, i: Item, a: Advisory)
    requires Closed(g) && p in g && p !in trail && forall j :: j in items ==> j in g[p]
    requires i in items && ResolveItems(g, p, items, trail).Some?
    requires i == Direct(a) || (i.Ref? && i.package in g && Resolve(g, i.package, trail + [p]).Some? && a in Resolve(g, i.package, trail + [p]).value)
    ensures a in ResolveItems(g, p, items, trail).value
  {
    if items[0] != i {
      ItemResolved(g, p, items[1..], trail, i, a);
    }
  }

  /** Otherwise it returns exactly the advisories attached to packages reachable through `via`. */
  lemma ResolvesExactly(g: Graph, p: Package, a: Advisory)
    requires Closed(g) && p in g && Resolve(g, p, []).Some?
    ensures a in Resolve(g, p, []).value <==> Behind(g, p, a)
  {
    if a in Resolve(g, p, []).value {
      ResolvedIsBehind(g, p, [], a);
    }
    if Behind(g, p, a) {
      var q :| Reaches(g, p, q) && q in g && Direct(a) in g[q];
      var w :| Walk(g, w) && w[0] == p && w[|w| - 1] == q;
      WalkIsResolved(g, p, [], w, a);
    }
  }
}
