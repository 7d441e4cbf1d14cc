/** The artifact folder store: a flat list of folders, each naming its parent, changed in place by
    guarded operations; deleting a folder also re-files or deletes the artifacts in it. */
module FolderStore {
  import opened FolderForest
  import opened FolderText

  datatype Folder = Folder(id: Id, name: string, order: int, parent: Id)

  datatype Error = NotFound | Invalid

  datatype Result<+T> = Ok(value: T) | Err(error: Error)

  function Ids(fs: seq<Folder>): set<Id> {
    set f | f in fs :: f.id
  }

  /** `_by_id`, as far as parents go: of several entries with one id the last counts. */
  function ParentMap(fs: seq<Folder>): Parents {
    if fs == [] then map[] else ParentMap(fs[..|fs| - 1])[fs[|fs| - 1].id := fs[|fs| - 1].parent]
  }

  predicate Distinct(fs: seq<Folder>) {
    forall i, j :: 0 <= i < j < |fs| ==> fs[i].id != fs[j].id
  }

  /** A well-formed store: every folder listed once, and the parents form a forest. */
  ghost predicate Wf(fs: seq<Folder>) {
    Distinct(fs) && Forest(ParentMap(fs))
  }

  lemma {:induction false} ParentMapKeys(fs: seq<Folder>)
    ensures ParentMap(fs).Keys == Ids(fs)
  {
    if fs != [] {
      ParentMapKeys(fs[..|fs| - 1]);
      assert fs == fs[..|fs| - 1] + [fs[|fs| - 1]];
    }
  }

  lemma {:induction false} ParentMapAt(fs: seq<Folder>, i: nat)
    requires Distinct(fs) && i < |fs|
    ensures fs[i].id in ParentMap(fs) && ParentMap(fs)[fs[i].id] == fs[i].parent
  {
    if i < |fs| - 1 {
      ParentMapAt(fs[..|fs| - 1], i);
    }
  }

  /** A map with the right keys and the right parents is the parent map. */
  lemma ParentMapIs(fs: seq<Folder>, p: Parents)
    requires Distinct(fs) && p.Keys == Ids(fs)
    requires forall i :: 0 <= i < |fs| ==> fs[i].id in p && p[fs[i].id] == fs[i].parent
    ensures ParentMap(fs) == p
  {
    ParentMapKeys(fs);
    forall x | x in p ensures ParentMap(fs)[x] == p[x] {
      var f :| f in fs && f.id == x;
      var i :| 0 <= i < |fs| && fs[i] == f;
      ParentMapAt(fs, i);
    }
  }

  // ----- descendants -----

  predicate Child(fs: seq<Folder>, a: Id, x: Id) {
    exists f :: f in fs && f.id == x && f.parent == a
  }

  /** `x` is reached from `a` by following `k` child links. */
  ghost predicate Reach(fs: seq<Folder>, a: Id, x: Id, k: nat)
    decreases k
  {
    if k == 0 then x == a else exists f :: f in fs && f.id == x && Reach(fs, a, f.parent, k - 1)
  }

  /** The reflexive-transitive closure of the child relation, on any list, cyclic ones included. */
  ghost predicate Descends(fs: seq<Folder>, a: Id, x: Id) {
    exists k: nat :: Reach(fs, a, x, k)
  }

  lemma ChildDescends(fs: seq<Folder>, a: Id, u: Id, x: Id)
    requires Descends(fs, a, u) && Child(fs, u, x)
    ensures Descends(fs, a, x)
  {
    var k: nat :| Reach(fs, a, u, k);
    assert Reach(fs, a, x, k + 1);
  }

  /** A set that holds `a` and is closed under children holds every descendant. */
  lemma {:induction false} ClosedHoldsDescendants(fs: seq<Folder>, a: Id, s: set<Id>, x: Id, k: nat)
    requires a in s && forall u, y :: u in s && Child(fs, u, y) ==> y in s
    requires Reach(fs, a, x, k)
    ensures x in s
    decreases k
  {
    if k > 0 {
      var f :| f in fs && f.id == x && Reach(fs, a, f.parent, k - 1);
      ClosedHoldsDescendants(fs, a, s, f.parent, k - 1);
      assert Child(fs, f.parent, x);
    }
  }

  lemma {:induction false} ReachIsAbove(fs: seq<Folder>, a: Id, x: Id, k: nat)
    requires Distinct(fs) && "" !in Ids(fs) && a in Ids(fs)
    ensures Reach(fs, a, x, k) <==> Above(ParentMap(fs), a, x, k)
    decreases k
  {
    var p := ParentMap(fs);
    ParentMapKeys(fs);
    if k > 0 {
      if Reach(fs, a, x, k) {
        var f :| f in fs && f.id == x && Reach(fs, a, f.parent, k - 1);
        var i :| 0 <= i < |fs| && fs[i] == f;
        ParentMapAt(fs, i);
        ReachIsAbove(fs, a, f.parent, k - 1);
      }
      if Above(p, a, x, k) {
        var f :| f in fs && f.id == x;
        var i :| 0 <= i < |fs| && fs[i] == f;
        ParentMapAt(fs, i);
        ReachIsAbove(fs, a, p[x], k - 1);
      }
    }
  }

  /** In a well-formed store the descendants of a folder are the folders it is an ancestor of. */
  lemma DescendsIsUnder(fs: seq<Folder>, a: Id, x: Id)
    requires Wf(fs) && a in Ids(fs)
    ensures Descends(fs, a, x) <==> Under(ParentMap(fs), a, x)
  {
    ParentMapKeys(fs);
    if Descends(fs, a, x) {
      var k: nat :| Reach(fs, a, x, k);
      ReachIsAbove(fs, a, x, k);
    }
    if Under(ParentMap(fs), a, x) {
      var k: nat :| Above(ParentMap(fs), a, x, k);
      ReachIsAbove(fs, a, x, k);
    }
  }

  // ----- depth -----

  /** The ancestor walk: it stops at the root, at a missing parent, or at a folder already seen. */
  function DepthWalk(p: Parents, fid: Id, seen: set<Id>): nat
    decreases p.Keys - seen
  {
    if fid == "" || fid !in p || fid in seen then 0 else 1 + DepthWalk(p, p[fid], seen + {fid})
  }

  function DepthOf(p: Parents, id: Id): nat {
    DepthWalk(p, if id in p then p[id] else "", {})
  }

  ghost predicate DeeperThan(p: Parents, id: Id, d: nat) {
    exists e: nat :: e > d && HasDepth(p, id, e)
  }

  lemma {:induction false} WalkIsDepth(p: Parents, fid: Id, seen: set<Id>, d: nat)
    requires HasDepth(p, fid, d) && "" !in p
    requires forall s :: s in seen ==> DeeperThan(p, s, d)
    ensures DepthWalk(p, fid, seen) == d + 1
    decreases d
  {
    if fid in seen {
      var e: nat :| e > d && HasDepth(p, fid, e);
      DepthUnique(p, fid, d, e);
    }
    if d > 0 {
      forall s | s in seen + {fid} ensures DeeperThan(p, s, d - 1) {
        if s in seen {
          var e: nat :| e > d && HasDepth(p, s, e);
        } else {
          assert HasDepth(p, s, d);
        }
      }
      WalkIsDepth(p, p[fid], seen + {fid}, d - 1);
    }
  }

  lemma DepthOfIs(p: Parents, id: Id, d: nat)
    requires HasDepth(p, id, d) && "" !in p
    ensures DepthOf(p, id) == d
  {
    if d > 0 {
      WalkIsDepth(p, p[id], {}, d - 1);
    }
  }

  lemma DepthOfForest(p: Parents, id: Id)
    requires Forest(p) && id in p
    ensures HasDepth(p, id, DepthOf(p, id)) && DepthOf(p, id) < MAX_FOLDER_DEPTH
  {
    assert Placed(p, id);
    var d: nat :| d < MAX_FOLDER_DEPTH && HasDepth(p, id, d);
    DepthOfIs(p, id, d);
  }

  // ----- the guards -----

  predicate MayNest(p: Parents, parent: Id) {
    parent == "" || (parent in p && DepthOf(p, parent) + 1 < MAX_FOLDER_DEPTH)
  }

  /** Some folder of the moved subtree would sit at the cap or below it. */
  ghost predicate TooDeep(fs: seq<Folder>, id: Id, np: Id) {
    var p := ParentMap(fs);
    exists x :: Descends(fs, id, x) && x in p && DepthOf(p, np) + 1 + DepthOf(p, x) - DepthOf(p, id) >= MAX_FOLDER_DEPTH
  }

  ghost predicate MayMove(fs: seq<Folder>, id: Id, np: Id) {
    np == "" || (np in Ids(fs) && !Descends(fs, id, np) && !TooDeep(fs, id, np))
  }

  function LastAt(fs: seq<Folder>, id: Id): (i: nat)
    requires id in Ids(fs)
    ensures i < |fs| && fs[i].id == id && forall j :: i < j < |fs| ==> fs[j].id != id
  {
    if fs[|fs| - 1].id == id then |fs| - 1
    else
      assert fs == fs[..|fs| - 1] + [fs[|fs| - 1]];
      LastAt(fs[..|fs| - 1], id)
  }

  function SetParent(fs: seq<Folder>, id: Id, np: Id): seq<Folder>
    requires id in Ids(fs)
  {
    var i := LastAt(fs, id);
    fs[i := fs[i].(parent := np)]
  }

  lemma SetParentMap(fs: seq<Folder>, id: Id, np: Id)
    requires Distinct(fs) && id in Ids(fs)
    ensures Distinct(SetParent(fs, id, np)) && Ids(SetParent(fs, id, np)) == Ids(fs)
    ensures ParentMap(SetParent(fs, id, np)) == ParentMap(fs)[id := np]
  {
    var i := LastAt(fs, id);
    var gs := SetParent(fs, id, np);
    assert forall j :: 0 <= j < |fs| ==> gs[j].id == fs[j].id;
    SameIds(fs, gs);
    ParentMapKeys(fs);
    forall j | 0 <= j < |gs| ensures gs[j].id in ParentMap(fs)[id := np] && ParentMap(fs)[id := np][gs[j].id] == gs[j].parent {
      ParentMapAt(fs, j);
    }
    ParentMapIs(gs, ParentMap(fs)[id := np]);
  }

  lemma SameIds(fs: seq<Folder>, gs: seq<Folder>)
    requires |fs| == |gs| && forall j :: 0 <= j < |fs| ==> gs[j].id == fs[j].id
    ensures Ids(gs) == Ids(fs)
  {
    forall x ensures x in Ids(gs) <==> x in Ids(fs) {
      if x in Ids(gs) {
        var j :| 0 <= j < |gs| && gs[j].id == x;
        assert fs[j] in fs;
      }
      if x in Ids(fs) {
        var j :| 0 <= j < |fs| && fs[j].id == x;
        assert gs[j] in gs;
      }
    }
  }

  lemma CreateKeepsWf(fs: seq<Folder>, f: Folder)
    requires Wf(fs) && f.id !in Ids(fs) && f.id != "" && MayNest(ParentMap(fs), f.parent)
    ensures Wf(fs + [f])
  {
    var p := ParentMap(fs);
    ParentMapKeys(fs);
    assert (fs + [f])[..|fs|] == fs;
    var d := if f.parent == "" then 0 else DepthOf(p, f.parent) + 1;
    if f.parent != "" { DepthOfForest(p, f.parent); }
    AddKeepsForest(p, f.id, f.parent, d);
  }

  lemma MoveToRootExact(fs: seq<Folder>, id: Id)
    requires Wf(fs) && id in Ids(fs)
    ensures Forest(ParentMap(fs)[id := ""])
  {
    var p := ParentMap(fs);
    ParentMapKeys(fs);
    DepthOfForest(p, id);
    RootAlwaysFits(p, id, DepthOf(p, id));
    ReparentKeepsForestIff(p, id, "", DepthOf(p, id), 0);
  }

  lemma MoveElsewhereExact(fs: seq<Folder>, id: Id, np: Id)
    requires Wf(fs) && id in Ids(fs) && np in Ids(fs) && !Descends(fs, id, np)
    ensures !TooDeep(fs, id, np) <==> Forest(ParentMap(fs)[id := np])
  {
    var p := ParentMap(fs);
    ParentMapKeys(fs);
    DepthOfForest(p, id);
    DescendsIsUnder(fs, id, np);
    DepthOfForest(p, np);
    ReparentKeepsForestIff(p, id, np, DepthOf(p, id), DepthOf(p, np) + 1);
    FitsIsNotTooDeep(fs, id, np);
  }

  /** The two guards of reparent() let a move through exactly when the result is a forest. */
  lemma MoveGuardExact(fs: seq<Folder>, id: Id, np: Id)
    requires Wf(fs) && id in Ids(fs) && (np == "" || np in Ids(fs))
    ensures MayMove(fs, id, np) <==> Forest(ParentMap(SetParent(fs, id, np)))
  {
    ParentMapKeys(fs);
    SetParentMap(fs, id, np);
    if np == "" {
      MoveToRootExact(fs, id);
    } else if Descends(fs, id, np) {
      DescendsIsUnder(fs, id, np);
      CycleIsNoForest(ParentMap(fs), id, np);
    } else {
      MoveElsewhereExact(fs, id, np);
    }
  }

  lemma RootAlwaysFits(p: Parents, a: Id, da: nat)
    requires Forest(p) && HasDepth(p, a, da)
    ensures Fits(p, a, da, 0)
  {
    forall x, dx: nat | Under(p, a, x) && HasDepth(p, x, dx) ensures 0 + dx - da < MAX_FOLDER_DEPTH {
      var k: nat :| Above(p, a, x, k);
      AncestorDepth(p, a, x, k, dx);
      assert Placed(p, x);
      var e: nat :| e < MAX_FOLDER_DEPTH && HasDepth(p, x, e);
      DepthUnique(p, x, dx, e);
    }
  }

  lemma FitsIsNotTooDeep(fs: seq<Folder>, id: Id, np: Id)
    requires Wf(fs) && id in Ids(fs) && np in Ids(fs)
    ensures TooDeep(fs, id, np) <==> !Fits(ParentMap(fs), id, DepthOf(ParentMap(fs), id), DepthOf(ParentMap(fs), np) + 1)
  {
    hide ParentMap, DepthOf, Under, Descends;
    var p := ParentMap(fs);
    ParentMapKeys(fs);
    forall x ensures Descends(fs, id, x) <==> Under(p, id, x) { DescendsIsUnder(fs, id, x); }
    forall x | x in p ensures HasDepth(p, x, DepthOf(p, x)) { DepthOfForest(p, x); }
    forall x, d: nat | HasDepth(p, x, d) ensures d == DepthOf(p, x) { DepthOfIs(p, x, d); }
  }

  lemma {:induction false} ChainSurvives(p: Parents, a: Id, np: Id, x: Id, k: nat)
    requires Forest(p) && a in p && Above(p, a, x, k)
    ensures Above(p[a := np], a, x, k)
    decreases k
  {
    if k > 0 {
      ForestShape(p, x, k);
      ChainSurvives(p, a, np, p[x], k - 1);
    }
  }

  /** Hanging a folder under its own descendant makes a cycle. */
  lemma CycleIsNoForest(p: Parents, a: Id, np: Id)
    requires Forest(p) && a in p && np in p && Under(p, a, np)
    ensures !Forest(p[a := np])
  {
    var k: nat :| Above(p, a, np, k);
    ChainSurvives(p, a, np, np, k);
    assert Above(p[a := np], a, a, k + 1);
    if Forest(p[a := np]) {
      ForestShape(p[a := np], a, k + 1);
    }
  }
}
