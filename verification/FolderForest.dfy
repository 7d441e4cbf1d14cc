/** Parent pointers as a forest: what makes a folder tree well formed, and what each way of
    re-linking it does to depths. */
module FolderForest {
  const MAX_FOLDER_DEPTH := 20

  type Id = string

  /** Each folder's parent; "" is the root. */
  type Parents = map<Id, Id>

  /** `id` has exactly `d` ancestors. */
  predicate HasDepth(p: Parents, id: Id, d: nat)
    decreases d
  {
    id in p && if d == 0 then p[id] == "" else p[id] != "" && HasDepth(p, p[id], d - 1)
  }

  /** `a` is the `k`-th ancestor of `x` (`x` itself for `k` = 0). */
  predicate Above(p: Parents, a: Id, x: Id, k: nat)
    decreases k
  {
    x in p && if k == 0 then x == a else p[x] != "" && Above(p, a, p[x], k - 1)
  }

  ghost predicate Under(p: Parents, a: Id, x: Id) {
    exists k: nat :: Above(p, a, x, k)
  }

  /** Every folder hangs from the root by a chain of existing folders, within the depth cap. */
  ghost predicate Forest(p: Parents) {
    && "" !in p
    && forall id :: id in p ==> Placed(p, id)
  }

  ghost predicate Placed(p: Parents, id: Id) {
    exists d: nat :: d < MAX_FOLDER_DEPTH && HasDepth(p, id, d)
  }

  lemma {:induction false} DepthUnique(p: Parents, id: Id, d: nat, e: nat)
    requires HasDepth(p, id, d) && HasDepth(p, id, e)
    ensures d == e
    decreases d
  {
    if d > 0 && e > 0 {
      DepthUnique(p, p[id], d - 1, e - 1);
    }
  }

  lemma {:induction false} AncestorDepth(p: Parents, a: Id, x: Id, k: nat, d: nat)
    requires Above(p, a, x, k) && HasDepth(p, x, d)
    ensures k <= d && HasDepth(p, a, d - k)
    decreases k
  {
    if k > 0 {
      AncestorDepth(p, a, p[x], k - 1, d - 1);
    }
  }

  /** What a forest is: parents exist or are the root, and nothing is its own proper ancestor. */
  lemma ForestShape(p: Parents, id: Id, k: nat)
    requires Forest(p) && id in p
    ensures p[id] == "" || p[id] in p
    ensures Above(p, id, id, k) ==> k == 0
  {
    assert Placed(p, id);
    var d: nat :| d < MAX_FOLDER_DEPTH && HasDepth(p, id, d);
    assert d > 0 ==> HasDepth(p, p[id], d - 1);
    if Above(p, id, id, k) {
      AncestorDepth(p, id, id, k, d);
      DepthUnique(p, id, d, d - k);
    }
  }

  // ----- adding a folder -----

  lemma {:induction false} GrowKeepsDepth(p: Parents, q: Parents, x: Id, d: nat)
    requires HasDepth(p, x, d) && forall y :: y in p ==> y in q && q[y] == p[y]
    ensures HasDepth(q, x, d)
    decreases d
  {
    if d > 0 {
      GrowKeepsDepth(p, q, p[x], d - 1);
    }
  }

  lemma AddKeepsForest(p: Parents, id: Id, parent: Id, d: nat)
    requires Forest(p) && id !in p && id != ""
    requires if parent == "" then d == 0 else d > 0 && HasDepth(p, parent, d - 1)
    requires d < MAX_FOLDER_DEPTH
    ensures Forest(p[id := parent]) && HasDepth(p[id := parent], id, d)
  {
    var q := p[id := parent];
    if parent != "" {
      GrowKeepsDepth(p, q, parent, d - 1);
    }
    assert HasDepth(q, id, d);
    forall x | x in q ensures Placed(q, x) {
      if x != id {
        assert Placed(p, x);
        var e: nat :| e < MAX_FOLDER_DEPTH && HasDepth(p, x, e);
        GrowKeepsDepth(p, q, x, e);
      }
    }
  }

  // ----- moving a subtree -----

  /** Folders outside the moved subtree keep their depth. */
  lemma {:induction false} OutsideKeepsDepth(p: Parents, a: Id, np: Id, x: Id, d: nat)
    requires HasDepth(p, x, d) && !Under(p, a, x) && a in p
    ensures HasDepth(p[a := np], x, d)
    decreases d
  {
    assert x != a by { assert Above(p, x, x, 0); }
    if d > 0 {
      forall k: nat ensures !Above(p, a, p[x], k) {
        if Above(p, a, p[x], k) { assert Above(p, a, x, k + 1); }
      }
      OutsideKeepsDepth(p, a, np, p[x], d - 1);
    }
  }

  /** A folder `k` levels below the moved one ends up `k` levels below its new place. */
  lemma {:induction false} MovedDepth(p: Parents, a: Id, np: Id, x: Id, k: nat, base: nat)
    requires Forest(p) && a in p && Above(p, a, x, k) && HasDepth(p[a := np], a, base)
    ensures HasDepth(p[a := np], x, base + k)
    decreases k
  {
    if k > 0 {
      ForestShape(p, x, k);
      MovedDepth(p, a, np, p[x], k - 1, base);
    }
  }

  /** The reparent lemma: every moved folder's new depth is the depth of the new parent, plus one,
      plus its depth relative to the moved folder; every other folder keeps its depth. */
  lemma ReparentDepth(p: Parents, a: Id, np: Id, x: Id, da: nat, dx: nat, base: nat)
    requires Forest(p) && a in p && HasDepth(p, a, da) && HasDepth(p, x, dx)
    requires if np == "" then base == 0 else base > 0 && HasDepth(p, np, base - 1) && !Under(p, a, np)
    ensures Under(p, a, x) ==> dx >= da && HasDepth(p[a := np], x, base + dx - da)
    ensures !Under(p, a, x) ==> HasDepth(p[a := np], x, dx)
  {
    if np != "" {
      OutsideKeepsDepth(p, a, np, np, base - 1);
    }
    assert HasDepth(p[a := np], a, base);
    if Under(p, a, x) {
      var k: nat :| Above(p, a, x, k);
      AncestorDepth(p, a, x, k, dx);
      DepthUnique(p, a, da, dx - k);
      MovedDepth(p, a, np, x, k, base);
    } else {
      OutsideKeepsDepth(p, a, np, x, dx);
    }
  }

  /** The deepest folder of the subtree of `a` (at depth `da`) still fits when `a` moves to depth `base`. */
  ghost predicate Fits(p: Parents, a: Id, da: nat, base: nat) {
    forall x, dx: nat :: Under(p, a, x) && HasDepth(p, x, dx) ==> base + dx - da < MAX_FOLDER_DEPTH
  }

  /** Moving a subtree keeps the forest exactly when its deepest folder still fits. */
  lemma ReparentKeepsForestIff(p: Parents, a: Id, np: Id, da: nat, base: nat)
    requires Forest(p) && a in p && HasDepth(p, a, da)
    requires if np == "" then base == 0 else base > 0 && HasDepth(p, np, base - 1) && !Under(p, a, np)
    ensures Forest(p[a := np]) <==> Fits(p, a, da, base)
  {
    var q := p[a := np];
    if Forest(q) {
      forall x, dx: nat | Under(p, a, x) && HasDepth(p, x, dx) ensures base + dx - da < MAX_FOLDER_DEPTH {
        ReparentDepth(p, a, np, x, da, dx, base);
        assert Placed(q, x);
        var e: nat :| e < MAX_FOLDER_DEPTH && HasDepth(q, x, e);
        DepthUnique(q, x, e, base + dx - da);
      }
    }
    if Fits(p, a, da, base) {
      assert "" !in q;
      forall x | x in q ensures Placed(q, x) {
        assert x in p && Placed(p, x);
        var dx: nat :| dx < MAX_FOLDER_DEPTH && HasDepth(p, x, dx);
        ReparentDepth(p, a, np, x, da, dx, base);
      }
    }
  }

  // ----- deleting -----

  /** Removing a set of folders that is closed downwards leaves every other depth alone. */
  lemma CascadeKeepsForest(p: Parents, gone: set<Id>)
    requires Forest(p) && forall x :: x in p && p[x] in gone ==> x in gone
    ensures Forest(p - gone)
  {
    forall x | x in p - gone ensures Placed(p - gone, x) {
      assert Placed(p, x);
      var d: nat :| d < MAX_FOLDER_DEPTH && HasDepth(p, x, d);
      CascadeKeepsDepth(p, gone, x, d);
    }
  }

  lemma {:induction false} CascadeKeepsDepth(p: Parents, gone: set<Id>, x: Id, d: nat)
    requires HasDepth(p, x, d) && x !in gone && forall y :: y in p && p[y] in gone ==> y in gone
    ensures HasDepth(p - gone, x, d)
    decreases d
  {
    if d > 0 {
      CascadeKeepsDepth(p, gone, p[x], d - 1);
    }
  }

  /** Splicing one folder out: its children go to its parent. */
  function Spliced(p: Parents, a: Id): Parents
    requires a in p
  {
    map x | x in p && x != a :: if p[x] == a then p[a] else p[x]
  }

  /** Folders below the spliced one rise by one level; the others stay. */
  lemma {:induction false} SplicedDepth(p: Parents, a: Id, x: Id, d: nat)
    requires Forest(p) && a in p && x != a && HasDepth(p, x, d)
    ensures HasDepth(Spliced(p, a), x, if Under(p, a, x) then d - 1 else d)
    ensures Under(p, a, x) ==> d >= 1
    decreases d
  {
    var q := Spliced(p, a);
    if d == 0 {
      assert forall k: nat :: !Above(p, a, x, k);
    } else if p[x] == a {
      assert Above(p, a, a, 0) && Above(p, a, x, 1);
      if d > 1 {
        ForestShape(p, a, 1);
        assert !Under(p, a, p[a]) by {
          if Under(p, a, p[a]) {
            var k: nat :| Above(p, a, p[a], k);
            assert Above(p, a, a, k + 1);
            ForestShape(p, a, k + 1);
          }
        }
        SplicedDepth(p, a, p[a], d - 2);
      }
    } else {
      assert Under(p, a, x) <==> Under(p, a, p[x]) by {
        if Under(p, a, x) {
          var k: nat :| Above(p, a, x, k);
          assert Above(p, a, p[x], k - 1);
        }
        if Under(p, a, p[x]) {
          var k: nat :| Above(p, a, p[x], k);
          assert Above(p, a, x, k + 1);
        }
      }
      SplicedDepth(p, a, p[x], d - 1);
    }
  }

  lemma SpliceKeepsForest(p: Parents, a: Id)
    requires Forest(p) && a in p
    ensures Forest(Spliced(p, a))
  {
    forall x | x in Spliced(p, a) ensures Placed(Spliced(p, a), x) {
      assert Placed(p, x);
      var d: nat :| d < MAX_FOLDER_DEPTH && HasDepth(p, x, d);
      SplicedDepth(p, a, x, d);
    }
  }
}
