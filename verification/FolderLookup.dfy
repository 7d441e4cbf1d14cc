/** What a path resolves to, said of the folder list alone: the chain of folders its segments name. */
module FolderLookup {
  import opened Options
  import opened FolderForest
  import opened FolderText
  import opened FolderStore
  import opened FolderPaths

  // ----- text -----

  predicate AllSpace(t: Text, s: string) {
    forall i :: 0 <= i < |s| ==> t.isSpace(s[i])
  }

  lemma {:induction false} LStripIs(t: Text, s: string) returns (i: nat)
    ensures i <= |s| && LStrip(t, s) == s[i..] && AllSpace(t, s[..i]) && (i < |s| ==> !t.isSpace(s[i]))
  {
    if s != "" && t.isSpace(s[0]) {
      var k := LStripIs(t, s[1..]);
      i := k + 1;
      assert s[1..][k..] == s[i..] && s[..i] == [s[0]] + s[1..][..k];
    } else {
      i := 0;
    }
  }

  lemma {:induction false} RStripIs(t: Text, s: string) returns (j: nat)
    ensures j <= |s| && RStrip(t, s) == s[..j] && AllSpace(t, s[j..]) && (j > 0 ==> !t.isSpace(s[j - 1]))
    decreases |s|
  {
    if s != "" && t.isSpace(s[|s| - 1]) {
      j := RStripIs(t, s[..|s| - 1]);
      assert s[..|s| - 1][..j] == s[..j] && s[j..] == s[..|s| - 1][j..] + [s[|s| - 1]];
    } else {
      j := |s|;
    }
  }

  /** Stripping takes away white space at both ends, all of it, and nothing else. */
  lemma StripIs(t: Text, s: string) returns (i: nat, j: nat)
    ensures i <= j <= |s| && Strip(t, s) == s[i..j] && AllSpace(t, s[..i]) && AllSpace(t, s[j..])
    ensures i < j ==> !t.isSpace(s[i]) && !t.isSpace(s[j - 1])
  {
    i := LStripIs(t, s);
    var k := RStripIs(t, s[i..]);
    j := i + k;
    assert s[i..][..k] == s[i..j] && s[i..][k..] == s[j..];
  }

  /** A name is kept as its stripped text, the first 100 characters of it, and refused if that is empty. */
  lemma CleanIs(t: Text, name: string)
    ensures Clean(t, name).None? <==> Strip(t, name) == ""
    ensures Clean(t, name).Some? ==> Clean(t, name).value == if |Strip(t, name)| > 100 then Strip(t, name)[..100] else Strip(t, name)
  {
  }

  // ----- the chain -----

  /** The segment names this folder of `parent`: its stripped name and the segment's first 100 characters are the same
      in lower case. */
  predicate Named(t: Text, f: Folder, parent: Id, seg: string) {
    f.parent == parent && t.lower(Strip(t, f.name)) == t.lower(if |seg| > 100 then seg[..100] else seg)
  }

  /** Folder `k` is the first of the list that the segment names under `parent`. */
  predicate FirstNamed(t: Text, fs: seq<Folder>, parent: Id, seg: string, k: nat) {
    k < |fs| && Named(t, fs[k], parent, seg) && forall j :: 0 <= j < k ==> !Named(t, fs[j], parent, seg)
  }

  /** From folder `from` each segment names a folder under the one before, and the last of them is `x`. */
  ghost predicate LeadsTo(t: Text, fs: seq<Folder>, from: Id, segs: seq<string>, x: Id)
    decreases |segs|
  {
    if segs == [] then x == from
    else exists k: nat :: FirstNamed(t, fs, from, segs[0], k) && LeadsTo(t, fs, fs[k].id, segs[1..], x)
  }

  lemma {:induction false} FindIs(t: Text, fs: seq<Folder>, parent: Id, seg: string)
    ensures forall k: nat :: FirstNamed(t, fs, parent, seg, k) ==> FindChild(t, fs, parent, Key(t, seg)) == Some(fs[k].id)
    ensures FindChild(t, fs, parent, Key(t, seg)).Some? ==> exists k: nat :: FirstNamed(t, fs, parent, seg, k)
  {
    if fs != [] {
      FindIs(t, fs[1..], parent, seg);
      if Named(t, fs[0], parent, seg) {
        assert FirstNamed(t, fs, parent, seg, 0);
      } else {
        forall k: nat | FirstNamed(t, fs, parent, seg, k) ensures FindChild(t, fs, parent, Key(t, seg)) == Some(fs[k].id) {
          assert fs[k] == fs[1..][k - 1];
          assert FirstNamed(t, fs[1..], parent, seg, k - 1);
        }
        if FindChild(t, fs, parent, Key(t, seg)).Some? {
          var k: nat :| FirstNamed(t, fs[1..], parent, seg, k);
          assert FirstNamed(t, fs, parent, seg, k + 1);
        }
      }
    }
  }

  lemma OneFirst(t: Text, fs: seq<Folder>, parent: Id, seg: string, j: nat, k: nat)
    requires FirstNamed(t, fs, parent, seg, j) && FirstNamed(t, fs, parent, seg, k)
    ensures j == k
  {
  }

  // ----- without creating -----

  lemma {:induction false} WalkLooksUp(t: Text, fs: seq<Folder>, from: Id, segs: seq<string>, gen: seq<Id>, x: Id)
    requires |gen| >= |segs|
    ensures Walk(t, fs, from, segs, false, gen) == Ok((fs, x)) <==> LeadsTo(t, fs, from, segs, x)
    ensures Walk(t, fs, from, segs, false, gen).Ok? ==> Walk(t, fs, from, segs, false, gen).value.0 == fs
    ensures Walk(t, fs, from, segs, false, gen).Err? ==> Walk(t, fs, from, segs, false, gen) == Err(NotFound)
    decreases |segs|
  {
    if segs != [] {
      hide FirstNamed;
      FindIs(t, fs, from, segs[0]);
      match FindChild(t, fs, from, Key(t, segs[0]))
      case Some(id) =>
        var k: nat :| FirstNamed(t, fs, from, segs[0], k);
        WalkLooksUp(t, fs, id, segs[1..], gen, x);
        if LeadsTo(t, fs, from, segs, x) {
          var j: nat :| FirstNamed(t, fs, from, segs[0], j) && LeadsTo(t, fs, fs[j].id, segs[1..], x);
          OneFirst(t, fs, from, segs[0], j, k);
        }
      case None =>
    }
  }

  /** The reference is the root, by an empty or a telling name. */
  predicate IsRootRef(t: Text, ref: string) {
    Strip(t, ref) == "" || t.lower(Strip(t, ref)) == "root"
  }

  /** The reference is the id of a folder. */
  predicate IsIdRef(t: Text, fs: seq<Folder>, ref: string) {
    exists k :: 0 <= k < |fs| && fs[k].id == Strip(t, ref)
  }

  lemma IdRefIs(t: Text, fs: seq<Folder>, ref: string)
    ensures IsIdRef(t, fs, ref) <==> Strip(t, ref) in Ids(fs)
  {
    if Strip(t, ref) in Ids(fs) {
      var f :| f in fs && f.id == Strip(t, ref);
      var k :| 0 <= k < |fs| && fs[k] == f;
    }
    if IsIdRef(t, fs, ref) {
      var k :| 0 <= k < |fs| && fs[k].id == Strip(t, ref);
      assert fs[k] in fs;
    }
  }

  /** What a reference refers to: the root, the folder with that id, or the end of the chain its segments name. */
  ghost predicate RefersTo(t: Text, fs: seq<Folder>, ref: string, x: Id) {
    if IsRootRef(t, ref) then x == ""
    else if IsIdRef(t, fs, ref) then x == Strip(t, ref)
    else LeadsTo(t, fs, "", Segments(t, Strip(t, ref)), x)
  }

  /** Looking a reference up answers the root, the folder with that id, or the end of the chain its segments name;
      without such a chain it is not found. Nothing is created. */
  lemma LookupIff(t: Text, fs: seq<Folder>, ref: string, gen: seq<Id>, x: Id)
    requires |gen| >= |Segments(t, Strip(t, ref))|
    ensures var r := Resolve(t, fs, ref, false, gen);
      && (r == Ok((fs, x)) <==> RefersTo(t, fs, ref, x))
      && (r.Ok? ==> r.value.0 == fs)
      && (r.Err? ==> r == Err(NotFound))
  {
    hide Walk, Segments, LeadsTo;
    IdRefIs(t, fs, ref);
    WalkLooksUp(t, fs, "", Segments(t, Strip(t, ref)), gen, x);
  }

  // ----- creating what is missing -----

  /** The first `m` segments name a chain that ends at `at`, and the next one names nothing there. */
  ghost predicate Longest(t: Text, fs: seq<Folder>, from: Id, segs: seq<string>, m: nat, at: Id) {
    && m <= |segs| && LeadsTo(t, fs, from, segs[..m], at)
    && (m < |segs| ==> forall k: nat :: !FirstNamed(t, fs, at, segs[m], k))
  }

  /** How many folders there are on the way from the root down to `x`. */
  function Level(fs: seq<Folder>, x: Id): nat {
    if x == "" then 0 else DepthOf(ParentMap(fs), x) + 1
  }

  /** The folder made for a segment: named by its first 100 characters. */
  function MadeFor(id: Id, seg: string, order: int, parent: Id): Folder {
    Folder(id, if |seg| > 100 then seg[..100] else seg, order, parent)
  }

  /** The folders `more`, created under `at` for the segments, one inside the other. */
  ghost predicate CreatedFor(fs: seq<Folder>, more: seq<Folder>, segs: seq<string>, at: Id, gen: seq<Id>)
    requires |gen| >= |segs|
  {
    |more| == |segs| && forall i :: 0 <= i < |segs| ==> more[i] == CreatedAt(fs, segs, at, gen, i)
  }

  function CreatedAt(fs: seq<Folder>, segs: seq<string>, at: Id, gen: seq<Id>, i: nat): Folder
    requires i < |segs| <= |gen|
  {
    MadeFor(gen[i], segs[i], |fs| + i, if i == 0 then at else gen[i - 1])
  }

  lemma LevelOfNew(fs: seq<Folder>, f: Folder)
    requires Wf(fs) && f.id !in Ids(fs) && f.id != "" && MayNest(ParentMap(fs), f.parent)
    ensures Level(fs + [f], f.id) == Level(fs, f.parent) + 1
  {
    var p := ParentMap(fs);
    ParentMapKeys(fs);
    assert (fs + [f])[..|fs|] == fs;
    var d := if f.parent == "" then 0 else DepthOf(p, f.parent) + 1;
    if f.parent != "" { DepthOfForest(p, f.parent); }
    AddKeepsForest(p, f.id, f.parent, d);
    DepthOfIs(p[f.id := f.parent], f.id, d);
  }

  /** Under a folder that has none, everything that is missing is created, as far down as level 20. */
  lemma {:induction false} WalkCreates(t: Text, fs: seq<Folder>, at: Id, segs: seq<string>, gen: seq<Id>)
    requires |gen| >= |segs| && Fresh(fs, gen) && at !in gen && Known(fs, at) && Wf(fs)
    requires segs != [] ==> forall k: nat :: !FirstNamed(t, fs, at, segs[0], k)
    ensures var r := Walk(t, fs, at, segs, true, gen);
      && (r.Err? <==> segs != [] && Level(fs, at) + |segs| > 20)
      && (r.Err? ==> r == Err(Invalid))
      && (r.Ok? ==> fs <= r.value.0 && CreatedFor(fs, r.value.0[|fs|..], segs, at, gen))
      && (r.Ok? ==> r.value.1 == if segs == [] then at else gen[|segs| - 1])
    decreases |segs|
  {
    ParentMapKeys(fs);
    if segs != [] {
      FindIs(t, fs, at, segs[0]);
      if at != "" { DepthOfForest(ParentMap(fs), at); }
      if at == "" || DepthOf(ParentMap(fs), at) + 1 < MAX_FOLDER_DEPTH {
        WalkCreatesOne(t, fs, at, segs, gen);
      }
    }
  }

  lemma {:induction false} WalkCreatesOne(t: Text, fs: seq<Folder>, at: Id, segs: seq<string>, gen: seq<Id>)
    requires |gen| >= |segs| > 0 && Fresh(fs, gen) && at !in gen && Known(fs, at) && Wf(fs)
    requires FindChild(t, fs, at, Key(t, segs[0])) == None
    requires at == "" || (at in ParentMap(fs) && DepthOf(ParentMap(fs), at) + 1 < MAX_FOLDER_DEPTH)
    ensures var r := Walk(t, fs, at, segs, true, gen);
      && (r.Err? <==> Level(fs, at) + |segs| > 20)
      && (r.Err? ==> r == Err(Invalid))
      && (r.Ok? ==> fs <= r.value.0 && CreatedFor(fs, r.value.0[|fs|..], segs, at, gen) && r.value.1 == gen[|segs| - 1])
    decreases |segs|, 0
  {
    hide FirstNamed, Walk, FindChild, NewFolder;
    var f := NewFolder(fs, gen[0], segs[0], at);
    WalkOne(t, fs, at, segs, gen);
    WalkCreates(t, fs + [f], gen[0], segs[1..], gen[1..]);
    var r := Walk(t, fs, at, segs, true, gen);
    if r.Ok? {
      CreatedCons(fs, f, r.value.0, segs, at, gen);
    }
  }

  /** The walk goes on in a new folder, one level down. */
  lemma WalkOne(t: Text, fs: seq<Folder>, at: Id, segs: seq<string>, gen: seq<Id>)
    requires |gen| >= |segs| > 0 && Fresh(fs, gen) && at !in gen && Known(fs, at) && Wf(fs)
    requires FindChild(t, fs, at, Key(t, segs[0])) == None
    requires at == "" || (at in ParentMap(fs) && DepthOf(ParentMap(fs), at) + 1 < MAX_FOLDER_DEPTH)
    ensures var f := NewFolder(fs, gen[0], segs[0], at);
      && Walk(t, fs, at, segs, true, gen) == Walk(t, fs + [f], gen[0], segs[1..], true, gen[1..])
      && Fresh(fs + [f], gen[1..]) && gen[0] !in gen[1..] && Known(fs + [f], gen[0]) && Wf(fs + [f])
      && Level(fs + [f], gen[0]) == Level(fs, at) + 1
      && (|segs| > 1 ==> forall k: nat :: !FirstNamed(t, fs + [f], gen[0], segs[1], k))
  {
    hide FirstNamed, Wf, Level;
    var f := NewFolder(fs, gen[0], segs[0], at);
    ParentMapKeys(fs);
    CreateKeepsWf(fs, f);
    LevelOfNew(fs, f);
    FreshAfter(fs, gen, f);
    AppendedIds(fs, f);
    if |segs| > 1 { NothingUnder(t, fs + [f], gen[0], segs[1]); }
  }

  lemma CreatedCons(fs: seq<Folder>, f: Folder, gs: seq<Folder>, segs: seq<string>, at: Id, gen: seq<Id>)
    requires |gen| >= |segs| > 0 && f == NewFolder(fs, gen[0], segs[0], at)
    requires fs + [f] <= gs && CreatedFor(fs + [f], gs[|fs| + 1..], segs[1..], gen[0], gen[1..])
    ensures CreatedFor(fs, gs[|fs|..], segs, at, gen)
  {
    var more := gs[|fs| + 1..];
    assert gs[|fs|..] == [f] + more;
    forall i | 0 <= i < |segs| ensures ([f] + more)[i] == CreatedAt(fs, segs, at, gen, i) {
      if i > 0 { assert more[i - 1] == CreatedAt(fs + [f], segs[1..], gen[0], gen[1..], i - 1); }
    }
  }

  lemma NothingUnder(t: Text, fs: seq<Folder>, at: Id, seg: string)
    requires forall f :: f in fs ==> f.parent != at
    ensures forall k: nat :: !FirstNamed(t, fs, at, seg, k)
  {
  }

  lemma {:induction false} WalkResolves(t: Text, fs: seq<Folder>, from: Id, segs: seq<string>, gen: seq<Id>, m: nat, at: Id)
    requires |gen| >= |segs| && Fresh(fs, gen) && from !in gen && Known(fs, from) && Wf(fs)
    requires Longest(t, fs, from, segs, m, at)
    ensures var r := Walk(t, fs, from, segs, true, gen);
      && (r.Err? <==> m < |segs| && Level(fs, at) + (|segs| - m) > 20)
      && (r.Err? ==> r == Err(Invalid))
      && (r.Ok? ==> fs <= r.value.0 && CreatedFor(fs, r.value.0[|fs|..], segs[m..], at, gen))
      && (r.Ok? ==> r.value.1 == if m == |segs| then at else gen[|segs| - m - 1])
    decreases |segs|
  {
    hide Wf, Fresh;
    if m == 0 {
      assert segs[0..] == segs;
      WalkCreates(t, fs, from, segs, gen);
    } else {
      hide FirstNamed;
      var k: nat :| FirstNamed(t, fs, from, segs[..m][0], k) && LeadsTo(t, fs, fs[k].id, segs[..m][1..], at);
      FindIs(t, fs, from, segs[0]);
      assert segs[..m][1..] == segs[1..][..m - 1] && segs[m..] == segs[1..][m - 1..];
      FirstFits(t, fs, from, segs[0], k, gen);
      WalkResolves(t, fs, fs[k].id, segs[1..], gen, m - 1, at);
    }
  }

  lemma FirstFits(t: Text, fs: seq<Folder>, from: Id, seg: string, k: nat, gen: seq<Id>)
    requires FirstNamed(t, fs, from, seg, k) && Fresh(fs, gen)
    ensures fs[k].id !in gen && Known(fs, fs[k].id)
  {
    assert fs[k] in fs;
  }

  /** Every list of segments has a longest chain. */
  lemma {:induction false} LongestExists(t: Text, fs: seq<Folder>, from: Id, segs: seq<string>) returns (m: nat, at: Id)
    ensures Longest(t, fs, from, segs, m, at)
    decreases |segs|
  {
    hide FirstNamed;
    if segs != [] && exists k: nat :: FirstNamed(t, fs, from, segs[0], k) {
      var k: nat :| FirstNamed(t, fs, from, segs[0], k);
      InList(t, fs, from, segs[0], k);
      var n, end := LongestExists(t, fs, fs[k].id, segs[1..]);
      m, at := n + 1, end;
      assert segs[..m][1..] == segs[1..][..n];
    } else {
      m, at := 0, from;
      assert segs[..0] == [];
    }
  }

  lemma InList(t: Text, fs: seq<Folder>, from: Id, seg: string, k: nat)
    requires FirstNamed(t, fs, from, seg, k)
    ensures k < |fs|
  {
  }

  /** Resolving with creation: the folders that are there are followed as far as they go; the rest of the segments
      become folders one inside the other, named by their first 100 characters, and the last of them is the answer.
      It is refused exactly when they do not all fit on the 20 levels. */
  lemma ResolveCreates(t: Text, fs: seq<Folder>, ref: string, gen: seq<Id>, m: nat, at: Id)
    requires |gen| >= |Segments(t, Strip(t, ref))| && Fresh(fs, gen) && Wf(fs)
    requires !IsRootRef(t, ref) && !IsIdRef(t, fs, ref) && Longest(t, fs, "", Segments(t, Strip(t, ref)), m, at)
    ensures var r := Resolve(t, fs, ref, true, gen);
      var segs := Segments(t, Strip(t, ref));
      && (r.Err? <==> m < |segs| && Level(fs, at) + (|segs| - m) > 20)
      && (r.Err? ==> r == Err(Invalid))
      && (r.Ok? ==> fs <= r.value.0 && CreatedFor(fs, r.value.0[|fs|..], segs[m..], at, gen))
      && (r.Ok? ==> r.value.1 == if m == |segs| then at else gen[|segs| - m - 1])
  {
    hide Walk, Segments, Longest, Wf;
    IdRefIs(t, fs, ref);
    WalkResolves(t, fs, "", Segments(t, Strip(t, ref)), gen, m, at);
  }

  /** The root and an id are answered whether or not missing folders may be created. */
  lemma ResolveNames(t: Text, fs: seq<Folder>, ref: string, create: bool, gen: seq<Id>)
    requires |gen| >= |Segments(t, Strip(t, ref))|
    ensures IsRootRef(t, ref) ==> Resolve(t, fs, ref, create, gen) == Ok((fs, ""))
    ensures !IsRootRef(t, ref) && IsIdRef(t, fs, ref) ==> Resolve(t, fs, ref, create, gen) == Ok((fs, Strip(t, ref)))
  {
    IdRefIs(t, fs, ref);
  }
}
