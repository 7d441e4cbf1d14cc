/** Folder paths: resolving a path by name, segment by segment, creating what is missing, and
    rendering a folder's path. */
module FolderPaths {
  import opened Options
  import opened FolderForest
  import opened FolderText
  import opened FolderStore

  /** A lookup compares the stored name, stripped and lowered, with the cut and lowered segment. */
  predicate Matches(t: Text, f: Folder, parent: Id, key: string) {
    f.parent == parent && t.lower(Strip(t, f.name)) == key
  }

  function Key(t: Text, seg: string): string {
    t.lower(Cut(seg))
  }

  /** The first folder under `parent` that the key matches. */
  function FindChild(t: Text, fs: seq<Folder>, parent: Id, key: string): Option<Id> {
    if fs == [] then None
    else if Matches(t, fs[0], parent, key) then Some(fs[0].id)
    else FindChild(t, fs[1..], parent, key)
  }

  /** Walk the segments from `parent`; `gen` supplies the ids of new folders. */
  function Walk(t: Text, fs: seq<Folder>, parent: Id, segs: seq<string>, create: bool, gen: seq<Id>): Result<(seq<Folder>, Id)>
    requires |gen| >= |segs|
    decreases |segs|
  {
    if segs == [] then Ok((fs, parent))
    else match FindChild(t, fs, parent, Key(t, segs[0]))
      case Some(id) => Walk(t, fs, id, segs[1..], create, gen)
      case None =>
        if !create then Err(NotFound)
        else if parent != "" && DepthOf(ParentMap(fs), parent) + 1 >= MAX_FOLDER_DEPTH then Err(Invalid)
        else Walk(t, fs + [NewFolder(fs, gen[0], segs[0], parent)], gen[0], segs[1..], create, gen[1..])
  }

  function NewFolder(fs: seq<Folder>, id: Id, seg: string, parent: Id): Folder {
    Folder(id, Cut(seg), |fs|, parent)
  }

  /** resolve_path(): the new folder list and the leaf, or the error it raises. */
  function Resolve(t: Text, fs: seq<Folder>, ref: string, create: bool, gen: seq<Id>): Result<(seq<Folder>, Id)>
    requires |gen| >= |Segments(t, Strip(t, ref))|
  {
    var r := Strip(t, ref);
    if r == "" || t.lower(r) == "root" then Ok((fs, ""))
    else if r in Ids(fs) then Ok((fs, r))
    else Walk(t, fs, "", Segments(t, r), create, gen)
  }

  // ----- new ids -----

  /** Ids no folder has or points to, all different: what uuid4 is relied on for. */
  ghost predicate Fresh(fs: seq<Folder>, gen: seq<Id>) {
    && "" !in gen
    && (forall i, j :: 0 <= i < j < |gen| ==> gen[i] != gen[j])
    && forall f :: f in fs ==> f.id !in gen && f.parent !in gen
  }

  /** `parent` is the root or a folder of the list. */
  predicate Known(fs: seq<Folder>, parent: Id) {
    parent == "" || parent in Ids(fs)
  }

  lemma FreshAfter(fs: seq<Folder>, gen: seq<Id>, f: Folder)
    requires Fresh(fs, gen) && gen != [] && f.id == gen[0] && f.parent !in gen
    ensures Fresh(fs + [f], gen[1..])
  {
    forall x | x in gen[1..] ensures x in gen && x != gen[0] {
      var i :| 0 <= i < |gen[1..]| && gen[1..][i] == x;
      assert gen[i + 1] == x;
    }
  }

  lemma {:induction false} FoundIsKnown(t: Text, fs: seq<Folder>, parent: Id, key: string)
    requires FindChild(t, fs, parent, key).Some?
    ensures exists f :: f in fs && f.id == FindChild(t, fs, parent, key).value && Matches(t, f, parent, key)
  {
    if !Matches(t, fs[0], parent, key) {
      FoundIsKnown(t, fs[1..], parent, key);
    } else {
      assert fs[0] in fs;
    }
  }

  lemma {:induction false} FindAppended(t: Text, fs: seq<Folder>, more: seq<Folder>, parent: Id, key: string)
    ensures FindChild(t, fs + more, parent, key)
         == if FindChild(t, fs, parent, key).Some? then FindChild(t, fs, parent, key) else FindChild(t, more, parent, key)
    decreases |fs|
  {
    if fs == [] {
      assert fs + more == more;
    } else {
      assert (fs + more)[1..] == fs[1..] + more;
      FindAppended(t, fs[1..], more, parent, key);
    }
  }

  lemma {:induction false} FindNone(t: Text, fs: seq<Folder>, parent: Id, key: string)
    requires forall f :: f in fs ==> f.parent != parent
    ensures FindChild(t, fs, parent, key) == None
  {
    if fs != [] {
      FindNone(t, fs[1..], parent, key);
    }
  }

  lemma AppendedIds(fs: seq<Folder>, f: Folder)
    ensures Ids(fs + [f]) == Ids(fs) + {f.id}
  {
    forall x ensures x in Ids(fs + [f]) <==> x in Ids(fs) + {f.id} {
      if x in Ids(fs) {
        var g :| g in fs && g.id == x;
        assert g in fs + [f];
      }
      assert f in fs + [f];
    }
  }

  // ----- what a resolve does to the list -----

  /** A resolve only appends: the old folders stay as they were, in place, the forest stays a forest,
      and the leaf is the root or a folder of the new list. */
  lemma {:induction false} WalkAppends(t: Text, fs: seq<Folder>, parent: Id, segs: seq<string>, create: bool, gen: seq<Id>)
    requires |gen| >= |segs| && Fresh(fs, gen) && Known(fs, parent) && Wf(fs)
    ensures var r := Walk(t, fs, parent, segs, create, gen);
      r.Ok? ==> fs <= r.value.0 && Wf(r.value.0) && Known(r.value.0, r.value.1) && (!create ==> r.value.0 == fs)
    decreases |segs|
  {
    if segs != [] {
      var key := Key(t, segs[0]);
      if FindChild(t, fs, parent, key).Some? {
        FoundIsKnown(t, fs, parent, key);
        WalkAppends(t, fs, FindChild(t, fs, parent, key).value, segs[1..], create, gen);
      } else if create && !(parent != "" && DepthOf(ParentMap(fs), parent) + 1 >= MAX_FOLDER_DEPTH) {
        var f := NewFolder(fs, gen[0], segs[0], parent);
        ParentMapKeys(fs);
        CreateKeepsWf(fs, f);
        AppendedIds(fs, f);
        FreshAfter(fs, gen, f);
        WalkAppends(t, fs + [f], gen[0], segs[1..], create, gen[1..]);
      }
    }
  }

  lemma ResolveKeepsWf(t: Text, fs: seq<Folder>, ref: string, create: bool, gen: seq<Id>)
    requires |gen| >= |Segments(t, Strip(t, ref))| && Fresh(fs, gen) && Wf(fs)
    ensures var r := Resolve(t, fs, ref, create, gen);
      r.Ok? ==> fs <= r.value.0 && Wf(r.value.0) && Known(r.value.0, r.value.1) && (!create ==> r.value.0 == fs)
  {
    WalkAppends(t, fs, "", Segments(t, Strip(t, ref)), create, gen);
  }

  // ----- resolving twice -----

  /** A lookup by the name a folder was created under finds that folder. */
  predicate SelfMatching(t: Text, f: Folder) {
    t.lower(Strip(t, f.name)) == t.lower(f.name)
  }

  /** What a walk appends: folders with new ids, named by the cut of some segment. */
  lemma {:induction false} WalkNews(t: Text, fs: seq<Folder>, parent: Id, segs: seq<string>, create: bool, gen: seq<Id>)
    requires |gen| >= |segs| && Walk(t, fs, parent, segs, create, gen).Ok?
    ensures var gs := Walk(t, fs, parent, segs, create, gen).value.0;
      fs <= gs && forall f :: f in gs[|fs|..] ==> f.id in gen && exists s :: s in segs && f.name == Cut(s)
    decreases |segs|
  {
    if segs != [] {
      match FindChild(t, fs, parent, Key(t, segs[0]))
      case Some(id) =>
        WalkNews(t, fs, id, segs[1..], create, gen);
      case None =>
        var f := NewFolder(fs, gen[0], segs[0], parent);
        WalkNews(t, fs + [f], gen[0], segs[1..], create, gen[1..]);
        var gs := Walk(t, fs, parent, segs, create, gen).value.0;
        assert fs <= fs + [f] <= gs;
        assert gs[|fs|..] == [f] + gs[|fs + [f]|..];
        forall g | g in gs[|fs|..] ensures g.id in gen && exists s :: s in segs && g.name == Cut(s) {
          if g == f {
            assert segs[0] in segs;
          } else {
            assert g in gs[|fs + [f]|..];
            var s :| s in segs[1..] && g.name == Cut(s);
            assert s in segs;
          }
        }
    }
  }

  lemma {:induction false} WalkAgain(t: Text, fs: seq<Folder>, parent: Id, segs: seq<string>, gen: seq<Id>, create: bool, gen2: seq<Id>)
    requires |gen| >= |segs| && |gen2| >= |segs| && Walk(t, fs, parent, segs, true, gen).Ok?
    requires var gs := Walk(t, fs, parent, segs, true, gen).value.0;
      fs <= gs && forall f :: f in gs[|fs|..] ==> SelfMatching(t, f)
    ensures var r := Walk(t, fs, parent, segs, true, gen);
      Walk(t, r.value.0, parent, segs, create, gen2) == r
    decreases |segs|
  {
    if segs != [] {
      var gs := Walk(t, fs, parent, segs, true, gen).value.0;
      var key := Key(t, segs[0]);
      FindAppended(t, fs, gs[|fs|..], parent, key);
      assert gs == fs + gs[|fs|..];
      match FindChild(t, fs, parent, key)
      case Some(id) =>
        WalkAgain(t, fs, id, segs[1..], gen, create, gen2);
      case None =>
        var f := NewFolder(fs, gen[0], segs[0], parent);
        WalkNews(t, fs + [f], gen[0], segs[1..], true, gen[1..]);
        assert gs[|fs|..] == [f] + gs[|fs + [f]|..];
        assert f in gs[|fs|..] && Matches(t, f, parent, key);
        assert FindChild(t, gs[|fs|..], parent, key) == Some(gen[0]);
        WalkAgain(t, fs + [f], gen[0], segs[1..], gen[1..], create, gen2);
    }
  }

  /** Once a folder is new, nothing hangs under it but the rest of the path. */
  lemma {:induction false} NewParents(t: Text, fs: seq<Folder>, parent: Id, segs: seq<string>, gen: seq<Id>)
    requires |gen| >= |segs| && Fresh(fs, gen) && parent !in gen && forall f :: f in fs ==> f.parent != parent
    requires Walk(t, fs, parent, segs, true, gen).Ok?
    ensures var gs := Walk(t, fs, parent, segs, true, gen).value.0;
      fs <= gs && forall f :: f in gs[|fs|..] ==> f.parent == parent || f.parent in gen
    decreases |segs|
  {
    if segs != [] {
      FindNone(t, fs, parent, Key(t, segs[0]));
      var f := NewFolder(fs, gen[0], segs[0], parent);
      FreshAfter(fs, gen, f);
      assert gen[0] !in gen[1..];
      NewParents(t, fs + [f], gen[0], segs[1..], gen[1..]);
      var gs := Walk(t, fs, parent, segs, true, gen).value.0;
      assert gs[|fs|..] == [f] + gs[|fs| + 1..];
    }
  }

  lemma {:induction false} WalkAgainOnlyIf(t: Text, fs: seq<Folder>, parent: Id, segs: seq<string>, gen: seq<Id>, gen2: seq<Id>)
    requires |gen| >= |segs| && |gen2| >= |segs| && Fresh(fs, gen) && parent !in gen
    requires Walk(t, fs, parent, segs, true, gen).Ok?
    requires var r := Walk(t, fs, parent, segs, true, gen); Walk(t, r.value.0, parent, segs, true, gen2) == r
    ensures var gs := Walk(t, fs, parent, segs, true, gen).value.0;
      fs <= gs && forall f :: f in gs[|fs|..] ==> SelfMatching(t, f)
    decreases |segs|
  {
    if segs != [] {
      var gs := Walk(t, fs, parent, segs, true, gen).value.0;
      var key := Key(t, segs[0]);
      WalkNews(t, fs, parent, segs, true, gen);
      FindAppended(t, fs, gs[|fs|..], parent, key);
      assert gs == fs + gs[|fs|..];
      match FindChild(t, fs, parent, key)
      case Some(id) =>
        FoundIsKnown(t, fs, parent, key);
        WalkAgainOnlyIf(t, fs, id, segs[1..], gen, gen2);
      case None =>
        var f := NewFolder(fs, gen[0], segs[0], parent);
        FreshAfter(fs, gen, f);
        assert gen[0] !in gen[1..];
        NewParents(t, fs + [f], gen[0], segs[1..], gen[1..]);
        var more := gs[|fs| + 1..];
        assert gs[|fs|..] == [f] + more;
        FirstOrNone(t, f, more, parent, key);
        if !SelfMatching(t, f) {
          WalkNews(t, gs + [NewFolder(gs, gen2[0], segs[0], parent)], gen2[0], segs[1..], true, gen2[1..]);
          assert false;
        }
        WalkAgainOnlyIf(t, fs + [f], gen[0], segs[1..], gen[1..], gen2);
    }
  }

  lemma FirstOrNone(t: Text, f: Folder, more: seq<Folder>, parent: Id, key: string)
    requires forall g :: g in more ==> g.parent != parent
    ensures FindChild(t, [f] + more, parent, key) == if Matches(t, f, parent, key) then Some(f.id) else None
  {
    assert ([f] + more)[1..] == more;
    FindNone(t, more, parent, key);
  }

  // ----- the segments a resolve creates folders for -----

  /** The segments from the first one on that no folder matches. */
  function MissingFrom(t: Text, fs: seq<Folder>, parent: Id, segs: seq<string>): seq<string>
    decreases |segs|
  {
    if segs == [] then []
    else match FindChild(t, fs, parent, Key(t, segs[0]))
      case Some(id) => MissingFrom(t, fs, id, segs[1..])
      case None => segs
  }

  function Missing(t: Text, fs: seq<Folder>, ref: string): seq<string> {
    var r := Strip(t, ref);
    if r == "" || t.lower(r) == "root" || r in Ids(fs) then [] else MissingFrom(t, fs, "", Segments(t, r))
  }

  /** The folders `more` are named by the cuts of `segs`, one by one. */
  ghost predicate NamedBy(more: seq<Folder>, segs: seq<string>) {
    |more| == |segs| && forall i :: 0 <= i < |segs| ==> more[i].name == Cut(segs[i])
  }

  lemma {:induction false} WalkCreatesAll(t: Text, fs: seq<Folder>, parent: Id, segs: seq<string>, gen: seq<Id>)
    requires |gen| >= |segs| && Fresh(fs, gen) && parent !in gen
    requires segs != [] ==> FindChild(t, fs, parent, Key(t, segs[0])) == None
    requires Walk(t, fs, parent, segs, true, gen).Ok?
    ensures var gs := Walk(t, fs, parent, segs, true, gen).value.0; fs <= gs && NamedBy(gs[|fs|..], segs)
    decreases |segs|
  {
    if segs != [] {
      var f := NewFolder(fs, gen[0], segs[0], parent);
      FreshAfter(fs, gen, f);
      assert gen[0] !in gen[1..];
      if |segs| > 1 { FindNone(t, fs + [f], gen[0], Key(t, segs[1])); }
      WalkCreatesAll(t, fs + [f], gen[0], segs[1..], gen[1..]);
      var gs := Walk(t, fs, parent, segs, true, gen).value.0;
      assert gs[|fs|..] == [f] + gs[|fs + [f]|..];
    }
  }

  lemma {:induction false} WalkCreatesMissing(t: Text, fs: seq<Folder>, parent: Id, segs: seq<string>, gen: seq<Id>)
    requires |gen| >= |segs| && Fresh(fs, gen) && parent !in gen && Walk(t, fs, parent, segs, true, gen).Ok?
    ensures var gs := Walk(t, fs, parent, segs, true, gen).value.0;
      fs <= gs && NamedBy(gs[|fs|..], MissingFrom(t, fs, parent, segs))
    decreases |segs|
  {
    if segs != [] {
      match FindChild(t, fs, parent, Key(t, segs[0]))
      case Some(id) =>
        FoundIsKnown(t, fs, parent, Key(t, segs[0]));
        WalkCreatesMissing(t, fs, id, segs[1..], gen);
      case None =>
        WalkCreatesAll(t, fs, parent, segs, gen);
    }
  }

  /** A lookup strips the name it compares with; for this segment that makes no difference. */
  predicate FoundByItsCut(t: Text, seg: string) {
    t.lower(Strip(t, Cut(seg))) == t.lower(Cut(seg))
  }

  /** Resolving a path a second time, creating what is missing, returns the same leaf and creates nothing,
      exactly when the cut of each segment that was missing before the first call is found by its own name. */
  lemma ResolveTwiceIff(t: Text, fs: seq<Folder>, ref: string, gen: seq<Id>, gen2: seq<Id>)
    requires |gen| >= |Segments(t, Strip(t, ref))| && |gen2| >= |Segments(t, Strip(t, ref))|
    requires Fresh(fs, gen) && Strip(t, ref) !in gen && Resolve(t, fs, ref, true, gen).Ok?
    ensures var r := Resolve(t, fs, ref, true, gen);
      Resolve(t, r.value.0, ref, true, gen2) == r <==> forall s :: s in Missing(t, fs, ref) ==> FoundByItsCut(t, s)
  {
    hide Walk, Segments;
    NewlyFoundIff(t, fs, ref, gen, gen2);
    var r := Strip(t, ref);
    if !(r == "" || t.lower(r) == "root" || r in Ids(fs)) {
      var missing := Missing(t, fs, ref);
      WalkCreatesMissing(t, fs, "", Segments(t, r), gen);
      var more := Resolve(t, fs, ref, true, gen).value.0[|fs|..];
      forall s | s in missing && forall f :: f in more ==> SelfMatching(t, f) ensures FoundByItsCut(t, s) {
        var i :| 0 <= i < |missing| && missing[i] == s;
        assert more[i] in more;
      }
      forall f | f in more && forall s :: s in missing ==> FoundByItsCut(t, s) ensures SelfMatching(t, f) {
        var i :| 0 <= i < |more| && more[i] == f;
        assert missing[i] in missing;
      }
    }
  }

  /** The same, read off the folders the first call created. */
  lemma NewlyFoundIff(t: Text, fs: seq<Folder>, ref: string, gen: seq<Id>, gen2: seq<Id>)
    requires |gen| >= |Segments(t, Strip(t, ref))| && |gen2| >= |Segments(t, Strip(t, ref))|
    requires Fresh(fs, gen) && Strip(t, ref) !in gen && Resolve(t, fs, ref, true, gen).Ok?
    ensures var r := Resolve(t, fs, ref, true, gen);
      fs <= r.value.0
      && (Resolve(t, r.value.0, ref, true, gen2) == r <==> forall f :: f in r.value.0[|fs|..] ==> SelfMatching(t, f))
  {
    var r := Strip(t, ref);
    if !(r == "" || t.lower(r) == "root" || r in Ids(fs)) {
      var segs := Segments(t, r);
      WalkNews(t, fs, "", segs, true, gen);
      var gs := Walk(t, fs, "", segs, true, gen).value.0;
      assert gs == fs + gs[|fs|..];
      forall f | f in gs ensures f.id != r { assert f in fs || f in gs[|fs|..]; }
      if forall f :: f in gs[|fs|..] ==> SelfMatching(t, f) {
        WalkAgain(t, fs, "", segs, gen, true, gen2);
      }
      if Walk(t, gs, "", segs, true, gen2) == Walk(t, fs, "", segs, true, gen) {
        WalkAgainOnlyIf(t, fs, "", segs, gen, gen2);
      }
    }
  }

  predicate CutCleanly(t: Text, seg: string) {
    Cut(seg) != "" ==> !t.isSpace(Cut(seg)[|Cut(seg)| - 1])
  }

  lemma {:induction false} MissingMember(t: Text, fs: seq<Folder>, parent: Id, segs: seq<string>, s: string)
    requires s in MissingFrom(t, fs, parent, segs)
    ensures s in segs
    decreases |segs|
  {
    match FindChild(t, fs, parent, Key(t, segs[0]))
    case Some(id) => MissingMember(t, fs, id, segs[1..], s);
    case None =>
  }

  /** So it is enough that no segment's cut at 100 characters ends in white space. */
  lemma ResolveTwice(t: Text, fs: seq<Folder>, ref: string, gen: seq<Id>, gen2: seq<Id>)
    requires |gen| >= |Segments(t, Strip(t, ref))| && |gen2| >= |Segments(t, Strip(t, ref))|
    requires Fresh(fs, gen) && Strip(t, ref) !in gen && Resolve(t, fs, ref, true, gen).Ok?
    requires forall s :: s in Segments(t, Strip(t, ref)) ==> CutCleanly(t, s)
    ensures Resolve(t, Resolve(t, fs, ref, true, gen).value.0, ref, true, gen2) == Resolve(t, fs, ref, true, gen)
  {
    ResolveTwiceIff(t, fs, ref, gen, gen2);
    forall s | s in Missing(t, fs, ref) ensures FoundByItsCut(t, s) {
      MissingMember(t, fs, "", Segments(t, Strip(t, ref)), s);
      PartsTrimmed(t, Split(Strip(t, ref)), s);
      TrimmedStrip(t, Cut(s));
    }
  }

  const PLAIN := Text(c => c == ' ', (s: string) => s)

  lemma CutSegment(ref: string)
    requires |ref| == 101 && ref[99] == ' ' && ref[100] == 'b' && forall i :: 0 <= i < 99 ==> ref[i] == 'a'
    ensures Strip(PLAIN, ref) == ref && Segments(PLAIN, ref) == [ref] && ref != "root"
    ensures Cut(ref) == ref[..100] && |Strip(PLAIN, ref[..100])| == 99
  {
    TrimmedStrip(PLAIN, ref);
    SplitName(ref);
    assert Parts(PLAIN, [ref]) == [ref];
    assert RStrip(PLAIN, ref[..100]) == ref[..99] by { assert ref[..100][..99] == ref[..99]; }
  }

  /** The condition fails for a path such as 99 letters, a space and one letter more: the cut keeps the
      space, the lookup strips it, and every call creates one more folder of the same name. */
  lemma CutMakesDuplicates(ref: string)
    requires |ref| == 101 && ref[99] == ' ' && ref[100] == 'b' && forall i :: 0 <= i < 99 ==> ref[i] == 'a'
    ensures Segments(PLAIN, Strip(PLAIN, ref)) == [ref]
    ensures var first := Folder("x", ref[..100], 0, "");
      && Resolve(PLAIN, [], ref, true, ["x"]) == Ok(([first], "x"))
      && Resolve(PLAIN, [first], ref, true, ["y"]) == Ok(([first, Folder("y", ref[..100], 1, "")], "y"))
  {
    CutSegment(ref);
    var first, second := Folder("x", ref[..100], 0, ""), Folder("y", ref[..100], 1, "");
    assert !Matches(PLAIN, first, "", Key(PLAIN, ref));
    assert FindChild(PLAIN, [first], "", Key(PLAIN, ref)) == None;
    assert Ids([first]) == {"x"} by { assert first in [first]; }
    assert [ref][1..] == [] && ["x"][1..] == [] && ["y"][1..] == [];
    assert PLAIN.lower(ref) == ref;
    assert Walk(PLAIN, [first], "x", [], true, []) == Ok(([first], "x"));
    assert Walk(PLAIN, [first, second], "y", [], true, []) == Ok(([first, second], "y"));
    assert NewFolder([], "x", ref, "") == first && [] + [first] == [first];
    assert NewFolder([first], "y", ref, "") == second && [first] + [second] == [first, second];
    var none: seq<Folder> := [];
    assert FindChild(PLAIN, none, "", Key(PLAIN, ref)) == None;
    assert Walk(PLAIN, none, "", [ref], true, ["x"]) == Walk(PLAIN, none + [first], "x", [ref][1..], true, ["x"][1..]);
    assert Walk(PLAIN, [first], "", [ref], true, ["y"]) == Walk(PLAIN, [first] + [second], "y", [ref][1..], true, ["y"][1..]);
  }

  // ----- the path of a folder -----

  function NameOf(fs: seq<Folder>, id: Id): string
    requires id in Ids(fs)
  {
    fs[LastAt(fs, id)].name
  }

  /** The names from the root down to `fid`. */
  function Names(fs: seq<Folder>, fid: Id, seen: set<Id>): seq<string>
    decreases Ids(fs) - seen
  {
    if fid == "" || fid !in Ids(fs) || fid in seen then []
    else Names(fs, fs[LastAt(fs, fid)].parent, seen + {fid}) + [NameOf(fs, fid)]
  }

  function NonEmpty(ns: seq<string>): seq<string> {
    if ns == [] then [] else (if ns[0] == "" then [] else [ns[0]]) + NonEmpty(ns[1..])
  }

  function Breadcrumb(fs: seq<Folder>, id: Id): string {
    Join(NonEmpty(Names(fs, id, {})))
  }

  ghost predicate CleanNames(t: Text, fs: seq<Folder>) {
    forall f :: f in fs ==> CleanName(t, f.name)
  }

  ghost predicate SiblingsApart(t: Text, fs: seq<Folder>) {
    forall i, j :: 0 <= i < j < |fs| && fs[i].parent == fs[j].parent ==>
      t.lower(Strip(t, fs[i].name)) != t.lower(Strip(t, fs[j].name))
  }

  /** A resolve keeps every stored name clean. */
  lemma ResolveKeepsNames(t: Text, fs: seq<Folder>, ref: string, create: bool, gen: seq<Id>)
    requires |gen| >= |Segments(t, Strip(t, ref))| && CleanNames(t, fs)
    ensures Resolve(t, fs, ref, create, gen).Ok? ==> CleanNames(t, Resolve(t, fs, ref, create, gen).value.0)
  {
    var segs := Segments(t, Strip(t, ref));
    if Walk(t, fs, "", segs, create, gen).Ok? {
      WalkNews(t, fs, "", segs, create, gen);
      var gs := Walk(t, fs, "", segs, create, gen).value.0;
      assert gs == fs + gs[|fs|..];
      forall s | s in segs ensures CleanName(t, Cut(s)) { PartsTrimmed(t, Split(Strip(t, ref)), s); }
    }
  }

  lemma {:induction false} FindAt(t: Text, fs: seq<Folder>, i: nat, parent: Id, key: string)
    requires i < |fs| && Matches(t, fs[i], parent, key) && forall j :: 0 <= j < i ==> !Matches(t, fs[j], parent, key)
    ensures FindChild(t, fs, parent, key) == Some(fs[i].id)
  {
    if i > 0 {
      FindAt(t, fs[1..], i - 1, parent, key);
    }
  }

  /** Walking the names of a folder's ancestry arrives at the folder. */
  lemma {:induction false} WalkToLeaf(t: Text, fs: seq<Folder>, id: Id, d: nat, seen: set<Id>, rest: seq<string>, create: bool, gen: seq<Id>)
    requires Wf(fs) && CleanNames(t, fs) && SiblingsApart(t, fs) && HasDepth(ParentMap(fs), id, d)
    requires forall s :: s in seen ==> DeeperThan(ParentMap(fs), s, d)
    requires |gen| >= |Parts(t, Names(fs, id, seen)) + rest|
    ensures Walk(t, fs, "", Parts(t, Names(fs, id, seen)) + rest, create, gen) == Walk(t, fs, id, rest, create, gen)
    decreases d
  {
    var p := ParentMap(fs);
    ParentMapKeys(fs);
    var i := LastAt(fs, id);
    var f := fs[i];
    ParentMapAt(fs, i);
    assert id !in seen by {
      if id in seen {
        var e: nat :| e > d && HasDepth(p, id, e);
        DepthUnique(p, id, d, e);
      }
    }
    var above := Names(fs, f.parent, seen + {id});
    var seg := Strip(t, f.name);
    CleanNameStrips(t, f.name);
    PartsConcat(t, above, [f.name]);
    assert Parts(t, [f.name]) == [seg];
    assert Parts(t, Names(fs, id, seen)) + rest == Parts(t, above) + ([seg] + rest);
    if d > 0 {
      forall s | s in seen + {id} ensures DeeperThan(p, s, d - 1) {
        if s in seen { var e: nat :| e > d && HasDepth(p, s, e); } else { assert HasDepth(p, s, d); }
      }
      WalkToLeaf(t, fs, f.parent, d - 1, seen + {id}, [seg] + rest, create, gen);
    }
    FindAt(t, fs, i, f.parent, Key(t, seg));
    assert ([seg] + rest)[1..] == rest;
  }

  lemma {:induction false} NamesMembers(t: Text, fs: seq<Folder>, fid: Id, seen: set<Id>)
    requires CleanNames(t, fs)
    ensures forall n :: n in Names(fs, fid, seen) ==> CleanName(t, n) && exists f :: f in fs && f.name == n
    ensures NonEmpty(Names(fs, fid, seen)) == Names(fs, fid, seen)
    decreases Ids(fs) - seen
  {
    if !(fid == "" || fid !in Ids(fs) || fid in seen) {
      var f := fs[LastAt(fs, fid)];
      assert f in fs;
      NamesMembers(t, fs, f.parent, seen + {fid});
      NonEmptyIsSame(Names(fs, fid, seen));
    }
  }

  lemma {:induction false} NonEmptyIsSame(ns: seq<string>)
    requires "" !in ns
    ensures NonEmpty(ns) == ns
  {
    if ns != [] {
      assert ns[0] in ns && forall n :: n in ns[1..] ==> n in ns;
      NonEmptyIsSame(ns[1..]);
    }
  }

  /** A folder's path splits back into the names it was joined from, stripped. */
  lemma PathSegments(t: Text, fs: seq<Folder>, id: Id)
    requires CleanNames(t, fs) && id in Ids(fs) && id != "" && !t.isSpace(SEP)
    requires forall f :: f in fs ==> SEP !in f.name
    ensures Segments(t, Strip(t, Breadcrumb(fs, id))) == Parts(t, Names(fs, id, {}))
    ensures Strip(t, Breadcrumb(fs, id)) != ""
  {
    var ns := Names(fs, id, {});
    NamesMembers(t, fs, id, {});
    forall i | 0 <= i < |ns| ensures SEP !in ns[i] { assert ns[i] in ns; }
    SplitJoin(ns);
    SegmentsStrip(t, Breadcrumb(fs, id));
    var init, last := ns[..|ns| - 1], ns[|ns| - 1];
    PartsConcat(t, init, [last]);
    assert ns == init + [last];
    CleanNameStrips(t, last);
    assert Parts(t, [last]) == [Strip(t, last)];
    assert Split("") == [""] && Parts(t, [""]) == [];
  }

  /** Resolving a folder's path gives the folder back, exactly when the path does not read as the root
      or as another folder's id: names hold no separator and siblings differ after normalisation. */
  lemma BreadcrumbRoundTripIff(t: Text, fs: seq<Folder>, id: Id, create: bool, gen: seq<Id>)
    requires Wf(fs) && CleanNames(t, fs) && SiblingsApart(t, fs) && id in Ids(fs) && !t.isSpace(SEP)
    requires forall f :: f in fs ==> SEP !in f.name
    requires |gen| >= |Segments(t, Strip(t, Breadcrumb(fs, id)))|
    ensures var r := Strip(t, Breadcrumb(fs, id));
      Resolve(t, fs, Breadcrumb(fs, id), create, gen) == Ok((fs, id))
      <==> t.lower(r) != "root" && (r in Ids(fs) ==> r == id)
  {
    var p := ParentMap(fs);
    ParentMapKeys(fs);
    DepthOfForest(p, id);
    PathSegments(t, fs, id);
    WalkToLeaf(t, fs, id, DepthOf(p, id), {}, [], create, gen);
    assert Parts(t, Names(fs, id, {})) + [] == Parts(t, Names(fs, id, {}));
  }
}
