/** The folder store as the program keeps it: a list changed in place, with the loops that guard it. */
module FolderService {
  import opened Options
  import opened FolderForest
  import opened FolderText
  import opened FolderStore
  import opened FolderPaths
  import opened FolderLookup
  import opened FolderDelete
  import opened FolderRuns

  /** The artifact store, as far as folders see it: where each artifact is filed, and which artifacts
      refuse to be deleted. */
  class ArtifactFiling {
    var filed: Filing
    var refusing: set<Slug>

    method SetFolder(slug: Slug, folder: Id)
      requires slug in filed
      modifies this`filed
      ensures filed == old(filed)[slug := folder]
    {
      filed := filed[slug := folder];
    }

    method DeleteArtifact(slug: Slug) returns (ok: bool)
      requires slug in filed
      modifies this`filed
      ensures ok == (slug !in refusing)
      ensures filed == if ok then old(filed) - {slug} else old(filed)
    {
      ok := slug !in refusing;
      if ok {
        filed := filed - {slug};
      }
    }
  }

  class ArtifactFolderStore {
    const text: Text
    var folders: seq<Folder>

    constructor (text: Text)
      ensures this.text == text && folders == [] && Wf(folders)
    {
      this.text := text;
      folders := [];
      assert ParentMap([]) == map[];
    }

    /** The worklist walk. It ends on any list, cyclic ones included, and finds the whole subtree. */
    method SubtreeIds(folderId: Id) returns (out: set<Id>)
      ensures Doomed(folders, folderId, out)
    {
      out := {};
      if folderId !in Ids(folders) {
        return;
      }
      var stack := [folderId];
      assert Reach(folders, folderId, folderId, 0);
      while stack != []
        invariant folderId in out || folderId in stack
        invariant forall s :: s in stack ==> s in Ids(folders) && Descends(folders, folderId, s)
        invariant forall s :: s in out ==> s in Ids(folders) && Descends(folders, folderId, s)
        invariant forall u, y :: u in out && Child(folders, u, y) ==> y in out || y in stack
        decreases Ids(folders) - out, |stack|
      {
        var cur := stack[|stack| - 1];
        ghost var before := stack;
        stack := stack[..|stack| - 1];
        assert before == stack + [cur];
        if cur in out {
          continue;
        }
        ghost var popped := stack;
        ghost var earlier := out;
        out := out + {cur};
        for i := 0 to |folders|
          invariant popped <= stack
          invariant forall s :: s in stack[|popped|..] ==> s in Ids(folders) && Child(folders, cur, s)
          invariant forall j :: 0 <= j < i && folders[j].parent == cur ==> folders[j].id in out || folders[j].id in stack
        {
          var f := folders[i];
          if f.parent == cur && f.id !in out {
            assert f in folders;
            stack := stack + [f.id];
          }
        }
        assert stack == popped + stack[|popped|..];
        forall s | s in stack ensures s in Ids(folders) && Descends(folders, folderId, s) {
          if s !in popped {
            assert s in stack[|popped|..];
            ChildDescends(folders, folderId, cur, s);
          } else {
            assert s in before;
          }
        }
        forall u, y | u in out && Child(folders, u, y) ensures y in out || y in stack {
          if u == cur {
            var f :| f in folders && f.id == y && f.parent == cur;
            var j :| 0 <= j < |folders| && folders[j] == f;
          } else {
            assert y in earlier || y in before;
          }
        }
      }
      forall x | Descends(folders, folderId, x) ensures x in out {
        var k: nat :| Reach(folders, folderId, x, k);
        ClosedHoldsDescendants(folders, folderId, out, x, k);
      }
    }

    method Depth(folderId: Id) returns (depth: nat)
      ensures depth == DepthOf(ParentMap(folders), folderId)
    {
      var byId := ParentMap(folders);
      depth := 0;
      var seen: set<Id> := {};
      var fid := if folderId in byId then byId[folderId] else "";
      while fid != "" && fid in byId && fid !in seen
        invariant depth + DepthWalk(byId, fid, seen) == DepthOf(byId, folderId)
        decreases byId.Keys - seen
      {
        depth := depth + 1;
        seen, fid := seen + {fid}, byId[fid];
      }
    }

    method Create(name: string, parent: Id, newId: Id) returns (r: Result<Folder>)
      requires Fresh(folders, [newId])
      modifies this`folders
      ensures r.Ok? <==> Clean(text, name).Some? && MayNest(ParentMap(old(folders)), parent)
      ensures r.Ok? ==> r.value == Folder(newId, Clean(text, name).value, |old(folders)|, parent)
      ensures r.Err? ==> r.error == Invalid
      ensures folders == Apply(text, old(folders), Op.Create(name, parent, newId))
      ensures old(Wf(folders)) ==> Wf(folders)
    {
      ghost var op := Op.Create(name, parent, newId);
      assert old(Wf(folders)) ==> Wf(Apply(text, folders, op)) by {
        if Wf(folders) { StepKeepsWf(text, folders, op); }
      }
      var cleaned := Clean(text, name);
      if cleaned.None? {
        return Err(Invalid);
      }
      if parent != "" {
        if parent !in ParentMap(folders) {
          return Err(Invalid);
        }
        var d := Depth(parent);
        if d + 1 >= MAX_FOLDER_DEPTH {
          return Err(Invalid);
        }
      }
      var folder := Folder(newId, cleaned.value, |folders|, parent);
      folders := folders + [folder];
      return Ok(folder);
    }

    method Rename(id: Id, name: string) returns (r: Result<Folder>)
      modifies this`folders
      ensures Clean(text, name).None? ==> r == Err(Invalid)
      ensures Clean(text, name).Some? && id !in old(Ids(folders)) ==> r == Err(NotFound)
      ensures Clean(text, name).Some? && id in old(Ids(folders)) ==> r.Ok?
      ensures r.Ok? ==> r.value.id == id && Some(r.value.name) == Clean(text, name) && r.value in folders
      ensures folders == Apply(text, old(folders), Op.Rename(id, name))
      ensures old(Wf(folders)) ==> Wf(folders)
    {
      ghost var op := Op.Rename(id, name);
      assert old(Wf(folders)) ==> Wf(Apply(text, folders, op)) by {
        if Wf(folders) { StepKeepsWf(text, folders, op); }
      }
      var cleaned := Clean(text, name);
      if cleaned.None? {
        return Err(Invalid);
      }
      if id !in Ids(folders) {
        return Err(NotFound);
      }
      var at := LastAt(folders, id);
      folders := SetName(folders, id, cleaned.value);
      return Ok(folders[at]);
    }

    /** The height of the tallest folder of the subtree, by the walk of every folder in it. */
    method DeepestOf(subtree: set<Id>) returns (deepest: nat)
      requires subtree != {}
      ensures exists x :: x in subtree && DepthOf(ParentMap(folders), x) == deepest
      ensures forall x :: x in subtree ==> DepthOf(ParentMap(folders), x) <= deepest
    {
      var first :| first in subtree;
      deepest := Depth(first);
      var todo := subtree - {first};
      while todo != {}
        invariant todo <= subtree
        invariant exists x :: x in subtree && DepthOf(ParentMap(folders), x) == deepest
        invariant forall x :: x in subtree - todo ==> DepthOf(ParentMap(folders), x) <= deepest
        decreases todo
      {
        var x :| x in todo;
        var d := Depth(x);
        if d > deepest {
          deepest := d;
        }
        todo := todo - {x};
      }
    }

    method Reparent(id: Id, newParent: Id) returns (r: Result<Folder>)
      modifies this`folders
      ensures id !in old(Ids(folders)) ==> r == Err(NotFound)
      ensures id in old(Ids(folders)) && !old(MayMove(folders, id, newParent)) ==> r == Err(Invalid)
      ensures id in old(Ids(folders)) && old(MayMove(folders, id, newParent)) ==> r.Ok?
      ensures r.Ok? ==> r.value.id == id && r.value.parent == newParent && r.value in folders
      ensures folders == Apply(text, old(folders), Op.Reparent(id, newParent))
      ensures old(Wf(folders)) ==> Wf(folders)
    {
      ghost var op := Op.Reparent(id, newParent);
      assert old(Wf(folders)) ==> Wf(Apply(text, folders, op)) by {
        if Wf(folders) { StepKeepsWf(text, folders, op); }
      }
      if id !in Ids(folders) {
        return Err(NotFound);
      }
      if newParent != "" {
        if newParent !in Ids(folders) {
          return Err(Invalid);
        }
        var subtree := SubtreeIds(id);
        if newParent in subtree {
          return Err(Invalid);
        }
        assert Reach(folders, id, id, 0);
        assert id in subtree;
        var base := Depth(id);
        var deepest := DeepestOf(subtree);
        var target := Depth(newParent);
        GuardIsTooDeep(id, newParent, subtree, deepest);
        if target + 1 + (deepest - base) >= MAX_FOLDER_DEPTH {
          return Err(Invalid);
        }
      }
      var at := LastAt(folders, id);
      folders := SetParent(folders, id, newParent);
      return Ok(folders[at]);
    }

    lemma GuardIsTooDeep(id: Id, np: Id, subtree: set<Id>, deepest: nat)
      requires id in Ids(folders) && Doomed(folders, id, subtree)
      requires exists x :: x in subtree && DepthOf(ParentMap(folders), x) == deepest
      requires forall x :: x in subtree ==> DepthOf(ParentMap(folders), x) <= deepest
      ensures TooDeep(folders, id, np) <==>
        DepthOf(ParentMap(folders), np) + 1 + (deepest - DepthOf(ParentMap(folders), id)) >= MAX_FOLDER_DEPTH
    {
      var p := ParentMap(folders);
      ParentMapKeys(folders);
      var top :| top in subtree && DepthOf(p, top) == deepest;
      DescendantExists(folders, id, top);
    }

    /** The first folder under `parent` whose stored name matches the key. */
    method Match(parent: Id, key: string) returns (r: Option<Id>)
      ensures r == FindChild(text, folders, parent, key)
    {
      for i := 0 to |folders|
        invariant FindChild(text, folders, parent, key) == FindChild(text, folders[i..], parent, key)
      {
        if Matches(text, folders[i], parent, key) {
          return Some(folders[i].id);
        }
        assert folders[i..][1..] == folders[i + 1..];
      }
      return None;
    }

    /** Appends in place as it walks; an attempt that fails takes back what it appended. */
    method ResolvePath(ref: string, create: bool, gen: seq<Id>) returns (r: Result<Id>)
      requires |gen| >= |Segments(text, Strip(text, ref))| && Fresh(folders, gen)
      modifies this`folders
      ensures var spec := Resolve(text, old(folders), ref, create, gen);
        && (spec.Ok? ==> r == Ok(spec.value.1) && folders == spec.value.0)
        && (spec.Err? ==> r == Err(spec.error) && folders == old(folders))
      ensures !create ==> folders == old(folders)
      ensures !create && r.Ok? ==> RefersTo(text, old(folders), ref, r.value)
      ensures !create && r.Err? ==> r.error == NotFound && forall x :: !RefersTo(text, old(folders), ref, x)
      ensures old(Wf(folders)) ==> Wf(folders) && (r.Ok? ==> Known(folders, r.value))
    {
      hide Wf, Known, Fresh, Strip, Segments, DepthOf, FindChild, ParentMap, NewFolder, Key, RefersTo;
      if !create {
        forall x ensures var spec := Resolve(text, folders, ref, create, gen);
          && (spec == Ok((folders, x)) <==> RefersTo(text, folders, ref, x))
          && (spec.Ok? ==> spec.value.0 == folders) && (spec.Err? ==> spec == Err(NotFound))
        {
          LookupIff(text, folders, ref, gen, x);
        }
      }
      assert old(Wf(folders)) ==>
        var spec := Resolve(text, folders, ref, create, gen);
        spec.Ok? ==> Wf(spec.value.0) && Known(spec.value.0, spec.value.1) by {
        if Wf(folders) { ResolveKeepsWf(text, folders, ref, create, gen); }
      }
      var path := Strip(text, ref);
      if path == "" || text.lower(path) == "root" {
        return Ok("");
      }
      if path in Ids(folders) {
        return Ok(path);
      }
      var segs := Segments(text, path);
      var parent, used, snapshotLen := "", 0, |folders|;
      ghost var before := folders;
      assert segs[0..] == segs && gen[0..] == gen;
      for i := 0 to |segs|
        invariant used <= i && before == old(folders) && before <= folders
        invariant Walk(text, before, "", segs, create, gen) == Walk(text, folders, parent, segs[i..], create, gen[used..])
      {
        assert segs[i..][1..] == segs[i + 1..] && segs[i..][0] == segs[i];
        var found := Match(parent, Key(text, segs[i]));
        if found.None? {
          if !create {
            folders := folders[..snapshotLen];
            return Err(NotFound);
          }
          if parent != "" {
            var d := Depth(parent);
            if d + 1 >= MAX_FOLDER_DEPTH {
              folders := folders[..snapshotLen];
              return Err(Invalid);
            }
          }
          assert gen[used..][1..] == gen[used + 1..];
          folders := folders + [NewFolder(folders, gen[used], segs[i], parent)];
          parent, used := gen[used], used + 1;
        } else {
          parent := found.value;
        }
      }
      assert Resolve(text, before, ref, create, gen) == Ok((folders, parent));
      assert !create ==> RefersTo(text, before, ref, parent);
      return Ok(parent);
    }

    /** Collects the names leaf first, then turns them round. */
    method BreadcrumbOf(folderId: Id) returns (path: string)
      ensures path == Breadcrumb(folders, folderId)
    {
      var names: seq<string> := [];
      var seen: set<Id> := {};
      var fid := folderId;
      while fid != "" && fid in Ids(folders) && fid !in seen
        invariant Names(folders, folderId, {}) == Names(folders, fid, seen) + Reversed(names)
        decreases Ids(folders) - seen
      {
        var f := folders[LastAt(folders, fid)];
        names := names + [f.name];
        assert names[..|names| - 1] + [f.name] == names;
        seen, fid := seen + {fid}, f.parent;
      }
      assert [] + Reversed(names) == Reversed(names);
      return Join(NonEmpty(Reversed(names)));
    }

    /** Deletes a folder: alone, its children and artifacts moving to its parent, or with everything in it.
        Phase one changes the folder list, phase two goes through the artifacts. */
    method Delete(id: Id, contents: bool, artifacts: ArtifactFiling)
        returns (r: Result<set<Id>>, touched: set<Slug>)
      modifies this`folders, artifacts`filed
      ensures r.Ok? <==> id in old(Ids(folders))
      ensures r.Err? ==> r.error == NotFound && artifacts.filed == old(artifacts.filed) && touched == {}
      ensures folders == Apply(text, old(folders), Op.Delete(id, contents))
      ensures r.Ok? && contents ==>
        && r.value == old(Subtree(folders, id))
        && artifacts.filed == Cascaded(old(artifacts.filed), r.value, artifacts.refusing)
        && touched == old(artifacts.filed).Keys - artifacts.filed.Keys
      ensures r.Ok? && !contents ==>
        && r.value == {id}
        && artifacts.filed == Refiled(old(artifacts.filed), {id}, ParentOf(old(folders), id))
        && touched == FiledIn(old(artifacts.filed), {id})
      ensures old(Wf(folders)) ==> Wf(folders)
      ensures old(Wf(folders)) && r.Ok? && old(NoDangling(folders, artifacts.filed)) ==>
        (NoDangling(folders, artifacts.filed) <==>
          (contents ==> forall s :: s in old(artifacts.filed) && old(artifacts.filed)[s] in r.value ==> s !in artifacts.refusing))
    {
      ghost var op := Op.Delete(id, contents);
      ghost var filed0 := artifacts.filed;
      assert old(Wf(folders)) ==> Wf(Apply(text, folders, op)) by {
        if Wf(folders) { StepKeepsWf(text, folders, op); }
      }
      touched := {};
      if id !in Ids(folders) {
        r := Err(NotFound);
        return;
      }
      SubtreeIsDoomed(folders, id);
      var parent := ParentOf(folders, id);
      var affected := {id};
      if contents {
        affected := SubtreeIds(id);
        assert affected == Subtree(folders, id);
      } else {
        folders := Rehang(folders, id, parent);
      }
      folders := Without(folders, affected);
      touched := RefileOrDelete(affected, contents, parent, artifacts);
      r := Ok(affected);
      if old(Wf(folders) && NoDangling(folders, artifacts.filed)) {
        if contents {
          CascadeNoDanglingIff(old(folders), filed0, id, affected, artifacts.refusing);
        } else {
          SafeDeleteNoDangling(old(folders), filed0, id);
        }
      }
    }

    /** Phase two of a delete. */
    method RefileOrDelete(affected: set<Id>, contents: bool, parent: Id, artifacts: ArtifactFiling) returns (touched: set<Slug>)
      modifies artifacts`filed
      ensures contents ==>
        && artifacts.filed == Cascaded(old(artifacts.filed), affected, artifacts.refusing)
        && touched == old(artifacts.filed).Keys - artifacts.filed.Keys
      ensures !contents ==>
        && artifacts.filed == Refiled(old(artifacts.filed), affected, parent)
        && touched == FiledIn(old(artifacts.filed), affected)
    {
      touched := {};
      var listing := artifacts.filed;
      var todo := listing.Keys;
      while todo != {}
        invariant todo <= listing.Keys && listing == old(artifacts.filed)
        invariant forall s :: s in artifacts.filed <==>
          s in listing && (s in todo || !contents || listing[s] !in affected || s in artifacts.refusing)
        invariant forall s :: s in artifacts.filed ==>
          artifacts.filed[s] == if s !in todo && !contents && listing[s] in affected then parent else listing[s]
        invariant forall s :: s in touched <==>
          s in listing && s !in todo && listing[s] in affected && (contents ==> s !in artifacts.refusing)
        decreases todo
      {
        var slug :| slug in todo;
        todo := todo - {slug};
        if listing[slug] in affected {
          if contents {
            var ok := artifacts.DeleteArtifact(slug);
            if ok {
              touched := touched + {slug};
            }
          } else {
            artifacts.SetFolder(slug, parent);
            touched := touched + {slug};
          }
        }
      }
    }
  }

  function Reversed(ns: seq<string>): seq<string> {
    if ns == [] then [] else [ns[|ns| - 1]] + Reversed(ns[..|ns| - 1])
  }
}
