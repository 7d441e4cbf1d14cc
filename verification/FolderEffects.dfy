/** What each folder operation does to the list and to the filing, folder by folder. */
module FolderEffects {
  import opened Options
  import opened FolderForest
  import opened FolderText
  import opened FolderStore
  import opened FolderPaths
  import opened FolderDelete
  import opened FolderRuns

  /** Every folder stays in its place, folder `id` changed by `change`. */
  ghost predicate OnlyChanged(fs: seq<Folder>, gs: seq<Folder>, id: Id, change: Folder -> Folder) {
    |gs| == |fs| && forall i :: 0 <= i < |fs| ==> gs[i] == if fs[i].id == id then change(fs[i]) else fs[i]
  }

  /** Renaming gives one folder the stripped name, cut at 100 characters, or changes nothing. */
  lemma RenameEffect(t: Text, fs: seq<Folder>, id: Id, name: string)
    requires Distinct(fs)
    ensures var gs := Apply(t, fs, Op.Rename(id, name));
      var n := Strip(t, name);
      && (n != "" && id in Ids(fs) ==>
        OnlyChanged(fs, gs, id, (f: Folder) => f.(name := if |n| > 100 then n[..100] else n)))
      && (n == "" || id !in Ids(fs) ==> gs == fs)
  {
  }

  /** The guards of a move: the new parent is the root, or a folder outside the moved subtree under which no folder of
      the subtree gets 20 ancestors or more. */
  ghost predicate Movable(fs: seq<Folder>, id: Id, np: Id) {
    var p := ParentMap(fs);
    np == "" || (np in Ids(fs) && !Descends(fs, id, np)
      && forall x :: x in p && Descends(fs, id, x) ==> DepthOf(p, np) + 1 + DepthOf(p, x) - DepthOf(p, id) < 20)
  }

  lemma ReparentEffect(t: Text, fs: seq<Folder>, id: Id, np: Id)
    requires Distinct(fs)
    ensures var gs := Apply(t, fs, Op.Reparent(id, np));
      && (id in Ids(fs) && Movable(fs, id, np) ==> OnlyChanged(fs, gs, id, (f: Folder) => f.(parent := np)))
      && (id !in Ids(fs) || !Movable(fs, id, np) ==> gs == fs)
  {
    assert MayMove(fs, id, np) <==> Movable(fs, id, np);
  }

  lemma ParentKnown(fs: seq<Folder>, id: Id, f: Folder)
    requires Distinct(fs) && f in fs && f.id == id
    ensures id in Ids(fs) && ParentOf(fs, id) == f.parent
  {
    var k :| 0 <= k < |fs| && fs[k] == f;
  }

  /** A safe delete: the folder goes, its children hang from its parent, and nothing else changes. */
  lemma SafeDeleteEffect(t: Text, fs: seq<Folder>, f: Folder)
    requires Distinct(fs) && f in fs
    ensures var gs := Apply(t, fs, Op.Delete(f.id, false));
      forall g :: g in gs <==> exists h :: h in fs && h.id != f.id && g == if h.parent == f.id then h.(parent := f.parent) else h
  {
    ParentKnown(fs, f.id, f);
    var rehung := Rehang(fs, f.id, f.parent);
    forall g ensures g in Without(rehung, {f.id}) <==>
      exists h :: h in fs && h.id != f.id && g == if h.parent == f.id then h.(parent := f.parent) else h
    {
      WithoutMember(rehung, {f.id}, g);
      if g in rehung {
        var k :| 0 <= k < |rehung| && rehung[k] == g;
        assert fs[k] in fs;
      }
      if exists h :: h in fs && h.id != f.id && g == if h.parent == f.id then h.(parent := f.parent) else h {
        var h :| h in fs && h.id != f.id && g == if h.parent == f.id then h.(parent := f.parent) else h;
        var k :| 0 <= k < |fs| && fs[k] == h;
        assert rehung[k] == g;
      }
    }
  }

  /** A cascade: the folder and all that descend from it go, and nothing else changes. */
  lemma CascadeEffect(t: Text, fs: seq<Folder>, id: Id)
    requires id in Ids(fs)
    ensures var gs := Apply(t, fs, Op.Delete(id, true));
      forall g :: g in gs <==> g in fs && !Descends(fs, id, g.id)
  {
    SubtreeIsDoomed(fs, id);
    forall g ensures g in Without(fs, Subtree(fs, id)) <==> g in fs && !Descends(fs, id, g.id) {
      WithoutMember(fs, Subtree(fs, id), g);
    }
  }

  /** The artifacts of the folders that went: a cascade deletes them, but for those that refuse; a safe delete files
      them in the parent. Every other artifact stays where it is. */
  lemma FilingEffect(filed: Filing, gone: set<Id>, refused: set<Slug>, parent: Id, s: Slug)
    ensures s in Cascaded(filed, gone, refused) <==> s in filed && (filed[s] in gone ==> s in refused)
    ensures s in Cascaded(filed, gone, refused) ==> Cascaded(filed, gone, refused)[s] == filed[s]
    ensures s in Refiled(filed, gone, parent) <==> s in filed
    ensures s in filed ==> Refiled(filed, gone, parent)[s] == if filed[s] in gone then parent else filed[s]
  {
  }
}
