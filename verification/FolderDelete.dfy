/** Deleting a folder: which folders go, where the survivors hang, and what happens to the artifacts
    filed in the folders that went. */
module FolderDelete {
  import opened FolderForest
  import opened FolderStore

  type Slug = string

  /** Which folder each artifact is filed in; "" is unfiled. */
  type Filing = map<Slug, Id>

  function Without(fs: seq<Folder>, gone: set<Id>): seq<Folder> {
    if fs == [] then [] else (if fs[0].id in gone then [] else [fs[0]]) + Without(fs[1..], gone)
  }

  function Rehang(fs: seq<Folder>, id: Id, parent: Id): seq<Folder> {
    seq(|fs|, i requires 0 <= i < |fs| => if fs[i].parent == id then fs[i].(parent := parent) else fs[i])
  }

  function ParentOf(fs: seq<Folder>, id: Id): Id
    requires id in Ids(fs)
  {
    fs[LastAt(fs, id)].parent
  }

  /** The whole subtree of `id`, `id` included; nothing when there is no such folder. */
  ghost predicate Doomed(fs: seq<Folder>, id: Id, gone: set<Id>) {
    forall x :: x in gone <==> id in Ids(fs) && Descends(fs, id, x)
  }

  /** Cascade: the artifacts filed in the subtree go, except those whose deletion is refused. */
  function Cascaded(filed: Filing, gone: set<Id>, refused: set<Slug>): Filing {
    map s | s in filed && (filed[s] !in gone || s in refused) :: filed[s]
  }

  /** Safe delete: the artifacts of the folder move to its parent. */
  function Refiled(filed: Filing, gone: set<Id>, parent: Id): Filing {
    map s | s in filed :: if filed[s] in gone then parent else filed[s]
  }

  function FiledIn(filed: Filing, gone: set<Id>): set<Slug> {
    set s | s in filed && filed[s] in gone
  }

  /** Every artifact is unfiled or filed in a folder that exists. */
  ghost predicate NoDangling(fs: seq<Folder>, filed: Filing) {
    forall s :: s in filed ==> filed[s] == "" || filed[s] in Ids(fs)
  }

  lemma {:induction false} WithoutMember(fs: seq<Folder>, gone: set<Id>, f: Folder)
    ensures f in Without(fs, gone) <==> f in fs && f.id !in gone
  {
    if fs != [] {
      WithoutMember(fs[1..], gone, f);
    }
  }

  lemma {:induction false} WithoutDistinct(fs: seq<Folder>, gone: set<Id>)
    requires Distinct(fs)
    ensures Distinct(Without(fs, gone))
  {
    if fs != [] {
      var rest := Without(fs[1..], gone);
      WithoutDistinct(fs[1..], gone);
      forall i | 0 <= i < |rest| ensures rest[i].id != fs[0].id {
        WithoutMember(fs[1..], gone, rest[i]);
        var j :| 0 <= j < |fs[1..]| && fs[1..][j] == rest[i];
      }
    }
  }

  lemma WithoutIds(fs: seq<Folder>, gone: set<Id>)
    ensures Ids(Without(fs, gone)) == Ids(fs) - gone
  {
    forall x ensures x in Ids(Without(fs, gone)) <==> x in Ids(fs) - gone {
      if x in Ids(fs) - gone {
        var f :| f in fs && f.id == x;
        WithoutMember(fs, gone, f);
      }
      if x in Ids(Without(fs, gone)) {
        var f :| f in Without(fs, gone) && f.id == x;
        WithoutMember(fs, gone, f);
      }
    }
  }

  lemma WithoutMap(fs: seq<Folder>, gone: set<Id>)
    requires Distinct(fs)
    ensures ParentMap(Without(fs, gone)) == ParentMap(fs) - gone
  {
    var gs := Without(fs, gone);
    WithoutDistinct(fs, gone);
    WithoutIds(fs, gone);
    ParentMapKeys(fs);
    forall i | 0 <= i < |gs|
      ensures gs[i].id in ParentMap(fs) - gone && (ParentMap(fs) - gone)[gs[i].id] == gs[i].parent
    {
      WithoutMember(fs, gone, gs[i]);
      var j :| 0 <= j < |fs| && fs[j] == gs[i];
      ParentMapAt(fs, j);
    }
    ParentMapIs(gs, ParentMap(fs) - gone);
  }

  function Rehung(p: Parents, id: Id, parent: Id): Parents {
    map x | x in p :: if p[x] == id then parent else p[x]
  }

  lemma RehangMap(fs: seq<Folder>, id: Id, parent: Id)
    requires Distinct(fs)
    ensures Distinct(Rehang(fs, id, parent)) && Ids(Rehang(fs, id, parent)) == Ids(fs)
    ensures ParentMap(Rehang(fs, id, parent)) == Rehung(ParentMap(fs), id, parent)
  {
    var gs := Rehang(fs, id, parent);
    SameIds(fs, gs);
    ParentMapKeys(fs);
    forall j | 0 <= j < |gs|
      ensures gs[j].id in Rehung(ParentMap(fs), id, parent)
      ensures Rehung(ParentMap(fs), id, parent)[gs[j].id] == gs[j].parent
    {
      ParentMapAt(fs, j);
    }
    ParentMapIs(gs, Rehung(ParentMap(fs), id, parent));
  }

  lemma ParentOfIs(fs: seq<Folder>, id: Id)
    requires Distinct(fs) && id in Ids(fs)
    ensures id in ParentMap(fs) && ParentOf(fs, id) == ParentMap(fs)[id]
  {
    ParentMapAt(fs, LastAt(fs, id));
  }

  /** Safe delete splices the folder out of the parent map. */
  lemma SafeDeleteMap(fs: seq<Folder>, id: Id)
    requires Wf(fs) && id in Ids(fs)
    ensures id in ParentMap(fs)
    ensures ParentMap(Without(Rehang(fs, id, ParentOf(fs, id)), {id})) == Spliced(ParentMap(fs), id)
  {
    var up := ParentOf(fs, id);
    ParentOfIs(fs, id);
    RehangMap(fs, id, up);
    WithoutMap(Rehang(fs, id, up), {id});
    assert Rehung(ParentMap(fs), id, up) - {id} == Spliced(ParentMap(fs), id);
  }

  lemma SafeDeleteKeepsWf(fs: seq<Folder>, id: Id)
    requires Wf(fs) && id in Ids(fs)
    ensures Wf(Without(Rehang(fs, id, ParentOf(fs, id)), {id}))
  {
    var up := ParentOf(fs, id);
    RehangMap(fs, id, up);
    WithoutDistinct(Rehang(fs, id, up), {id});
    SafeDeleteMap(fs, id);
    ParentOfIs(fs, id);
    SpliceKeepsForest(ParentMap(fs), id);
  }

  lemma CascadeDeleteKeepsWf(fs: seq<Folder>, id: Id, gone: set<Id>)
    requires Wf(fs) && Doomed(fs, id, gone)
    ensures Wf(Without(fs, gone))
  {
    var p := ParentMap(fs);
    WithoutDistinct(fs, gone);
    WithoutMap(fs, gone);
    ParentMapKeys(fs);
    forall x | x in p && p[x] in gone ensures x in gone {
      var i := LastAt(fs, x);
      ParentMapAt(fs, i);
      assert fs[i] in fs;
      ChildDescends(fs, id, p[x], x);
    }
    CascadeKeepsForest(p, gone);
  }

  /** Safe delete leaves no artifact filed in a missing folder. */
  lemma SafeDeleteNoDangling(fs: seq<Folder>, filed: Filing, id: Id)
    requires Wf(fs) && id in Ids(fs) && NoDangling(fs, filed)
    ensures var up := ParentOf(fs, id);
      NoDangling(Without(Rehang(fs, id, up), {id}), Refiled(filed, {id}, up))
  {
    var up := ParentOf(fs, id);
    RehangMap(fs, id, up);
    WithoutIds(Rehang(fs, id, up), {id});
    ParentOfIs(fs, id);
    ParentMapKeys(fs);
    ForestShape(ParentMap(fs), id, 1);
    assert up != id;
  }

  /** Cascade delete leaves a dangling artifact exactly when an artifact in the subtree refuses to go. */
  lemma CascadeNoDanglingIff(fs: seq<Folder>, filed: Filing, id: Id, gone: set<Id>, refused: set<Slug>)
    requires Wf(fs) && id in Ids(fs) && Doomed(fs, id, gone) && NoDangling(fs, filed)
    ensures NoDangling(Without(fs, gone), Cascaded(filed, gone, refused))
      <==> forall s :: s in filed && filed[s] in gone ==> s !in refused
  {
    WithoutIds(fs, gone);
    var left := Cascaded(filed, gone, refused);
    ParentMapKeys(fs);
    assert "" !in gone by {
      if Descends(fs, id, "") { DescendsIsUnder(fs, id, ""); }
    }
    assert forall s :: s in filed && s in refused ==> s in left;
  }
}
