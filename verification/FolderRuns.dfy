/** Runs of folder operations: whatever is called, in whatever order, the store stays a forest. */
module FolderRuns {
  import opened Options
  import opened FolderForest
  import opened FolderText
  import opened FolderStore
  import opened FolderPaths
  import opened FolderDelete

  datatype Op =
    | Create(name: string, parent: Id, newId: Id)
    | Rename(id: Id, newName: string)
    | Reparent(id: Id, newParent: Id)
    | ResolvePath(ref: string, create: bool, gen: seq<Id>)
    | Delete(id: Id, contents: bool)

  ghost function Subtree(fs: seq<Folder>, id: Id): set<Id> {
    set x | x in Ids(fs) && id in Ids(fs) && Descends(fs, id, x)
  }

  function SetName(fs: seq<Folder>, id: Id, name: string): seq<Folder>
    requires id in Ids(fs)
  {
    var i := LastAt(fs, id);
    fs[i := fs[i].(name := name)]
  }

  /** The folder list after one call; a refused call leaves it alone. */
  ghost function Apply(t: Text, fs: seq<Folder>, op: Op): seq<Folder>
    requires Allowed(t, fs, op)
  {
    match op
    case Create(name, parent, newId) =>
      if Clean(t, name).Some? && MayNest(ParentMap(fs), parent)
      then fs + [Folder(newId, Clean(t, name).value, |fs|, parent)] else fs
    case Rename(id, name) =>
      if Clean(t, name).Some? && id in Ids(fs) then SetName(fs, id, Clean(t, name).value) else fs
    case Reparent(id, np) =>
      if id in Ids(fs) && MayMove(fs, id, np) then SetParent(fs, id, np) else fs
    case ResolvePath(ref, create, gen) =>
      var r := Resolve(t, fs, ref, create, gen);
      if r.Ok? then r.value.0 else fs
    case Delete(id, contents) =>
      if id !in Ids(fs) then fs
      else if contents then Without(fs, Subtree(fs, id))
      else Without(Rehang(fs, id, ParentOf(fs, id)), {id})
  }

  /** Ids handed to new folders are new. */
  ghost predicate Allowed(t: Text, fs: seq<Folder>, op: Op) {
    match op
    case Create(_, _, newId) => Fresh(fs, [newId])
    case ResolvePath(ref, _, gen) => |gen| >= |Segments(t, Strip(t, ref))| && Fresh(fs, gen)
    case _ => true
  }

  ghost predicate RunAllowed(t: Text, fs: seq<Folder>, ops: seq<Op>)
    decreases |ops|
  {
    ops != [] ==> Allowed(t, fs, ops[0]) && RunAllowed(t, Apply(t, fs, ops[0]), ops[1..])
  }

  ghost function Run(t: Text, fs: seq<Folder>, ops: seq<Op>): seq<Folder>
    requires RunAllowed(t, fs, ops)
    decreases |ops|
  {
    if ops == [] then fs else Run(t, Apply(t, fs, ops[0]), ops[1..])
  }

  lemma {:induction false} DescendantExists(fs: seq<Folder>, a: Id, x: Id)
    requires a in Ids(fs) && Descends(fs, a, x)
    ensures x in Ids(fs)
  {
    var k: nat :| Reach(fs, a, x, k);
    if k > 0 {
      var f :| f in fs && f.id == x && Reach(fs, a, f.parent, k - 1);
    }
  }

  lemma SubtreeIsDoomed(fs: seq<Folder>, id: Id)
    ensures Doomed(fs, id, Subtree(fs, id))
  {
    forall x | id in Ids(fs) && Descends(fs, id, x) ensures x in Ids(fs) {
      DescendantExists(fs, id, x);
    }
  }

  lemma RenameKeeps(fs: seq<Folder>, id: Id, name: string)
    requires Wf(fs) && id in Ids(fs)
    ensures Wf(SetName(fs, id, name))
  {
    var gs := SetName(fs, id, name);
    SameIds(fs, gs);
    ParentMapKeys(fs);
    forall j | 0 <= j < |gs| ensures gs[j].id in ParentMap(fs) && ParentMap(fs)[gs[j].id] == gs[j].parent {
      ParentMapAt(fs, j);
    }
    ParentMapIs(gs, ParentMap(fs));
  }

  lemma StepKeepsWf(t: Text, fs: seq<Folder>, op: Op)
    requires Wf(fs) && Allowed(t, fs, op)
    ensures Wf(Apply(t, fs, op))
  {
    match op
    case Create(name, parent, newId) =>
      if Clean(t, name).Some? && MayNest(ParentMap(fs), parent) {
        assert newId in [newId];
        CreateKeepsWf(fs, Folder(newId, Clean(t, name).value, |fs|, parent));
      }
    case Rename(id, name) =>
      if Clean(t, name).Some? && id in Ids(fs) {
        RenameKeeps(fs, id, Clean(t, name).value);
      }
    case Reparent(id, np) =>
      if id in Ids(fs) && MayMove(fs, id, np) {
        MoveGuardExact(fs, id, np);
        SetParentMap(fs, id, np);
      }
    case ResolvePath(ref, create, gen) =>
      ResolveKeepsWf(t, fs, ref, create, gen);
    case Delete(id, contents) =>
      if id in Ids(fs) {
        if contents {
          SubtreeIsDoomed(fs, id);
          CascadeDeleteKeepsWf(fs, id, Subtree(fs, id));
        } else {
          SafeDeleteKeepsWf(fs, id);
        }
      }
  }

  lemma StepKeepsNames(t: Text, fs: seq<Folder>, op: Op)
    requires CleanNames(t, fs) && Allowed(t, fs, op)
    ensures CleanNames(t, Apply(t, fs, op))
  {
    match op
    case Create(name, _, _) => CleanGivesCleanName(t, name);
    case Rename(_, name) => CleanGivesCleanName(t, name);
    case Reparent(id, np) =>
      if id in Ids(fs) { assert fs[LastAt(fs, id)] in fs; }
    case ResolvePath(ref, create, gen) =>
      ResolveKeepsNames(t, fs, ref, create, gen);
    case Delete(id, contents) =>
      if id in Ids(fs) {
        forall f ensures f in Without(fs, Subtree(fs, id)) ==> f in fs { WithoutMember(fs, Subtree(fs, id), f); }
        var hung := Rehang(fs, id, ParentOf(fs, id));
        forall f ensures f in Without(hung, {id}) ==> f in hung { WithoutMember(hung, {id}, f); }
        forall f | f in hung ensures CleanName(t, f.name) {
          var i :| 0 <= i < |hung| && hung[i] == f;
          assert fs[i] in fs;
        }
      }
  }

  /** Whatever is called, the parents stay a forest of existing folders below the depth cap, every folder
      is listed once, and the stored names stay clean. */
  lemma {:induction false} RunKeepsForest(t: Text, fs: seq<Folder>, ops: seq<Op>)
    requires Wf(fs) && CleanNames(t, fs) && RunAllowed(t, fs, ops)
    ensures Wf(Run(t, fs, ops)) && CleanNames(t, Run(t, fs, ops))
    decreases |ops|
  {
    if ops != [] {
      StepKeepsWf(t, fs, ops[0]);
      StepKeepsNames(t, fs, ops[0]);
      RunKeepsForest(t, Apply(t, fs, ops[0]), ops[1..]);
    }
  }

  /** In particular for every folder: its parent is the root or exists, no folder is its own ancestor,
      and its depth is below the cap. */
  lemma RunShape(t: Text, fs: seq<Folder>, ops: seq<Op>, id: Id, k: nat)
    requires Wf(fs) && CleanNames(t, fs) && RunAllowed(t, fs, ops) && id in Ids(Run(t, fs, ops))
    ensures var gs := Run(t, fs, ops); var p := ParentMap(gs);
      && id in p && (p[id] == "" || p[id] in Ids(gs))
      && (Reach(gs, id, id, k) ==> k == 0)
      && DepthOf(p, id) < MAX_FOLDER_DEPTH
  {
    var gs := Run(t, fs, ops);
    RunKeepsForest(t, fs, ops);
    ParentMapKeys(gs);
    ForestShape(ParentMap(gs), id, k);
    ReachIsAbove(gs, id, id, k);
    DepthOfForest(ParentMap(gs), id);
  }
}
