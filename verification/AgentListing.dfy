/** The agent listing and its cache: two numbers stand in for the contents of a directory. */
module AgentListing {
  import opened Options

  type Name = string

  datatype File = File(mtime: nat, content: string)

  /** The JSON files of the agents directory. */
  type Directory = map<Name, File>

  datatype Agent = Agent(name: string, filename: Name, package: string, details: string)

  /** How many files, and the newest modification time. */
  type Signature = (nat, nat)

  /** What is not modelled of a scan: the order of file names, and reading one agent file. */
  datatype Reader = Reader(sorted: set<Name> -> seq<Name>, parse: (Name, string) -> Option<Agent>)

  // ----- the signature -----

  ghost predicate IsNewest(d: Directory, m: nat) {
    && (forall n :: n in d ==> d[n].mtime <= m)
    && (m == 0 || exists n :: n in d && d[n].mtime == m)
  }

  ghost predicate IsSignature(d: Directory, s: Signature) {
    s.0 == |d| && IsNewest(d, s.1)
  }

  /** _dir_signature(): one pass over the entries. */
  method DirSignature(d: Directory) returns (s: Signature)
    ensures IsSignature(d, s)
  {
    var count, newest := 0, 0;
    var todo := d.Keys;
    while todo != {}
      invariant todo <= d.Keys && count + |todo| == |d.Keys|
      invariant forall n :: n in d && n !in todo ==> d[n].mtime <= newest
      invariant newest == 0 || exists n :: n in d && d[n].mtime == newest
      decreases todo
    {
      var n :| n in todo;
      todo := todo - {n};
      count := count + 1;
      if d[n].mtime > newest {
        newest := d[n].mtime;
      }
    }
    assert |d| == |d.Keys|;
    return (count, newest);
  }

  // ----- how a directory changes -----

  datatype Change = Write(name: Name, file: File) | Delete(name: Name)

  function Changed(d: Directory, c: Change): Directory {
    match c
    case Write(n, f) => d[n := f]
    case Delete(n) => d - {n}
  }

  function After(d: Directory, cs: seq<Change>): Directory {
    if cs == [] then d else Changed(After(d, cs[..|cs| - 1]), cs[|cs| - 1])
  }

  /** Every write is stamped strictly above `clock` and above every write before it. */
  ghost predicate Rising(clock: nat, cs: seq<Change>) {
    && (forall i :: 0 <= i < |cs| && cs[i].Write? ==> cs[i].file.mtime > clock)
    && forall i, j :: 0 <= i < j < |cs| && cs[i].Write? && cs[j].Write? ==> cs[i].file.mtime < cs[j].file.mtime
  }

  ghost predicate Stamped(d: Directory, clock: nat) {
    forall n :: n in d ==> d[n].mtime <= clock
  }

  /** What is there afterwards was there before, untouched, or is stamped later. */
  lemma {:induction false} OldOrNew(d: Directory, clock: nat, cs: seq<Change>, n: Name)
    requires Rising(clock, cs) && n in After(d, cs)
    ensures (n in d && d[n] == After(d, cs)[n]) || After(d, cs)[n].mtime > clock
  {
    if cs != [] {
      var last := cs[|cs| - 1];
      if !(last.Write? && last.name == n) {
        OldOrNew(d, clock, cs[..|cs| - 1], n);
      }
    }
  }

  lemma SubmapSameSize(a: Directory, b: Directory)
    requires forall n :: n in a ==> n in b && b[n] == a[n]
    requires |a| == |b|
    ensures a == b
  {
    assert |a| == |a.Keys| && |b| == |b.Keys| && a.Keys <= b.Keys;
    SubsetSameSize(a.Keys, b.Keys);
  }

  lemma SubsetSameSize(a: set<Name>, b: set<Name>)
    requires a <= b && |a| == |b|
    ensures a == b
  {
    assert b == a + (b - a);
  }

  /** With rising stamps, equal signatures mean equal contents: across any number of writes and deletes. */
  lemma EqualSignatureEqualContents(d: Directory, clock: nat, cs: seq<Change>, s: Signature)
    requires Stamped(d, clock) && Rising(clock, cs)
    requires IsSignature(d, s) && IsSignature(After(d, cs), s)
    ensures After(d, cs) == d
  {
    var e := After(d, cs);
    forall n | n in e ensures n in d && d[n] == e[n] {
      OldOrNew(d, clock, cs, n);
      assert e[n].mtime <= s.1;
    }
    SubmapSameSize(e, d);
  }

  /** Without them a change can go unseen: a rewrite in the same tick, or a copy that keeps an old stamp. */
  lemma SameStampGoesUnseen(n: Name, f: File, g: File, s: Signature)
    requires f.mtime == g.mtime && f.content != g.content && IsSignature(map[n := f], s)
    ensures IsSignature(After(map[n := f], [Write(n, g)]), s) && After(map[n := f], [Write(n, g)]) != map[n := f]
  {
    var d: Directory := map[n := f];
    assert [Write(n, g)][..0] == [] && After(d, []) == d;
    assert After(d, [Write(n, g)]) == map[n := g];
    assert n in d && n in map[n := g];
  }

  /** The newest stamp is still there after `c`: `c` brings it, or another file carries it. */
  ghost predicate StillNewest(d: Directory, c: Change, newest: nat)
    requires c.Write?
  {
    || newest == 0 || c.file.mtime == newest
    || exists n :: n != c.name && n in d && d[n].mtime == newest
  }

  /** One change goes unseen exactly when it rewrites a file under a stamp not above the newest, and the newest
      stamp is still there afterwards. */
  lemma ChangeUnseenIff(d: Directory, c: Change, s: Signature)
    requires IsSignature(d, s) && Changed(d, c) != d
    ensures IsSignature(Changed(d, c), s) <==>
      c.Write? && c.name in d && c.file.mtime <= s.1 && StillNewest(d, c, s.1)
  {
    SameCountIff(d, c);
    if c.Write? && c.name in d {
      RewriteNewest(d, c, s.1);
    }
  }

  lemma SizeIsKeys(d: Directory)
    ensures |d| == |d.Keys|
  {
  }

  lemma SameCountIff(d: Directory, c: Change)
    requires Changed(d, c) != d
    ensures |Changed(d, c)| == |d| <==> c.Write? && c.name in d
  {
    var e := Changed(d, c);
    SizeIsKeys(d);
    SizeIsKeys(e);
    if c.name !in d {
      assert c.Delete? ==> e == d;
      assert e.Keys == d.Keys + {c.name};
      assert |e.Keys| == |d.Keys| + 1;
    } else if c.Delete? {
      assert d.Keys == e.Keys + {c.name};
      assert |d.Keys| == |e.Keys| + 1;
    } else {
      assert e.Keys == d.Keys;
    }
  }

  lemma RewriteNewest(d: Directory, c: Change, newest: nat)
    requires c.Write? && c.name in d && IsNewest(d, newest)
    ensures IsNewest(Changed(d, c), newest) <==> c.file.mtime <= newest && StillNewest(d, c, newest)
  {
    var e := Changed(d, c);
    assert e[c.name] == c.file && forall n :: n in e && n != c.name ==> e[n] == d[n];
    if StillNewest(d, c, newest) && newest != 0 && c.file.mtime != newest {
      var n :| n != c.name && n in d && d[n].mtime == newest;
      assert n in e && e[n].mtime == newest;
    }
  }

  /** A signature is determined by the directory, so any other change shows. */
  lemma OneSignature(d: Directory, s: Signature, t: Signature)
    requires IsSignature(d, s) && IsSignature(d, t)
    ensures s == t
  {
  }

  // ----- the listing -----

  function Scanned(r: Reader, d: Directory, names: seq<Name>): seq<Agent> {
    if names == [] then []
    else
      var before := Scanned(r, d, names[..|names| - 1]);
      var n := names[|names| - 1];
      if n in d && r.parse(n, d[n].content).Some? then before + [r.parse(n, d[n].content).value] else before
  }

  function IndexIn(agents: seq<Agent>, name: string): (i: nat)
    ensures i <= |agents| && (i < |agents| ==> agents[i].name == name)
    ensures forall j :: 0 <= j < i ==> agents[j].name != name
  {
    if agents == [] || agents[0].name == name then 0 else 1 + IndexIn(agents[1..], name)
  }

  /** One agent into the table by name: a packaged one replaces an unpackaged one, in its place. */
  function Entered(seen: seq<Agent>, a: Agent): seq<Agent> {
    var i := IndexIn(seen, a.name);
    if i == |seen| then seen + [a]
    else if a.package != "" && seen[i].package == "" then seen[i := a]
    else seen
  }

  function Deduped(agents: seq<Agent>): seq<Agent> {
    if agents == [] then [] else Entered(Deduped(agents[..|agents| - 1]), agents[|agents| - 1])
  }

  /** What a scan of the directory lists. */
  function Listing(r: Reader, d: Directory): seq<Agent> {
    Deduped(Scanned(r, d, r.sorted(d.Keys)))
  }

  ghost predicate Unpackaged(agents: seq<Agent>, name: string, n: nat)
    requires n <= |agents|
  {
    forall j :: 0 <= j < n && agents[j].name == name ==> agents[j].package == ""
  }

  /** Agent `i` should stand for its name: it is the first packaged one, or the first when none is packaged. */
  ghost predicate PreferredAt(agents: seq<Agent>, i: nat)
    requires i < |agents|
  {
    if agents[i].package != "" then Unpackaged(agents, agents[i].name, i)
    else Unpackaged(agents, agents[i].name, |agents|) && forall j :: 0 <= j < i ==> agents[j].name != agents[i].name
  }

  ghost predicate Preferred(agents: seq<Agent>, a: Agent) {
    exists i :: 0 <= i < |agents| && agents[i] == a && PreferredAt(agents, i)
  }

  ghost predicate NamesDistinct(agents: seq<Agent>) {
    forall i, j :: 0 <= i < j < |agents| ==> agents[i].name != agents[j].name
  }

  /** Each name is listed once, by the agent preferred for it. */
  ghost predicate PackageFirst(agents: seq<Agent>, listed: seq<Agent>) {
    && NamesDistinct(listed)
    && (forall i :: 0 <= i < |listed| ==> Preferred(agents, listed[i]))
    && forall i :: 0 <= i < |agents| ==> IndexIn(listed, agents[i].name) < |listed|
  }

  lemma IndexIs(agents: seq<Agent>, i: nat)
    requires NamesDistinct(agents) && i < |agents|
    ensures IndexIn(agents, agents[i].name) == i
  {
  }

  lemma PreferredSnoc(agents: seq<Agent>, a: Agent, x: Agent)
    requires Preferred(agents, x) && (x.name == a.name ==> x.package != "" || a.package == "")
    ensures Preferred(agents + [a], x)
  {
    var i :| 0 <= i < |agents| && agents[i] == x && PreferredAt(agents, i);
    assert PreferredAt(agents + [a], i);
    assert (agents + [a])[i] == x;
  }

  /** A new name, or the first packaged agent of a name: the last of the list is preferred. */
  lemma LastPreferred(agents: seq<Agent>, a: Agent)
    requires a.package != "" ==> forall j :: 0 <= j < |agents| && agents[j].name == a.name ==> agents[j].package == ""
    requires a.package == "" ==> forall j :: 0 <= j < |agents| ==> agents[j].name != a.name
    ensures Preferred(agents + [a], a)
  {
    assert (agents + [a])[|agents|] == a;
    assert PreferredAt(agents + [a], |agents|);
  }

  lemma {:induction false} DedupedIsPackageFirst(agents: seq<Agent>)
    ensures PackageFirst(agents, Deduped(agents))
  {
    if agents != [] {
      var init, a := agents[..|agents| - 1], agents[|agents| - 1];
      assert agents == init + [a];
      DedupedIsPackageFirst(init);
      EnteredIsPackageFirst(init, Deduped(init), a);
    }
  }

  lemma EnteredIsPackageFirst(agents: seq<Agent>, listed: seq<Agent>, a: Agent)
    requires PackageFirst(agents, listed)
    ensures PackageFirst(agents + [a], Entered(listed, a))
  {
    hide Preferred;
    var r := Entered(listed, a);
    var k := IndexIn(listed, a.name);
    assert forall i :: 0 <= i < |listed| ==> r[i].name == listed[i].name;
    if k == |listed| {
      forall j | 0 <= j < |agents| ensures agents[j].name != a.name {
        assert IndexIn(listed, agents[j].name) < |listed|;
      }
      LastPreferred(agents, a);
    } else if a.package != "" && listed[k].package == "" {
      UnpackagedSoFar(agents, listed[k]);
      LastPreferred(agents, a);
    }
    forall i | 0 <= i < |r| ensures Preferred(agents + [a], r[i]) {
      if r[i] != a || (k < |listed| && r == listed) {
        assert i < |listed| && r[i] == listed[i];
        if listed[i].name == a.name { IndexIs(listed, i); }
        PreferredSnoc(agents, a, listed[i]);
      }
    }
    forall i | 0 <= i < |agents + [a]| ensures IndexIn(r, (agents + [a])[i].name) < |r| {
      var n := (agents + [a])[i].name;
      assert i < |agents| ==> agents[i].name == n && IndexIn(listed, n) < |listed|;
      var at := if n == a.name then k else IndexIn(listed, n);
      assert at < |r| && r[at].name == n;
    }
  }

  lemma UnpackagedSoFar(agents: seq<Agent>, x: Agent)
    requires Preferred(agents, x) && x.package == ""
    ensures forall j :: 0 <= j < |agents| && agents[j].name == x.name ==> agents[j].package == ""
  {
  }

  // ----- the cache -----

  /** The directory `d` is what was there, changed by rising writes and deletes since; `highest` is the top stamp. */
  ghost predicate Followed(d: Directory, was: Directory, clock: nat, since: seq<Change>, highest: nat) {
    && d == After(was, since) && Stamped(was, clock) && Rising(clock, since) && clock <= highest
    && (forall i :: 0 <= i < |since| && since[i].Write? ==> since[i].file.mtime <= highest)
    && Stamped(d, highest)
  }

  lemma FollowedNext(d: Directory, was: Directory, clock: nat, since: seq<Change>, highest: nat, c: Change)
    requires Followed(d, was, clock, since, highest) && (c.Write? ==> c.file.mtime > highest)
    ensures Followed(Changed(d, c), was, clock, since + [c], if c.Write? then c.file.mtime else highest)
  {
    hide After;
    AfterSnoc(was, since, c);
  }

  lemma AfterSnoc(d: Directory, cs: seq<Change>, c: Change)
    ensures After(d, cs + [c]) == Changed(After(d, cs), c)
  {
    assert (cs + [c])[..|cs|] == cs;
  }

  class AgentsDirectory {
    const reader: Reader
    var files: Directory
    var cache: Option<(Signature, seq<Agent>)>

    /** When the cache was filled, what was there then, and what happened since. */
    ghost var cached: Directory
    ghost var clock: nat
    ghost var since: seq<Change>

    /** The highest stamp so far. */
    ghost var highest: nat

    ghost predicate Valid()
      reads this
    {
      && Followed(files, cached, clock, since, highest)
      && (cache.Some? ==> IsSignature(cached, cache.value.0) && cache.value.1 == Listing(reader, cached))
    }

    constructor (reader: Reader)
      ensures Valid() && files == map[] && cache == None && highest == 0 && this.reader == reader
    {
      this.reader := reader;
      files, cache := map[], None;
      cached, clock, since, highest := map[], 0, [], 0;
    }

    /** Somebody changes the directory. */
    method Change(c: Change)
      requires Valid() && (c.Write? ==> c.file.mtime > highest)
      modifies this
      ensures Valid() && files == Changed(old(files), c) && cache == old(cache)
      ensures highest == if c.Write? then c.file.mtime else old(highest)
    {
      hide Followed, IsSignature, Listing;
      FollowedNext(files, cached, clock, since, highest, c);
      files := Changed(files, c);
      since := since + [c];
      if c.Write? {
        highest := c.file.mtime;
      }
    }

    method Dedup(agents: seq<Agent>) returns (seen: seq<Agent>)
      ensures seen == Deduped(agents)
    {
      seen := [];
      assert agents[..0] == [];
      for i := 0 to |agents|
        invariant seen == Deduped(agents[..i])
      {
        assert agents[..i + 1][..i] == agents[..i];
        var a := agents[i];
        var at := IndexIn(seen, a.name);
        if at == |seen| {
          seen := seen + [a];
        } else if a.package != "" && seen[at].package == "" {
          seen := seen[at := a];
        }
      }
      assert agents[..|agents|] == agents;
    }

    /** list_agents(): from the cache when the signature is the one it was filled under. Either way the result
        is what a scan of the directory as it is now would list. */
    method ListAgents() returns (agents: seq<Agent>)
      requires Valid()
      modifies this
      ensures Valid() && files == old(files) && highest == old(highest)
      ensures agents == Listing(reader, files)
      ensures PackageFirst(Scanned(reader, files, reader.sorted(files.Keys)), agents)
    {
      DedupedIsPackageFirst(Scanned(reader, files, reader.sorted(files.Keys)));
      var signature := DirSignature(files);
      if cache.Some? && cache.value.0 == signature {
        EqualSignatureEqualContents(cached, clock, since, signature);
        return cache.value.1;
      }
      agents := Dedup(Scanned(reader, files, reader.sorted(files.Keys)));
      cache := Some((signature, agents));
      cached, clock, since := files, highest, [];
    }
  }
}
