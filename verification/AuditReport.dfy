/** Reading an npm audit report: validation, and the high and critical findings it holds. */
module AuditReport {
  import opened Options
  import opened AuditGraph

  const ALLOWED := {"info", "low", "moderate", "high", "critical"}
  const BLOCKED := {"high", "critical"}

  function Rank(severity: string): nat {
    if severity == "critical" then 4 else if severity == "high" then 3
    else if severity == "moderate" then 2 else if severity == "low" then 1 else 0
  }

  /** A `via` item as it comes; `title` is None when it is not a string, `id` when none can be derived. */
  datatype RawItem =
    | Name(package: Package)
    | Details(severity: string, title: Option<string>, id: Option<string>)
    | Unusable

  datatype Record =
    | Record(name: string, severity: string, via: Option<seq<RawItem>>, nodesOk: bool)
    | NotObject

  /** The vulnerability map in its order. */
  type Vulnerabilities = seq<(Package, Record)>

  datatype Counts = Counts(info: int, low: int, moderate: int, high: int, critical: int, total: int)

  /** `Unreadable` is empty output, malformed JSON or a root that is no object; `counts` is None when the
      metadata or one of its integers is missing. */
  datatype Report =
    | Report(hasError: bool, version2: bool, vulnerabilities: Option<Vulnerabilities>, counts: Option<Counts>)
    | Unreadable

  datatype Audit = Audit(returncode: int, report: Report)

  datatype Finding = Finding(lockfile: string, package: Package, advisory: string, severity: string, title: string)

  /** The dedup key; the lockfile is the same for a whole report. */
  type Key = (Package, string)

  type Findings = map<Key, Finding>

  // ----- validation -----

  function Names(vs: Vulnerabilities): set<Package> {
    set v | v in vs :: v.0
  }

  predicate ItemOk(vs: Vulnerabilities, i: RawItem) {
    match i
    case Name(p) => p in Names(vs)
    case Details(severity, title, id) => severity in ALLOWED && title.Some? && title.value != "" && id.Some?
    case Unusable => false
  }

  predicate RecordOk(vs: Vulnerabilities, v: (Package, Record)) {
    && v.0 != "" && v.1.Record? && v.1.name == v.0
    && v.1.severity in ALLOWED && v.1.via.Some? && v.1.nodesOk
    && forall i :: i in v.1.via.value ==> ItemOk(vs, i)
  }

  predicate AllOk(vs: Vulnerabilities) {
    forall v :: v in vs ==> RecordOk(vs, v)
  }

  function AsItem(i: RawItem): Item {
    match i
    case Name(p) => Ref(p)
    case Details(severity, title, id) =>
      Direct(Advisory(if id.Some? then id.value else "", severity, if title.Some? then title.value else ""))
    case Unusable => Ref("")
  }

  function AsItems(via: seq<RawItem>): seq<Item> {
    seq(|via|, i requires 0 <= i < |via| => AsItem(via[i]))
  }

  function ViaOf(r: Record): seq<RawItem> {
    if r.Record? && r.via.Some? then r.via.value else []
  }

  function SeverityOf(r: Record): string {
    if r.Record? then r.severity else ""
  }

  function GraphOf(vs: Vulnerabilities): Graph {
    if vs == [] then map[] else GraphOf(vs[..|vs| - 1])[vs[|vs| - 1].0 := AsItems(ViaOf(vs[|vs| - 1].1))]
  }

  lemma {:induction false} GraphKeys(vs: Vulnerabilities)
    ensures GraphOf(vs).Keys == Names(vs)
  {
    if vs != [] {
      GraphKeys(vs[..|vs| - 1]);
      assert vs == vs[..|vs| - 1] + [vs[|vs| - 1]];
    }
  }

  lemma {:induction false} GraphEntry(vs: Vulnerabilities, p: Package)
    requires p in GraphOf(vs)
    ensures exists v :: v in vs && v.0 == p && GraphOf(vs)[p] == AsItems(ViaOf(v.1))
  {
    var last := vs[|vs| - 1];
    if last.0 != p {
      GraphEntry(vs[..|vs| - 1], p);
    } else {
      assert last in vs;
    }
  }

  lemma GraphClosed(vs: Vulnerabilities)
    requires AllOk(vs)
    ensures Closed(GraphOf(vs))
  {
    var g := GraphOf(vs);
    GraphKeys(vs);
    forall p, i: Item | p in g && i in g[p] && i.Ref? ensures i.package in g {
      GraphEntry(vs, p);
      var v :| v in vs && v.0 == p && g[p] == AsItems(ViaOf(v.1));
      var n :| 0 <= n < |g[p]| && g[p][n] == i;
      assert RecordOk(vs, v) && v.1.via.value[n] in v.1.via.value;
    }
  }

  // ----- what a trustworthy report says -----

  predicate CountsOk(c: Counts) {
    && c.info >= 0 && c.low >= 0 && c.moderate >= 0 && c.high >= 0 && c.critical >= 0 && c.total >= 0
    && c.total == c.info + c.low + c.moderate + c.high + c.critical
  }

  /** The severities that block. */
  predicate Severe(severity: string) {
    severity == "high" || severity == "critical"
  }

  /** A high or critical advisory with id `id` is behind package `p`. */
  ghost predicate Flagged(g: Graph, p: Package, id: string) {
    p in g && exists a :: Behind(g, p, a) && Severe(a.severity) && a.id == id
  }

  ghost predicate CycleFree(g: Graph, p: Package) {
    forall q :: Reaches(g, p, q) ==> !OnCycle(g, q)
  }

  /** A high or critical package has advisories behind it. */
  ghost predicate Explained(g: Graph, v: (Package, Record)) {
    Severe(SeverityOf(v.1)) ==> exists a :: Behind(g, v.0, a)
  }

  ghost predicate AllExplained(vs: Vulnerabilities) {
    forall v :: v in vs ==> CycleFree(GraphOf(vs), v.0) && Explained(GraphOf(vs), v)
  }

  ghost predicate AnyFlagged(g: Graph) {
    exists p, id :: Flagged(g, p, id)
  }

  /** The report can be relied on: it is whole, it has no reference cycle, every high or critical package
      has advisories behind it, and the counts, the exit status and the advisories agree. */
  ghost predicate Trustworthy(a: Audit) {
    && (a.returncode == 0 || a.returncode == 1)
    && a.report.Report? && !a.report.hasError && a.report.version2
    && a.report.vulnerabilities.Some? && a.report.counts.Some?
    && var vs := a.report.vulnerabilities.value;
       var c := a.report.counts.value;
       && AllOk(vs) && CountsOk(c)
       && (a.returncode == 1 <==> c.high + c.critical > 0)
       && AllExplained(vs)
       && (c.high + c.critical > 0 <==> AnyFlagged(GraphOf(vs)))
  }

  /** A finding is an advisory behind its package, and no other with the same id is more severe. */
  ghost predicate FindingOk(g: Graph, lockfile: string, k: Key, f: Finding) {
    && f.lockfile == lockfile && f.package == k.0 && f.advisory == k.1 && Severe(f.severity)
    && Behind(g, k.0, Advisory(k.1, f.severity, f.title))
    && forall x :: Behind(g, k.0, x) && x.id == k.1 ==> Rank(x.severity) <= Rank(f.severity)
  }

  /** The findings are the flagged pairs, each once, with the highest severity seen for it. */
  ghost predicate Complete(g: Graph, lockfile: string, fs: Findings) {
    && (forall p, id :: (p, id) in fs <==> Flagged(g, p, id))
    && forall k :: k in fs ==> FindingOk(g, lockfile, k, fs[k])
  }

  // ----- the loops -----

  method ValidateRecords(vs: Vulnerabilities) returns (ok: bool)
    ensures ok == AllOk(vs)
  {
    for i := 0 to |vs|
      invariant forall j :: 0 <= j < i ==> RecordOk(vs, vs[j])
    {
      var v := vs[i];
      if v.0 == "" || v.1.NotObject? || v.1.name != v.0 || v.1.severity !in ALLOWED || v.1.via == None || !v.1.nodesOk {
        assert v in vs && !RecordOk(vs, v);
        return false;
      }
      var via := v.1.via.value;
      for n := 0 to |via|
        invariant forall m :: 0 <= m < n ==> ItemOk(vs, via[m])
      {
        if !ItemOk(vs, via[n]) {
          assert via[n] in via && v in vs && !RecordOk(vs, v);
          return false;
        }
      }
    }
    return true;
  }

  predicate Reported(fs: Findings, x: (Package, Advisory)) {
    x.1.severity in BLOCKED ==> (x.0, x.1.id) in fs && Rank(x.1.severity) <= Rank(fs[(x.0, x.1.id)].severity)
  }

  predicate Backed(lockfile: string, k: Key, f: Finding, seen: set<(Package, Advisory)>) {
    && f.lockfile == lockfile && f.package == k.0 && f.advisory == k.1 && f.severity in BLOCKED
    && (k.0, Advisory(k.1, f.severity, f.title)) in seen
  }

  /** The findings so far: every advisory seen is reported, and nothing else. */
  ghost predicate Covers(lockfile: string, fs: Findings, seen: set<(Package, Advisory)>) {
    && (forall x :: x in seen ==> Reported(fs, x))
    && forall k :: k in fs ==> Backed(lockfile, k, fs[k], seen)
  }

  /** One advisory into the table; of two with one key the more severe stays. */
  function Enter(lockfile: string, fs: Findings, p: Package, a: Advisory): Findings {
    if a.severity in BLOCKED && ((p, a.id) !in fs || Rank(a.severity) > Rank(fs[(p, a.id)].severity))
    then fs[(p, a.id) := Finding(lockfile, p, a.id, a.severity, a.title)] else fs
  }

  lemma EnterCovers(lockfile: string, fs: Findings, seen: set<(Package, Advisory)>, p: Package, a: Advisory)
    requires Covers(lockfile, fs, seen)
    ensures Covers(lockfile, Enter(lockfile, fs, p, a), seen + {(p, a)})
  {
    var r := Enter(lockfile, fs, p, a);
    forall x | x in seen + {(p, a)} ensures Reported(r, x) {
      assert x in seen ==> Reported(fs, x);
    }
    forall k | k in r ensures Backed(lockfile, k, r[k], seen + {(p, a)}) {
      assert k in fs ==> Backed(lockfile, k, fs[k], seen);
    }
  }

  function Pairs(p: Package, advisories: seq<Advisory>): set<(Package, Advisory)> {
    set a | a in advisories :: (p, a)
  }

  method AddAdvisories(lockfile: string, p: Package, advisories: seq<Advisory>, fs: Findings, ghost seen: set<(Package, Advisory)>)
      returns (r: Findings)
    requires Covers(lockfile, fs, seen)
    ensures Covers(lockfile, r, seen + Pairs(p, advisories))
  {
    hide Covers;
    r := fs;
    assert seen + Pairs(p, advisories[..0]) == seen;
    for i := 0 to |advisories|
      invariant Covers(lockfile, r, seen + Pairs(p, advisories[..i]))
    {
      var a := advisories[i];
      assert advisories[..i + 1] == advisories[..i] + [a];
      EnterCovers(lockfile, r, seen + Pairs(p, advisories[..i]), p, a);
      assert seen + Pairs(p, advisories[..i + 1]) == seen + Pairs(p, advisories[..i]) + {(p, a)};
      r := Enter(lockfile, r, p, a);
    }
    assert advisories[..|advisories|] == advisories;
  }

  function FirstNames(vs: Vulnerabilities, n: nat): set<Package>
    requires n <= |vs|
  {
    set v | v in vs[..n] :: v.0
  }

  ghost predicate SeenExactly(g: Graph, ps: set<Package>, seen: set<(Package, Advisory)>) {
    forall p, a :: (p, a) in seen <==> p in ps && Behind(g, p, a)
  }

  /** What the resolver returns for one package, or None. */
  method ResolveRecord(vs: Vulnerabilities, v: (Package, Record)) returns (r: Resolved)
    requires AllOk(vs) && v in vs
    ensures r.Some? <==> CycleFree(GraphOf(vs), v.0) && Explained(GraphOf(vs), v)
    ensures r.Some? ==> forall a :: a in r.value <==> Behind(GraphOf(vs), v.0, a)
  {
    var g := GraphOf(vs);
    GraphKeys(vs);
    GraphClosed(vs);
    RaisesIffCycleReachable(g, v.0);
    r := Resolve(g, v.0, []);
    if r == None {
      return;
    }
    forall a ensures a in r.value <==> Behind(g, v.0, a) { ResolvesExactly(g, v.0, a); }
    assert r.value != [] ==> r.value[0] in r.value;
    if SeverityOf(v.1) in BLOCKED && r.value == [] {
      assert forall a :: !Behind(g, v.0, a);
      r := None;
    }
  }

  /** Every package in turn: its advisories, or the error of a cycle, or of a blocked package without any. */
  method CollectFindings(vs: Vulnerabilities, lockfile: string) returns (r: Option<Findings>)
    requires AllOk(vs)
    ensures r.Some? <==> AllExplained(vs)
    ensures r.Some? ==> Complete(GraphOf(vs), lockfile, r.value)
  {
    hide CycleFree, Explained, Covers, Complete, Behind, AllOk;
    var g := GraphOf(vs);
    var fs: Findings := map[];
    ghost var seen: set<(Package, Advisory)> := {};
    NothingCovered(lockfile);
    for i := 0 to |vs|
      invariant Covers(lockfile, fs, seen)
      invariant SeenExactly(g, FirstNames(vs, i), seen)
      invariant forall j :: 0 <= j < i ==> CycleFree(g, vs[j].0) && Explained(g, vs[j])
    {
      var v := vs[i];
      assert v in vs;
      var advisories := ResolveRecord(vs, v);
      if advisories == None {
        return None;
      }
      fs := AddAdvisories(lockfile, v.0, advisories.value, fs, seen);
      SeenGrows(g, vs, i, advisories.value, seen);
      seen := seen + Pairs(v.0, advisories.value);
    }
    assert vs[..|vs|] == vs;
    GraphKeys(vs);
    CoversAll(g, lockfile, fs, seen);
    return Some(fs);
  }

  lemma NothingCovered(lockfile: string)
    ensures Covers(lockfile, map[], {})
  {
  }

  lemma SeenGrows(g: Graph, vs: Vulnerabilities, i: nat, advisories: seq<Advisory>, seen: set<(Package, Advisory)>)
    requires i < |vs| && SeenExactly(g, FirstNames(vs, i), seen)
    requires forall a :: a in advisories <==> Behind(g, vs[i].0, a)
    ensures SeenExactly(g, FirstNames(vs, i + 1), seen + Pairs(vs[i].0, advisories))
  {
    hide Behind;
    assert vs[..i + 1] == vs[..i] + [vs[i]];
    assert FirstNames(vs, i + 1) == FirstNames(vs, i) + {vs[i].0};
  }

  lemma CoversAll(g: Graph, lockfile: string, fs: Findings, seen: set<(Package, Advisory)>)
    requires Covers(lockfile, fs, seen) && SeenExactly(g, g.Keys, seen)
    ensures Complete(g, lockfile, fs)
  {
    hide Behind;
    forall p, id ensures (p, id) in fs <==> Flagged(g, p, id) {
      if (p, id) in fs {
        assert Backed(lockfile, (p, id), fs[(p, id)], seen);
      }
      if Flagged(g, p, id) {
        var a :| Behind(g, p, a) && Severe(a.severity) && a.id == id;
        assert Reported(fs, (p, a));
      }
    }
    forall k | k in fs ensures FindingOk(g, lockfile, k, fs[k]) {
      assert Backed(lockfile, k, fs[k], seen);
      forall x | Behind(g, k.0, x) && x.id == k.1 ensures Rank(x.severity) <= Rank(fs[k].severity) {
        assert Reported(fs, (k.0, x));
      }
    }
  }

  /** parse_audit_report(): None is the gate error. */
  method ParseAuditReport(a: Audit, lockfile: string) returns (r: Option<Findings>)
    ensures r.Some? <==> Trustworthy(a)
    ensures r.Some? ==> Complete(GraphOf(a.report.vulnerabilities.value), lockfile, r.value)
  {
    if a.returncode != 0 && a.returncode != 1 {
      return None;
    }
    if a.report.Unreadable? || a.report.hasError || !a.report.version2 || a.report.vulnerabilities == None {
      return None;
    }
    var vs := a.report.vulnerabilities.value;
    var ok := ValidateRecords(vs);
    if !ok || a.report.counts == None || !CountsOk(a.report.counts.value) {
      return None;
    }
    var blocked := a.report.counts.value.high + a.report.counts.value.critical;
    if (blocked == 0 && a.returncode != 0) || (blocked > 0 && a.returncode != 1) {
      return None;
    }
    var fs := CollectFindings(vs, lockfile);
    if fs == None {
      return None;
    }
    NoneOrSome(GraphOf(vs), lockfile, fs.value);
    if (blocked > 0 && fs.value == map[]) || (blocked == 0 && fs.value != map[]) {
      return None;
    }
    return fs;
  }

  lemma NoneOrSome(g: Graph, lockfile: string, fs: Findings)
    requires Complete(g, lockfile, fs)
    ensures fs != map[] <==> AnyFlagged(g)
  {
    if fs != map[] {
      var k :| k in fs;
      assert (k.0, k.1) in fs;
      assert Flagged(g, k.0, k.1);
    }
    if AnyFlagged(g) {
      var p, id :| Flagged(g, p, id);
      assert (p, id) in fs;
    }
  }
}
