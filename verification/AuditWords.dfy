/** The gate said of the reports and the exceptions as they come: what makes it pass, exactly. */
module AuditWords {
  import opened Options
  import opened AuditGraph
  import opened AuditReport
  import opened AuditGate

  // ----- reports -----

  /** A JSON object has each key once. */
  predicate KeysOnce(vs: Vulnerabilities) {
    forall i, j :: 0 <= i < j < |vs| ==> vs[i].0 != vs[j].0
  }

  predicate HasItem(vs: Vulnerabilities, p: Package, item: RawItem) {
    exists v :: v in vs && v.0 == p && v.1.Record? && v.1.via.Some? && item in v.1.via.value
  }

  /** Each package of the list names the next one in its `via`. */
  ghost predicate Citing(vs: Vulnerabilities, w: seq<Package>) {
    w != [] && (exists v :: v in vs && v.0 == w[0]) && forall i :: 0 <= i < |w| - 1 ==> HasItem(vs, w[i], Name(w[i + 1]))
  }

  /** `w` leads from package `p` to a high or critical advisory with this id. */
  ghost predicate SevereAlong(vs: Vulnerabilities, p: Package, id: string, w: seq<Package>, severity: string, title: string) {
    && Citing(vs, w) && w[0] == p && (severity == "high" || severity == "critical")
    && HasItem(vs, w[|w| - 1], Details(severity, Some(title), Some(id)))
  }

  /** Package `p` has a high or critical advisory with this id, or cites, by however many packages, one that has. */
  ghost predicate SevereBehind(vs: Vulnerabilities, p: Package, id: string) {
    exists w, severity, title :: SevereAlong(vs, p, id, w, severity, title)
  }

  /** The package has any advisory behind it. */
  ghost predicate AnyBehind(vs: Vulnerabilities, p: Package) {
    exists w, severity, title, id :: AnyAlong(vs, p, w, severity, title, id)
  }

  ghost predicate AnyAlong(vs: Vulnerabilities, p: Package, w: seq<Package>, severity: string, title: string, id: string) {
    Citing(vs, w) && w[0] == p && HasItem(vs, w[|w| - 1], Details(severity, Some(title), Some(id)))
  }

  predicate OneOfFive(severity: string) {
    severity == "info" || severity == "low" || severity == "moderate" || severity == "high" || severity == "critical"
  }

  predicate ItemWords(vs: Vulnerabilities, i: RawItem) {
    match i
    case Name(p) => exists v :: v in vs && v.0 == p
    case Details(severity, title, id) => OneOfFive(severity) && title.Some? && title.value != "" && id.Some?
    case Unusable => false
  }

  predicate RecordWords(vs: Vulnerabilities, v: (Package, Record)) {
    && v.0 != "" && v.1.Record? && v.1.name == v.0 && OneOfFive(v.1.severity) && v.1.via.Some? && v.1.nodesOk
    && forall i :: i in v.1.via.value ==> ItemWords(vs, i)
  }

  /** No package of the report cites itself, by however many packages. */
  ghost predicate NoCycle(vs: Vulnerabilities) {
    forall w :: Citing(vs, w) && |w| > 1 ==> w[0] != w[|w| - 1]
  }

  ghost predicate SevereExplained(vs: Vulnerabilities) {
    forall v :: v in vs && v.1.Record? && (v.1.severity == "high" || v.1.severity == "critical") ==> AnyBehind(vs, v.0)
  }

  ghost predicate SomeSevere(vs: Vulnerabilities) {
    exists p, id :: SevereBehind(vs, p, id)
  }

  /** A report that can be relied on. */
  ghost predicate ReportWords(a: Audit) {
    && (a.returncode == 0 || a.returncode == 1)
    && a.report.Report? && !a.report.hasError && a.report.version2 && a.report.vulnerabilities.Some? && a.report.counts.Some?
    && var vs, c := a.report.vulnerabilities.value, a.report.counts.value;
       && (forall v :: v in vs ==> RecordWords(vs, v))
       && c.info >= 0 && c.low >= 0 && c.moderate >= 0 && c.high >= 0 && c.critical >= 0
       && c.total == c.info + c.low + c.moderate + c.high + c.critical
       && (a.returncode == 1 <==> c.high + c.critical > 0)
       && NoCycle(vs) && SevereExplained(vs)
       && (c.high + c.critical > 0 <==> SomeSevere(vs))
  }

  // ----- exceptions -----

  predicate TextWords(sh: Shapes, o: Option<string>, minimum: nat, maximum: nat) {
    o.Some? && sh.trimmed(o.value) && minimum <= |o.value| <= maximum
  }

  predicate Audited(path: string) {
    path == "website/package-lock.json" || path == "website/electron/package-lock.json" || path == "site/package-lock.json"
  }

  predicate EntryWords(sh: Shapes, e: RawException, today: int) {
    && e.exactKeys
    && TextWords(sh, e.package, 1, 214) && sh.packageName(e.package.value)
    && TextWords(sh, e.advisory, 1, 64) && sh.advisoryId(e.advisory.value)
    && e.paths.Some? && e.paths.value != []
    && (forall p :: p in e.paths.value ==> p.Some? && Audited(p.value))
    && (forall i, j :: 0 <= i < j < |e.paths.value| ==> e.paths.value[i] != e.paths.value[j])
    && TextWords(sh, e.reason, 20, 500)
    && TextWords(sh, e.owner, 2, 100) && sh.ownerName(e.owner.value)
    && TextWords(sh, e.expires, 10, 10) && sh.date(e.expires.value).Some?
    && today <= sh.date(e.expires.value).value <= today + 30
  }

  /** Two entries are about the same package, advisory and lockfile. */
  predicate Overlap(e: RawException, f: RawException) {
    e.package == f.package && e.advisory == f.advisory && e.paths.Some? && f.paths.Some?
    && exists p :: p in e.paths.value && p in f.paths.value
  }

  /** A document that meets the contract. */
  ghost predicate DocumentWords(sh: Shapes, d: Document, today: int) {
    && d.shape && d.entries.Some?
    && (forall e :: e in d.entries.value ==> EntryWords(sh, e, today))
    && forall i, j :: 0 <= i < j < |d.entries.value| ==> !Overlap(d.entries.value[i], d.entries.value[j])
  }

  /** An entry names exactly this package, advisory and lockfile. */
  ghost predicate ExcusedWords(d: Document, lockfile: string, p: Package, id: string) {
    d.entries.Some? && exists e :: e in d.entries.value && Excuses(e, lockfile, p, id)
  }

  predicate Excuses(e: RawException, lockfile: string, p: Package, id: string) {
    e.package == Some(p) && e.advisory == Some(id) && e.paths.Some? && Some(lockfile) in e.paths.value
  }

  ghost predicate LockfileWords(d: Document, lockfile: string, audit: Option<Audit>) {
    && audit.Some? && ReportWords(audit.value)
    && forall p, id :: SevereBehind(audit.value.report.vulnerabilities.value, p, id) ==> ExcusedWords(d, lockfile, p, id)
  }

  /** The gate passes: the exceptions are in order, and each of the three lockfiles has a report that can be relied on and
      no high or critical advisory behind any package without an entry for it. */
  ghost predicate GateWords(sh: Shapes, d: Document, today: int, audits: seq<Option<Audit>>)
    requires |audits| == 3
  {
    && DocumentWords(sh, d, today)
    && LockfileWords(d, "website/package-lock.json", audits[0])
    && LockfileWords(d, "website/electron/package-lock.json", audits[1])
    && LockfileWords(d, "site/package-lock.json", audits[2])
  }

  // ----- the words mean the same -----

  lemma RecordIs(vs: Vulnerabilities, v: (Package, Record))
    ensures RecordOk(vs, v) <==> RecordWords(vs, v)
  {
    forall i ensures ItemOk(vs, i) <==> ItemWords(vs, i) {
      match i
      case Name(p) =>
        if exists v :: v in vs && v.0 == p { var v :| v in vs && v.0 == p; assert p in Names(vs); }
      case _ =>
    }
  }

  lemma {:induction false} GraphAt(vs: Vulnerabilities, k: nat)
    requires KeysOnce(vs) && k < |vs|
    ensures vs[k].0 in GraphOf(vs) && GraphOf(vs)[vs[k].0] == AsItems(ViaOf(vs[k].1))
  {
    if k < |vs| - 1 {
      GraphAt(vs[..|vs| - 1], k);
      assert vs[..|vs| - 1][k] == vs[k];
    }
  }

  lemma ItemsAt(vs: Vulnerabilities, p: Package, item: Item)
    requires KeysOnce(vs) && AllOk(vs)
    ensures p in GraphOf(vs) <==> exists v :: v in vs && v.0 == p
    ensures p in GraphOf(vs) && item in GraphOf(vs)[p] <==> HasItem(vs, p, RawOf(item))
  {
    GraphKeys(vs);
    if exists v :: v in vs && v.0 == p {
      var v :| v in vs && v.0 == p;
      var k :| 0 <= k < |vs| && vs[k] == v;
      GraphAt(vs, k);
      assert RecordOk(vs, v);
      var via := v.1.via.value;
      assert ViaOf(v.1) == via;
      OnlyRecord(vs, v);
      RawItems(vs, via, item);
    }
  }

  /** The raw form of an item. */
  function RawOf(item: Item): RawItem {
    match item
    case Ref(q) => Name(q)
    case Direct(a) => Details(a.severity, Some(a.title), Some(a.id))
  }

  lemma OnlyRecord(vs: Vulnerabilities, v: (Package, Record))
    requires KeysOnce(vs) && v in vs && v.1.Record? && v.1.via.Some?
    ensures forall i :: HasItem(vs, v.0, i) <==> i in v.1.via.value
  {
    forall u | u in vs && u.0 == v.0 ensures u == v {
      var k :| 0 <= k < |vs| && vs[k] == v;
      var n :| 0 <= n < |vs| && vs[n] == u;
      assert k == n;
    }
  }

  lemma RawItems(vs: Vulnerabilities, via: seq<RawItem>, item: Item)
    requires forall i :: i in via ==> ItemOk(vs, i)
    ensures item in AsItems(via) <==> RawOf(item) in via
  {
    if item in AsItems(via) {
      var n :| 0 <= n < |via| && AsItems(via)[n] == item;
      assert ItemOk(vs, via[n]);
      assert via[n] == RawOf(item);
    }
    if RawOf(item) in via {
      var n :| 0 <= n < |via| && via[n] == RawOf(item);
      assert AsItems(via)[n] == item;
    }
  }

  lemma WalkIs(vs: Vulnerabilities, w: seq<Package>)
    requires KeysOnce(vs) && AllOk(vs)
    ensures Walk(GraphOf(vs), w) <==> Citing(vs, w)
  {
    var g := GraphOf(vs);
    GraphClosed(vs);
    if w != [] { ItemsAt(vs, w[0], Ref("")); }
    forall i | 0 <= i < |w| - 1 ensures w[i] in g && Ref(w[i + 1]) in g[w[i]] <==> HasItem(vs, w[i], Name(w[i + 1])) {
      ItemsAt(vs, w[i], Ref(w[i + 1]));
    }
    if Citing(vs, w) {
      forall i | 0 <= i < |w| ensures w[i] in g {
        if i > 0 { assert HasItem(vs, w[i - 1], Name(w[i])) && Ref(w[i]) in g[w[i - 1]]; }
      }
    }
  }

  lemma BehindIs(vs: Vulnerabilities, p: Package, a: Advisory)
    requires KeysOnce(vs) && AllOk(vs)
    ensures p in GraphOf(vs) && Behind(GraphOf(vs), p, a) <==> exists w :: AnyAlong(vs, p, w, a.severity, a.title, a.id)
  {
    hide AllOk, KeysOnce, HasItem;
    var g := GraphOf(vs);
    if p in g && Behind(g, p, a) {
      var q :| q in g && Reaches(g, p, q) && Direct(a) in g[q];
      var w :| Walk(g, w) && w[0] == p && w[|w| - 1] == q;
      WalkIs(vs, w);
      ItemsAt(vs, q, Direct(a));
      assert AnyAlong(vs, p, w, a.severity, a.title, a.id);
    }
    if exists w :: AnyAlong(vs, p, w, a.severity, a.title, a.id) {
      var w :| AnyAlong(vs, p, w, a.severity, a.title, a.id);
      WalkIs(vs, w);
      ItemsAt(vs, w[|w| - 1], Direct(a));
      assert Reaches(g, p, w[|w| - 1]);
    }
  }

  lemma FlaggedIs(vs: Vulnerabilities, p: Package, id: string)
    requires KeysOnce(vs) && AllOk(vs)
    ensures Flagged(GraphOf(vs), p, id) <==> SevereBehind(vs, p, id)
  {
    hide AllOk, KeysOnce, HasItem, Citing, Behind;
    if Flagged(GraphOf(vs), p, id) {
      var a :| Behind(GraphOf(vs), p, a) && Severe(a.severity) && a.id == id;
      BehindIs(vs, p, a);
      var w :| AnyAlong(vs, p, w, a.severity, a.title, a.id);
      assert SevereAlong(vs, p, id, w, a.severity, a.title);
    }
    if SevereBehind(vs, p, id) {
      var w, severity, title :| SevereAlong(vs, p, id, w, severity, title);
      assert AnyAlong(vs, p, w, severity, title, id);
      BehindIs(vs, p, Advisory(id, severity, title));
    }
  }

  lemma ExplainedIs(vs: Vulnerabilities)
    requires KeysOnce(vs) && AllOk(vs)
    ensures (forall v :: v in vs ==> Explained(GraphOf(vs), v)) <==> SevereExplained(vs)
  {
    hide AllOk, KeysOnce, HasItem, Citing, Behind;
    forall v | v in vs ensures (exists a :: Behind(GraphOf(vs), v.0, a)) <==> AnyBehind(vs, v.0) {
      KeyThere(vs, v);
      if a :| Behind(GraphOf(vs), v.0, a) {
        BehindIs(vs, v.0, a);
        var w :| AnyAlong(vs, v.0, w, a.severity, a.title, a.id);
      }
      if w, severity, title, id :| AnyAlong(vs, v.0, w, severity, title, id) {
        BehindIs(vs, v.0, Advisory(id, severity, title));
      }
    }
    forall v | v in vs ensures v.1.Record? && SeverityOf(v.1) == v.1.severity { OkIsRecord(vs, v); }
  }

  lemma OkIsRecord(vs: Vulnerabilities, v: (Package, Record))
    requires AllOk(vs) && v in vs
    ensures v.1.Record?
  {
    assert RecordOk(vs, v);
  }

  lemma KeyThere(vs: Vulnerabilities, v: (Package, Record))
    requires v in vs
    ensures v.0 in GraphOf(vs)
  {
    GraphKeys(vs);
  }

  /** A walk of two packages or more from `q` back to itself. */
  ghost predicate Round(vs: Vulnerabilities, q: Package, w: seq<Package>) {
    Citing(vs, w) && |w| > 1 && w[0] == q && w[|w| - 1] == q
  }

  lemma OnCycleIs(vs: Vulnerabilities, q: Package)
    requires KeysOnce(vs) && AllOk(vs)
    ensures OnCycle(GraphOf(vs), q) <==> exists w :: Round(vs, q, w)
  {
    hide AllOk, KeysOnce, HasItem;
    var g := GraphOf(vs);
    forall w ensures Walk(g, w) <==> Citing(vs, w) { WalkIs(vs, w); }
    if OnCycle(g, q) {
      var w :| Walk(g, w) && |w| > 1 && w[0] == q && w[|w| - 1] == q;
      assert Round(vs, q, w);
    }
    if w :| Round(vs, q, w) {
      assert Walk(g, w);
    }
  }

  lemma NoRound(vs: Vulnerabilities)
    ensures NoCycle(vs) <==> forall q, w :: !Round(vs, q, w)
  {
    hide HasItem;
    if forall q, w :: !Round(vs, q, w) {
      forall w | Citing(vs, w) && |w| > 1 ensures w[0] != w[|w| - 1] { assert !Round(vs, w[0], w); }
    }
  }

  lemma RoundStarts(vs: Vulnerabilities, q: Package, w: seq<Package>)
    requires Round(vs, q, w)
    ensures exists v :: v in vs && v.0 == q
  {
  }

  lemma CycleFreeIs(vs: Vulnerabilities)
    requires KeysOnce(vs) && AllOk(vs)
    ensures (forall v :: v in vs ==> CycleFree(GraphOf(vs), v.0)) <==> NoCycle(vs)
  {
    hide AllOk, KeysOnce, HasItem, Citing, OnCycle, Round, NoCycle;
    var g := GraphOf(vs);
    NoRound(vs);
    forall q ensures OnCycle(g, q) <==> exists w :: Round(vs, q, w) { OnCycleIs(vs, q); }
    if forall v :: v in vs ==> CycleFree(g, v.0) {
      forall q, w ensures !Round(vs, q, w) {
        if Round(vs, q, w) {
          OnCycleIs(vs, q);
          RoundStarts(vs, q, w);
          var v :| v in vs && v.0 == q;
          KeyThere(vs, v);
          Itself(g, q);
        }
      }
    }
  }

  lemma Itself(g: Graph, p: Package)
    requires p in g
    ensures Reaches(g, p, p)
  {
    assert Walk(g, [p]) && [p][0] == p && [p][|[p]| - 1] == p;
  }

  /** What makes a report trustworthy, in those words. */
  lemma TrustworthyIff(a: Audit)
    requires a.report.Report? && a.report.vulnerabilities.Some? ==> KeysOnce(a.report.vulnerabilities.value)
    ensures Trustworthy(a) <==> ReportWords(a)
  {
    hide CycleFree, Explained, NoCycle, SevereExplained, Flagged, SevereBehind, RecordOk, RecordWords, KeysOnce;
    if a.report.Report? && a.report.vulnerabilities.Some? {
      var vs := a.report.vulnerabilities.value;
      forall v ensures RecordOk(vs, v) <==> RecordWords(vs, v) { RecordIs(vs, v); }
      if AllOk(vs) {
        CycleFreeIs(vs);
        ExplainedIs(vs);
        forall p, id ensures Flagged(GraphOf(vs), p, id) <==> SevereBehind(vs, p, id) { FlaggedIs(vs, p, id); }
      }
    }
  }

  lemma EntryIs(sh: Shapes, e: RawException, today: int)
    ensures EntryOk(sh, e, today) <==> EntryWords(sh, e, today)
  {
    forall p ensures p in LOCKFILES <==> Audited(p) {}
  }

  lemma OverlapIs(sh: Shapes, e: RawException, f: RawException, today: int)
    requires EntryOk(sh, e, today) && EntryOk(sh, f, today)
    ensures Scopes(RuleOf(sh, e, today)) !! Scopes(RuleOf(sh, f, today)) <==> !Overlap(e, f)
  {
    var a, b := RuleOf(sh, e, today), RuleOf(sh, f, today);
    ValuesAre(e.paths.value);
    ValuesAre(f.paths.value);
    if !(Scopes(a) !! Scopes(b)) {
      var s :| s in Scopes(a) && s in Scopes(b);
      assert s.2 in a.paths && s.2 in b.paths;
      assert Some(s.2) in e.paths.value && Some(s.2) in f.paths.value;
    }
    if Overlap(e, f) {
      var p :| p in e.paths.value && p in f.paths.value;
      assert (a.package, a.advisory, p.value) in Scopes(a) && (a.package, a.advisory, p.value) in Scopes(b);
    }
  }

  lemma {:induction false} ValuesAre(paths: seq<Option<string>>)
    requires forall p :: p in paths ==> p.Some?
    ensures forall x: string :: x in Values(paths) <==> Some(x) in paths
  {
    if paths != [] {
      assert paths[0] in paths && forall p :: p in paths[1..] ==> p in paths;
      ValuesAre(paths[1..]);
      assert paths == [paths[0]] + paths[1..];
    }
  }

  /** What makes a document of exceptions acceptable, in those words. */
  lemma GovernedIff(sh: Shapes, d: Document, today: int)
    ensures Governed(sh, d, today) <==> DocumentWords(sh, d, today)
  {
    hide EntryOk, EntryWords, Overlap, Scopes, RuleOf;
    if d.entries.Some? {
      var es := d.entries.value;
      forall e ensures EntryOk(sh, e, today) <==> EntryWords(sh, e, today) { EntryIs(sh, e, today); }
      if EntriesOk(sh, es, today) {
        var rs := RulesOf(sh, es, today);
        forall i, j | 0 <= i < j < |es| ensures Scopes(rs[i]) !! Scopes(rs[j]) <==> !Overlap(es[i], es[j]) {
          assert es[i] in es && es[j] in es;
          OverlapIs(sh, es[i], es[j], today);
        }
      }
    }
  }

  lemma ExcusedIs(sh: Shapes, d: Document, today: int, lockfile: string, p: Package, id: string)
    requires Governed(sh, d, today)
    ensures Excused(sh, d, today, lockfile, p, id) <==> ExcusedWords(d, lockfile, p, id)
  {
    hide ScopesApart, RulesOf;
    if ExcusedWords(d, lockfile, p, id) {
      var e :| e in d.entries.value && Excuses(e, lockfile, p, id);
      assert EntryOk(sh, e, today);
      assert Covering(sh, e, today, lockfile, p, id);
    }
    if Excused(sh, d, today, lockfile, p, id) {
      var e :| e in d.entries.value && Covering(sh, e, today, lockfile, p, id);
      assert Excuses(e, lockfile, p, id);
    }
  }

  lemma ClearIs(sh: Shapes, d: Document, today: int, lockfile: string, audit: Option<Audit>)
    requires Governed(sh, d, today)
    requires audit.Some? && audit.value.report.Report? && audit.value.report.vulnerabilities.Some? ==>
      KeysOnce(audit.value.report.vulnerabilities.value)
    ensures Clear(sh, d, today, lockfile, audit) <==> LockfileWords(d, lockfile, audit)
  {
    hide Governed, Trustworthy, ReportWords, Flagged, SevereBehind, Excused, ExcusedWords, KeysOnce, AllOk;
    if audit.Some? {
      TrustworthyIff(audit.value);
      if Trustworthy(audit.value) {
        TrustworthyHas(audit.value);
        var vs := audit.value.report.vulnerabilities.value;
        forall p, id ensures Flagged(GraphOf(vs), p, id) <==> SevereBehind(vs, p, id) { FlaggedIs(vs, p, id); }
        forall p, id ensures Excused(sh, d, today, lockfile, p, id) <==> ExcusedWords(d, lockfile, p, id) {
          ExcusedIs(sh, d, today, lockfile, p, id);
        }
      }
    }
  }

  lemma TrustworthyHas(a: Audit)
    requires Trustworthy(a)
    ensures a.report.Report? && a.report.vulnerabilities.Some? && AllOk(a.report.vulnerabilities.value)
  {
  }

  predicate ObjectsOnly(audits: seq<Option<Audit>>) {
    forall n :: 0 <= n < |audits| && audits[n].Some? && audits[n].value.report.Report? && audits[n].value.report.vulnerabilities.Some? ==>
      KeysOnce(audits[n].value.report.vulnerabilities.value)
  }

  /** The exit status is 0 exactly then. */
  lemma GateIff(sh: Shapes, d: Document, today: int, audits: seq<Option<Audit>>)
    requires |audits| == |LOCKFILES| == 3 && ObjectsOnly(audits)
    ensures Passes(sh, d, today, audits) <==> GateWords(sh, d, today, audits)
  {
    hide Governed, Clear, LockfileWords, DocumentWords, KeysOnce;
    GovernedIff(sh, d, today);
    assert LOCKFILES[0] == "website/package-lock.json" && LOCKFILES[1] == "website/electron/package-lock.json"
        && LOCKFILES[2] == "site/package-lock.json";
    if Governed(sh, d, today) {
      forall n | 0 <= n < 3 ensures Clear(sh, d, today, LOCKFILES[n], audits[n]) <==> LockfileWords(d, LOCKFILES[n], audits[n]) {
        ClearIs(sh, d, today, LOCKFILES[n], audits[n]);
      }
    }
  }

  /** A high or critical advisory behind any package of any of the three lockfiles, without an entry for exactly that
      package, advisory and lockfile, blocks: whatever else the reports and the exceptions say. */
  lemma UnexcusedBlocks(sh: Shapes, d: Document, today: int, audits: seq<Option<Audit>>, n: nat, p: Package, id: string,
                        w: seq<Package>, severity: string, title: string)
    requires |audits| == |LOCKFILES| == 3 && ObjectsOnly(audits) && n < 3 && audits[n].Some?
    requires audits[n].value.report.Report? && audits[n].value.report.vulnerabilities.Some?
    requires SevereAlong(audits[n].value.report.vulnerabilities.value, p, id, w, severity, title)
    requires !ExcusedWords(d, LOCKFILES[n], p, id)
    ensures !Passes(sh, d, today, audits)
  {
    hide Governed, Trustworthy, ReportWords, KeysOnce, SevereAlong, ExcusedWords;
    assert SevereBehind(audits[n].value.report.vulnerabilities.value, p, id);
    if Passes(sh, d, today, audits) {
      GateIff(sh, d, today, audits);
      assert Clear(sh, d, today, LOCKFILES[n], audits[n]);
      ClearIs(sh, d, today, LOCKFILES[n], audits[n]);
    }
  }

  // ----- the findings -----

  /** Of the advisories with one id behind a package the finding has the most severe: it is critical if any of them is,
      and high otherwise. */
  lemma FindingSeverity(g: Graph, lockfile: string, fs: Findings, p: Package, id: string)
    requires Complete(g, lockfile, fs) && (p, id) in fs
    ensures var f := fs[(p, id)];
      && f.lockfile == lockfile && f.package == p && f.advisory == id
      && f.severity == (if exists a :: Behind(g, p, a) && a.id == id && a.severity == "critical" then "critical" else "high")
  {
    hide Behind;
    assert FindingOk(g, lockfile, (p, id), fs[(p, id)]);
    if a :| Behind(g, p, a) && a.id == id && a.severity == "critical" {
      assert Rank(a.severity) <= Rank(fs[(p, id)].severity);
    }
  }
}
