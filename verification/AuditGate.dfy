/** The production dependency gate: governed exceptions, and the decision to let a build through. */
module AuditGate {
  import opened Options
  import opened AuditGraph
  import opened AuditReport

  const MAX_EXCEPTION_DAYS := 30
  const LOCKFILES := ["website/package-lock.json", "website/electron/package-lock.json", "site/package-lock.json"]

  /** An exception as written; None is a value of the wrong type. */
  datatype RawException = RawException(
    exactKeys: bool, package: Option<string>, advisory: Option<string>, paths: Option<seq<Option<string>>>,
    reason: Option<string>, owner: Option<string>, expires: Option<string>)

  /** `shape` tells that the document has exactly the keys it must have, and version 1. */
  datatype Document = Document(shape: bool, entries: Option<seq<RawException>>)

  datatype Rule = Rule(package: string, advisory: string, paths: seq<string>, reason: string, owner: string, expires: int)

  /** What is not modelled of text: trimming, the three patterns, and real YYYY-MM-DD dates as day numbers. */
  datatype Shapes = Shapes(trimmed: string -> bool, packageName: string -> bool, advisoryId: string -> bool,
                           ownerName: string -> bool, date: string -> Option<int>)

  predicate TextOk(sh: Shapes, o: Option<string>, minimum: nat, maximum: nat) {
    o.Some? && sh.trimmed(o.value) && minimum <= |o.value| <= maximum
  }

  predicate PathsOk(paths: Option<seq<Option<string>>>) {
    && paths.Some? && paths.value != []
    && (forall p :: p in paths.value ==> p.Some? && p.value in LOCKFILES)
    && forall i, j :: 0 <= i < j < |paths.value| ==> paths.value[i] != paths.value[j]
  }

  predicate EntryOk(sh: Shapes, e: RawException, today: int) {
    && e.exactKeys
    && TextOk(sh, e.package, 1, 214) && sh.packageName(e.package.value)
    && TextOk(sh, e.advisory, 1, 64) && sh.advisoryId(e.advisory.value)
    && PathsOk(e.paths)
    && TextOk(sh, e.reason, 20, 500)
    && TextOk(sh, e.owner, 2, 100) && sh.ownerName(e.owner.value)
    && TextOk(sh, e.expires, 10, 10) && sh.date(e.expires.value).Some?
    && today <= sh.date(e.expires.value).value <= today + MAX_EXCEPTION_DAYS
  }

  type Scope = (string, string, string)

  function Values(paths: seq<Option<string>>): (r: seq<string>)
    requires forall p :: p in paths ==> p.Some?
    ensures |r| == |paths| && forall i :: 0 <= i < |r| ==> r[i] == paths[i].value
  {
    if paths == [] then [] else assert paths[0] in paths; [paths[0].value] + Values(paths[1..])
  }

  function RuleOf(sh: Shapes, e: RawException, today: int): Rule
    requires EntryOk(sh, e, today)
  {
    Rule(e.package.value, e.advisory.value, Values(e.paths.value), e.reason.value, e.owner.value, sh.date(e.expires.value).value)
  }

  function Scopes(r: Rule): set<Scope> {
    set p | p in r.paths :: (r.package, r.advisory, p)
  }

  predicate EntriesOk(sh: Shapes, es: seq<RawException>, today: int) {
    forall e :: e in es ==> EntryOk(sh, e, today)
  }

  function RulesOf(sh: Shapes, es: seq<RawException>, today: int): (rs: seq<Rule>)
    requires EntriesOk(sh, es, today)
    ensures |rs| == |es| && forall i :: 0 <= i < |es| ==> es[i] in es && rs[i] == RuleOf(sh, es[i], today)
  {
    seq(|es|, i requires 0 <= i < |es| => assert es[i] in es; RuleOf(sh, es[i], today))
  }

  ghost predicate ScopesApart(rs: seq<Rule>) {
    forall i, j :: 0 <= i < j < |rs| ==> Scopes(rs[i]) !! Scopes(rs[j])
  }

  /** The exceptions document meets the whole contract: every entry does, and no two share a scope. */
  ghost predicate Governed(sh: Shapes, d: Document, today: int) {
    && d.shape && d.entries.Some?
    && EntriesOk(sh, d.entries.value, today) && ScopesApart(RulesOf(sh, d.entries.value, today))
  }

  predicate Matches(r: Rule, f: Finding) {
    r.package == f.package && r.advisory == f.advisory && f.lockfile in r.paths
  }

  // ----- validation, entry by entry -----

  /** Adds the scopes of one rule, unless one is taken already. */
  method AddScopes(r: Rule, seen: set<Scope>) returns (ok: bool, seen': set<Scope>)
    requires forall i, j :: 0 <= i < j < |r.paths| ==> r.paths[i] != r.paths[j]
    ensures ok <==> seen !! Scopes(r)
    ensures ok ==> seen' == seen + Scopes(r)
  {
    seen' := seen;
    for i := 0 to |r.paths|
      invariant seen' == seen + set p | p in r.paths[..i] :: (r.package, r.advisory, p)
      invariant forall p :: p in r.paths[..i] ==> (r.package, r.advisory, p) !in seen
    {
      var scope := (r.package, r.advisory, r.paths[i]);
      assert r.paths[..i + 1] == r.paths[..i] + [r.paths[i]];
      if scope in seen' {
        assert r.paths[i] !in r.paths[..i];
        assert scope in seen && scope in Scopes(r);
        return false, seen';
      }
      seen' := seen' + {scope};
    }
    assert r.paths[..|r.paths|] == r.paths;
    return true, seen';
  }

  /** validate_exception_document(): None is the gate error. */
  method ValidateExceptions(sh: Shapes, d: Document, today: int) returns (rules: Option<seq<Rule>>)
    ensures rules.Some? <==> Governed(sh, d, today)
    ensures rules.Some? ==> rules.value == RulesOf(sh, d.entries.value, today)
  {
    if !d.shape || d.entries == None {
      return None;
    }
    hide EntryOk, Scopes, RuleOf, TakenBy, ScopesApart;
    var entries := d.entries.value;
    var seen: set<Scope> := {};
    var result: seq<Rule> := [];
    NoScopes();
    for n := 0 to |entries|
      invariant EntriesOk(sh, entries[..n], today) && result == RulesOf(sh, entries[..n], today)
      invariant TakenBy(seen, result) && ScopesApart(result)
    {
      if !EntryOk(sh, entries[n], today) {
        assert entries[n] in entries;
        return None;
      }
      assert entries[..n + 1] == entries[..n] + [entries[n]];
      var rule := RuleOf(sh, entries[n], today);
      RulePathsDistinct(sh, entries[n], today);
      var ok, seen' := AddScopes(rule, seen);
      if !ok {
        ClashBlocks(sh, entries, today, n, seen);
        return None;
      }
      NextScopes(result, rule, seen);
      seen, result := seen', result + [rule];
    }
    assert entries[..|entries|] == entries;
    return Some(result);
  }

  /** The scopes of the rules so far. */
  ghost predicate TakenBy(seen: set<Scope>, rs: seq<Rule>) {
    forall s :: s in seen <==> exists i :: 0 <= i < |rs| && s in Scopes(rs[i])
  }

  lemma NoScopes()
    ensures TakenBy({}, []) && ScopesApart([])
  {
  }

  lemma ClashBlocks(sh: Shapes, es: seq<RawException>, today: int, n: nat, seen: set<Scope>)
    requires n < |es| && EntriesOk(sh, es[..n], today) && TakenBy(seen, RulesOf(sh, es[..n], today))
    requires EntryOk(sh, es[n], today) && !(seen !! Scopes(RuleOf(sh, es[n], today)))
    ensures !(EntriesOk(sh, es, today) && ScopesApart(RulesOf(sh, es, today)))
  {
    hide EntryOk, RuleOf, Scopes;
    var s :| s in seen && s in Scopes(RuleOf(sh, es[n], today));
    var i :| 0 <= i < n && s in Scopes(RulesOf(sh, es[..n], today)[i]);
    if EntriesOk(sh, es, today) {
      var all := RulesOf(sh, es, today);
      assert all[i] == RulesOf(sh, es[..n], today)[i];
      assert !(Scopes(all[i]) !! Scopes(all[n]));
    }
  }

  lemma NextScopes(rs: seq<Rule>, r: Rule, seen: set<Scope>)
    requires TakenBy(seen, rs) && ScopesApart(rs) && seen !! Scopes(r)
    ensures TakenBy(seen + Scopes(r), rs + [r]) && ScopesApart(rs + [r])
  {
    hide Scopes;
    forall i | 0 <= i < |rs| ensures Scopes(rs[i]) !! Scopes(r) {
      assert forall s :: s in Scopes(rs[i]) ==> s in seen;
    }
    forall s ensures s in seen + Scopes(r) <==> exists i :: 0 <= i < |rs| + 1 && s in Scopes((rs + [r])[i]) {
      if s in seen {
        var i :| 0 <= i < |rs| && s in Scopes(rs[i]);
        assert (rs + [r])[i] == rs[i];
      }
      assert (rs + [r])[|rs|] == r;
    }
  }

  lemma RulePathsDistinct(sh: Shapes, e: RawException, today: int)
    requires EntryOk(sh, e, today)
    ensures var ps := RuleOf(sh, e, today).paths; forall i, j :: 0 <= i < j < |ps| ==> ps[i] != ps[j]
  {
  }

  // ----- the decision -----

  /** Some entry of the document covers this package, advisory and lockfile; it is not expired and expires
      within 30 days. */
  ghost predicate Excused(sh: Shapes, d: Document, today: int, lockfile: string, p: Package, id: string) {
    d.entries.Some? && exists e :: e in d.entries.value && Covering(sh, e, today, lockfile, p, id)
  }

  ghost predicate Covering(sh: Shapes, e: RawException, today: int, lockfile: string, p: Package, id: string) {
    && EntryOk(sh, e, today) && e.package == Some(p) && e.advisory == Some(id) && Some(lockfile) in e.paths.value
    && today <= sh.date(e.expires.value).value <= today + 30
  }

  /** The whole gate as a statement: the exceptions are governed, every lockfile has a trustworthy report,
      and every high or critical advisory behind any package of it is excused. */
  ghost predicate Passes(sh: Shapes, d: Document, today: int, audits: seq<Option<Audit>>)
    requires |audits| == |LOCKFILES|
  {
    Governed(sh, d, today) && forall n :: 0 <= n < |LOCKFILES| ==> Clear(sh, d, today, LOCKFILES[n], audits[n])
  }

  ghost predicate AllExcused(sh: Shapes, d: Document, today: int, lockfile: string, g: Graph) {
    forall p, id :: Flagged(g, p, id) ==> Excused(sh, d, today, lockfile, p, id)
  }

  function Unexcepted(fs: Findings, rules: seq<Rule>): set<Finding> {
    set k | k in fs && !(exists r :: r in rules && Matches(r, fs[k])) :: fs[k]
  }

  lemma RuleCovers(sh: Shapes, e: RawException, today: int, f: Finding)
    requires EntryOk(sh, e, today)
    ensures Matches(RuleOf(sh, e, today), f) <==> Covering(sh, e, today, f.lockfile, f.package, f.advisory)
  {
    var ps := Values(e.paths.value);
    if f.lockfile in ps {
      var n :| 0 <= n < |ps| && ps[n] == f.lockfile;
      assert e.paths.value[n] in e.paths.value && e.paths.value[n].Some?;
    }
    if Some(f.lockfile) in e.paths.value {
      var m :| 0 <= m < |e.paths.value| && e.paths.value[m] == Some(f.lockfile);
      assert ps[m] == f.lockfile;
    }
  }

  lemma MatchIsExcuse(sh: Shapes, d: Document, today: int, f: Finding)
    requires d.entries.Some? && EntriesOk(sh, d.entries.value, today)
    ensures (exists r :: r in RulesOf(sh, d.entries.value, today) && Matches(r, f))
      <==> Excused(sh, d, today, f.lockfile, f.package, f.advisory)
  {
    hide EntryOk, RuleOf, Matches, Covering;
    var es := d.entries.value;
    var rules := RulesOf(sh, es, today);
    forall e | e in es ensures Matches(RuleOf(sh, e, today), f) <==> Covering(sh, e, today, f.lockfile, f.package, f.advisory) {
      RuleCovers(sh, e, today, f);
    }
    if exists r :: r in rules && Matches(r, f) {
      var r :| r in rules && Matches(r, f);
      var i :| 0 <= i < |rules| && rules[i] == r;
      assert es[i] in es;
    }
    if Excused(sh, d, today, f.lockfile, f.package, f.advisory) {
      var e :| e in es && Covering(sh, e, today, f.lockfile, f.package, f.advisory);
      var i :| 0 <= i < |es| && es[i] == e;
      assert rules[i] in rules;
    }
  }

  lemma NothingBlocked(sh: Shapes, d: Document, today: int, rules: seq<Rule>, lockfile: string, g: Graph, fs: Findings)
    requires d.entries.Some? && EntriesOk(sh, d.entries.value, today) && rules == RulesOf(sh, d.entries.value, today)
    requires Complete(g, lockfile, fs)
    ensures Unexcepted(fs, rules) == {} <==> AllExcused(sh, d, today, lockfile, g)
  {
    hide EntriesOk, RulesOf, Excused, FindingOk, Flagged, Matches;
    forall k | k in fs
      ensures (exists r :: r in rules && Matches(r, fs[k])) <==> Excused(sh, d, today, lockfile, k.0, k.1)
    {
      FindingNames(g, lockfile, k, fs[k]);
      MatchIsExcuse(sh, d, today, fs[k]);
    }
    if Unexcepted(fs, rules) == {} {
      forall p, id | Flagged(g, p, id) ensures Excused(sh, d, today, lockfile, p, id) {
        assert (p, id) in fs;
        assert fs[(p, id)] !in Unexcepted(fs, rules);
      }
    }
    if AllExcused(sh, d, today, lockfile, g) {
      forall k | k in fs ensures exists r :: r in rules && Matches(r, fs[k]) {
        assert (k.0, k.1) in fs;
        assert Flagged(g, k.0, k.1);
      }
    }
  }

  lemma FindingNames(g: Graph, lockfile: string, k: Key, f: Finding)
    requires FindingOk(g, lockfile, k, f)
    ensures f.lockfile == lockfile && f.package == k.0 && f.advisory == k.1
  {
  }

  /** One lockfile's audit lets the build through. */
  ghost predicate Clear(sh: Shapes, d: Document, today: int, lockfile: string, a: Option<Audit>) {
    && a.Some? && Trustworthy(a.value)
    && AllExcused(sh, d, today, lockfile, GraphOf(a.value.report.vulnerabilities.value))
  }

  /** The decision; an audit that could not be run is None. The gate fails closed: any error blocks. */
  method Decide(sh: Shapes, d: Document, today: int, audits: seq<Option<Audit>>) returns (exitCode: int)
    requires |audits| == |LOCKFILES|
    ensures exitCode == 0 || exitCode == 1
    ensures exitCode == 0 <==> Passes(sh, d, today, audits)
  {
    hide Clear, Trustworthy, RulesOf, EntriesOk, ScopesApart;
    var rules := ValidateExceptions(sh, d, today);
    if rules == None {
      return 1;
    }
    var blocked: set<Finding> := {};
    for n := 0 to |LOCKFILES|
      invariant blocked == {} <==> forall i :: 0 <= i < n ==> Clear(sh, d, today, LOCKFILES[i], audits[i])
    {
      var fs := AuditLockfile(sh, d, today, LOCKFILES[n], audits[n], rules.value);
      if fs == None {
        return 1;
      }
      assert blocked + fs.value == {} <==> blocked == {} && fs.value == {};
      blocked := blocked + fs.value;
    }
    exitCode := if blocked == {} then 0 else 1;
  }

  /** The unexcepted findings of one lockfile, or the error. */
  method AuditLockfile(sh: Shapes, d: Document, today: int, lockfile: string, audit: Option<Audit>, rules: seq<Rule>)
      returns (blocked: Option<set<Finding>>)
    requires d.entries.Some? && EntriesOk(sh, d.entries.value, today) && rules == RulesOf(sh, d.entries.value, today)
    ensures Clear(sh, d, today, lockfile, audit) <==> blocked == Some({})
  {
    if audit == None {
      return None;
    }
    hide AllExcused, EntriesOk, RulesOf, Unexcepted;
    var fs := ParseAuditReport(audit.value, lockfile);
    if fs == None {
      return None;
    }
    NothingBlocked(sh, d, today, rules, lockfile, GraphOf(audit.value.report.vulnerabilities.value), fs.value);
    return Some(Unexcepted(fs.value, rules));
  }

  /** What passing means, in the words of the inputs: no high or critical advisory behind any package of any
      audited lockfile without an entry of the document for exactly that package, advisory and lockfile,
      which is valid, not expired, and expires within 30 days. */
  lemma PassingIsSafe(sh: Shapes, d: Document, today: int, audits: seq<Option<Audit>>, n: nat, g: Graph, p: Package, q: Package, a: Advisory)
    requires |audits| == |LOCKFILES| && n < |LOCKFILES| && Passes(sh, d, today, audits)
    requires audits[n].Some? && Trustworthy(audits[n].value) && g == GraphOf(audits[n].value.report.vulnerabilities.value)
    requires p in g && q in g && Reaches(g, p, q) && Direct(a) in g[q] && (a.severity == "high" || a.severity == "critical")
    ensures d.entries.Some? && exists e :: e in d.entries.value && Covering(sh, e, today, LOCKFILES[n], p, a.id)
  {
    hide EntryOk, Trustworthy;
    assert Clear(sh, d, today, LOCKFILES[n], audits[n]);
    assert Behind(g, p, a);
    assert Flagged(g, p, a.id);
    assert Excused(sh, d, today, LOCKFILES[n], p, a.id);
  }
}
