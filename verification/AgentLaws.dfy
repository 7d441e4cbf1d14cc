/** What the agent listing shows of the files in the directory. */
module AgentLaws {
  import opened Options
  import opened AgentListing

  predicate Reads(r: Reader, d: Directory, n: Name, a: Agent) {
    n in d && r.parse(n, d[n].content) == Some(a)
  }

  ghost predicate Ascending(ps: seq<nat>, bound: nat) {
    (forall i :: 0 <= i < |ps| ==> ps[i] < bound) && forall i, j :: 0 <= i < j < |ps| ==> ps[i] < ps[j]
  }

  /** The agents are what the files read as, at the positions `ps`, and no file that reads as an agent is passed over. */
  ghost predicate ReadAt(r: Reader, d: Directory, names: seq<Name>, agents: seq<Agent>, ps: seq<nat>) {
    && |ps| == |agents| && Ascending(ps, |names|)
    && (forall i :: 0 <= i < |ps| ==> Reads(r, d, names[ps[i]], agents[i]))
    && forall n, a :: 0 <= n < |names| && Reads(r, d, names[n], a) ==> n in ps
  }

  lemma ReadAtSnoc(r: Reader, d: Directory, names: seq<Name>, x: Name, agents: seq<Agent>, before: seq<nat>) returns (ps: seq<nat>)
    requires ReadAt(r, d, names, agents, before)
    ensures var read := if x in d && r.parse(x, d[x].content).Some? then [r.parse(x, d[x].content).value] else [];
      ReadAt(r, d, names + [x], agents + read, ps)
  {
    ps := if x in d && r.parse(x, d[x].content).Some? then before + [|names|] else before;
    forall n, a | 0 <= n < |names + [x]| && Reads(r, d, (names + [x])[n], a) ensures n in ps {
      if n < |names| {
        assert (names + [x])[n] == names[n] && n in before;
      } else {
        assert ps[|before|] == n;
      }
    }
  }

  lemma {:induction false} ScannedAt(r: Reader, d: Directory, names: seq<Name>) returns (ps: seq<nat>)
    ensures ReadAt(r, d, names, Scanned(r, d, names), ps)
  {
    if names == [] {
      ps := [];
    } else {
      hide ReadAt;
      var init, x := names[..|names| - 1], names[|names| - 1];
      var before := ScannedAt(r, d, init);
      assert names == init + [x] && Scanned(r, d, init) + [] == Scanned(r, d, init);
      ps := ReadAtSnoc(r, d, init, x, Scanned(r, d, init), before);
    }
  }

  // ----- which agents -----

  /** File `n` gives its name's agent: it is the first with a package, or the first of all when none has one. */
  ghost predicate ChosenAt(r: Reader, d: Directory, names: seq<Name>, n: nat, a: Agent)
    requires n < |names|
  {
    && Reads(r, d, names[n], a)
    && forall m, b :: 0 <= m < |names| && Reads(r, d, names[m], b) && b.name == a.name ==>
         if a.package != "" then b.package == "" || n <= m else b.package == "" && n <= m
  }

  lemma ChosenIs(r: Reader, d: Directory, names: seq<Name>, agents: seq<Agent>, ps: seq<nat>, i: nat)
    requires ReadAt(r, d, names, agents, ps) && i < |agents|
    ensures i < |ps| && ps[i] < |names| && (PreferredAt(agents, i) <==> ChosenAt(r, d, names, ps[i], agents[i]))
  {
    var a := agents[i];
    if PreferredAt(agents, i) {
      forall m, b | 0 <= m < |names| && Reads(r, d, names[m], b) && b.name == a.name
        ensures if a.package != "" then b.package == "" || ps[i] <= m else b.package == "" && ps[i] <= m
      {
        var k :| 0 <= k < |ps| && ps[k] == m;
        assert agents[k] == b;
      }
    }
    if ChosenAt(r, d, names, ps[i], a) {
      forall k | 0 <= k < |agents| && agents[k].name == a.name
        ensures if a.package != "" then agents[k].package == "" || i <= k else agents[k].package == "" && i <= k
      {
        assert Reads(r, d, names[ps[k]], agents[k]);
      }
    }
  }

  lemma OnePreferred(agents: seq<Agent>, i: nat, k: nat)
    requires i < |agents| && k < |agents| && PreferredAt(agents, i) && PreferredAt(agents, k) && agents[i].name == agents[k].name
    ensures i == k
  {
  }

  lemma ListedIsChosen(r: Reader, d: Directory, a: Agent) returns (n: nat)
    requires a in Listing(r, d)
    ensures n < |r.sorted(d.Keys)| && ChosenAt(r, d, r.sorted(d.Keys), n, a)
  {
    hide ReadAt, PreferredAt, Scanned, ChosenAt, Deduped;
    var names := r.sorted(d.Keys);
    var agents, listed := Scanned(r, d, names), Listing(r, d);
    var ps := ScannedAt(r, d, names);
    DedupedIsPackageFirst(agents);
    var at :| 0 <= at < |listed| && listed[at] == a;
    assert Preferred(agents, listed[at]);
    var i :| 0 <= i < |agents| && agents[i] == a && PreferredAt(agents, i);
    ChosenIs(r, d, names, agents, ps, i);
    n := ps[i];
  }

  lemma ChosenIsListed(r: Reader, d: Directory, a: Agent, n: nat)
    requires n < |r.sorted(d.Keys)| && ChosenAt(r, d, r.sorted(d.Keys), n, a)
    ensures a in Listing(r, d)
  {
    hide ReadAt, PreferredAt, Scanned, ChosenAt, Deduped;
    var names := r.sorted(d.Keys);
    var agents, listed := Scanned(r, d, names), Listing(r, d);
    var ps := ScannedAt(r, d, names);
    DedupedIsPackageFirst(agents);
    var i := PositionOf(r, d, names, agents, ps, n, a);
    ChosenIs(r, d, names, agents, ps, i);
    var at := IndexIn(listed, a.name);
    assert IndexIn(listed, agents[i].name) < |listed|;
    assert Preferred(agents, listed[at]);
    var k :| 0 <= k < |agents| && agents[k] == listed[at] && PreferredAt(agents, k);
    OnePreferred(agents, i, k);
    assert listed[at] == a;
  }

  /** Exactly the agents listed: for each name some file reads as, the first such agent with a package, or else the first. */
  lemma ListedIff(r: Reader, d: Directory, a: Agent)
    ensures a in Listing(r, d) <==> exists n :: 0 <= n < |r.sorted(d.Keys)| && ChosenAt(r, d, r.sorted(d.Keys), n, a)
  {
    hide Listing, ChosenAt;
    if a in Listing(r, d) {
      var n := ListedIsChosen(r, d, a);
    }
    if n :| 0 <= n < |r.sorted(d.Keys)| && ChosenAt(r, d, r.sorted(d.Keys), n, a) {
      ChosenIsListed(r, d, a, n);
    }
  }

  lemma PositionOf(r: Reader, d: Directory, names: seq<Name>, agents: seq<Agent>, ps: seq<nat>, n: nat, a: Agent) returns (i: nat)
    requires ReadAt(r, d, names, agents, ps) && n < |names| && ChosenAt(r, d, names, n, a)
    ensures i < |agents| && i < |ps| && ps[i] == n && agents[i] == a
  {
    i :| 0 <= i < |ps| && ps[i] == n;
  }

  // ----- in which order -----

  /** Some agent named `x` stands before every agent named `y`. */
  ghost predicate NamedBefore(agents: seq<Agent>, x: string, y: string) {
    exists u :: 0 <= u < |agents| && agents[u].name == x && forall v :: 0 <= v < |agents| && agents[v].name == y ==> u < v
  }

  ghost predicate FirstComeOrder(agents: seq<Agent>, listed: seq<Agent>) {
    forall i, j :: 0 <= i < j < |listed| ==> NamedBefore(agents, listed[i].name, listed[j].name)
  }

  lemma NamedBeforeSnoc(agents: seq<Agent>, a: Agent, x: string, y: string)
    requires NamedBefore(agents, x, y)
    ensures NamedBefore(agents + [a], x, y)
  {
    var u :| 0 <= u < |agents| && agents[u].name == x && forall v :: 0 <= v < |agents| && agents[v].name == y ==> u < v;
    assert (agents + [a])[u] == agents[u];
  }

  lemma {:induction false} DedupedInOrder(agents: seq<Agent>)
    ensures FirstComeOrder(agents, Deduped(agents))
  {
    if agents != [] {
      hide FirstComeOrder, Entered, PackageFirst;
      var init, a := agents[..|agents| - 1], agents[|agents| - 1];
      assert agents == init + [a];
      DedupedInOrder(init);
      DedupedIsPackageFirst(init);
      EnteredInOrder(init, Deduped(init), a);
    } else {
      assert FirstComeOrder([], []);
    }
  }

  lemma EnteredInOrder(agents: seq<Agent>, listed: seq<Agent>, a: Agent)
    requires PackageFirst(agents, listed) && FirstComeOrder(agents, listed)
    ensures FirstComeOrder(agents + [a], Entered(listed, a))
  {
    hide NamedBefore, Preferred, PackageFirst;
    var r := Entered(listed, a);
    forall i, j | 0 <= i < j < |r| ensures NamedBefore(agents + [a], r[i].name, r[j].name) {
      if j < |listed| {
        NamedBeforeSnoc(agents, a, listed[i].name, listed[j].name);
      } else {
        ListedIsThere(agents, listed, i);
        NewNameLast(agents, listed, a, listed[i].name);
      }
    }
  }

  lemma ListedIsThere(agents: seq<Agent>, listed: seq<Agent>, i: nat)
    requires PackageFirst(agents, listed) && i < |listed|
    ensures exists u :: 0 <= u < |agents| && agents[u] == listed[i]
  {
    assert Preferred(agents, listed[i]);
  }

  lemma NewNameLast(agents: seq<Agent>, listed: seq<Agent>, a: Agent, x: string)
    requires PackageFirst(agents, listed) && IndexIn(listed, a.name) == |listed|
    requires exists u :: 0 <= u < |agents| && agents[u].name == x
    ensures NamedBefore(agents + [a], x, a.name)
  {
    hide Preferred;
    var u :| 0 <= u < |agents| && agents[u].name == x;
    forall v | 0 <= v < |agents| ensures agents[v].name != a.name {
      assert IndexIn(listed, agents[v].name) < |listed|;
    }
    assert (agents + [a])[u] == agents[u];
  }

  /** Names are listed in the order of the first files that bear them, each once. */
  lemma ListedInOrder(r: Reader, d: Directory, i: nat, j: nat)
    requires i < j < |Listing(r, d)|
    ensures var names := r.sorted(d.Keys);
      exists n, a :: 0 <= n < |names| && Reads(r, d, names[n], a) && a.name == Listing(r, d)[i].name
        && forall m, b :: 0 <= m < |names| && Reads(r, d, names[m], b) && b.name == Listing(r, d)[j].name ==> n < m
    ensures Listing(r, d)[i].name != Listing(r, d)[j].name
  {
    hide Scanned, Deduped, Preferred;
    var names := r.sorted(d.Keys);
    var agents, listed := Scanned(r, d, names), Listing(r, d);
    var ps := ScannedAt(r, d, names);
    DedupedIsPackageFirst(agents);
    DedupedInOrder(agents);
    var x, y := listed[i].name, listed[j].name;
    assert NamedBefore(agents, x, y);
    var u :| 0 <= u < |agents| && agents[u].name == x && forall v :: 0 <= v < |agents| && agents[v].name == y ==> u < v;
    forall m, b | 0 <= m < |names| && Reads(r, d, names[m], b) && b.name == y ensures ps[u] < m {
      var v :| 0 <= v < |ps| && ps[v] == m;
      assert agents[v] == b;
    }
    assert Reads(r, d, names[ps[u]], agents[u]);
  }
}
