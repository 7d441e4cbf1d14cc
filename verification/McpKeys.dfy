/** Moving MCP servers off keys that hold a slash, without losing a server or a tool reference. */
module McpKeys {
  import opened McpAliases

  datatype Value = Value(text: string, falsy: bool)

  datatype Spec = Fields(fields: map<string, Value>) | Other(text: string)

  datatype Server = Server(key: string, spec: Spec)

  /** `mcpServers` in its order, and the two lists that refer to servers as `@key`. */
  datatype Config = Config(servers: seq<Server>, tools: seq<string>, allowed: seq<string>)

  /** _norm_mcp_spec(): empty `env` and `args` count as absent. */
  function Norm(s: Spec): Spec {
    match s
    case Other(_) => s
    case Fields(f) => Fields(map k | k in f && !((k == "env" || k == "args") && f[k].falsy) :: f[k])
  }

  lemma NormIdempotent(s: Spec)
    ensures Norm(Norm(s)) == Norm(s)
  {
  }

  /** An absent or an empty value. */
  predicate Blank(f: map<string, Value>, k: string) {
    k !in f || f[k].falsy
  }

  /** Two specs agree: every field of one is that field of the other, except that for `env` and `args` an empty value
      is as good as none. */
  ghost predicate SameSpec(a: Spec, b: Spec) {
    if a.Fields? && b.Fields? then forall k :: SameField(a.fields, b.fields, k) else a == b
  }

  predicate SameField(a: map<string, Value>, b: map<string, Value>, k: string) {
    || ((k in a <==> k in b) && (k in a && k in b ==> a[k] == b[k]))
    || ((k == "env" || k == "args") && Blank(a, k) && Blank(b, k))
  }

  /** The normalised specs are equal exactly when the specs agree in that sense. */
  lemma SameNormIff(a: Spec, b: Spec)
    ensures Norm(a) == Norm(b) <==> SameSpec(a, b)
  {
    if a.Fields? && b.Fields? {
      var na, nb := Norm(a).fields, Norm(b).fields;
      if Norm(a) == Norm(b) {
        forall k ensures SameField(a.fields, b.fields, k) {
          assert k in na <==> k in nb;
        }
      }
      if SameSpec(a, b) {
        forall k ensures (k in na <==> k in nb) && (k in na && k in nb ==> na[k] == nb[k]) {
          assert SameField(a.fields, b.fields, k);
        }
        assert na == nb;
      }
    }
  }

  /** A spec is stored agreeing with what it was. */
  lemma NormAgrees(a: Spec)
    ensures SameSpec(Norm(a), a)
  {
    NormIdempotent(a);
    SameNormIff(Norm(a), a);
  }

  function Keys(ss: seq<Server>): set<string> {
    set s | s in ss :: s.key
  }

  ghost predicate Distinct(ss: seq<Server>) {
    forall i, j :: 0 <= i < j < |ss| ==> ss[i].key != ss[j].key
  }

  function Norms(ss: seq<Server>): set<Spec> {
    set s | s in ss :: Norm(s.spec)
  }

  function Without(ss: seq<Server>, gone: set<string>): seq<Server> {
    if ss == [] then [] else (if ss[0].key in gone then [] else [ss[0]]) + Without(ss[1..], gone)
  }

  /** Dictionary assignment: in place when the key is there, at the end otherwise. */
  function Put(ss: seq<Server>, key: string, spec: Spec): seq<Server> {
    if ss == [] then [Server(key, spec)]
    else if ss[0].key == key then [Server(key, spec)] + ss[1..]
    else [ss[0]] + Put(ss[1..], key, spec)
  }

  predicate Twin(s: Server, base: string, spec: Spec) {
    InFamily(s.key, base) && Norm(s.spec) == spec
  }

  function Twins(ss: seq<Server>, base: string, spec: Spec): seq<string> {
    if ss == [] then []
    else (if Twin(ss[0], base, spec) then [ss[0].key] else []) + Twins(ss[1..], base, spec)
  }

  // ----- reference lists -----

  function Ref(key: string): string {
    "@" + key
  }

  /** dict.fromkeys(): first occurrences only. */
  function Unique(ts: seq<string>): seq<string> {
    if ts == [] then []
    else
      var before := Unique(ts[..|ts| - 1]);
      if ts[|ts| - 1] in before then before else before + [ts[|ts| - 1]]
  }

  function Swap(ts: seq<string>, olds: set<string>, new': string): seq<string> {
    seq(|ts|, i requires 0 <= i < |ts| => if ts[i] in olds then new' else ts[i])
  }

  /** One rewrite of a list: every old reference becomes the new one, and duplicates fall together. */
  function Rewrite(ts: seq<string>, olds: set<string>, new': string): seq<string> {
    Unique(Swap(ts, olds, new'))
  }

  lemma {:induction false} UniqueMember(ts: seq<string>, t: string)
    ensures t in Unique(ts) <==> t in ts
  {
    if ts != [] {
      UniqueMember(ts[..|ts| - 1], t);
      assert ts == ts[..|ts| - 1] + [ts[|ts| - 1]];
    }
  }

  lemma UniqueSnoc(ts: seq<string>, t: string)
    ensures Unique(ts + [t]) == if t in ts then Unique(ts) else Unique(ts) + [t]
  {
    assert (ts + [t])[..|ts|] == ts;
    UniqueMember(ts, t);
  }

  lemma SwapSnoc(ts: seq<string>, t: string, olds: set<string>, new': string)
    ensures Swap(ts + [t], olds, new') == Swap(ts, olds, new') + [if t in olds then new' else t]
  {
  }

  lemma SwapMember(ts: seq<string>, olds: set<string>, new': string, x: string)
    ensures x in Swap(ts, olds, new') <==> exists t :: t in ts && x == (if t in olds then new' else t)
  {
    var r := Swap(ts, olds, new');
    if x in r {
      var i :| 0 <= i < |r| && r[i] == x;
      assert ts[i] in ts;
    }
    if exists t :: t in ts && x == (if t in olds then new' else t) {
      var t :| t in ts && x == (if t in olds then new' else t);
      var i :| 0 <= i < |ts| && ts[i] == t;
      assert r[i] == x;
    }
  }

  /** Removing duplicates first makes no difference to a later rewrite. */
  lemma {:induction false} UniqueInside(ts: seq<string>, olds: set<string>, new': string)
    ensures Rewrite(Unique(ts), olds, new') == Rewrite(ts, olds, new')
  {
    hide Unique, Swap;
    if ts == [] {
      EmptyUnique();
    } else {
      var init, t := ts[..|ts| - 1], ts[|ts| - 1];
      var y := if t in olds then new' else t;
      assert ts == init + [t];
      UniqueInside(init, olds, new');
      UniqueSnoc(init, t);
      SwapSnoc(init, t, olds, new');
      UniqueSnoc(Swap(init, olds, new'), y);
      SwapMember(init, olds, new', y);
      if t !in init {
        SwapSnoc(Unique(init), t, olds, new');
        UniqueSnoc(Swap(Unique(init), olds, new'), y);
        SwapMember(Unique(init), olds, new', y);
        forall u ensures u in Unique(init) <==> u in init { UniqueMember(init, u); }
      }
    }
  }

  lemma EmptyUnique()
    ensures Unique([]) == []
  {
  }

  /** Rewriting one after the other to the same new reference is rewriting all at once. */
  lemma RewriteTwice(ts: seq<string>, olds: set<string>, old': string, new': string)
    requires new' !in olds && old' != new'
    ensures Rewrite(Rewrite(ts, olds, new'), {old'}, new') == Rewrite(ts, olds + {old'}, new')
  {
    UniqueInside(Swap(ts, olds, new'), {old'}, new');
    assert Swap(Swap(ts, olds, new'), {old'}, new') == Swap(ts, olds + {old'}, new');
  }

  lemma RewriteMember(ts: seq<string>, olds: set<string>, new': string, x: string)
    ensures x in Rewrite(ts, olds, new') <==> exists t :: t in ts && x == (if t in olds then new' else t)
  {
    UniqueMember(Swap(ts, olds, new'), x);
    SwapMember(ts, olds, new', x);
  }

  // ----- server lists -----

  lemma {:induction false} WithoutMember(ss: seq<Server>, gone: set<string>, s: Server)
    ensures s in Without(ss, gone) <==> s in ss && s.key !in gone
  {
    if ss != [] {
      WithoutMember(ss[1..], gone, s);
    }
  }

  lemma {:induction false} WithoutDistinct(ss: seq<Server>, gone: set<string>)
    requires Distinct(ss)
    ensures Distinct(Without(ss, gone))
  {
    if ss != [] {
      var rest := Without(ss[1..], gone);
      WithoutDistinct(ss[1..], gone);
      forall j | 0 <= j < |rest| ensures rest[j].key != ss[0].key {
        WithoutMember(ss[1..], gone, rest[j]);
        var k :| 0 <= k < |ss[1..]| && ss[1..][k] == rest[j];
      }
    }
  }

  lemma {:induction false} PutMember(ss: seq<Server>, key: string, spec: Spec, s: Server)
    requires Distinct(ss)
    ensures s in Put(ss, key, spec) <==> s == Server(key, spec) || (s in ss && s.key != key)
  {
    if ss != [] {
      PutMember(ss[1..], key, spec, s);
      if ss[0].key == key {
        assert s in ss[1..] ==> s.key != key by {
          if s in ss[1..] { var k :| 0 <= k < |ss[1..]| && ss[1..][k] == s; }
        }
      }
    }
  }

  lemma {:induction false} PutDistinct(ss: seq<Server>, key: string, spec: Spec)
    requires Distinct(ss)
    ensures Distinct(Put(ss, key, spec))
  {
    if ss != [] && ss[0].key != key {
      var rest := Put(ss[1..], key, spec);
      PutDistinct(ss[1..], key, spec);
      forall j | 0 <= j < |rest| ensures rest[j].key != ss[0].key {
        PutMember(ss[1..], key, spec, rest[j]);
        if rest[j] in ss[1..] { var k :| 0 <= k < |ss[1..]| && ss[1..][k] == rest[j]; }
      }
    }
  }

  lemma {:induction false} TwinsMember(ss: seq<Server>, base: string, spec: Spec, k: string)
    ensures k in Twins(ss, base, spec) <==> exists s :: s in ss && s.key == k && Twin(s, base, spec)
  {
    if ss != [] {
      TwinsMember(ss[1..], base, spec, k);
      assert ss[0] in ss && forall s :: s in ss <==> s == ss[0] || s in ss[1..];
    }
  }

  lemma SameKeySameServer(ss: seq<Server>, s: Server, u: Server)
    requires Distinct(ss) && s in ss && u in ss && s.key == u.key
    ensures s == u
  {
    var i :| 0 <= i < |ss| && ss[i] == s;
    var j :| 0 <= j < |ss| && ss[j] == u;
    assert i == j;
  }

  // ----- moving one key -----

  function SpecAt(ss: seq<Server>, key: string): Spec
    requires key in Keys(ss)
  {
    if ss[0].key == key then ss[0].spec else SpecAt(ss[1..], key)
  }

  lemma {:induction false} SpecAtMember(ss: seq<Server>, key: string)
    requires key in Keys(ss)
    ensures Server(key, SpecAt(ss, key)) in ss
  {
    if ss[0].key != key {
      SpecAtMember(ss[1..], key);
    }
  }

  /** Where an equivalent server already lives, or else a free name of the family. */
  ghost function Home(ss: seq<Server>, base: string, spec: Spec): string {
    var ts := Twins(ss, base, spec);
    if ts != [] then ts[0] else FreeName(Keys(ss), base)
  }

  ghost function HomeOf(c: Config, old': string): string
    requires old' in Keys(c.servers)
  {
    Home(Without(c.servers, {old'}), Alias(old'), Norm(SpecAt(c.servers, old')))
  }

  /** The map with the server moved to its home. */
  ghost function Placed(c: Config, old': string): seq<Server>
    requires old' in Keys(c.servers)
  {
    Put(Without(c.servers, {old'}), HomeOf(c, old'), Norm(SpecAt(c.servers, old')))
  }

  ghost function DupsOf(c: Config, old': string): set<string>
    requires old' in Keys(c.servers)
  {
    (set k | k in Twins(Placed(c, old'), Alias(old'), Norm(SpecAt(c.servers, old')))) - {HomeOf(c, old')}
  }

  function OldRefs(old': string, dups: set<string>): set<string> {
    {Ref(old')} + RefsOf(dups)
  }

  /** One turn of the loop: the server moves to its home, its other twins are folded in, and every
      reference to any of them becomes a reference to the home. */
  ghost function MoveKey(c: Config, old': string): Config
    requires old' in Keys(c.servers)
  {
    var olds := OldRefs(old', DupsOf(c, old'));
    var new' := Ref(HomeOf(c, old'));
    Config(Without(Placed(c, old'), DupsOf(c, old')), Rewrite(c.tools, olds, new'), Rewrite(c.allowed, olds, new'))
  }

  lemma HomeShape(ss: seq<Server>, base: string, spec: Spec)
    requires Distinct(ss)
    ensures InFamily(Home(ss, base, spec), base)
    ensures forall s :: s in ss && s.key == Home(ss, base, spec) ==> Twin(s, base, spec)
  {
    var ts := Twins(ss, base, spec);
    if ts != [] {
      TwinsMember(ss, base, spec, ts[0]);
      var u :| u in ss && u.key == ts[0] && Twin(u, base, spec);
      forall s | s in ss && s.key == ts[0] ensures Twin(s, base, spec) { SameKeySameServer(ss, s, u); }
    }
  }

  /** Exactly which servers there are after a turn. */
  lemma MoveMember(c: Config, old': string, s: Server)
    requires Distinct(c.servers) && old' in Keys(c.servers)
    ensures var spec := Norm(SpecAt(c.servers, old'));
      var base := Alias(old');
      var home := Home(Without(c.servers, {old'}), base, spec);
      s in MoveKey(c, old').servers <==> s == Server(home, spec) || (s in c.servers && s.key != old' && !Twin(s, base, spec))
  {
    var spec := Norm(SpecAt(c.servers, old'));
    var base := Alias(old');
    var rest := Without(c.servers, {old'});
    var home := Home(rest, base, spec);
    var placed := Put(rest, home, spec);
    var dups := (set k | k in Twins(placed, base, spec)) - {home};
    WithoutDistinct(c.servers, {old'});
    PutDistinct(rest, home, spec);
    HomeShape(rest, base, spec);
    WithoutMember(c.servers, {old'}, s);
    PutMember(rest, home, spec, s);
    WithoutMember(placed, dups, s);
    TwinsMember(placed, base, spec, s.key);
    if s in placed && s.key in dups {
      var u :| u in placed && u.key == s.key && Twin(u, base, spec);
      SameKeySameServer(placed, s, u);
    }
  }

  lemma MoveDistinct(c: Config, old': string)
    requires Distinct(c.servers) && old' in Keys(c.servers)
    ensures Distinct(MoveKey(c, old').servers)
  {
    var spec := Norm(SpecAt(c.servers, old'));
    var base := Alias(old');
    var rest := Without(c.servers, {old'});
    var home := Home(rest, base, spec);
    var placed := Put(rest, home, spec);
    WithoutDistinct(c.servers, {old'});
    PutDistinct(rest, home, spec);
    WithoutDistinct(placed, (set k | k in Twins(placed, base, spec)) - {home});
  }

  /** No server is lost or invented: the normalised specs stay the same. */
  lemma MoveKeepsNorms(c: Config, old': string)
    requires Distinct(c.servers) && old' in Keys(c.servers)
    ensures Norms(MoveKey(c, old').servers) == Norms(c.servers)
  {
    var spec := Norm(SpecAt(c.servers, old'));
    var base := Alias(old');
    var home := Home(Without(c.servers, {old'}), base, spec);
    var moved := MoveKey(c, old').servers;
    SpecAtMember(c.servers, old');
    NormIdempotent(SpecAt(c.servers, old'));
    MoveMember(c, old', Server(home, spec));
    forall n ensures n in Norms(moved) <==> n in Norms(c.servers) {
      if n in Norms(moved) {
        var s :| s in moved && Norm(s.spec) == n;
        MoveMember(c, old', s);
      }
      if n in Norms(c.servers) {
        var s :| s in c.servers && Norm(s.spec) == n;
        MoveMember(c, old', s);
        if s.key == old' { SameKeySameServer(c.servers, s, Server(old', SpecAt(c.servers, old'))); }
      }
    }
  }

  /** A turn removes the slash key it moves, and touches no other slash key. */
  lemma MoveSlashKeys(c: Config, old': string, k: string)
    requires Distinct(c.servers) && old' in Keys(c.servers) && '/' in old' && '/' in k
    ensures k in Keys(MoveKey(c, old').servers) <==> k in Keys(c.servers) && k != old'
  {
    var spec := Norm(SpecAt(c.servers, old'));
    var base := Alias(old');
    var home := Home(Without(c.servers, {old'}), base, spec);
    var moved := MoveKey(c, old').servers;
    AliasSlashFree(old');
    WithoutDistinct(c.servers, {old'});
    HomeShape(Without(c.servers, {old'}), base, spec);
    FamilySlashFree(home, base);
    if k in Keys(moved) {
      var s :| s in moved && s.key == k;
      MoveMember(c, old', s);
    }
    if k in Keys(c.servers) && k != old' {
      var s :| s in c.servers && s.key == k;
      MoveMember(c, old', s);
      if Twin(s, base, spec) { FamilySlashFree(k, base); }
    }
  }

  // ----- what references mean -----

  /** Server `k` of `c` is still to be had in `d`, under a key that `after` refers to if `before` referred to `k`. */
  ghost predicate Represented(c: Config, d: Config, before: seq<string>, after: seq<string>, k: string)
    requires k in Keys(c.servers)
  {
    exists j :: j in Keys(d.servers) && Norm(SpecAt(d.servers, j)) == Norm(SpecAt(c.servers, k))
      && (Ref(k) in before ==> Ref(j) in after)
  }

  ghost predicate MeaningKept(c: Config, d: Config) {
    forall k :: k in Keys(c.servers) ==>
      Represented(c, d, c.tools, d.tools, k) && Represented(c, d, c.allowed, d.allowed, k)
  }

  /** The key that stands for `k` after a turn, and that the references are rewritten to it. */
  lemma MoveRepresents(c: Config, old': string, k: string)
    requires Distinct(c.servers) && old' in Keys(c.servers) && k in Keys(c.servers)
    ensures var d := MoveKey(c, old');
      Represented(c, d, c.tools, d.tools, k) && Represented(c, d, c.allowed, d.allowed, k)
  {
    var d := MoveKey(c, old');
    var spec := Norm(SpecAt(c.servers, old'));
    var base := Alias(old');
    var home := Home(Without(c.servers, {old'}), base, spec);
    var me := Server(k, SpecAt(c.servers, k));
    SpecAtMember(c.servers, k);
    var folded := k == old' || Twin(me, base, spec);
    var j := if folded then home else k;
    var there := if folded then Server(home, spec) else me;
    NormIdempotent(SpecAt(c.servers, old'));
    MoveMember(c, old', there);
    assert there in d.servers && there.key == j;
    SpecAtMember(d.servers, j);
    MoveDistinct(c, old');
    SameKeySameServer(d.servers, there, Server(j, SpecAt(d.servers, j)));
    MoveRewrites(c, old', k);
  }

  /** Which servers are folded into the home. */
  lemma DupsAre(c: Config, old': string, k: string)
    requires Distinct(c.servers) && old' in Keys(c.servers) && k in Keys(c.servers) && k != old'
    ensures var spec := Norm(SpecAt(c.servers, old'));
      k in DupsOf(c, old') <==> Twin(Server(k, SpecAt(c.servers, k)), Alias(old'), spec) && k != HomeOf(c, old')
  {
    var spec := Norm(SpecAt(c.servers, old'));
    var base := Alias(old');
    var rest := Without(c.servers, {old'});
    var home := HomeOf(c, old');
    var placed := Put(rest, home, spec);
    var me := Server(k, SpecAt(c.servers, k));
    SpecAtMember(c.servers, k);
    WithoutDistinct(c.servers, {old'});
    PutDistinct(rest, home, spec);
    WithoutMember(c.servers, {old'}, me);
    PutMember(rest, home, spec, me);
    TwinsMember(placed, base, spec, k);
    if k in DupsOf(c, old') {
      var u :| u in placed && u.key == k && Twin(u, base, spec);
      SameKeySameServer(placed, me, u);
    }
  }

  /** Where a turn sends a reference to server `k`. */
  lemma MoveRewrites(c: Config, old': string, k: string)
    requires Distinct(c.servers) && old' in Keys(c.servers) && k in Keys(c.servers)
    ensures var d := MoveKey(c, old');
      var spec := Norm(SpecAt(c.servers, old'));
      var j := if k == old' || Twin(Server(k, SpecAt(c.servers, k)), Alias(old'), spec) then HomeOf(c, old') else k;
      (Ref(k) in c.tools ==> Ref(j) in d.tools) && (Ref(k) in c.allowed ==> Ref(j) in d.allowed)
  {
    hide Twin, Norm, Keys, HomeOf, DupsOf, Rewrite;
    var spec := Norm(SpecAt(c.servers, old'));
    var olds := OldRefs(old', DupsOf(c, old'));
    var home := HomeOf(c, old');
    var j := if k == old' || Twin(Server(k, SpecAt(c.servers, k)), Alias(old'), spec) then home else k;
    if k != old' { DupsAre(c, old', k); }
    OldRefsMember(old', DupsOf(c, old'), k);
    assert Ref(j) == if Ref(k) in olds then Ref(home) else Ref(k);
    RewriteMember(c.tools, olds, Ref(home), Ref(j));
    RewriteMember(c.allowed, olds, Ref(home), Ref(j));
  }

  lemma OldRefsMember(old': string, dups: set<string>, k: string)
    ensures Ref(k) in OldRefs(old', dups) <==> k == old' || k in dups
  {
    forall q ensures Ref(k) == Ref(q) ==> k == q { RefInjective(k, q); }
  }

  lemma RefInjective(k: string, q: string)
    ensures Ref(k) == Ref(q) ==> k == q
  {
    assert Ref(k)[1..] == k && Ref(q)[1..] == q;
  }

  lemma MeaningTransitive(c: Config, d: Config, e: Config)
    requires MeaningKept(c, d) && MeaningKept(d, e)
    ensures MeaningKept(c, e)
  {
    forall k | k in Keys(c.servers)
      ensures Represented(c, e, c.tools, e.tools, k) && Represented(c, e, c.allowed, e.allowed, k)
    {
      assert Represented(c, d, c.tools, d.tools, k) && Represented(c, d, c.allowed, d.allowed, k);
      var i :| i in Keys(d.servers) && Norm(SpecAt(d.servers, i)) == Norm(SpecAt(c.servers, k)) && (Ref(k) in c.tools ==> Ref(i) in d.tools);
      var j :| j in Keys(d.servers) && Norm(SpecAt(d.servers, j)) == Norm(SpecAt(c.servers, k)) && (Ref(k) in c.allowed ==> Ref(j) in d.allowed);
      assert Represented(d, e, d.tools, e.tools, i) && Represented(d, e, d.allowed, e.allowed, j);
    }
  }

  // ----- the whole run -----

  /** The keys to move, in the order of the map. */
  function SlashKeys(ss: seq<Server>, managed: set<string>): seq<string> {
    if ss == [] then []
    else (if '/' in ss[0].key && ss[0].key !in managed then [ss[0].key] else []) + SlashKeys(ss[1..], managed)
  }

  /** `todo` lists the unmanaged slash keys of the map, each once. */
  ghost predicate Todo(c: Config, managed: set<string>, todo: seq<string>) {
    && Distinct(c.servers)
    && (forall i, j :: 0 <= i < j < |todo| ==> todo[i] != todo[j])
    && forall k :: k in todo <==> k in Keys(c.servers) && '/' in k && k !in managed
  }

  lemma {:induction false} SlashKeysTodo(ss: seq<Server>, managed: set<string>, k: string)
    ensures k in SlashKeys(ss, managed) <==> k in Keys(ss) && '/' in k && k !in managed
  {
    if ss != [] {
      SlashKeysTodo(ss[1..], managed, k);
      assert ss[0] in ss && forall s :: s in ss <==> s == ss[0] || s in ss[1..];
    }
  }

  lemma {:induction false} SlashKeysDistinct(ss: seq<Server>, managed: set<string>)
    requires Distinct(ss)
    ensures forall i, j :: 0 <= i < j < |SlashKeys(ss, managed)| ==> SlashKeys(ss, managed)[i] != SlashKeys(ss, managed)[j]
  {
    if ss != [] {
      var rest := SlashKeys(ss[1..], managed);
      SlashKeysDistinct(ss[1..], managed);
      forall j | 0 <= j < |rest| ensures rest[j] != ss[0].key {
        assert rest[j] in rest;
        SlashKeysTodo(ss[1..], managed, rest[j]);
        var s :| s in ss[1..] && s.key == rest[j];
        var n :| 0 <= n < |ss[1..]| && ss[1..][n] == s;
      }
    }
  }

  lemma StartTodo(c: Config, managed: set<string>)
    requires Distinct(c.servers)
    ensures Todo(c, managed, SlashKeys(c.servers, managed))
  {
    SlashKeysDistinct(c.servers, managed);
    forall k ensures k in SlashKeys(c.servers, managed) <==> k in Keys(c.servers) && '/' in k && k !in managed {
      SlashKeysTodo(c.servers, managed, k);
    }
  }

  lemma NextTodo(c: Config, managed: set<string>, todo: seq<string>)
    requires Todo(c, managed, todo) && todo != []
    ensures todo[0] in Keys(c.servers) && '/' in todo[0]
    ensures Todo(MoveKey(c, todo[0]), managed, todo[1..])
  {
    assert todo[0] in todo;
    MoveDistinct(c, todo[0]);
    forall k ensures k in todo[1..] <==> k in todo && k != todo[0] {
      if k in todo && k != todo[0] { var i :| 0 <= i < |todo| && todo[i] == k; assert todo[1..][i - 1] == k; }
    }
    var d := MoveKey(c, todo[0]);
    forall k ensures k in todo[1..] <==> k in Keys(d.servers) && '/' in k && k !in managed {
      if '/' in k { MoveSlashKeys(c, todo[0], k); }
    }
  }

  ghost function Normalized(c: Config, managed: set<string>, todo: seq<string>): Config
    requires Todo(c, managed, todo)
    decreases |todo|
  {
    if todo == [] then c
    else
      NextTodo(c, managed, todo);
      Normalized(MoveKey(c, todo[0]), managed, todo[1..])
  }

  /** After the run no unmanaged key holds a slash; the set of normalised specs is what it was; and every
      server, and every reference to one, is represented by a server with the same normalised spec. */
  lemma {:induction false} NormalizedKeepsMeaning(c: Config, managed: set<string>, todo: seq<string>)
    requires Todo(c, managed, todo)
    ensures var d := Normalized(c, managed, todo);
      && Todo(d, managed, [])
      && Norms(d.servers) == Norms(c.servers)
      && MeaningKept(c, d)
    decreases |todo|
  {
    if todo == [] {
      assert forall k :: k in Keys(c.servers) ==> Represented(c, c, c.tools, c.tools, k);
      assert forall k :: k in Keys(c.servers) ==> Represented(c, c, c.allowed, c.allowed, k);
    } else {
      NextTodo(c, managed, todo);
      var next := MoveKey(c, todo[0]);
      MoveKeepsNorms(c, todo[0]);
      forall k | k in Keys(c.servers)
        ensures Represented(c, next, c.tools, next.tools, k) && Represented(c, next, c.allowed, next.allowed, k)
      {
        MoveRepresents(c, todo[0], k);
      }
      NormalizedKeepsMeaning(next, managed, todo[1..]);
      MeaningTransitive(c, next, Normalized(c, managed, todo));
    }
  }

  ghost function Normalize(c: Config, managed: set<string>): Config
    requires Distinct(c.servers)
  {
    StartTodo(c, managed);
    Normalized(c, managed, SlashKeys(c.servers, managed))
  }

  /** Every server has one afterwards whose spec agrees with its own, and none is added that had not: in particular a
      non-empty `env` or `args`, and every other field, comes through unchanged. */
  ghost predicate ServersAgree(before: seq<Server>, after: seq<Server>) {
    && (forall s :: s in before ==> exists t :: t in after && SameSpec(s.spec, t.spec))
    && (forall t :: t in after ==> exists s :: s in before && SameSpec(s.spec, t.spec))
  }

  lemma SameNormsAgree(before: seq<Server>, after: seq<Server>)
    requires Norms(before) == Norms(after)
    ensures ServersAgree(before, after)
  {
    hide Norm, SameSpec;
    forall s | s in before ensures exists t :: t in after && SameSpec(s.spec, t.spec) {
      assert Norm(s.spec) in Norms(before);
      var t :| t in after && Norm(t.spec) == Norm(s.spec);
      SameNormIff(s.spec, t.spec);
    }
    forall t | t in after ensures exists s :: s in before && SameSpec(s.spec, t.spec) {
      assert Norm(t.spec) in Norms(after);
      var s :| s in before && Norm(s.spec) == Norm(t.spec);
      SameNormIff(s.spec, t.spec);
    }
  }

  /** Over the whole run every server survives with its spec. */
  lemma ServersSurvive(c: Config, managed: set<string>)
    requires Distinct(c.servers)
    ensures ServersAgree(c.servers, Normalize(c, managed).servers)
  {
    hide Norm, SameSpec, ServersAgree;
    StartTodo(c, managed);
    NormalizedKeepsMeaning(c, managed, SlashKeys(c.servers, managed));
    SameNormsAgree(c.servers, Normalize(c, managed).servers);
  }

  /** A second run is the identity. */
  lemma NormalizeTwice(c: Config, managed: set<string>)
    requires Distinct(c.servers)
    ensures Distinct(Normalize(c, managed).servers)
    ensures Normalize(Normalize(c, managed), managed) == Normalize(c, managed)
  {
    StartTodo(c, managed);
    var d := Normalize(c, managed);
    NormalizedKeepsMeaning(c, managed, SlashKeys(c.servers, managed));
    if SlashKeys(d.servers, managed) != [] {
      SlashKeysTodo(d.servers, managed, SlashKeys(d.servers, managed)[0]);
    }
  }

  /** A turn leaves another server exactly as it is, unless that server is a twin of the moved one: then it
      stays only if it is the home and its spec is already in normal form. */
  lemma ServerKeptIff(c: Config, old': string, s: Server)
    requires Distinct(c.servers) && old' in Keys(c.servers) && s in c.servers && s.key != old'
    ensures var spec := Norm(SpecAt(c.servers, old'));
      var home := Home(Without(c.servers, {old'}), Alias(old'), spec);
      s in MoveKey(c, old').servers <==> !Twin(s, Alias(old'), spec) || (s.key == home && s.spec == Norm(s.spec))
  {
    MoveMember(c, old', s);
    WithoutMember(c.servers, {old'}, s);
  }

  /** Managed servers are no exception: one that is a twin behind an earlier sibling is folded away. */
  lemma ManagedServerFolded(spec: Spec, old': string, base: string)
    requires Norm(spec) == spec && '/' in old' && Alias(old') == base
    ensures var twin, managed := Server(Numbered(base, 2), spec), Server(base, spec);
      var c := Config([twin, managed, Server(old', spec)], [Ref(base)], []);
      && Distinct(c.servers) && '/' !in base
      && Normalize(c, {base}) == Config([twin], [Ref(Numbered(base, 2))], [])
  {
    var twin, managed := Server(Numbered(base, 2), spec), Server(base, spec);
    var c := Config([twin, managed, Server(old', spec)], [Ref(base)], []);
    AliasSlashFree(old');
    NumberedInFamily(base, 2);
    FamilySlashFree(twin.key, base);
    assert c.servers[1..] == [managed, Server(old', spec)] && c.servers[1..][1..] == [Server(old', spec)];
    assert Server(old', spec) in c.servers;
    SpecAtMember(c.servers, old');
    SameKeySameServer(c.servers, Server(old', spec), Server(old', SpecAt(c.servers, old')));
    FoldedServers(twin, managed, old', spec);
    StartTodo(c, {base});
    assert SlashKeys([Server(old', spec)], {base}) == [old'];
    assert SlashKeys(c.servers, {base}) == [old'];
    FoldedMove(c, twin, managed, old', spec, base);
    NextTodo(c, {base}, [old']);
    assert [old'][1..] == [];
    assert Normalized(MoveKey(c, old'), {base}, []) == MoveKey(c, old');
  }

  lemma FoldedServers(a: Server, b: Server, old': string, spec: Spec)
    requires a.key != b.key && a.key != old' && b.key != old'
    ensures Without([a, b, Server(old', spec)], {old'}) == [a, b]
    ensures Without([a, b], {b.key}) == [a] && Put([a, b], a.key, a.spec) == [a, b]
  {
    assert [a, b, Server(old', spec)][1..] == [b, Server(old', spec)];
    assert [b, Server(old', spec)][1..] == [Server(old', spec)];
    assert Without([Server(old', spec)], {old'}) == [];
    assert Without([b, Server(old', spec)], {old'}) == [b];
    assert [a, b][1..] == [b] && Without([b], {b.key}) == [];
  }

  lemma FoldedMove(c: Config, twin: Server, managed: Server, old': string, spec: Spec, base: string)
    requires Norm(spec) == spec && Alias(old') == base && '/' in old' && '/' !in base && '/' !in twin.key
    requires twin == Server(Numbered(base, 2), spec) && managed == Server(base, spec)
    requires c == Config([twin, managed, Server(old', spec)], [Ref(base)], []) && old' in Keys(c.servers)
    requires SpecAt(c.servers, old') == spec
    ensures MoveKey(c, old') == Config([twin], [Ref(Numbered(base, 2))], [])
  {
    var pair := [twin, managed];
    NumberedInFamily(base, 2);
    FoldedServers(twin, managed, old', spec);
    assert pair[1..] == [managed] && Twins([managed], base, spec) == [base];
    assert Twins(pair, base, spec) == [twin.key, base];
    assert Placed(c, old') == pair;
    assert DupsOf(c, old') == {base};
    var olds := OldRefs(old', {base});
    assert Ref(base) in olds;
    assert Swap(c.tools, olds, Ref(twin.key)) == [] + [Ref(twin.key)];
    UniqueSnoc([], Ref(twin.key));
    EmptyUnique();
    assert Swap([], olds, Ref(twin.key)) == [];
  }

  // ----- the loops -----

  /** The config dictionary, rewritten in place. */
  class AgentConfig {
    var servers: seq<Server>
    var tools: seq<string>
    var allowed: seq<string>

    ghost function View(): Config
      reads this
    {
      Config(servers, tools, allowed)
    }

    /** Replaces one reference by another in both lists, dropping repetitions. */
    method RewriteRef(old': string, new': string)
      modifies this`tools, this`allowed
      ensures tools == Rewrite(old(tools), {old'}, new') && allowed == Rewrite(old(allowed), {old'}, new')
    {
      tools := RewriteList(tools, old', new');
      allowed := RewriteList(allowed, old', new');
    }

    method RewriteList(ts: seq<string>, old': string, new': string) returns (r: seq<string>)
      ensures r == Rewrite(ts, {old'}, new')
    {
      hide Unique, Swap;
      r := [];
      EmptyUnique();
      assert ts[..0] == [];
      EmptySwap(old', new');
      for i := 0 to |ts|
        invariant r == Unique(Swap(ts[..i], {old'}, new'))
      {
        var t := if ts[i] == old' then new' else ts[i];
        assert ts[..i + 1] == ts[..i] + [ts[i]];
        SwapSnoc(ts[..i], ts[i], {old'}, new');
        UniqueSnoc(Swap(ts[..i], {old'}, new'), t);
        UniqueMember(Swap(ts[..i], {old'}, new'), t);
        if t !in r {
          r := r + [t];
        }
      }
      assert ts[..|ts|] == ts;
    }

    /** An equivalent server of the family, or else a free name. */
    method FindHome(base: string, spec: Spec) returns (home: string)
      ensures home == Home(servers, base, spec)
    {
      for i := 0 to |servers|
        invariant Twins(servers, base, spec) == Twins(servers[i..], base, spec)
      {
        assert servers[i..][1..] == servers[i + 1..];
        if Twin(servers[i], base, spec) {
          return servers[i].key;
        }
      }
      home := FindFree(Keys(servers), base);
    }

    /** Drops the other twins of the server just placed, each with its references. */
    method FoldTwins(base: string, spec: Spec, home: string, ghost refs: set<string>)
      requires Distinct(servers) && Ref(home) !in refs
      modifies this
      ensures var dups := (set k | k in Twins(old(servers), base, spec)) - {home};
        && servers == Without(old(servers), dups)
        && (forall ts :: old(tools) == Rewrite(ts, refs, Ref(home)) ==> tools == Rewrite(ts, refs + RefsOf(dups), Ref(home)))
        && (forall ts :: old(allowed) == Rewrite(ts, refs, Ref(home)) ==> allowed == Rewrite(ts, refs + RefsOf(dups), Ref(home)))
    {
      hide Rewrite;
      var dups := Twins(servers, base, spec);
      ghost var before := servers;
      ghost var done: set<string> := {};
      WithoutNone(servers);
      assert RefsOf({}) == {} && refs + {} == refs;
      for i := 0 to |dups|
        invariant before == old(servers)
        invariant done == (set k | k in dups[..i]) - {home} && servers == Without(before, done)
        invariant forall ts :: old(tools) == Rewrite(ts, refs, Ref(home)) ==> tools == Rewrite(ts, refs + RefsOf(done), Ref(home))
        invariant forall ts :: old(allowed) == Rewrite(ts, refs, Ref(home)) ==> allowed == Rewrite(ts, refs + RefsOf(done), Ref(home))
      {
        var dup := dups[i];
        assert dups[..i + 1] == dups[..i] + [dup];
        if dup != home {
          WithoutTwice(before, done, dup);
          RefInjective(dup, home);
          HomeNotInRefs(done, home);
          forall ts ensures Rewrite(Rewrite(ts, refs + RefsOf(done), Ref(home)), {Ref(dup)}, Ref(home))
                         == Rewrite(ts, refs + RefsOf(done + {dup}), Ref(home))
          {
            RewriteTwice(ts, refs + RefsOf(done), Ref(dup), Ref(home));
            assert refs + RefsOf(done) + {Ref(dup)} == refs + RefsOf(done + {dup});
          }
          servers := Without(servers, {dup});
          RewriteRef(Ref(dup), Ref(home));
          done := done + {dup};
        }
      }
      assert dups[..|dups|] == dups;
    }

    /** One turn of the loop. */
    method Move(old': string)
      requires Distinct(servers) && old' in Keys(servers) && '/' in old'
      modifies this
      ensures View() == MoveKey(old(View()), old')
    {
      hide Rewrite, Twins, Home;
      ghost var c := View();
      var spec := Norm(SpecAt(servers, old'));
      WithoutDistinct(servers, {old'});
      servers := Without(servers, {old'});
      var base := Alias(old');
      var home := FindHome(base, spec);
      HomeShape(servers, base, spec);
      AliasSlashFree(old');
      FamilySlashFree(home, base);
      RefInjective(old', home);
      PutDistinct(servers, home, spec);
      servers := Put(servers, home, spec);
      RewriteRef(Ref(old'), Ref(home));
      FoldTwins(base, spec, home, {Ref(old')});
      assert OldRefs(old', DupsOf(c, old')) == {Ref(old')} + RefsOf(DupsOf(c, old'));
    }

    /** _normalize_mcp_server_keys(). */
    method NormalizeKeys(managed: set<string>)
      requires Distinct(servers)
      modifies this
      ensures View() == Normalize(old(View()), managed)
      ensures Distinct(servers) && forall k :: k in Keys(servers) && '/' in k ==> k in managed
      ensures Norms(servers) == Norms(old(servers)) && MeaningKept(old(View()), View())
      ensures ServersAgree(old(servers), servers)
    {
      hide MeaningKept, Norms, ServersAgree;
      ServersSurvive(View(), managed);
      var keys := SlashKeys(servers, managed);
      ghost var c := View();
      StartTodo(c, managed);
      NormalizedKeepsMeaning(c, managed, keys);
      assert keys[0..] == keys;
      for i := 0 to |keys|
        invariant Todo(View(), managed, keys[i..])
        invariant Normalized(View(), managed, keys[i..]) == Normalized(c, managed, keys)
      {
        assert keys[i..][0] == keys[i] && keys[i..][1..] == keys[i + 1..];
        NextTodo(View(), managed, keys[i..]);
        Move(keys[i]);
      }
      assert keys[|keys|..] == [];
      forall k | k in Keys(servers) && '/' in k ensures k in managed {
        assert k !in keys[|keys|..];
      }
    }
  }

  function RefsOf(ks: set<string>): set<string> {
    set k | k in ks :: Ref(k)
  }

  lemma EmptySwap(old': string, new': string)
    ensures Swap([], {old'}, new') == []
  {
  }

  lemma HomeNotInRefs(ks: set<string>, home: string)
    requires home !in ks
    ensures Ref(home) !in RefsOf(ks)
  {
    forall k | k in ks ensures Ref(k) != Ref(home) { RefInjective(k, home); }
  }

  lemma {:induction false} WithoutNone(ss: seq<Server>)
    ensures Without(ss, {}) == ss
  {
    if ss != [] {
      WithoutNone(ss[1..]);
    }
  }

  lemma {:induction false} WithoutTwice(ss: seq<Server>, a: set<string>, k: string)
    ensures Without(Without(ss, a), {k}) == Without(ss, a + {k})
  {
    if ss != [] {
      WithoutTwice(ss[1..], a, k);
      var rest := Without(ss[1..], a);
      if ss[0].key in a {
        assert Without(ss, a) == rest;
      } else {
        assert Without(ss, a)[1..] == rest;
      }
    }
  }
}
