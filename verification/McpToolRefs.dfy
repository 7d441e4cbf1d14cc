/** Entries that name one tool of a server, `@key/tool`. The rewriting of references compares whole entries, so it
    leaves these alone; whether they still name the same server depends on the server they name. */
module McpToolRefs {
  import opened McpAliases
  import opened McpKeys

  function ToolRef(key: string, tool: string): string {
    Ref(key + "/" + tool)
  }

  /** The servers in front of `key`. */
  function Before(ss: seq<Server>, key: string): seq<Server> {
    if ss == [] || ss[0].key == key then [] else [ss[0]] + Before(ss[1..], key)
  }

  /** Should the key being moved have `k` for a twin, no earlier server is one too. */
  ghost predicate Earliest(c: Config, old': string, k: string)
    requires old' in Keys(c.servers) && k in Keys(c.servers)
  {
    var base, spec := Alias(old'), Norm(SpecAt(c.servers, old'));
    Twin(Server(k, SpecAt(c.servers, k)), base, spec) ==> forall u :: u in Before(c.servers, k) ==> !Twin(u, base, spec)
  }

  /** Key `k` still stands for the server it stood for. */
  ghost predicate SameServer(c: Config, d: Config, k: string)
    requires k in Keys(c.servers)
  {
    k in Keys(d.servers) && Norm(SpecAt(d.servers, k)) == Norm(SpecAt(c.servers, k))
  }

  // ----- the order of the map -----

  lemma {:induction false} FirstTwin(ss: seq<Server>, base: string, spec: Spec, k: string)
    requires k in Keys(ss) && Twin(Server(k, SpecAt(ss, k)), base, spec)
    ensures Twins(ss, base, spec) != []
    ensures Twins(ss, base, spec)[0] == k <==> forall u :: u in Before(ss, k) ==> !Twin(u, base, spec)
  {
    if ss[0].key != k {
      FirstTwin(ss[1..], base, spec, k);
      assert Before(ss, k)[0] == ss[0];
      assert forall u :: u in Before(ss, k) <==> u == ss[0] || u in Before(ss[1..], k);
    }
  }

  lemma {:induction false} BeforeWithout(ss: seq<Server>, gone: set<string>, k: string, u: Server)
    requires k !in gone
    ensures u in Before(Without(ss, gone), k) <==> u in Before(ss, k) && u.key !in gone
  {
    if ss != [] {
      BeforeWithout(ss[1..], gone, k, u);
      WithoutHead(ss, gone);
      if ss[0].key !in gone { assert Without(ss, gone)[1..] == Without(ss[1..], gone); }
    }
  }

  /** Placing a server moves none to the front of `k`, except that one in front of it may change its spec. */
  lemma {:induction false} BeforePut(ss: seq<Server>, key: string, spec: Spec, k: string, u: Server)
    requires k in Keys(ss) && u in Before(Put(ss, key, spec), k)
    ensures u in Before(ss, k) || (u == Server(key, spec) && exists v :: v in Before(ss, k) && v.key == key)
  {
    if ss[0].key != k {
      if ss[0].key == key {
        assert ss[0] in Before(ss, k);
        assert Put(ss, key, spec)[1..] == ss[1..];
      } else if u != ss[0] {
        BeforePut(ss[1..], key, spec, k, u);
        assert Put(ss, key, spec)[1..] == Put(ss[1..], key, spec);
        if u !in Before(ss[1..], k) {
          var v :| v in Before(ss[1..], k) && v.key == key;
          assert v in Before(ss, k);
        }
      }
    }
  }

  lemma {:induction false} BeforeMember(ss: seq<Server>, k: string, u: Server)
    requires u in Before(ss, k)
    ensures u in ss && u.key != k
  {
    if u != ss[0] {
      BeforeMember(ss[1..], k, u);
    }
  }

  lemma {:induction false} WithoutSpecAt(ss: seq<Server>, gone: set<string>, k: string)
    requires k in Keys(ss) && k !in gone
    ensures k in Keys(Without(ss, gone)) && SpecAt(Without(ss, gone), k) == SpecAt(ss, k)
  {
    NoKeys(ss);
    hide Keys;
    var r := Without(ss, gone);
    WithoutHead(ss, gone);
    KeysHead(ss);
    if ss[0].key != k {
      WithoutSpecAt(ss[1..], gone, k);
    }
    if ss[0].key !in gone {
      KeysHead(r);
      assert r[1..] == Without(ss[1..], gone);
    }
  }

  lemma WithoutHead(ss: seq<Server>, gone: set<string>)
    requires ss != []
    ensures Without(ss, gone) == if ss[0].key in gone then Without(ss[1..], gone) else [ss[0]] + Without(ss[1..], gone)
  {
  }

  lemma NoKeys(ss: seq<Server>)
    ensures ss == [] ==> Keys(ss) == {}
  {
  }

  lemma KeysHead(ss: seq<Server>)
    requires ss != []
    ensures Keys(ss) == {ss[0].key} + Keys(ss[1..])
  {
    assert ss[0] in ss && forall s :: s in ss <==> s == ss[0] || s in ss[1..];
  }

  lemma IsSpecAt(ss: seq<Server>, s: Server)
    requires Distinct(ss) && s in ss
    ensures s.key in Keys(ss) && SpecAt(ss, s.key) == s.spec
  {
    SpecAtMember(ss, s.key);
    SameKeySameServer(ss, s, Server(s.key, SpecAt(ss, s.key)));
  }

  // ----- one turn -----

  /** The twin of a moved key that stays is the earliest one. */
  lemma HomeIsEarliest(c: Config, old': string, k: string)
    requires Distinct(c.servers) && old' in Keys(c.servers) && '/' in old' && k in Keys(c.servers) && '/' !in k
    requires Twin(Server(k, SpecAt(c.servers, k)), Alias(old'), Norm(SpecAt(c.servers, old')))
    ensures HomeOf(c, old') == k <==> Earliest(c, old', k)
  {
    var base, spec := Alias(old'), Norm(SpecAt(c.servers, old'));
    var rest := Without(c.servers, {old'});
    WithoutSpecAt(c.servers, {old'}, k);
    FirstTwin(rest, base, spec, k);
    AliasSlashFree(old');
    forall u | u in Before(c.servers, k) && Twin(u, base, spec) ensures u in Before(rest, k) {
      FamilySlashFree(u.key, base);
      BeforeWithout(c.servers, {old'}, k, u);
    }
    forall u | u in Before(rest, k) ensures u in Before(c.servers, k) { BeforeWithout(c.servers, {old'}, k, u); }
  }

  /** A turn leaves a slash-free key standing for its server exactly when it is no twin of the moved one, or the
      earliest; otherwise the key is gone. */
  lemma TurnKeepsServer(c: Config, old': string, k: string)
    requires Distinct(c.servers) && old' in Keys(c.servers) && '/' in old' && k in Keys(c.servers) && '/' !in k
    ensures SameServer(c, MoveKey(c, old'), k) <==> Earliest(c, old', k)
    ensures k in Keys(MoveKey(c, old').servers) <==> Earliest(c, old', k)
  {
    hide Earliest, HomeOf, MoveKey, Keys, SpecAt;
    var base, spec := Alias(old'), Norm(SpecAt(c.servers, old'));
    var d := MoveKey(c, old');
    var me := Server(k, SpecAt(c.servers, k));
    SpecAtMember(c.servers, k);
    MoveDistinct(c, old');
    MoveMember(c, old', me);
    NormIdempotent(SpecAt(c.servers, old'));
    if !Twin(me, base, spec) {
      NoTwinIsEarliest(c, old', k);
      IsSpecAt(d.servers, me);
    } else {
      HomeIsEarliest(c, old', k);
      MoveMember(c, old', Server(HomeOf(c, old'), spec)) by { HomeIs(c, old'); }
      HomeIs(c, old');
      if HomeOf(c, old') == k {
        IsSpecAt(d.servers, Server(k, spec));
      } else if k in Keys(d.servers) {
        SpecAtMember(d.servers, k);
        var s := Server(k, SpecAt(d.servers, k));
        MoveMember(c, old', s);
        SameKeySameServer(c.servers, s, me);
        assert false;
      }
    }
  }

  lemma HomeIs(c: Config, old': string)
    requires old' in Keys(c.servers)
    ensures HomeOf(c, old') == Home(Without(c.servers, {old'}), Alias(old'), Norm(SpecAt(c.servers, old')))
  {
  }

  lemma NoTwinIsEarliest(c: Config, old': string, k: string)
    requires old' in Keys(c.servers) && k in Keys(c.servers)
    requires !Twin(Server(k, SpecAt(c.servers, k)), Alias(old'), Norm(SpecAt(c.servers, old')))
    ensures Earliest(c, old', k)
  {
  }

  /** An entry with a slash in it is left as it is unless it is the moved key's own reference; none is added. */
  lemma TurnKeepsEntry(c: Config, old': string, e: string)
    requires Distinct(c.servers) && old' in Keys(c.servers) && '/' in old' && '/' in e
    ensures e in MoveKey(c, old').tools <==> e in c.tools && e != Ref(old')
    ensures e in MoveKey(c, old').allowed <==> e in c.allowed && e != Ref(old')
  {
    hide Rewrite, HomeOf, DupsOf;
    var olds, home := OldRefs(old', DupsOf(c, old')), HomeOf(c, old');
    WithoutDistinct(c.servers, {old'});
    AliasSlashFree(old');
    HomeSlashFree(c, old');
    RewriteMember(c.tools, olds, Ref(home), e);
    RewriteMember(c.allowed, olds, Ref(home), e);
    assert e in olds <==> e == Ref(old') by {
      forall k | k in DupsOf(c, old') ensures Ref(k) != e { DupSlashFree(c, old', k); }
    }
  }

  lemma HomeSlashFree(c: Config, old': string)
    requires Distinct(c.servers) && old' in Keys(c.servers)
    ensures '/' !in HomeOf(c, old')
  {
    WithoutDistinct(c.servers, {old'});
    AliasSlashFree(old');
    HomeShape(Without(c.servers, {old'}), Alias(old'), Norm(SpecAt(c.servers, old')));
    FamilySlashFree(HomeOf(c, old'), Alias(old'));
  }

  lemma DupSlashFree(c: Config, old': string, k: string)
    requires old' in Keys(c.servers) && k in DupsOf(c, old')
    ensures '/' !in k
  {
    AliasSlashFree(old');
    TwinsMember(Placed(c, old'), Alias(old'), Norm(SpecAt(c.servers, old')), k);
    FamilySlashFree(k, Alias(old'));
  }

  // ----- the whole run -----

  /** For each key to be moved `k` is no twin, or the earliest. */
  ghost predicate AlwaysEarliest(c: Config, todo: seq<string>, k: string)
    requires k in Keys(c.servers) && forall old' :: old' in todo ==> old' in Keys(c.servers)
  {
    forall old' :: old' in todo ==> Earliest(c, old', k)
  }

  /** A later key to move keeps its spec, and what is in front of `k` was in front of it before. */
  lemma TurnKeepsEarliest(c: Config, old': string, k: string, next: string)
    requires Distinct(c.servers) && old' in Keys(c.servers) && '/' in old' && k in Keys(c.servers) && '/' !in k
    requires next in Keys(c.servers) && '/' in next && next != old'
    requires Earliest(c, old', k) && Earliest(c, next, k)
    ensures var d := MoveKey(c, old'); next in Keys(d.servers) && k in Keys(d.servers) && Earliest(d, next, k)
  {
    hide MoveKey, Keys, SpecAt, Before, HomeOf;
    var d := MoveKey(c, old');
    var spec := Norm(SpecAt(c.servers, next));
    TurnKeepsServer(c, old', k);
    SlashServerStays(c, old', next);
    forall u | u in Before(d.servers, k) && Twin(Server(k, SpecAt(d.servers, k)), Alias(next), spec)
      ensures !Twin(u, Alias(next), spec)
    {
      var v := BeforeTurn(c, old', k, u);
    }
  }

  lemma SlashServerStays(c: Config, old': string, k: string)
    requires Distinct(c.servers) && old' in Keys(c.servers) && '/' in old' && k in Keys(c.servers) && '/' in k && k != old'
    ensures var d := MoveKey(c, old'); k in Keys(d.servers) && SpecAt(d.servers, k) == SpecAt(c.servers, k)
  {
    hide MoveKey, SpecAt;
    var me := Server(k, SpecAt(c.servers, k));
    SpecAtMember(c.servers, k);
    AliasSlashFree(old');
    if InFamily(k, Alias(old')) { FamilySlashFree(k, Alias(old')); }
    MoveMember(c, old', me);
    MoveDistinct(c, old');
    IsSpecAt(MoveKey(c, old').servers, me);
  }

  lemma BeforeTurn(c: Config, old': string, k: string, u: Server) returns (v: Server)
    requires Distinct(c.servers) && old' in Keys(c.servers) && '/' in old' && k in Keys(c.servers) && '/' !in k
    requires k in Keys(MoveKey(c, old').servers) && u in Before(MoveKey(c, old').servers, k)
    ensures v in Before(c.servers, k) && v.key == u.key && Norm(v.spec) == Norm(u.spec)
  {
    hide DupsOf, Twins, Norm;
    var base, spec := Alias(old'), Norm(SpecAt(c.servers, old'));
    var home := HomeOf(c, old');
    var rest := Without(c.servers, {old'});
    var placed := Put(rest, home, spec);
    WithoutDistinct(c.servers, {old'});
    WithoutSpecAt(c.servers, {old'}, k);
    KeptKey(placed, DupsOf(c, old'), k);
    BeforeWithout(placed, DupsOf(c, old'), k, u);
    BeforePut(rest, home, spec, k, u);
    if u in Before(rest, k) {
      v := u;
    } else {
      v :| v in Before(rest, k) && v.key == home;
      BeforeMember(rest, k, v);
      HomeShape(rest, base, spec);
      NormIdempotent(SpecAt(c.servers, old'));
    }
    BeforeWithout(c.servers, {old'}, k, v);
  }

  lemma KeptKey(ss: seq<Server>, gone: set<string>, k: string)
    requires k in Keys(Without(ss, gone))
    ensures k !in gone
  {
    var s :| s in Without(ss, gone) && s.key == k;
    WithoutMember(ss, gone, s);
  }

  /** The entry `@k/tool` is there after the run exactly if it was before and is not itself the reference of a moved
      key. It still names the server it named if `k` was the earliest of its twins, for every key moved; when only
      one key moves it does so exactly then, and dangles otherwise. */
  lemma {:induction false} ToolRefsKept(c: Config, managed: set<string>, todo: seq<string>, k: string, tool: string)
    requires Todo(c, managed, todo) && k in Keys(c.servers) && '/' !in k
    ensures var d := Normalized(c, managed, todo); var e := ToolRef(k, tool);
      && (e in d.tools <==> e in c.tools && k + "/" + tool !in todo)
      && (e in d.allowed <==> e in c.allowed && k + "/" + tool !in todo)
      && (AlwaysEarliest(c, todo, k) ==> SameServer(c, d, k))
      && (|todo| == 1 ==> (SameServer(c, d, k) <==> AlwaysEarliest(c, todo, k)))
      && (|todo| == 1 ==> (k in Keys(d.servers) <==> AlwaysEarliest(c, todo, k)))
    decreases |todo|
  {
    EntriesStay(c, managed, todo, k + "/" + tool);
    if todo != [] {
      NextTodo(c, managed, todo);
      TurnKeepsServer(c, todo[0], k);
      if |todo| == 1 {
        assert todo == [todo[0]] && todo[1..] == [];
        assert Normalized(c, managed, todo) == MoveKey(c, todo[0]);
      } else if AlwaysEarliest(c, todo, k) {
        AlwaysEarliestNext(c, managed, todo, k);
        ToolRefsKept(MoveKey(c, todo[0]), managed, todo[1..], k, tool);
      }
    }
  }

  lemma AlwaysEarliestNext(c: Config, managed: set<string>, todo: seq<string>, k: string)
    requires Todo(c, managed, todo) && todo != [] && k in Keys(c.servers) && '/' !in k && AlwaysEarliest(c, todo, k)
    ensures var d := MoveKey(c, todo[0]);
      && Todo(d, managed, todo[1..]) && k in Keys(d.servers) && SameServer(c, d, k)
      && AlwaysEarliest(d, todo[1..], k)
  {
    hide MoveKey, Earliest;
    NextTodo(c, managed, todo);
    assert todo[0] in todo && Earliest(c, todo[0], k);
    TurnKeepsServer(c, todo[0], k);
    forall next | next in todo[1..] ensures Earliest(MoveKey(c, todo[0]), next, k) {
      assert next in todo && Earliest(c, next, k);
      var i :| 0 <= i < |todo[1..]| && todo[1..][i] == next;
      assert todo[i + 1] != todo[0];
      TurnKeepsEarliest(c, todo[0], k, next);
    }
  }

  lemma {:induction false} EntriesStay(c: Config, managed: set<string>, todo: seq<string>, key: string)
    requires Todo(c, managed, todo) && '/' in key
    ensures var d := Normalized(c, managed, todo);
      (Ref(key) in d.tools <==> Ref(key) in c.tools && key !in todo) && (Ref(key) in d.allowed <==> Ref(key) in c.allowed && key !in todo)
    decreases |todo|
  {
    if todo != [] {
      hide MoveKey;
      NextTodo(c, managed, todo);
      TurnKeepsEntry(c, todo[0], Ref(key));
      RefInjective(key, todo[0]);
      EntriesStay(MoveKey(c, todo[0]), managed, todo[1..], key);
      assert key in todo <==> key == todo[0] || key in todo[1..];
    }
  }

  // ----- the server a key stands for, turn by turn -----

  predicate Names(c: Config, k: string, spec: Spec) {
    k in Keys(c.servers) && Norm(SpecAt(c.servers, k)) == spec
  }

  /** Whether `k` stands for `spec` after a turn, `named` telling whether it did before: it did and was no twin or
      the earliest, or it did not and the moved server has that spec and is given the name. */
  ghost predicate NamesNext(c: Config, old': string, k: string, spec: Spec, named: bool)
    requires old' in Keys(c.servers)
  {
    if named then k in Keys(c.servers) && Earliest(c, old', k)
    else HomeOf(c, old') == k && Norm(SpecAt(c.servers, old')) == spec
  }

  lemma TurnNames(c: Config, old': string, k: string, spec: Spec)
    requires Distinct(c.servers) && old' in Keys(c.servers) && '/' in old' && '/' !in k
    ensures Names(MoveKey(c, old'), k, spec) <==> NamesNext(c, old', k, spec, Names(c, k, spec))
  {
    hide Earliest, HomeOf, MoveKey, Keys, SpecAt;
    var d := MoveKey(c, old');
    if k in Keys(c.servers) {
      TurnKeepsServer(c, old', k);
      if !Names(c, k, spec) { HomeKnowsSpec(c, old', k); }
    } else {
      var moved := Server(HomeOf(c, old'), Norm(SpecAt(c.servers, old')));
      HomeIs(c, old');
      MoveMember(c, old', moved);
      MoveDistinct(c, old');
      NormIdempotent(SpecAt(c.servers, old'));
      IsSpecAt(d.servers, moved);
      if k in Keys(d.servers) {
        SpecAtMember(d.servers, k);
        MoveMember(c, old', Server(k, SpecAt(d.servers, k)));
        NoSuchServer(c.servers, k, SpecAt(d.servers, k));
      }
    }
  }

  lemma NoSuchServer(ss: seq<Server>, k: string, spec: Spec)
    requires k !in Keys(ss)
    ensures Server(k, spec) !in ss
  {
  }

  /** A home that is already taken is taken by a server with the moved one's spec. */
  lemma HomeKnowsSpec(c: Config, old': string, k: string)
    requires Distinct(c.servers) && old' in Keys(c.servers) && '/' in old' && k in Keys(c.servers) && '/' !in k
    ensures HomeOf(c, old') == k ==> Norm(SpecAt(c.servers, k)) == Norm(SpecAt(c.servers, old'))
  {
    var rest := Without(c.servers, {old'});
    WithoutDistinct(c.servers, {old'});
    WithoutSpecAt(c.servers, {old'}, k);
    SpecAtMember(rest, k);
    HomeShape(rest, Alias(old'), Norm(SpecAt(c.servers, old')));
  }

  /** The turns of a run, one after the other. */
  ghost predicate NamesAfter(c: Config, managed: set<string>, todo: seq<string>, k: string, spec: Spec, named: bool)
    requires Todo(c, managed, todo) && (todo != [] ==> todo[0] in Keys(c.servers))
    decreases |todo|
  {
    if todo == [] then named
    else
      NextTodo(c, managed, todo);
      var d := MoveKey(c, todo[0]);
      TodoHead(d, managed, todo[1..]);
      NamesAfter(d, managed, todo[1..], k, spec, NamesNext(c, todo[0], k, spec, named))
  }

  lemma TodoHead(c: Config, managed: set<string>, todo: seq<string>)
    requires Todo(c, managed, todo)
    ensures todo != [] ==> todo[0] in Keys(c.servers)
  {
    if todo != [] { assert todo[0] in todo; }
  }

  /** Over any run, exactly: a slash-free key stands for a spec at the end if the turns, taken one by one, say so:
      each turn keeps it if it stood for the spec and was no twin or the earliest, and gives it the name otherwise
      only to a moved server of that spec. */
  lemma {:induction false} NamesIff(c: Config, managed: set<string>, todo: seq<string>, k: string, spec: Spec)
    requires Todo(c, managed, todo) && (todo != [] ==> todo[0] in Keys(c.servers)) && '/' !in k
    ensures Names(Normalized(c, managed, todo), k, spec) <==> NamesAfter(c, managed, todo, k, spec, Names(c, k, spec))
    decreases |todo|
  {
    hide Earliest, HomeOf, MoveKey, Names, NamesNext;
    if todo != [] {
      NextTodo(c, managed, todo);
      var d := MoveKey(c, todo[0]);
      TurnNames(c, todo[0], k, spec);
      TodoHead(d, managed, todo[1..]);
      NamesIff(d, managed, todo[1..], k, spec);
    }
  }

  /** A tool entry that dangles: the server it names is the second of two equal ones, and a third is moved
      onto the first. */
  lemma FoldedToolRefDangles(spec: Spec, old': string, base: string, tool: string)
    requires '/' in old' && Alias(old') == base && old' != Numbered(base, 2) + "/" + tool
    ensures var twin := Numbered(base, 2);
      var c := Config([Server(base, spec), Server(twin, spec), Server(old', spec)], [ToolRef(twin, tool)], []);
      && Distinct(c.servers)
      && var d := Normalize(c, {}); ToolRef(twin, tool) in d.tools && twin !in Keys(d.servers)
  {
    hide Normalized, MoveKey, Norm, Alias, Earliest, Keys, SpecAt;
    var twin := Numbered(base, 2);
    var first, second, third := Server(base, spec), Server(twin, spec), Server(old', spec);
    var c := Config([first, second, third], [ToolRef(twin, tool)], []);
    AliasSlashFree(old');
    NumberedInFamily(base, 2);
    FamilySlashFree(twin, base);
    assert first.key != second.key && second.key != third.key && third.key != first.key;
    StartTodo(c, {});
    OneSlashKey(first, second, third);
    SecondIsNotEarliest(c, old', first, second, spec, base);
    ToolRefsKept(c, {}, [old'], twin, tool);
    assert [old'][0] == old' && old' in [old'] && (twin + "/" + tool !in [old']);
    assert ToolRef(twin, tool) in c.tools;
  }

  lemma OneSlashKey(a: Server, b: Server, c: Server)
    requires '/' !in a.key && '/' !in b.key && '/' in c.key
    ensures SlashKeys([a, b, c], {}) == [c.key]
  {
    assert [a, b, c][1..] == [b, c] && [b, c][1..] == [c] && [c][1..] == [];
    assert SlashKeys([c], {}) == [c.key];
    assert SlashKeys([b, c], {}) == SlashKeys([c], {});
  }

  lemma SecondIsNotEarliest(c: Config, old': string, first: Server, second: Server, spec: Spec, base: string)
    requires Distinct(c.servers) && c.servers == [first, second, Server(old', spec)] && base == Alias(old')
    requires first.key == base && InFamily(second.key, base) && first.spec == second.spec == spec
    ensures old' in Keys(c.servers) && second.key in Keys(c.servers) && !Earliest(c, old', second.key)
  {
    hide Norm, Alias;
    IsSpecAt(c.servers, second);
    IsSpecAt(c.servers, Server(old', spec));
    assert Before(c.servers, second.key)[0] == first;
    assert first in Before(c.servers, second.key) && Twin(first, base, Norm(spec));
  }
}
