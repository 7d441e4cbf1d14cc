/** What normalising the MCP keys keeps, said of the configuration alone: which names are given, which specs are the
    same, which servers survive, and that no reference is left without its server. */
module McpLaws {
  import opened McpAliases
  import opened McpKeys
  import opened McpToolRefs

  // ----- names -----

  predicate PlainChar(c: char) {
    'a' <= c <= 'z' || 'A' <= c <= 'Z' || '0' <= c <= '9' || c == '_' || c == '.' || c == '-'
  }

  predicate AllDashes(s: string) {
    forall i :: 0 <= i < |s| ==> s[i] == '-'
  }

  predicate AllAts(s: string) {
    forall i :: 0 <= i < |s| ==> s[i] == '@'
  }

  /** `d` is `s` with a dash for every character that is not plain. */
  predicate DashedFrom(s: string, d: string) {
    |d| == |s| && forall i :: 0 <= i < |s| ==> d[i] == if PlainChar(s[i]) then s[i] else '-'
  }

  lemma {:induction false} DashedIs(s: string)
    ensures DashedFrom(s, Dashed(s))
  {
    if s != "" {
      DashedIs(s[1..]);
    }
  }

  lemma {:induction false} DropAtsIs(s: string) returns (i: nat)
    ensures i <= |s| && DropAts(s) == s[i..] && AllAts(s[..i]) && (i < |s| ==> s[i] != '@')
  {
    if s != "" && s[0] == '@' {
      var k := DropAtsIs(s[1..]);
      i := k + 1;
      assert s[..i] == [s[0]] + s[1..][..k];
    } else {
      i := 0;
    }
  }

  lemma {:induction false} TrimLeftIs(s: string) returns (i: nat)
    ensures i <= |s| && TrimDashesLeft(s) == s[i..] && AllDashes(s[..i]) && (i < |s| ==> s[i] != '-')
  {
    if s != "" && s[0] == '-' {
      var k := TrimLeftIs(s[1..]);
      i := k + 1;
      assert s[..i] == [s[0]] + s[1..][..k];
    } else {
      i := 0;
    }
  }

  lemma {:induction false} TrimRightIs(s: string) returns (j: nat)
    ensures j <= |s| && TrimDashesRight(s) == s[..j] && AllDashes(s[j..]) && (j > 0 ==> s[j - 1] != '-')
    decreases |s|
  {
    if s != "" && s[|s| - 1] == '-' {
      j := TrimRightIs(s[..|s| - 1]);
      assert s[j..] == s[..|s| - 1][j..] + [s[|s| - 1]];
    } else {
      j := |s|;
    }
  }

  /** `slug` is `dashed` without the dashes at either end. */
  predicate Trimmed(dashed: string, slug: string, i: nat, j: nat) {
    && i <= j <= |dashed| && slug == dashed[i..j] && AllDashes(dashed[..i]) && AllDashes(dashed[j..])
    && (i < j ==> dashed[i] != '-' && dashed[j - 1] != '-')
  }

  lemma TrimIs(dashed: string) returns (i: nat, j: nat)
    ensures Trimmed(dashed, TrimDashesRight(TrimDashesLeft(dashed)), i, j)
  {
    hide TrimDashesLeft, TrimDashesRight;
    i := TrimLeftIs(dashed);
    var k := TrimRightIs(dashed[i..]);
    j := i + k;
    assert dashed[i..][..k] == dashed[i..j] && dashed[i..][k..] == dashed[j..];
    if i < j { assert dashed[i..][0] == dashed[i] && dashed[i..][k - 1] == dashed[j - 1]; }
  }

  /** `body` is `name` after its first colon, if it has one, without the `@` signs in front. */
  ghost predicate BodyOf(name: string, body: string) {
    exists from: nat, skip: nat :: from + skip <= |name| && BodyAt(name, body, from, skip)
  }

  predicate BodyAt(name: string, body: string, from: nat, skip: nat)
    requires from + skip <= |name|
  {
    && (if ':' in name then from > 0 && name[from - 1] == ':' && ':' !in name[..from - 1] else from == 0)
    && AllAts(name[from..from + skip]) && body == name[from + skip..] && (body != "" ==> body[0] != '@')
  }

  lemma BodyIs(name: string)
    ensures var at := IndexOf(name, ':'); BodyOf(name, DropAts(if at < |name| then name[at + 1..] else name))
  {
    hide DropAts, AllAts, IndexOf, BodyAt;
    var at := IndexOf(name, ':');
    var from := if at < |name| then at + 1 else 0;
    WholeName(name, at);
    var tail := name[from..];
    var skip := DropAtsIs(tail);
    SliceOfTail(name, from, skip);
    if at < |name| { ColonAt(name, at); }
    BodyHere(name, DropAts(tail), from, skip);
  }

  lemma ColonAt(name: string, at: nat)
    requires at < |name| && name[at] == ':'
    ensures ':' in name
  {
  }

  lemma BodyHere(name: string, body: string, from: nat, skip: nat)
    requires from + skip <= |name|
    requires if ':' in name then from > 0 && name[from - 1] == ':' && ':' !in name[..from - 1] else from == 0
    requires AllAts(name[from..from + skip]) && body == name[from + skip..] && (body != "" ==> body[0] != '@')
    ensures BodyAt(name, body, from, skip)
  {
  }

  lemma WholeName(name: string, at: nat)
    requires at <= |name| && ':' !in name[..at]
    ensures name[0..] == name && (at == |name| ==> ':' !in name)
  {
    assert at == |name| ==> name[..at] == name;
  }

  lemma SliceOfTail(name: string, from: nat, skip: nat)
    requires from + skip <= |name|
    ensures name[from..][skip..] == name[from + skip..] && name[from..][..skip] == name[from..from + skip]
    ensures from + skip < |name| ==> name[from + skip..][0] == name[from..][skip]
  {
  }

  /** The alias of a key with a slash: what follows the first colon, without the `@` signs in front, a dash for each
      character that is not plain, and no dashes at either end; `mcp-server` if nothing is left. Any other key is its
      own alias. */
  lemma AliasIs(name: string) returns (body: string, dashed: string, slug: string, i: nat, j: nat)
    ensures '/' !in name ==> Alias(name) == name
    ensures '/' in name ==>
      && BodyOf(name, body) && DashedFrom(body, dashed) && Trimmed(dashed, slug, i, j)
      && Alias(name) == if slug == "" then "mcp-server" else slug
  {
    hide DropAts, Dashed, TrimDashesLeft, TrimDashesRight, BodyOf, DashedFrom, Trimmed;
    var at := IndexOf(name, ':');
    body := DropAts(if at < |name| then name[at + 1..] else name);
    BodyIs(name);
    dashed := Dashed(body);
    DashedIs(body);
    slug := TrimDashesRight(TrimDashesLeft(dashed));
    i, j := TrimIs(dashed);
  }

  /** The names of a family: the base, and the base with a dash and digits. */
  lemma FamilyIs(key: string, base: string)
    ensures InFamily(key, base) <==>
      key == base || exists ds: string :: ds != "" && (forall i :: 0 <= i < |ds| ==> '0' <= ds[i] <= '9') && key == base + "-" + ds
  {
    if InFamily(key, base) && key != base {
      var ds := key[|base| + 1..];
      assert key == base + "-" + ds;
      forall i | 0 <= i < |ds| ensures '0' <= ds[i] <= '9' { assert ds[i] in ds; }
    }
    if exists ds: string :: ds != "" && (forall i :: 0 <= i < |ds| ==> '0' <= ds[i] <= '9') && key == base + "-" + ds {
      var ds: string :| ds != "" && (forall i :: 0 <= i < |ds| ==> '0' <= ds[i] <= '9') && key == base + "-" + ds;
      assert key[..|base|] == base && key[|base| + 1..] == ds;
    }
  }

  /** The number that a numeral stands for. */
  function NumberOf(ds: string): int {
    if ds == "" then 0 else 10 * NumberOf(ds[..|ds| - 1]) + (ds[|ds| - 1] as int - '0' as int)
  }

  /** Numbered names carry their number in decimal, without leading zeros. */
  lemma {:induction false} DecimalIs(n: nat)
    ensures NumberOf(Decimal(n)) == n && (n > 0 ==> Decimal(n)[0] != '0')
  {
    if n >= 10 {
      DecimalIs(n / 10);
      assert Decimal(n)[..|Decimal(n)| - 1] == Decimal(n / 10);
    } else {
      assert Decimal(n) == [DigitChar(n)] && Decimal(n)[..0] == "";
    }
  }

  // ----- servers -----

  /** The server `t` is a sibling of the moved one by name, and their specs agree. */
  ghost predicate Equivalent(t: Server, base: string, spec: Spec) {
    InFamily(t.key, base) && SameSpec(t.spec, spec)
  }

  lemma TwinIsEquivalent(t: Server, base: string, spec: Spec)
    ensures Twin(t, base, Norm(spec)) <==> Equivalent(t, base, spec)
  {
    SameNormIff(t.spec, spec);
  }

  /** Moving a key: another server falls together with it exactly when it is a sibling whose spec agrees and an earlier
      server is one too; every other server is there under its own key, and of the others only a sibling whose spec
      agrees may have its spec tidied. */
  lemma FallsTogetherIff(c: Config, old': string, s: Server)
    requires Distinct(c.servers) && old' in Keys(c.servers) && '/' in old' && s in c.servers && '/' !in s.key
    ensures var d := MoveKey(c, old');
      var base, spec := Alias(old'), SpecAt(c.servers, old');
      && (s.key !in Keys(d.servers) <==>
            Equivalent(s, base, spec) && exists u :: u in Before(c.servers, s.key) && Equivalent(u, base, spec))
      && (!Equivalent(s, base, spec) ==> s in d.servers)
  {
    hide Earliest, MoveKey, Keys, SpecAt, Equivalent, Twin;
    var base, spec := Alias(old'), SpecAt(c.servers, old');
    IsSpecAt(c.servers, s);
    TurnKeepsServer(c, old', s.key);
    TwinIsEquivalent(s, base, spec);
    forall u | u in Before(c.servers, s.key) ensures Twin(u, base, Norm(spec)) <==> Equivalent(u, base, spec) {
      TwinIsEquivalent(u, base, spec);
    }
    EarliestIs(c, old', s);
    MoveMember(c, old', s);
  }

  lemma EarliestIs(c: Config, old': string, s: Server)
    requires old' in Keys(c.servers) && s.key in Keys(c.servers) && SpecAt(c.servers, s.key) == s.spec
    ensures var base, spec := Alias(old'), Norm(SpecAt(c.servers, old'));
      Earliest(c, old', s.key) <==> (Twin(s, base, spec) ==> forall u :: u in Before(c.servers, s.key) ==> !Twin(u, base, spec))
  {
    assert Server(s.key, s.spec) == s;
  }

  // ----- references -----

  /** A server whose spec agrees is there, referred to by its key if `s` was. */
  ghost predicate Reached(s: Server, servers: seq<Server>, before: seq<string>, after: seq<string>) {
    exists t :: t in servers && SameSpec(s.spec, t.spec) && ("@" + s.key in before ==> "@" + t.key in after)
  }

  /** Over the whole run every reference to a server goes on referring to a server with its spec. */
  lemma ReferencesSurvive(c: Config, managed: set<string>, s: Server)
    requires Distinct(c.servers) && s in c.servers
    ensures var d := Normalize(c, managed);
      Reached(s, d.servers, c.tools, d.tools) && Reached(s, d.servers, c.allowed, d.allowed)
  {
    hide Norm, SameSpec, Keys;
    StartTodo(c, managed);
    NormalizedKeepsMeaning(c, managed, SlashKeys(c.servers, managed));
    var d := Normalize(c, managed);
    IsSpecAt(c.servers, s);
    assert Represented(c, d, c.tools, d.tools, s.key) && Represented(c, d, c.allowed, d.allowed, s.key);
    var i :| i in Keys(d.servers) && Norm(SpecAt(d.servers, i)) == Norm(SpecAt(c.servers, s.key))
      && (Ref(s.key) in c.tools ==> Ref(i) in d.tools);
    var j :| j in Keys(d.servers) && Norm(SpecAt(d.servers, j)) == Norm(SpecAt(c.servers, s.key))
      && (Ref(s.key) in c.allowed ==> Ref(j) in d.allowed);
    SpecAtMember(d.servers, i);
    SpecAtMember(d.servers, j);
    SameNormIff(s.spec, SpecAt(d.servers, i));
    SameNormIff(s.spec, SpecAt(d.servers, j));
    assert Server(i, SpecAt(d.servers, i)).key == i && Server(j, SpecAt(d.servers, j)).key == j;
  }

  /** The entry refers to a server of `d`, or else it referred to none before. */
  ghost predicate StillRefers(c: Config, d: Config, before: seq<string>, after: seq<string>, k: string) {
    Ref(k) in after ==> k in Keys(d.servers) || (Ref(k) in before && k !in Keys(c.servers))
  }

  ghost predicate NoneDangles(c: Config, d: Config) {
    forall k {:trigger Ref(k)} :: StillRefers(c, d, c.tools, d.tools, k) && StillRefers(c, d, c.allowed, d.allowed, k)
  }

  lemma TurnLeavesNone(c: Config, old': string, k: string)
    requires Distinct(c.servers) && old' in Keys(c.servers)
    ensures var d := MoveKey(c, old'); StillRefers(c, d, c.tools, d.tools, k) && StillRefers(c, d, c.allowed, d.allowed, k)
  {
    hide HomeOf, DupsOf, Rewrite, Keys, SpecAt, Twin, Norm;
    var d := MoveKey(c, old');
    var home := HomeOf(c, old');
    var olds := OldRefs(old', DupsOf(c, old'));
    RewriteMember(c.tools, olds, Ref(home), Ref(k));
    RewriteMember(c.allowed, olds, Ref(home), Ref(k));
    RefInjective(k, home);
    OldRefsMember(old', DupsOf(c, old'), k);
    HomeStays(c, old');
    if k in Keys(c.servers) && k != old' && k !in DupsOf(c, old') {
      UnfoldedStays(c, old', k);
    }
  }

  lemma HomeStays(c: Config, old': string)
    requires Distinct(c.servers) && old' in Keys(c.servers)
    ensures HomeOf(c, old') in Keys(MoveKey(c, old').servers)
  {
    hide MoveKey;
    HomeIs(c, old');
    MoveMember(c, old', Server(HomeOf(c, old'), Norm(SpecAt(c.servers, old'))));
  }

  lemma UnfoldedStays(c: Config, old': string, k: string)
    requires Distinct(c.servers) && old' in Keys(c.servers) && k in Keys(c.servers) && k != old' && k !in DupsOf(c, old')
    ensures k in Keys(MoveKey(c, old').servers)
  {
    hide MoveKey, DupsOf, HomeOf, Twin;
    DupsAre(c, old', k);
    HomeStays(c, old');
    SpecAtMember(c.servers, k);
    MoveMember(c, old', Server(k, SpecAt(c.servers, k)));
  }

  lemma NoneDanglesOn(c: Config, d: Config, e: Config)
    requires NoneDangles(c, d) && NoneDangles(d, e)
    ensures NoneDangles(c, e)
  {
    forall k ensures StillRefers(c, e, c.tools, e.tools, k) && StillRefers(c, e, c.allowed, e.allowed, k) {
      assert StillRefers(c, d, c.tools, d.tools, k) && StillRefers(d, e, d.tools, e.tools, k);
      assert StillRefers(c, d, c.allowed, d.allowed, k) && StillRefers(d, e, d.allowed, e.allowed, k);
    }
  }

  /** Over any run no whole-key reference is left without its server: an entry `@key` afterwards names a server that is
      there, or named none before. */
  lemma {:induction false} RunLeavesNone(c: Config, managed: set<string>, todo: seq<string>)
    requires Todo(c, managed, todo)
    ensures NoneDangles(c, Normalized(c, managed, todo))
    decreases |todo|
  {
    hide MoveKey;
    if todo == [] {
      forall k ensures StillRefers(c, c, c.tools, c.tools, k) && StillRefers(c, c, c.allowed, c.allowed, k) {}
    } else {
      NextTodo(c, managed, todo);
      var d := MoveKey(c, todo[0]);
      forall k ensures StillRefers(c, d, c.tools, d.tools, k) && StillRefers(c, d, c.allowed, d.allowed, k) {
        TurnLeavesNone(c, todo[0], k);
      }
      RunLeavesNone(d, managed, todo[1..]);
      NoneDanglesOn(c, d, Normalized(c, managed, todo));
    }
  }

  /** A rewritten list has no repetition. */
  lemma {:induction false} UniqueDistinct(ts: seq<string>)
    ensures forall i, j :: 0 <= i < j < |Unique(ts)| ==> Unique(ts)[i] != Unique(ts)[j]
  {
    if ts != [] {
      UniqueDistinct(ts[..|ts| - 1]);
    }
  }
}
