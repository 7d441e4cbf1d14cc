/** Names for MCP servers: the slash-free alias of a key, and the first free numbered name. */
module McpAliases {

  function IndexOf(s: string, c: char): (i: nat)
    ensures i <= |s| && (i < |s| ==> s[i] == c) && c !in s[..i]
  {
    if s == "" || s[0] == c then 0 else IndexOf(s[1..], c) + 1
  }

  function DropAts(s: string): string {
    if s != "" && s[0] == '@' then DropAts(s[1..]) else s
  }

  function TrimDashesLeft(s: string): string {
    if s != "" && s[0] == '-' then TrimDashesLeft(s[1..]) else s
  }

  function TrimDashesRight(s: string): string {
    if s != "" && s[|s| - 1] == '-' then TrimDashesRight(s[..|s| - 1]) else s
  }

  predicate Plain(c: char) {
    'a' <= c <= 'z' || 'A' <= c <= 'Z' || '0' <= c <= '9' || c == '_' || c == '.' || c == '-'
  }

  function Dashed(s: string): string {
    if s == "" then "" else [if Plain(s[0]) then s[0] else '-'] + Dashed(s[1..])
  }

  /** mcp_server_alias(): a key without a slash is its own alias. */
  function Alias(name: string): string {
    if '/' !in name then name
    else
      var i := IndexOf(name, ':');
      var path := if i < |name| then name[i + 1..] else name;
      var slug := TrimDashesRight(TrimDashesLeft(Dashed(DropAts(path))));
      if slug == "" then "mcp-server" else slug
  }

  lemma {:induction false} DashedPlain(s: string)
    ensures forall c :: c in Dashed(s) ==> Plain(c)
  {
    if s != "" {
      DashedPlain(s[1..]);
    }
  }

  lemma {:induction false} TrimSubset(s: string)
    ensures forall c :: c in TrimDashesLeft(s) ==> c in s
    ensures forall c :: c in TrimDashesRight(s) ==> c in s
    decreases |s|
  {
    if s != "" {
      TrimSubset(s[1..]);
      TrimSubset(s[..|s| - 1]);
    }
  }

  /** An alias never holds a slash, so it can be referred to as `@alias`. */
  lemma AliasSlashFree(name: string)
    ensures '/' !in Alias(name)
    ensures Alias(Alias(name)) == Alias(name)
  {
    if '/' in name {
      var i := IndexOf(name, ':');
      var d := Dashed(DropAts(if i < |name| then name[i + 1..] else name));
      DashedPlain(DropAts(if i < |name| then name[i + 1..] else name));
      TrimSubset(d);
      TrimSubset(TrimDashesLeft(d));
    }
  }

  // ----- numbered names -----

  function Decimal(n: nat): (s: string)
    ensures s != ""
  {
    if n < 10 then [DigitChar(n)] else Decimal(n / 10) + [DigitChar(n % 10)]
  }

  function DigitChar(d: nat): char
    requires d < 10
  {
    '0' + d as char
  }

  predicate IsDigits(s: string) {
    s != "" && forall c :: c in s ==> '0' <= c <= '9'
  }

  function Numbered(base: string, n: nat): string {
    base + "-" + Decimal(n)
  }

  /** `key` is `base` or one of its numbered siblings. */
  predicate InFamily(key: string, base: string) {
    key == base || (|key| > |base| && key[..|base|] == base && key[|base|] == '-' && IsDigits(key[|base| + 1..]))
  }

  lemma FamilySlashFree(key: string, base: string)
    requires InFamily(key, base) && '/' !in base
    ensures '/' !in key
  {
    if key != base {
      assert key == base + "-" + key[|base| + 1..];
    }
  }

  lemma {:induction false} DecimalInjective(m: nat, n: nat)
    requires Decimal(m) == Decimal(n)
    ensures m == n
  {
    if m >= 10 && n >= 10 {
      var a, b := Decimal(m / 10), Decimal(n / 10);
      assert (a + [DigitChar(m % 10)])[..|a|] == a && (b + [DigitChar(n % 10)])[..|b|] == b;
      assert Decimal(m)[|a|] == Decimal(n)[|b|];
      DecimalInjective(m / 10, n / 10);
    }
  }

  lemma NumberedInjective(base: string, m: nat, n: nat)
    requires Numbered(base, m) == Numbered(base, n)
    ensures m == n
  {
    assert Numbered(base, m)[|base| + 1..] == Decimal(m) && Numbered(base, n)[|base| + 1..] == Decimal(n);
    DecimalInjective(m, n);
  }

  lemma {:induction false} DecimalIsDigits(n: nat)
    ensures IsDigits(Decimal(n))
  {
    if n >= 10 {
      DecimalIsDigits(n / 10);
    }
  }

  lemma NumberedInFamily(base: string, n: nat)
    ensures InFamily(Numbered(base, n), base)
  {
    DecimalIsDigits(n);
    assert Numbered(base, n)[|base| + 1..] == Decimal(n);
  }

  /** The base if it is free, else the lowest free number from 2 on. */
  ghost predicate FirstFree(taken: set<string>, base: string, r: string) {
    && r !in taken
    && if base !in taken then r == base
       else exists n: nat :: n >= 2 && r == Numbered(base, n) && forall m: nat :: 2 <= m < n ==> Numbered(base, m) in taken
  }

  /** The search ends: every number tried uses up one taken name. */
  ghost function FreeNumber(taken: set<string>, left: set<string>, base: string, n: nat): (r: nat)
    requires forall m: nat :: m >= n && Numbered(base, m) in taken ==> Numbered(base, m) in left
    ensures r >= n && Numbered(base, r) !in taken && forall m: nat :: n <= m < r ==> Numbered(base, m) in taken
    decreases left
  {
    if Numbered(base, n) !in taken then n
    else
      NumberedDistinct(base, n);
      FreeNumber(taken, left - {Numbered(base, n)}, base, n + 1)
  }

  lemma NumberedDistinct(base: string, n: nat)
    ensures forall m: nat :: Numbered(base, m) == Numbered(base, n) ==> m == n
  {
    forall m: nat | Numbered(base, m) == Numbered(base, n) ensures m == n { NumberedInjective(base, m, n); }
  }

  ghost function FreeName(taken: set<string>, base: string): (r: string)
    ensures FirstFree(taken, base, r) && InFamily(r, base)
  {
    if base !in taken then base
    else
      var n := FreeNumber(taken, taken, base, 2);
      NumberedInFamily(base, n);
      Numbered(base, n)
  }

  lemma FirstFreeUnique(taken: set<string>, base: string, r: string, q: string)
    requires FirstFree(taken, base, r) && FirstFree(taken, base, q)
    ensures r == q
  {
    if base in taken {
      var m: nat :| m >= 2 && r == Numbered(base, m) && forall k: nat :: 2 <= k < m ==> Numbered(base, k) in taken;
      var n: nat :| n >= 2 && q == Numbered(base, n) && forall k: nat :: 2 <= k < n ==> Numbered(base, k) in taken;
      assert !(m < n) && !(n < m);
    }
  }

  method FindFree(taken: set<string>, base: string) returns (r: string)
    ensures r == FreeName(taken, base)
  {
    if base !in taken {
      return base;
    }
    var n := 2;
    ghost var left := taken;
    while Numbered(base, n) in taken
      invariant n >= 2 && left <= taken
      invariant forall m: nat :: 2 <= m < n ==> Numbered(base, m) in taken
      invariant forall m: nat :: m >= n && Numbered(base, m) in taken ==> Numbered(base, m) in left
      decreases left
    {
      NumberedDistinct(base, n);
      left := left - {Numbered(base, n)};
      n := n + 1;
    }
    FirstFreeUnique(taken, base, Numbered(base, n), FreeName(taken, base));
    return Numbered(base, n);
  }
}
