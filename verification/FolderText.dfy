/** The string handling that folder names and folder paths go through. */
module FolderText {
  import opened Options

  const MAX_NAME := 100
  const SEP := '/'

  /** Python's white space and lower case, left open. */
  datatype Text = Text(isSpace: char -> bool, lower: string -> string)

  function LStrip(t: Text, s: string): string {
    if s != "" && t.isSpace(s[0]) then LStrip(t, s[1..]) else s
  }

  function RStrip(t: Text, s: string): string {
    if s != "" && t.isSpace(s[|s| - 1]) then RStrip(t, s[..|s| - 1]) else s
  }

  function Strip(t: Text, s: string): string {
    RStrip(t, LStrip(t, s))
  }

  function Cut(s: string): string {
    if |s| > MAX_NAME then s[..MAX_NAME] else s
  }

  /** `_clean_name`: strip first, cut afterwards, refuse an empty name. */
  function Clean(t: Text, name: string): Option<string> {
    var c := Cut(Strip(t, name));
    if c == "" then None else Some(c)
  }

  function Split(s: string): (r: seq<string>)
    ensures r != []
  {
    if s == "" then [""]
    else if s[0] == SEP then [""] + Split(s[1..])
    else var r := Split(s[1..]); [[s[0]] + r[0]] + r[1..]
  }

  function Join(ns: seq<string>): string {
    if ns == [] then "" else if |ns| == 1 then ns[0] else ns[0] + [SEP] + Join(ns[1..])
  }

  /** The stripped parts that are not empty. */
  function Parts(t: Text, ss: seq<string>): seq<string> {
    if ss == [] then []
    else (if Strip(t, ss[0]) == "" then [] else [Strip(t, ss[0])]) + Parts(t, ss[1..])
  }

  function Segments(t: Text, path: string): seq<string> {
    Parts(t, Split(path))
  }

  predicate Trimmed(t: Text, s: string) {
    s != "" ==> !t.isSpace(s[0]) && !t.isSpace(s[|s| - 1])
  }

  lemma {:induction false} RStripTrims(t: Text, s: string)
    requires s != "" ==> !t.isSpace(s[0])
    ensures Trimmed(t, RStrip(t, s))
    decreases |s|
  {
    if s != "" && t.isSpace(s[|s| - 1]) {
      RStripTrims(t, s[..|s| - 1]);
    }
  }

  lemma {:induction false} StripTrims(t: Text, s: string)
    ensures Trimmed(t, Strip(t, s))
    decreases |s|
  {
    if s != "" && t.isSpace(s[0]) {
      StripTrims(t, s[1..]);
    } else {
      RStripTrims(t, s);
    }
  }

  lemma TrimmedStrip(t: Text, s: string)
    requires Trimmed(t, s)
    ensures Strip(t, s) == s
  {
  }

  lemma {:induction false} PartsTrimmed(t: Text, ss: seq<string>, s: string)
    requires s in Parts(t, ss)
    ensures s != "" && Trimmed(t, s)
  {
    if s == Strip(t, ss[0]) {
      StripTrims(t, ss[0]);
    }
    if s in Parts(t, ss[1..]) {
      PartsTrimmed(t, ss[1..], s);
    }
  }

  /** A part of a path is never refused as a name. */
  lemma PartIsClean(t: Text, s: string)
    requires Strip(t, s) != ""
    ensures Clean(t, Strip(t, s)) == Some(Cut(Strip(t, s)))
  {
    StripTrims(t, s);
    TrimmedStrip(t, Strip(t, s));
  }

  /** What a cleaned name looks like: not empty, within the limit, no white space in front.
      White space at the end is possible: the cut comes after the strip. */
  predicate CleanName(t: Text, n: string) {
    0 < |n| <= MAX_NAME && !t.isSpace(n[0])
  }

  lemma CleanGivesCleanName(t: Text, s: string)
    ensures Clean(t, s).Some? ==> CleanName(t, Clean(t, s).value)
  {
    StripTrims(t, s);
  }

  lemma {:induction false} RStripPrefix(t: Text, s: string)
    ensures RStrip(t, s) <= s
    ensures s != "" && !t.isSpace(s[0]) ==> RStrip(t, s) != ""
    decreases |s|
  {
    if s != "" && t.isSpace(s[|s| - 1]) {
      RStripPrefix(t, s[..|s| - 1]);
    }
  }

  /** A stripped clean name is looked up under the key it is stored with. */
  lemma CleanNameStrips(t: Text, n: string)
    requires CleanName(t, n)
    ensures Strip(t, n) != "" && Cut(Strip(t, n)) == Strip(t, n)
  {
    RStripPrefix(t, n);
  }

  // ----- stripping a path does not change its segments -----

  lemma {:induction false} PartsConcat(t: Text, a: seq<string>, b: seq<string>)
    ensures Parts(t, a + b) == Parts(t, a) + Parts(t, b)
    decreases |a|
  {
    if a == [] {
      assert a + b == b;
    } else {
      PartsConcat(t, a[1..], b);
      assert (a + b)[1..] == a[1..] + b;
    }
  }

  lemma {:induction false} LStripSnoc(t: Text, s: string, c: char)
    requires t.isSpace(c)
    ensures LStrip(t, s + [c]) == if LStrip(t, s) == "" then "" else LStrip(t, s) + [c]
    decreases |s|
  {
    if s == "" {
      assert s + [c] == [c];
      assert [c][1..] == "";
    } else if t.isSpace(s[0]) {
      assert (s + [c])[1..] == s[1..] + [c];
      LStripSnoc(t, s[1..], c);
    }
  }

  lemma StripSnoc(t: Text, s: string, c: char)
    requires t.isSpace(c)
    ensures Strip(t, s + [c]) == Strip(t, s)
  {
    LStripSnoc(t, s, c);
    if LStrip(t, s) != "" {
      assert (LStrip(t, s) + [c])[..|LStrip(t, s)|] == LStrip(t, s);
    }
  }

  lemma {:induction false} SplitSnoc(s: string, c: char)
    requires c != SEP
    ensures var r := Split(s); Split(s + [c]) == r[..|r| - 1] + [r[|r| - 1] + [c]]
    decreases |s|
  {
    if s == "" {
      assert s + [c] == [c] && [c][1..] == "";
      assert Split([c]) == [[c] + Split("")[0]] + Split("")[1..];
      assert [c] + "" == "" + [c];
    } else {
      assert (s + [c])[1..] == s[1..] + [c];
      SplitSnoc(s[1..], c);
      var r, q := Split(s[1..]), Split(s[1..] + [c]);
      if s[0] == SEP {
        assert Split(s) == [""] + r;
      } else if |r| == 1 {
        assert [s[0]] + (r[0] + [c]) == [s[0]] + r[0] + [c];
      } else {
        assert q[0] == r[0] && q[1..] == r[1..][..|r| - 2] + [r[|r| - 1] + [c]];
      }
    }
  }

  lemma SegmentsSnoc(t: Text, s: string, c: char)
    requires t.isSpace(c) && c != SEP
    ensures Segments(t, s + [c]) == Segments(t, s)
  {
    var r := Split(s);
    var init, last := r[..|r| - 1], r[|r| - 1];
    SplitSnoc(s, c);
    StripSnoc(t, last, c);
    assert r == init + [last];
    PartsConcat(t, init, [last]);
    PartsConcat(t, init, [last + [c]]);
  }

  lemma SegmentsCons(t: Text, s: string)
    requires s != "" && t.isSpace(s[0]) && s[0] != SEP
    ensures Segments(t, s) == Segments(t, s[1..])
  {
    var r := Split(s[1..]);
    var first := [s[0]] + r[0];
    assert Split(s) == [first] + r[1..];
    assert first[1..] == r[0];
    assert Strip(t, first) == Strip(t, r[0]);
    assert r == [r[0]] + r[1..];
  }

  lemma {:induction false} SegmentsRStrip(t: Text, s: string)
    requires !t.isSpace(SEP)
    ensures Segments(t, RStrip(t, s)) == Segments(t, s)
    decreases |s|
  {
    if s != "" && t.isSpace(s[|s| - 1]) {
      SegmentsRStrip(t, s[..|s| - 1]);
      assert s == s[..|s| - 1] + [s[|s| - 1]];
      SegmentsSnoc(t, s[..|s| - 1], s[|s| - 1]);
    }
  }

  lemma {:induction false} SegmentsStrip(t: Text, s: string)
    requires !t.isSpace(SEP)
    ensures Segments(t, Strip(t, s)) == Segments(t, s)
    decreases |s|
  {
    if s != "" && t.isSpace(s[0]) {
      SegmentsStrip(t, s[1..]);
      SegmentsCons(t, s);
    } else {
      SegmentsRStrip(t, s);
    }
  }

  // ----- splitting undoes joining -----

  lemma {:induction false} SplitName(n: string)
    requires SEP !in n
    ensures Split(n) == [n]
    decreases |n|
  {
    if n != "" {
      SplitName(n[1..]);
      assert n == [n[0]] + n[1..];
    }
  }

  lemma {:induction false} SplitAfterName(n: string, rest: string)
    requires SEP !in n
    ensures Split(n + [SEP] + rest) == [n] + Split(rest)
    decreases |n|
  {
    var s := n + [SEP] + rest;
    if n == "" {
      assert s[0] == SEP && s[1..] == rest;
    } else {
      assert s[1..] == n[1..] + [SEP] + rest;
      SplitAfterName(n[1..], rest);
      assert n == [n[0]] + n[1..];
    }
  }

  lemma {:induction false} SplitJoin(ns: seq<string>)
    requires ns != [] && forall i :: 0 <= i < |ns| ==> SEP !in ns[i]
    ensures Split(Join(ns)) == ns
    decreases |ns|
  {
    if |ns| == 1 {
      SplitName(ns[0]);
    } else {
      SplitJoin(ns[1..]);
      SplitAfterName(ns[0], Join(ns[1..]));
    }
  }
}
