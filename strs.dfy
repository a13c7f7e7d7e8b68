/**
 * The part of Go's `strings` and `strconv` packages that the service relies on,
 * over strings modelled as sequences of Unicode code points.
 */
module Strs {
  import opened Wrappers

  const MinInt64: int := -0x8000_0000_0000_0000
  const MaxInt64: int := 0x7FFF_FFFF_FFFF_FFFF

  /**
   * Go's 64-bit `int` arithmetic: the result reduced to two's complement, which is the
   * value itself when it fits and otherwise differs from it by a multiple of 2^64.
   */
  function Wrap64(x: int): (r: int)
    ensures MinInt64 <= r <= MaxInt64
    ensures (r - x) % 0x1_0000_0000_0000_0000 == 0
    ensures MinInt64 <= x <= MaxInt64 ==> r == x
  {
    (x - MinInt64) % 0x1_0000_0000_0000_0000 + MinInt64
  }

  /** `unicode.IsSpace`: the Latin-1 spaces plus the Unicode White_Space code points. */
  predicate IsSpace(c: char) {
    || c == ' ' || c == '\t' || c == '\n' || c == '\r' || c == '\U{B}' || c == '\U{C}'
    || c == '\U{85}' || c == '\U{A0}' || c == '\U{1680}'
    || ('\U{2000}' <= c <= '\U{200A}')
    || c == '\U{2028}' || c == '\U{2029}' || c == '\U{202F}' || c == '\U{205F}' || c == '\U{3000}'
  }

  predicate AllSpace(s: string) {
    forall i :: 0 <= i < |s| ==> IsSpace(s[i])
  }

  /** Leading white space removed. */
  function TrimLeft(s: string): (r: string)
  {
    if |s| > 0 && IsSpace(s[0]) then TrimLeft(s[1..]) else s
  }

  /** TrimLeft keeps a suffix. */
  lemma {:induction false} TrimLeftSuffix(s: string)
    ensures |TrimLeft(s)| <= |s| && TrimLeft(s) == s[|s| - |TrimLeft(s)|..]
    decreases |s|
  {
    if |s| > 0 && IsSpace(s[0]) {
      TrimLeftSuffix(s[1..]);
    }
  }

  /** What TrimLeft keeps does not start with white space. */
  lemma {:induction false} TrimLeftStart(s: string)
    ensures TrimLeft(s) == [] || !IsSpace(TrimLeft(s)[0])
    decreases |s|
  {
    if |s| > 0 && IsSpace(s[0]) {
      TrimLeftStart(s[1..]);
    }
  }

  /** What TrimLeft removes is white space. */
  lemma {:induction false} TrimLeftDropsSpace(s: string)
    ensures |TrimLeft(s)| <= |s| && AllSpace(s[..|s| - |TrimLeft(s)|])
    decreases |s|
  {
    TrimLeftSuffix(s);
    if |s| > 0 && IsSpace(s[0]) {
      TrimLeftDropsSpace(s[1..]);
      assert s[..|s| - |TrimLeft(s)|] == [s[0]] + s[1..][..|s[1..]| - |TrimLeft(s[1..])|];
    }
  }

  /** Trailing white space removed. */
  function TrimRight(s: string): (r: string)
  {
    if |s| > 0 && IsSpace(s[|s| - 1]) then TrimRight(s[..|s| - 1]) else s
  }

  /** TrimRight keeps a prefix. */
  lemma {:induction false} TrimRightPrefix(s: string)
    ensures |TrimRight(s)| <= |s| && TrimRight(s) == s[..|TrimRight(s)|]
    decreases |s|
  {
    if |s| > 0 && IsSpace(s[|s| - 1]) {
      TrimRightPrefix(s[..|s| - 1]);
    }
  }

  /** What TrimRight keeps does not end with white space. */
  lemma {:induction false} TrimRightEnd(s: string)
    ensures TrimRight(s) == [] || !IsSpace(TrimRight(s)[|TrimRight(s)| - 1])
    decreases |s|
  {
    if |s| > 0 && IsSpace(s[|s| - 1]) {
      TrimRightEnd(s[..|s| - 1]);
    }
  }

  /** What TrimRight removes is white space. */
  lemma {:induction false} TrimRightDropsSpace(s: string)
    ensures |TrimRight(s)| <= |s| && AllSpace(s[|TrimRight(s)|..])
    decreases |s|
  {
    TrimRightPrefix(s);
    if |s| > 0 && IsSpace(s[|s| - 1]) {
      var init := s[..|s| - 1];
      TrimRightDropsSpace(init);
      assert s[|TrimRight(s)|..] == init[|TrimRight(init)|..] + [s[|s| - 1]];
    }
  }

  /** `strings.TrimSpace`. */
  function TrimSpace(s: string): (r: string)
  {
    TrimRight(TrimLeft(s))
  }

  /** `s` is its leading white space, its trim, and its trailing white space. */
  lemma {:induction false} TrimSpaceSplit(s: string)
    ensures |TrimLeft(s)| <= |s| && |TrimSpace(s)| <= |TrimLeft(s)|
    ensures s == s[..|s| - |TrimLeft(s)|] + TrimSpace(s) + TrimLeft(s)[|TrimSpace(s)|..]
  {
    var l := TrimLeft(s);
    var r := TrimRight(l);
    TrimLeftSuffix(s);
    TrimRightPrefix(l);
    assert s == s[..|s| - |l|] + l;
    assert l == r + l[|r|..];
  }

  /** What TrimSpace promises: `s` is the result wrapped in white space, and the result neither starts nor ends with it. */
  lemma {:induction false} TrimSpaceSpec(s: string)
    ensures exists pre, post :: AllSpace(pre) && AllSpace(post) && s == pre + TrimSpace(s) + post
    ensures TrimSpace(s) == [] || (!IsSpace(TrimSpace(s)[0]) && !IsSpace(TrimSpace(s)[|TrimSpace(s)| - 1]))
  {
    var l := TrimLeft(s);
    var r := TrimRight(l);
    TrimSpaceSplit(s);
    TrimLeftStart(s);
    TrimLeftDropsSpace(s);
    TrimRightEnd(l);
    TrimRightDropsSpace(l);
    var pre, post := s[..|s| - |l|], l[|r|..];
    assert AllSpace(pre) && AllSpace(post) && s == pre + TrimSpace(s) + post;
    if r != [] {
      TrimRightPrefix(l);
      assert r[0] == l[0];
    }
  }

  /** Trimming twice is trimming once. */
  lemma TrimSpaceIdempotent(s: string)
    ensures TrimSpace(TrimSpace(s)) == TrimSpace(s)
  {
    var t := TrimSpace(s);
    TrimSpaceSpec(s);
    if t != [] {
      assert TrimLeft(t) == t;
      assert TrimRight(t) == t;
    }
  }

  /** A string that neither starts nor ends with white space is its own trim. */
  lemma TrimSpaceNoEdge(s: string)
    requires s != [] && !IsSpace(s[0]) && !IsSpace(s[|s| - 1])
    ensures TrimSpace(s) == s
  {
    assert TrimLeft(s) == s;
  }

  /** A string trims to "" exactly when it is all white space. */
  lemma {:induction false} TrimSpaceEmpty(s: string)
    ensures TrimSpace(s) == [] <==> AllSpace(s)
  {
    var l := TrimLeft(s);
    var r := TrimRight(l);
    if r == [] {
      TrimLeftDropsSpace(s);
      TrimRightDropsSpace(l);
      TrimLeftSuffix(s);
      TrimRightPrefix(l);
      assert s == s[..|s| - |l|] + l[|r|..];
    }
    if AllSpace(s) {
      TrimLeftAllSpace(s);
    }
  }

  lemma {:induction false} TrimLeftAllSpace(s: string)
    requires AllSpace(s)
    ensures TrimLeft(s) == []
    decreases |s|
  {
    if |s| > 0 {
      TrimLeftAllSpace(s[1..]);
    }
  }

  /**
   * `unicode.ToLower`, which `strings.ToLower` applies to every code point, over ASCII,
   * Latin-1, Latin Extended-A, the basic Greek and Cyrillic capitals, the full-width Latin
   * capitals and the Ohm, Kelvin and Angstrom signs. Code points outside these blocks are
   * kept as they are.
   */
  function LowerChar(c: char): char {
    if 'A' <= c <= 'Z' then (c as int + 32) as char
    else if c < '\U{C0}' then c
    else if c <= '\U{DE}' then (if c == '\U{D7}' then c else (c as int + 32) as char)
    else if '\U{100}' <= c <= '\U{17F}' then LowerLatinExtendedA(c)
    else if '\U{386}' <= c <= '\U{3AB}' then LowerGreek(c)
    else if '\U{400}' <= c <= '\U{40F}' then (c as int + 80) as char
    else if '\U{410}' <= c <= '\U{42F}' then (c as int + 32) as char
    else if c == '\U{2126}' then '\U{3C9}'
    else if c == '\U{212A}' then 'k'
    else if c == '\U{212B}' then '\U{E5}'
    else if '\U{FF21}' <= c <= '\U{FF3A}' then (c as int + 32) as char
    else c
  }

  /** Latin Extended-A: capitals pair with the next code point, except dotted I and Y with diaeresis. */
  function LowerLatinExtendedA(c: char): char
    requires '\U{100}' <= c <= '\U{17F}'
  {
    if c == '\U{130}' then 'i'
    else if c == '\U{178}' then '\U{FF}'
    else if (c <= '\U{12F}' || '\U{132}' <= c <= '\U{137}' || '\U{14A}' <= c <= '\U{177}') && c as int % 2 == 0 then
      (c as int + 1) as char
    else if ('\U{139}' <= c <= '\U{148}' || '\U{179}' <= c <= '\U{17E}') && c as int % 2 == 1 then
      (c as int + 1) as char
    else c
  }

  /** The Greek capitals, with and without tonos. */
  function LowerGreek(c: char): char
    requires '\U{386}' <= c <= '\U{3AB}'
  {
    if c == '\U{386}' then '\U{3AC}'
    else if '\U{388}' <= c <= '\U{38A}' then (c as int + 37) as char
    else if c == '\U{38C}' then '\U{3CC}'
    else if '\U{38E}' <= c <= '\U{38F}' then (c as int + 63) as char
    else if '\U{391}' <= c <= '\U{3AB}' && c != '\U{3A2}' then (c as int + 32) as char
    else c
  }

  /** Lowering a code point leaves a lower-case one: lowering again changes nothing. */
  lemma LowerCharIdempotent(c: char)
    ensures LowerChar(LowerChar(c)) == LowerChar(c)
  {
    if '\U{100}' <= c <= '\U{17F}' {
      assert LowerChar(c) == LowerLatinExtendedA(c);
    } else if '\U{386}' <= c <= '\U{3AB}' {
      assert LowerChar(c) == LowerGreek(c);
    }
  }

  /** Lowering never turns white space into anything else, nor anything else into white space. */
  lemma LowerCharSpace(c: char)
    ensures IsSpace(LowerChar(c)) <==> IsSpace(c)
  {
    if IsSpace(c) {
      assert LowerChar(c) == c;
    } else if '\U{100}' <= c <= '\U{17F}' {
      assert LowerChar(c) == LowerLatinExtendedA(c);
    } else if '\U{386}' <= c <= '\U{3AB}' {
      assert LowerChar(c) == LowerGreek(c);
    }
  }

  /** On ASCII the fold is the familiar one: capitals move down by 32 and nothing else changes. */
  lemma LowerCharAscii(c: char)
    requires c < '\U{80}'
    ensures 'A' <= c <= 'Z' ==> LowerChar(c) as int == c as int + 32
    ensures !('A' <= c <= 'Z') ==> LowerChar(c) == c
  {
  }

  function Lower(s: string): (r: string)
    ensures |r| == |s|
  {
    seq(|s|, i requires 0 <= i < |s| => LowerChar(s[i]))
  }

  /** Lowering twice is lowering once. */
  lemma LowerIdempotent(s: string)
    ensures Lower(Lower(s)) == Lower(s)
  {
    forall i | 0 <= i < |s|
      ensures Lower(Lower(s))[i] == Lower(s)[i]
    {
      LowerCharIdempotent(s[i]);
    }
  }

  /** Lowering never creates or removes white space, so it commutes with TrimSpace. */
  lemma {:induction false} LowerTrimCommute(s: string)
    ensures Lower(TrimSpace(s)) == TrimSpace(Lower(s))
  {
    LowerTrimLeft(s);
    LowerTrimRight(TrimLeft(s));
  }

  lemma {:induction false} LowerTrimLeft(s: string)
    ensures Lower(TrimLeft(s)) == TrimLeft(Lower(s))
    decreases |s|
  {
    if |s| > 0 {
      assert Lower(s)[1..] == Lower(s[1..]);
      LowerCharSpace(s[0]);
      if IsSpace(s[0]) {
        LowerTrimLeft(s[1..]);
      }
    }
  }

  lemma {:induction false} LowerTrimRight(s: string)
    ensures Lower(TrimRight(s)) == TrimRight(Lower(s))
    decreases |s|
  {
    if |s| > 0 {
      assert Lower(s)[..|s| - 1] == Lower(s[..|s| - 1]);
      LowerCharSpace(s[|s| - 1]);
      if IsSpace(s[|s| - 1]) {
        LowerTrimRight(s[..|s| - 1]);
      }
    }
  }

  /** Lower-casing beyond ASCII: the dotted capital I, the Kelvin sign and Latin-1 accents fold as in Go. */
  lemma LowerBeyondAscii()
    ensures Lower("EMA\U{130}L") == "email"
    ensures Lower("\U{212A}otlin") == "kotlin"
    ensures Lower("D\U{C9}VELOPPEUR") == "d\U{E9}veloppeur"
  {
  }

  predicate IsPrefix(p: string, s: string) {
    |p| <= |s| && s[..|p|] == p
  }

  /** `strings.HasPrefix`. */
  predicate HasPrefix(s: string, p: string) {
    IsPrefix(p, s)
  }

  /** `strings.TrimSuffix`. */
  function TrimSuffix(s: string, suffix: string): (r: string)
    ensures s == r + suffix || s == r
    ensures |suffix| <= |s| && s[|s| - |suffix|..] == suffix ==> s == r + suffix
    ensures !(|suffix| <= |s| && s[|s| - |suffix|..] == suffix) ==> r == s
  {
    if |suffix| <= |s| && s[|s| - |suffix|..] == suffix then s[..|s| - |suffix|] else s
  }

  /** `strings.Contains`: `sub` occurs somewhere in `s`. */
  predicate Contains(s: string, sub: string)
    decreases |s|
  {
    IsPrefix(sub, s) || (|s| > 0 && Contains(s[1..], sub))
  }

  /** `sub` occurs in `s` starting at index `i`. */
  predicate OccursAt(s: string, sub: string, i: int) {
    0 <= i && i + |sub| <= |s| && s[i..i + |sub|] == sub
  }

  /** Contains means an occurrence at some index. */
  lemma {:induction false} ContainsAt(s: string, sub: string)
    ensures Contains(s, sub) <==> exists i :: OccursAt(s, sub, i)
    decreases |s|
  {
    if IsPrefix(sub, s) {
      assert OccursAt(s, sub, 0);
    } else if |s| > 0 {
      ContainsAt(s[1..], sub);
      if exists i :: OccursAt(s, sub, i) {
        var i :| OccursAt(s, sub, i);
        assert i != 0;
        assert s[1..][i - 1..i - 1 + |sub|] == s[i..i + |sub|];
        assert OccursAt(s[1..], sub, i - 1);
      }
      if Contains(s[1..], sub) {
        var i :| OccursAt(s[1..], sub, i);
        assert s[1..][i..i + |sub|] == s[i + 1..i + 1 + |sub|];
        assert OccursAt(s, sub, i + 1);
      }
    } else {
      assert forall i :: !OccursAt(s, sub, i);
    }
  }

  /** An occurrence survives putting text around it. */
  lemma ContainsInside(a: string, sub: string, b: string)
    ensures Contains(a + sub + b, sub)
  {
    var s := a + sub + b;
    assert s[|a|..|a| + |sub|] == sub;
    assert OccursAt(s, sub, |a|);
    ContainsAt(s, sub);
  }

  /** `strings.Split` with a one-character separator. */
  function Split(s: string, sep: char): (r: seq<string>)
    ensures |r| >= 1
    decreases |s|
  {
    if |s| == 0 then [""]
    else
      var rest := Split(s[1..], sep);
      if s[0] == sep then [""] + rest else [[s[0]] + rest[0]] + rest[1..]
  }

  /** `strings.Join`. */
  function Join(parts: seq<string>, sep: string): string
  {
    if |parts| == 0 then ""
    else if |parts| == 1 then parts[0]
    else parts[0] + sep + Join(parts[1..], sep)
  }

  /** No piece that Split returns contains the separator. */
  lemma {:induction false} SplitPiecesClean(s: string, sep: char)
    ensures forall i :: 0 <= i < |Split(s, sep)| ==> sep !in Split(s, sep)[i]
    decreases |s|
  {
    if |s| > 0 {
      SplitPiecesClean(s[1..], sep);
    }
  }

  /** Splitting and re-joining gives the original string back. */
  lemma {:induction false} SplitJoin(s: string, sep: char)
    ensures Join(Split(s, sep), [sep]) == s
    decreases |s|
  {
    if |s| > 0 {
      var rest := Split(s[1..], sep);
      SplitJoin(s[1..], sep);
      if s[0] != sep {
        var r := Split(s, sep);
        if |rest| == 1 {
          assert r == [[s[0]] + rest[0]];
        } else {
          assert r[1..] == rest[1..];
          assert Join(rest, [sep]) == rest[0] + [sep] + Join(rest[1..], [sep]);
        }
      }
    }
  }

  /** Splitting text that starts with a separator-free piece and a separator peels that piece off. */
  lemma {:induction false} SplitCons(a: string, sep: char, b: string)
    requires sep !in a
    ensures Split(a + [sep] + b, sep) == [a] + Split(b, sep)
    decreases |a|
  {
    if |a| > 0 {
      assert (a + [sep] + b)[1..] == a[1..] + [sep] + b;
      SplitCons(a[1..], sep, b);
      assert [a[0]] + a[1..] == a;
    } else {
      assert (a + [sep] + b)[1..] == b;
    }
  }

  /** Splitting a separator-free string gives it back alone. */
  lemma {:induction false} SplitNoSep(a: string, sep: char)
    requires sep !in a
    ensures Split(a, sep) == [a]
    decreases |a|
  {
    if |a| > 0 {
      SplitNoSep(a[1..], sep);
      assert [a[0]] + a[1..] == a;
    }
  }

  /** The longest prefix of `s` without white space. */
  function Word(s: string): (w: string)
    ensures |w| <= |s| && w == s[..|w|]
    ensures forall i :: 0 <= i < |w| ==> !IsSpace(w[i])
    ensures |w| == |s| || IsSpace(s[|w|])
  {
    if |s| == 0 || IsSpace(s[0]) then [] else [s[0]] + Word(s[1..])
  }

  /** `strings.Fields`: the maximal runs of non-white-space characters. */
  function Fields(s: string): (r: seq<string>)
    decreases |s|
  {
    var t := TrimLeft(s);
    if t == [] then []
    else
      TrimLeftSuffix(s);
      TrimLeftStart(s);
      var w := Word(t);
      assert |w| > 0;
      [w] + Fields(t[|w|..])
  }

  predicate IsField(w: string) {
    w != [] && forall i :: 0 <= i < |w| ==> !IsSpace(w[i])
  }

  /** Every field is non-empty and free of white space. */
  lemma {:induction false} FieldsAreFields(s: string)
    ensures AllFields(Fields(s))
    decreases |s|
  {
    var t := TrimLeft(s);
    TrimLeftStart(s);
    TrimLeftSuffix(s);
    if t != [] {
      var w := Word(t);
      assert |w| > 0;
      var tail := Fields(t[|w|..]);
      FieldsAreFields(t[|w|..]);
      assert Fields(s) == [w] + tail;
      forall i | 0 <= i < |Fields(s)| ensures IsField(Fields(s)[i]) {
        if i > 0 {
          assert Fields(s)[i] == tail[i - 1];
        }
      }
    }
  }

  predicate AllFields(ws: seq<string>) {
    forall i :: 0 <= i < |ws| ==> IsField(ws[i])
  }

  /** Joining fields with single spaces and splitting them again gives the same fields. */
  lemma {:induction false} FieldsOfJoin(ws: seq<string>)
    requires AllFields(ws)
    ensures Fields(Join(ws, " ")) == ws
    decreases |ws|
  {
    if |ws| == 1 {
      FieldsOne(ws[0]);
    } else if |ws| > 1 {
      assert AllFields(ws[1..]) by {
        forall i | 0 <= i < |ws[1..]| ensures IsField(ws[1..][i]) {
          assert ws[1..][i] == ws[i + 1];
        }
      }
      FieldsOfJoin(ws[1..]);
      FieldsOfJoinStep(ws);
    }
  }

  lemma FieldsOfJoinStep(ws: seq<string>)
    requires |ws| > 1 && IsField(ws[0])
    requires Fields(Join(ws[1..], " ")) == ws[1..]
    ensures Fields(Join(ws, " ")) == ws
  {
    var rest := Join(ws[1..], " ");
    assert Join(ws, " ") == ws[0] + [' '] + rest;
    FieldsCons(ws[0], rest);
    assert [ws[0]] + ws[1..] == ws;
  }

  lemma FieldsOne(w: string)
    requires IsField(w)
    ensures Fields(w) == [w]
  {
    WordOfField(w, "");
    assert w + "" == w;
    assert w[|w|..] == [];
  }

  lemma FieldsCons(w: string, rest: string)
    requires IsField(w)
    ensures Fields(w + [' '] + rest) == [w] + Fields(rest)
  {
    var s := w + [' '] + rest;
    assert s == w + ([' '] + rest);
    WordOfField(w, [' '] + rest);
    assert s[|w|..] == [' '] + rest;
    FieldsSkipSpace(' ', rest);
  }

  lemma WordOfField(w: string, rest: string)
    requires IsField(w)
    requires rest == [] || IsSpace(rest[0])
    ensures TrimLeft(w + rest) == w + rest
    ensures Word(w + rest) == w
  {
    WordPrefix(w, rest);
  }

  lemma {:induction false} WordPrefix(w: string, rest: string)
    requires forall i :: 0 <= i < |w| ==> !IsSpace(w[i])
    requires rest == [] || IsSpace(rest[0])
    ensures Word(w + rest) == w
    decreases |w|
  {
    if |w| > 0 {
      assert (w + rest)[1..] == w[1..] + rest;
      WordPrefix(w[1..], rest);
    } else {
      assert w + rest == rest;
    }
  }

  /** A leading white-space character does not change the fields. */
  lemma FieldsSkipSpace(c: char, rest: string)
    requires IsSpace(c)
    ensures Fields([c] + rest) == Fields(rest)
  {
    assert ([c] + rest)[1..] == rest;
    assert TrimLeft([c] + rest) == TrimLeft(rest);
  }

  /** `strings.ReplaceAll` for a non-empty pattern: a left-to-right scan replacing non-overlapping occurrences. */
  function ReplaceAll(s: string, pat: string, rep: string): string
    requires |pat| > 0
    decreases |s|
  {
    if |s| < |pat| then s
    else if s[..|pat|] == pat then rep + ReplaceAll(s[|pat|..], pat, rep)
    else [s[0]] + ReplaceAll(s[1..], pat, rep)
  }

  /** A string that starts with the pattern has it replaced, then the scan goes on after it. */
  lemma {:induction false} ReplaceAllFront(pat: string, rest: string, rep: string)
    requires |pat| > 0
    ensures ReplaceAll(pat + rest, pat, rep) == rep + ReplaceAll(rest, pat, rep)
  {
    assert (pat + rest)[..|pat|] == pat;
    assert (pat + rest)[|pat|..] == rest;
  }

  /** A string with no occurrence of the pattern is left unchanged. */
  lemma {:induction false} ReplaceAllAbsent(s: string, pat: string, rep: string)
    requires |pat| > 0 && !Contains(s, pat)
    ensures ReplaceAll(s, pat, rep) == s
    decreases |s|
  {
    if |s| >= |pat| {
      ReplaceAllAbsent(s[1..], pat, rep);
      assert [s[0]] + s[1..] == s;
    }
  }

  /** Replacing a pattern by itself changes nothing. */
  lemma {:induction false} ReplaceAllSelf(s: string, pat: string)
    requires |pat| > 0
    ensures ReplaceAll(s, pat, pat) == s
    decreases |s|
  {
    if |s| >= |pat| {
      if s[..|pat|] == pat {
        ReplaceAllSelf(s[|pat|..], pat);
        assert pat + s[|pat|..] == s;
      } else {
        ReplaceAllSelf(s[1..], pat);
        assert [s[0]] + s[1..] == s;
      }
    }
  }

  /** Where the pattern occurs, the replacement appears in the result. */
  lemma {:induction false} ReplaceAllInserts(s: string, pat: string, rep: string)
    requires |pat| > 0 && Contains(s, pat)
    ensures Contains(ReplaceAll(s, pat, rep), rep)
    decreases |s|
  {
    var r := ReplaceAll(s, pat, rep);
    ContainsAt(s, pat);
    if s[..|pat|] == pat {
      ContainsInside([], rep, ReplaceAll(s[|pat|..], pat, rep));
      assert r == [] + rep + ReplaceAll(s[|pat|..], pat, rep);
    } else {
      ReplaceAllInserts(s[1..], pat, rep);
      ContainsTail([s[0]], ReplaceAll(s[1..], pat, rep), rep);
    }
  }

  /** An occurrence in the tail is an occurrence in the whole. */
  lemma ContainsTail(a: string, b: string, sub: string)
    requires Contains(b, sub)
    ensures Contains(a + b, sub)
  {
    ContainsAt(b, sub);
    var i :| OccursAt(b, sub, i);
    assert (a + b)[|a| + i..|a| + i + |sub|] == b[i..i + |sub|];
    assert OccursAt(a + b, sub, |a| + i);
    ContainsAt(a + b, sub);
  }

  /** Lower-casing keeps every occurrence. */
  lemma LowerContains(s: string, sub: string)
    requires Contains(s, sub)
    ensures Contains(Lower(s), Lower(sub))
  {
    ContainsAt(s, sub);
    var i :| OccursAt(s, sub, i);
    assert Lower(s)[i..i + |sub|] == Lower(sub);
    assert OccursAt(Lower(s), Lower(sub), i);
    ContainsAt(Lower(s), Lower(sub));
  }

  /** `s` has no character `c`. */
  predicate Lacks(s: string, c: char) {
    forall i :: 0 <= i < |s| ==> s[i] != c
  }

  /** A string lacking one of the pattern's characters does not contain the pattern. */
  lemma LacksAbsent(s: string, pat: string, j: int)
    requires 0 <= j < |pat| && Lacks(s, pat[j])
    ensures !Contains(s, pat)
  {
    forall i | 0 <= i && i + |pat| <= |s| ensures !OccursAt(s, pat, i) {
      assert s[i..i + |pat|][j] == s[i + j];
    }
    ContainsAt(s, pat);
  }

  /** No occurrence of `pat` in `a + b` starts inside `a` and ends inside `b`. */
  predicate NoStraddle(a: string, b: string, pat: string) {
    forall k :: 0 <= k < |a| < k + |pat| ==> !OccursAt(a + b, pat, k)
  }

  /** An `a` without the pattern's first character cannot start a straddling occurrence. */
  lemma NoStraddleLeft(a: string, b: string, pat: string)
    requires |pat| > 0 && Lacks(a, pat[0])
    ensures NoStraddle(a, b, pat)
  {
    forall k | 0 <= k < |a| < k + |pat| ensures !OccursAt(a + b, pat, k) {
      if k + |pat| <= |a| + |b| {
        assert (a + b)[k..k + |pat|][0] == a[k];
      }
    }
  }

  /** A `b` without the pattern's last character cannot end a straddling occurrence. */
  lemma NoStraddleRight(a: string, b: string, pat: string)
    requires |pat| > 0 && Lacks(b, pat[|pat| - 1])
    ensures NoStraddle(a, b, pat)
  {
    forall k | 0 <= k < |a| < k + |pat| ensures !OccursAt(a + b, pat, k) {
      if k + |pat| <= |a| + |b| {
        assert (a + b)[k..k + |pat|][|pat| - 1] == b[k + |pat| - 1 - |a|];
      }
    }
  }

  /** A `b` starting with a character the pattern has only in first position (or not at all) cannot continue an occurrence. */
  lemma NoStraddleFirst(a: string, b: string, pat: string)
    requires |b| > 0 && forall j :: 1 <= j < |pat| ==> pat[j] != b[0]
    ensures NoStraddle(a, b, pat)
  {
    forall k | 0 <= k < |a| < k + |pat| ensures !OccursAt(a + b, pat, k) {
      if k + |pat| <= |a| + |b| {
        assert (a + b)[k..k + |pat|][|a| - k] == b[0];
      }
    }
  }

  /** Dropping a prefix of `a` keeps it free of straddling occurrences. */
  lemma NoStraddleDrop(a: string, b: string, pat: string, n: nat)
    requires n <= |a| && NoStraddle(a, b, pat)
    ensures (a + b)[n..] == a[n..] + b
    ensures NoStraddle(a[n..], b, pat)
  {
    var rest := a[n..];
    assert (a + b)[n..] == rest + b;
    forall k | 0 <= k < |rest| < k + |pat| ensures !OccursAt(rest + b, pat, k) {
      assert !OccursAt(a + b, pat, k + n);
      if k + |pat| <= |rest + b| {
        assert (a + b)[k + n..k + n + |pat|] == (rest + b)[k..k + |pat|];
      }
    }
  }

  /** Without a straddling occurrence, replacing in a concatenation is replacing in each part. */
  lemma {:induction false} ReplaceAllConcat(a: string, b: string, pat: string, rep: string)
    requires |pat| > 0 && NoStraddle(a, b, pat)
    ensures ReplaceAll(a + b, pat, rep) == ReplaceAll(a, pat, rep) + ReplaceAll(b, pat, rep)
    decreases |a|
  {
    if |a| == 0 {
      assert a + b == b;
    } else if |a + b| < |pat| {
      assert ReplaceAll(a, pat, rep) == a;
      assert ReplaceAll(b, pat, rep) == b;
    } else if (a + b)[..|pat|] == pat {
      assert OccursAt(a + b, pat, 0);
      assert |pat| <= |a|;
      assert a[..|pat|] == pat;
      var rest := a[|pat|..];
      NoStraddleDrop(a, b, pat, |pat|);
      calc {
        ReplaceAll(a + b, pat, rep);
        rep + ReplaceAll((a + b)[|pat|..], pat, rep);
        rep + ReplaceAll(rest + b, pat, rep);
        { ReplaceAllConcat(rest, b, pat, rep); }
        rep + (ReplaceAll(rest, pat, rep) + ReplaceAll(b, pat, rep));
        (rep + ReplaceAll(rest, pat, rep)) + ReplaceAll(b, pat, rep);
        ReplaceAll(a, pat, rep) + ReplaceAll(b, pat, rep);
      }
    } else {
      var rest := a[1..];
      NoStraddleDrop(a, b, pat, 1);
      assert ReplaceAll(a, pat, rep) == [a[0]] + ReplaceAll(rest, pat, rep) by {
        if |a| < |pat| {
          assert ReplaceAll(rest, pat, rep) == rest;
          assert [a[0]] + rest == a;
        } else {
          assert a[..|pat|] == (a + b)[..|pat|];
        }
      }
      calc {
        ReplaceAll(a + b, pat, rep);
        [(a + b)[0]] + ReplaceAll((a + b)[1..], pat, rep);
        [a[0]] + ReplaceAll(rest + b, pat, rep);
        { ReplaceAllConcat(rest, b, pat, rep); }
        [a[0]] + (ReplaceAll(rest, pat, rep) + ReplaceAll(b, pat, rep));
        ([a[0]] + ReplaceAll(rest, pat, rep)) + ReplaceAll(b, pat, rep);
      }
    }
  }

  predicate IsDigit(c: char) {
    '0' <= c <= '9'
  }

  predicate AllDigits(s: string) {
    forall i :: 0 <= i < |s| ==> IsDigit(s[i])
  }

  function DigitValue(c: char): nat
    requires IsDigit(c)
  {
    c as int - '0' as int
  }

  /** The number a string of decimal digits denotes. */
  function DigitsValue(s: string): nat
    requires AllDigits(s)
  {
    if |s| == 0 then 0 else DigitsValue(s[..|s| - 1]) * 10 + DigitValue(s[|s| - 1])
  }

  /** `strconv.Atoi` on a 64-bit platform: an optional sign, at least one decimal digit, and an int64 range check. */
  function Atoi(s: string): (r: Option<int>)
    ensures r.Some? ==> MinInt64 <= r.value <= MaxInt64
    ensures r.Some? ==> |s| > 0
  {
    var neg := |s| > 0 && s[0] == '-';
    var digits := if |s| > 0 && (s[0] == '+' || s[0] == '-') then s[1..] else s;
    if |digits| == 0 || !AllDigits(digits) then None
    else
      var n: int := DigitsValue(digits);
      var v := if neg then -n else n;
      if MinInt64 <= v <= MaxInt64 then Some(v) else None
  }

  function DigitChar(d: nat): (c: char)
    requires d < 10
    ensures IsDigit(c) && DigitValue(c) == d
  {
    ('0' as int + d) as char
  }

  /** The decimal digits of a natural number, most significant first. */
  function NatDigits(n: nat): (s: string)
    ensures |s| > 0 && AllDigits(s)
  {
    if n < 10 then [DigitChar(n)] else NatDigits(n / 10) + [DigitChar(n % 10)]
  }

  /** `strconv.Itoa` (and fmt's `%d`). */
  function Itoa(n: int): (s: string)
    ensures |s| > 0
  {
    if n < 0 then "-" + NatDigits(-n) else NatDigits(n)
  }

  lemma {:induction false} NatDigitsValue(n: nat)
    ensures DigitsValue(NatDigits(n)) == n
  {
    if n >= 10 {
      var s := NatDigits(n);
      assert s[..|s| - 1] == NatDigits(n / 10);
      NatDigitsValue(n / 10);
    }
  }

  /** Atoi reads back what Itoa writes, for every int64. */
  lemma AtoiItoa(n: int)
    requires MinInt64 <= n <= MaxInt64
    ensures Atoi(Itoa(n)) == Some(n)
  {
    var s := Itoa(n);
    if n < 0 {
      NatDigitsValue(-n);
      assert s[1..] == NatDigits(-n);
    } else {
      NatDigitsValue(n);
      assert IsDigit(s[0]);
    }
  }
}
