/**
 The Python string operations the pipeline relies on: whitespace stripping,
 `str.splitlines`, substring tests and joining with newlines.
 A string is a sequence of Unicode scalar values.
 */
module PyText {

  /** `str.isspace` for one character; also the class `\s` of Python's `re`. */
  predicate IsSpace(c: char) {
    || '\t' <= c <= '\r'
    || '\U{1c}' <= c <= ' '
    || c == '\U{85}' || c == '\U{a0}' || c == '\U{1680}'
    || '\U{2000}' <= c <= '\U{200a}'
    || c == '\U{2028}' || c == '\U{2029}' || c == '\U{202f}' || c == '\U{205f}' || c == '\U{3000}'
  }

  /** The line boundaries of `str.splitlines`. */
  predicate IsLineBreak(c: char) {
    || '\n' <= c <= '\r'
    || '\U{1c}' <= c <= '\U{1e}'
    || c == '\U{85}' || c == '\U{2028}' || c == '\U{2029}'
  }

  function LStrip(s: string): (r: string)
    ensures r == "" || !IsSpace(r[0])
    ensures |r| <= |s| && r == s[|s| - |r|..]
  {
    if s != "" && IsSpace(s[0]) then LStrip(s[1..]) else s
  }

  function RStrip(s: string): (r: string)
    ensures r == "" || !IsSpace(r[|r| - 1])
    ensures r <= s
  {
    if s != "" && IsSpace(s[|s| - 1]) then RStrip(s[..|s| - 1]) else s
  }

  function Strip(s: string): (r: string)
    ensures Trimmed(r)
  {
    RStrip(LStrip(s))
  }

  predicate Trimmed(s: string) {
    s == "" || (!IsSpace(s[0]) && !IsSpace(s[|s| - 1]))
  }

  predicate StartsWith(s: string, p: string) {
    p <= s
  }

  predicate OccursAt(s: string, p: string, i: int) {
    0 <= i && i + |p| <= |s| && s[i..i + |p|] == p
  }

  /** `p in s` */
  predicate Contains(s: string, p: string) {
    exists i | 0 <= i <= |s| :: OccursAt(s, p, i)
  }

  /**
   `str.lower`, as far as ASCII patterns can tell: the Kelvin sign becomes `k`; every other
   non-ASCII letter lowers to text with a non-ASCII character in it and is left alone here.
   */
  function LowerChar(c: char): char {
    if 'A' <= c <= 'Z' then (c as int + 32) as char else if c == '\U{212A}' then 'k' else c
  }

  function Lower(s: string): (r: string)
    ensures |r| == |s| && forall i | 0 <= i < |s| :: r[i] == LowerChar(s[i])
  {
    seq(|s|, i requires 0 <= i < |s| => LowerChar(s[i]))
  }

  predicate SingleLine(s: string) {
    forall i | 0 <= i < |s| :: !IsLineBreak(s[i])
  }

  /** Index of the first line boundary, or the length when there is none. */
  function LineEnd(s: string): (n: nat)
    ensures n <= |s|
    ensures n < |s| ==> IsLineBreak(s[n])
    ensures forall i | 0 <= i < n :: !IsLineBreak(s[i])
  {
    if s == "" || IsLineBreak(s[0]) then 0 else 1 + LineEnd(s[1..])
  }

  /** Width of the boundary at `n`: a carriage return swallows a following newline. */
  function BreakWidth(s: string, n: nat): (w: nat)
    requires n < |s|
    ensures 1 <= w && n + w <= |s|
  {
    if s[n] == '\r' && n + 1 < |s| && s[n + 1] == '\n' then 2 else 1
  }

  /** `str.splitlines()` */
  function SplitLines(s: string): (ls: seq<string>)
    ensures s != "" ==> ls != []
  {
    var n := LineEnd(s);
    if s == "" then []
    else if n == |s| then [s]
    else [s[..n]] + SplitLines(s[n + BreakWidth(s, n)..])
  }

  /** The lines a written list element occupies: an empty element is one empty line. */
  function LinesOf(s: string): (ls: seq<string>)
    ensures ls != []
  {
    if s == "" then [""] else SplitLines(s)
  }

  predicate EndsInsideLine(s: string) {
    s == "" || !IsLineBreak(s[|s| - 1])
  }

  /** `"\n".join(ls)` */
  function JoinLines(ls: seq<string>): string {
    if ls == [] then "" else if |ls| == 1 then ls[0] else ls[0] + "\n" + JoinLines(ls[1..])
  }

  function FlatLines(ls: seq<string>): seq<string> {
    if ls == [] then [] else LinesOf(ls[0]) + FlatLines(ls[1..])
  }

  lemma ConcatAssociates<T>(a: seq<T>, b: seq<T>, c: seq<T>)
    ensures (a + b) + c == a + (b + c)
  {
  }

  lemma LineEndIs(s: string, n: nat)
    requires n <= |s| && (n < |s| ==> IsLineBreak(s[n]))
    requires forall i | 0 <= i < n :: !IsLineBreak(s[i])
    ensures LineEnd(s) == n
  {
  }

  lemma {:induction false} SplitAtFirstBreak(s: string, n: nat)
    requires n == LineEnd(s) < |s|
    ensures SplitLines(s) == [s[..n]] + SplitLines(s[n + BreakWidth(s, n)..])
  {
  }

  lemma {:induction false} AppendToLastLine(a: string, b: string)
    requires SingleLine(a)
    ensures SplitLines(a + "\n" + b) == [a] + SplitLines(b)
  {
    var s := a + "\n" + b;
    LineEndIs(s, |a|);
    SplitAtFirstBreak(s, |a|);
    assert s[..|a|] == a && s[|a| + 1..] == b;
  }

  lemma NewlineIsBreak()
    ensures IsLineBreak('\n')
  {
  }

  lemma BreakInside(a: string, n: nat)
    requires n == LineEnd(a) < |a| && EndsInsideLine(a)
    ensures n + 1 < |a| && n + BreakWidth(a, n) < |a|
  {
    hide IsLineBreak, LineEnd;
    NewlineIsBreak();
    var last := a[|a| - 1];
    assert !IsLineBreak(last) && IsLineBreak(a[n]);
    assert n + 1 < |a|;
    if a[n] == '\r' && a[n + 1] == '\n' {
      assert n + 2 < |a|;
    }
  }

  lemma BreakWidthAppend(a: string, t: string, n: nat)
    requires n + 1 < |a|
    ensures BreakWidth(a + t, n) == BreakWidth(a, n)
  {
  }

  lemma LineEndAppend(a: string, t: string)
    requires LineEnd(a) < |a|
    ensures LineEnd(a + t) == LineEnd(a)
  {
    hide IsLineBreak, LineEnd;
    LineEndIs(a + t, LineEnd(a));
  }

  lemma EndsInside(a: string, k: nat)
    requires EndsInsideLine(a) && k < |a|
    ensures a[k..] != "" && EndsInsideLine(a[k..])
  {
    hide IsLineBreak;
    assert a[k..][|a| - k - 1] == a[|a| - 1];
  }

  /** The text after the first boundary keeps that boundary when more is appended. */
  lemma {:induction false} AppendKeepsFirstLine(a: string, t: string, n: nat)
    requires n == LineEnd(a) < |a| && EndsInsideLine(a)
    ensures var rest := a[n + BreakWidth(a, n)..];
      && rest != "" && EndsInsideLine(rest)
      && SplitLines(a + t) == [a[..n]] + SplitLines(rest + t)
  {
    hide IsLineBreak, SplitLines, LineEnd, BreakWidth, EndsInsideLine;
    var s, w := a + t, BreakWidth(a, n);
    BreakInside(a, n);
    BreakWidthAppend(a, t, n);
    LineEndAppend(a, t);
    EndsInside(a, n + w);
    SplitAtFirstBreak(s, n);
    assert s[..n] == a[..n];
    assert s[n + w..] == a[n + w..] + t;
  }

  lemma {:induction false} SplitLinesAppend(a: string, b: string)
    requires EndsInsideLine(a)
    ensures SplitLines(a + "\n" + b) == LinesOf(a) + SplitLines(b)
    decreases |a|
  {
    var n := LineEnd(a);
    if n == |a| {
      AppendToLastLine(a, b);
    } else {
      var rest, t := a[n + BreakWidth(a, n)..], "\n" + b;
      ConcatAssociates(a, "\n", b);
      ConcatAssociates(rest, "\n", b);
      AppendKeepsFirstLine(a, t, n);
      SplitAtFirstBreak(a, n);
      SplitLinesAppend(rest, b);
      ConcatAssociates([a[..n]], SplitLines(rest), SplitLines(b));
    }
  }

  /** Splitting a newline-joined list gives back the lines of each element in order. */
  lemma SplitJoined(ls: seq<string>)
    requires ls != []
    requires forall l | l in ls :: EndsInsideLine(l)
    ensures SplitLines(JoinLines(ls) + "\n") == FlatLines(ls)
  {
    if |ls| == 1 {
      assert JoinLines(ls) + "\n" == ls[0] + "\n" + "";
      SplitLinesAppend(ls[0], "");
      assert FlatLines(ls) == LinesOf(ls[0]) + FlatLines([]);
    } else {
      var rest := ls[1..];
      assert JoinLines(ls) + "\n" == ls[0] + "\n" + (JoinLines(rest) + "\n");
      SplitLinesAppend(ls[0], JoinLines(rest) + "\n");
      SplitJoined(rest);
    }
  }

  lemma FlatLinesAppend(a: seq<string>, b: seq<string>)
    ensures FlatLines(a + b) == FlatLines(a) + FlatLines(b)
  {
    if a == [] {
      assert a + b == b;
    } else {
      assert (a + b)[1..] == a[1..] + b;
      FlatLinesAppend(a[1..], b);
    }
  }

  lemma JoinLinesSnocEmpty(ls: seq<string>)
    requires ls != []
    ensures JoinLines(ls + [""]) == JoinLines(ls) + "\n"
  {
    if |ls| == 1 {
      assert (ls + [""])[1..] == [""];
    } else {
      assert (ls + [""])[1..] == ls[1..] + [""];
      JoinLinesSnocEmpty(ls[1..]);
    }
  }

  lemma JoinLinesLast(ls: seq<string>)
    requires ls != [] && ls[|ls| - 1] != ""
    ensures var j := JoinLines(ls); var l := ls[|ls| - 1]; j != "" && j[|j| - 1] == l[|l| - 1]
  {
    if |ls| > 1 {
      JoinLinesLast(ls[1..]);
    }
  }

  lemma {:induction false} PrefixedLineEnd(p: string, v: string)
    requires SingleLine(p)
    ensures LineEnd(p + v) == |p| + LineEnd(v)
  {
    hide IsLineBreak, LineEnd;
    var s, n := p + v, LineEnd(v);
    forall i | 0 <= i < |p| + n ensures !IsLineBreak(s[i]) {
      if i < |p| { assert s[i] == p[i]; } else { assert s[i] == v[i - |p|]; }
    }
    assert n < |v| ==> s[|p| + n] == v[n];
    LineEndIs(s, |p| + n);
  }

  lemma {:induction false} PrefixedSingle(p: string, v: string)
    requires SingleLine(p) && SingleLine(v)
    ensures SingleLine(p + v)
  {
    hide IsLineBreak;
  }

  /** A single-line prefix written before a non-empty value moves only its first line. */
  lemma {:induction false} PrefixedLines(p: string, v: string)
    requires SingleLine(p) && p != "" && v != ""
    ensures LinesOf(p + v) == [p + SplitLines(v)[0]] + SplitLines(v)[1..]
  {
    hide SplitLines, LineEnd, IsLineBreak, SingleLine;
    var s, n := p + v, LineEnd(v);
    PrefixedLineEnd(p, v);
    if n == |v| {
      WholeLine(v);
      PrefixedSingle(p, v);
      SingleLineSplit(v);
      SingleLineSplit(s);
    } else {
      SplitAtFirstBreak(v, n);
      SplitAtFirstBreak(s, |p| + n);
      var w := BreakWidth(v, n);
      assert s[|p| + n] == v[n] && (n + 1 < |v| ==> s[|p| + n + 1] == v[n + 1]);
      assert BreakWidth(s, |p| + n) == w;
      assert s[..|p| + n] == p + v[..n];
      assert s[|p| + n + w..] == v[n + w..];
    }
  }

  lemma WholeLine(v: string)
    requires LineEnd(v) == |v|
    ensures SingleLine(v)
  {
    hide IsLineBreak;
  }

  lemma {:induction false} SplitLinesAreSingle(s: string)
    ensures forall l | l in SplitLines(s) :: SingleLine(l)
  {
    var n := LineEnd(s);
    if n < |s| {
      SplitAtFirstBreak(s, n);
      SplitLinesAreSingle(s[n + BreakWidth(s, n)..]);
    }
  }

  lemma SingleLineSplit(s: string)
    requires SingleLine(s) && s != ""
    ensures SplitLines(s) == [s]
  {
  }

  lemma StripKeepsChars(s: string)
    ensures forall c | c in Strip(s) :: c in s
  {
    var l := LStrip(s);
    var r := RStrip(l);
    forall c | c in r ensures c in s {
      var i :| 0 <= i < |r| && r[i] == c;
      assert l[i] == c && s[|s| - |l| + i] == c;
    }
  }

  lemma TrimmedStrips(s: string)
    requires Trimmed(s)
    ensures Strip(s) == s
  {
  }

  /** Stripping ignores nothing before a non-space first character but trailing spaces. */
  lemma StripFromNonSpace(s: string)
    requires s != "" && !IsSpace(s[0])
    ensures Strip(s) == RStrip(s)
  {
  }

  lemma RStripKeepsThrough(s: string, k: nat)
    requires k < |s| && !IsSpace(s[k])
    ensures k < |RStrip(s)|
  {
    if IsSpace(s[|s| - 1]) {
      assert s[..|s| - 1][k] == s[k];
      RStripKeepsThrough(s[..|s| - 1], k);
    }
  }
}
