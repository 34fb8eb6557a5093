/**
 The scripts a command line mentions. The validator looks at the first mention of each line only;
 this module says what the others are, and when looking at the first is enough.
 */
module PlanScripts {
  import opened Wrappers
  import opened PyText
  import opened PlanValidator

  /** The script `s` is mentioned at position `i`. */
  predicate MentionedAt(t: string, i: nat, s: string) {
    i <= |t| && ScriptLength(t[i..]).Some? && s == t[i..i + ScriptLength(t[i..]).value]
  }

  ghost predicate Mentions(t: string, s: string) {
    exists i: nat | i <= |t| :: MentionedAt(t, i, s)
  }

  /** The text behind the first mention. */
  function AfterFirst(t: string): (r: string)
    requires FirstScript(t).Some?
    ensures |r| < |t|
  {
    if ScriptLength(t).Some? then
      ScriptShape(t);
      t[ScriptLength(t).value..]
    else AfterFirst(t[1..])
  }

  /** All mentions, as `findall` lists them. */
  function AllScripts(t: string): seq<string>
    decreases |t|
  {
    if FirstScript(t).None? then [] else [FirstScript(t).value] + AllScripts(AfterFirst(t))
  }

  /** What a match looks like: `ops/`, a name, `.py`. */
  lemma ScriptShape(t: string)
    requires ScriptLength(t).Some?
    ensures var n := ScriptLength(t).value;
      && 8 <= n <= |t|
      && t[0] == 'o' && t[1] == 'p' && t[2] == 's' && t[3] == '/'
      && (forall i | 4 <= i < n - 3 :: IsNameChar(t[i]))
      && t[n - 3] == '.' && t[n - 2] == 'p' && t[n - 1] == 'y'
  {
    var k := NameLength(t[4..]);
    assert t[..4] == "ops/" && t[4 + k..][..3] == ".py";
    assert t[0] == t[..4][0] && t[1] == t[..4][1] && t[2] == t[..4][2] && t[3] == t[..4][3];
    assert t[4 + k] == t[4 + k..][..3][0] && t[5 + k] == t[4 + k..][..3][1] && t[6 + k] == t[4 + k..][..3][2];
    forall i | 4 <= i < 4 + k ensures IsNameChar(t[i]) {
      assert t[i] == t[4..][i - 4];
    }
  }

  /** Two mentions never overlap. */
  lemma {:induction false} NoOverlap(t: string, i: nat)
    requires ScriptLength(t).Some? && 0 < i < ScriptLength(t).value
    ensures ScriptLength(t[i..]).None?
  {
    hide ScriptLength;
    var n := ScriptLength(t).value;
    ScriptShape(t);
    if ScriptLength(t[i..]).Some? {
      ScriptShape(t[i..]);
    }
  }

  lemma {:induction false} FirstIsMentioned(t: string)
    requires FirstScript(t).Some?
    ensures Mentions(t, FirstScript(t).value)
  {
    hide ScriptLength;
    if ScriptLength(t).Some? {
      assert t[0..] == t;
      assert MentionedAt(t, 0, FirstScript(t).value);
    } else {
      FirstIsMentioned(t[1..]);
      ShiftsUp(t, 1, FirstScript(t).value);
    }
  }

  lemma ShiftsUp(t: string, k: nat, s: string)
    requires k <= |t| && Mentions(t[k..], s)
    ensures Mentions(t, s)
  {
    hide ScriptLength;
    var i: nat :| i <= |t[k..]| && MentionedAt(t[k..], i, s);
    assert t[k..][i..] == t[k + i..];
    var n := ScriptLength(t[k + i..]).value;
    assert t[k..][i..i + n] == t[k + i..k + i + n];
    assert MentionedAt(t, k + i, s);
  }

  lemma ShiftsDown(t: string, k: nat, i: nat, s: string)
    requires k <= i <= |t| && MentionedAt(t, i, s)
    ensures Mentions(t[k..], s)
  {
    hide ScriptLength;
    assert t[k..][i - k..] == t[i..];
    var n := ScriptLength(t[i..]).value;
    assert t[k..][i - k..i - k + n] == t[i..i + n];
    assert MentionedAt(t[k..], i - k, s);
  }

  /** A text without a first mention has none; otherwise every mention is the first or lies behind it. */
  lemma {:induction false} MentionsExactly(t: string, s: string)
    ensures FirstScript(t).None? ==> !Mentions(t, s)
    ensures FirstScript(t).Some? ==> (Mentions(t, s) <==> s == FirstScript(t).value || Mentions(AfterFirst(t), s))
  {
    hide ScriptLength;
    assert t[0..] == t;
    if ScriptLength(t).Some? {
      var n := ScriptLength(t).value;
      FirstIsMentioned(t);
      ScriptShape(t);
      if Mentions(t[n..], s) { ShiftsUp(t, n, s); }
      if Mentions(t, s) {
        var i: nat :| i <= |t| && MentionedAt(t, i, s);
        if 0 < i < n { NoOverlap(t, i); }
        if n <= i { ShiftsDown(t, n, i, s); }
      }
    } else if t == "" {
    } else {
      MentionsExactly(t[1..], s);
      if Mentions(t, s) {
        var i: nat :| i <= |t| && MentionedAt(t, i, s);
        ShiftsDown(t, 1, i, s);
      }
      if Mentions(t[1..], s) { ShiftsUp(t, 1, s); }
    }
  }

  /** The listing holds exactly the scripts mentioned anywhere in the text. */
  lemma {:induction false} AllScriptsExactly(t: string, s: string)
    ensures s in AllScripts(t) <==> Mentions(t, s)
    decreases |t|
  {
    hide Mentions, FirstScript, AfterFirst;
    MentionsExactly(t, s);
    if FirstScript(t).Some? {
      AllScriptsExactly(AfterFirst(t), s);
    }
  }

  // ------------------------------------------------------------ lines of a step

  /** Lines that the extraction reads: not blank, not a comment. */
  predicate IsLive(line: string) {
    Strip(line) != "" && Strip(line)[0] != '#'
  }

  /** The scripts of a live line behind its first one, which the validator does not see. */
  function LaterScripts(line: string): seq<string> {
    if LineScript(line).None? then [] else AllScripts(AfterFirst(Strip(line)))
  }

  /** A command line passes the safety screen and names no script first but the step's own. */
  predicate LinePasses(isWord: char -> bool, own: Option<string>, line: string) {
    IsSafeLine(isWord, line) && (LineScript(line).None? || LineScript(line) == own)
  }

  /** Every script a live line mentions is the step's own. */
  ghost predicate MentionsOwnOnly(own: Option<string>, line: string) {
    forall s | IsLive(line) && Mentions(Strip(line), s) :: own == Some(s)
  }

  /** For an accepted line, every mentioned script is the step's own exactly when those behind the first one are. */
  lemma {:induction false} OwnOnlyExactly(isWord: char -> bool, own: Option<string>, line: string)
    requires LinePasses(isWord, own, line)
    ensures MentionsOwnOnly(own, line) <==> forall s | s in LaterScripts(line) :: own == Some(s)
  {
    hide IsSafeLine, Mentions, FirstScript, AfterFirst, AllScripts, Strip;
    var t := Strip(line);
    if IsLive(line) {
      forall s ensures FirstScript(t).None? ==> !Mentions(t, s)
        ensures FirstScript(t).Some? ==> (Mentions(t, s) <==> s == FirstScript(t).value || s in AllScripts(AfterFirst(t)))
      {
        MentionsExactly(t, s);
        if FirstScript(t).Some? { AllScriptsExactly(AfterFirst(t), s); }
      }
    }
  }

  // ------------------------------------------------------------- finding scripts

  /** A path the pattern matches as a whole. */
  predicate IsScriptPath(s: string) {
    && |s| >= 8 && s[0] == 'o' && s[1] == 'p' && s[2] == 's' && s[3] == '/'
    && (forall i | 4 <= i < |s| - 3 :: IsNameChar(s[i]))
    && s[|s| - 3] == '.' && s[|s| - 2] == 'p' && s[|s| - 1] == 'y'
  }

  lemma NameLengthIs(s: string, k: nat)
    requires k < |s| && (forall i | 0 <= i < k :: IsNameChar(s[i])) && !IsNameChar(s[k])
    ensures NameLength(s) == k
  {
  }

  lemma {:induction false} PathMatches(own: string, rest: string)
    requires IsScriptPath(own)
    ensures ScriptLength(own + rest) == Some(|own|)
  {
    var t, k := own + rest, |own| - 7;
    assert t[..4] == "ops/";
    NameLengthIs(t[4..], k);
    assert t[4 + k..][..3] == ".py";
  }

  /** Whatever follows it, a script path at the start of a text is the first script found. */
  lemma {:induction false} OwnScriptFirst(own: string, rest: string)
    requires IsScriptPath(own)
    ensures FirstScript(own + rest) == Some(own) && AfterFirst(own + rest) == rest
  {
    hide ScriptLength;
    var t := own + rest;
    PathMatches(own, rest);
    assert t[..|own|] == own && t[|own|..] == rest;
  }

  /** A mention is an occurrence of a script path, anywhere in the text. */
  lemma {:induction false} MentionsAreOccurrences(t: string, s: string)
    ensures Mentions(t, s) <==> IsScriptPath(s) && Contains(t, s)
  {
    hide ScriptLength, IsScriptPath, MentionedAt, OccursAt;
    if Mentions(t, s) {
      var i: nat :| i <= |t| && MentionedAt(t, i, s);
      MentionIsPath(t, i, s);
    }
    if IsScriptPath(s) && Contains(t, s) {
      var i :| 0 <= i <= |t| && OccursAt(t, s, i);
      PathIsMention(t, i, s);
    }
  }

  lemma MentionIsPath(t: string, i: nat, s: string)
    requires MentionedAt(t, i, s)
    ensures IsScriptPath(s) && OccursAt(t, s, i)
  {
    hide ScriptLength;
    var u := t[i..];
    ScriptShape(u);
    assert s == u[..|s|];
    assert forall k | 0 <= k < |s| :: s[k] == u[k];
  }

  lemma PathIsMention(t: string, i: nat, s: string)
    requires IsScriptPath(s) && OccursAt(t, s, i)
    ensures MentionedAt(t, i, s)
  {
    hide ScriptLength, IsScriptPath;
    assert t[i..] == s + t[i + |s|..];
    PathMatches(s, t[i + |s|..]);
  }

  predicate NoSlash(s: string) {
    forall i | 0 <= i < |s| :: s[i] != '/'
  }

  lemma OccurringChar(t: string, s: string, i: int, k: nat)
    requires OccursAt(t, s, i) && k < |s|
    ensures t[i + k] == s[k]
  {
    assert t[i..i + |s|][k] == t[i + k];
  }

  /** An occurrence of a script path cannot begin inside a slash-free prefix that ends in a space. */
  lemma {:induction false} OccursBehindPrefix(p: string, t: string, s: string, i: int)
    requires NoSlash(p) && p != "" && p[|p| - 1] == ' ' && IsScriptPath(s) && OccursAt(p + t, s, i)
    ensures |p| <= i && OccursAt(t, s, i - |p|)
  {
    var u := p + t;
    OccurringChar(u, s, i, 3);
    OccurringChar(u, s, i, 0);
    OccurringChar(u, s, i, 1);
    OccurringChar(u, s, i, 2);
    assert u[i..i + |s|] == t[i - |p|..i - |p| + |s|];
  }

  /** Such a prefix adds no mention. */
  lemma {:induction false} PrefixAddsNone(p: string, t: string, s: string)
    requires NoSlash(p) && p != "" && p[|p| - 1] == ' '
    ensures Mentions(p + t, s) <==> Mentions(t, s)
  {
    hide Mentions, NoSlash, IsScriptPath, OccursAt;
    var u := p + t;
    assert u[|p|..] == t;
    if Mentions(t, s) { ShiftsUp(u, |p|, s); }
    MentionsAreOccurrences(u, s);
    MentionsAreOccurrences(t, s);
    if Mentions(u, s) {
      var i :| 0 <= i <= |u| && OccursAt(u, s, i);
      OccursBehindPrefix(p, t, s, i);
      OccursWithin(t, s, i - |p|);
    }
  }

  lemma OccursWithin(t: string, s: string, i: int)
    requires OccursAt(t, s, i)
    ensures Contains(t, s)
  {
  }

  /** An occurrence of a script path cannot reach into a slash-free suffix that begins with a space. */
  lemma {:induction false} OccursBeforeSuffix(t: string, e: string, s: string, i: int)
    requires e != "" && e[0] == ' ' && NoSlash(e) && IsScriptPath(s) && OccursAt(t + e, s, i)
    ensures OccursAt(t, s, i)
  {
    var u := t + e;
    OccurringChar(u, s, i, 3);
    assert i + 3 < |t|;
    if i + |s| > |t| {
      OccurringChar(u, s, i, |t| - i);
    }
    assert u[i..i + |s|] == t[i..i + |s|];
  }

  /** Such a suffix adds no mention either. */
  lemma {:induction false} SuffixAddsNone(t: string, e: string, s: string)
    requires e != "" && e[0] == ' ' && NoSlash(e)
    ensures Mentions(t + e, s) <==> Mentions(t, s)
  {
    hide Mentions, NoSlash, IsScriptPath;
    var u := t + e;
    MentionsAreOccurrences(u, s);
    MentionsAreOccurrences(t, s);
    if Mentions(t, s) {
      var i :| 0 <= i <= |t| && OccursAt(t, s, i);
      assert u[i..i + |s|] == t[i..i + |s|];
      assert OccursAt(u, s, i);
    }
    if Mentions(u, s) {
      var i :| 0 <= i <= |u| && OccursAt(u, s, i);
      OccursBeforeSuffix(t, e, s, i);
    }
  }

  /** A script path mentions itself only. */
  lemma {:induction false} PathMentionsItself(own: string, s: string)
    requires IsScriptPath(own)
    ensures Mentions(own, s) <==> s == own
  {
    hide Mentions, FirstScript, AfterFirst;
    assert own + "" == own;
    OwnScriptFirst(own, "");
    MentionsExactly(own, s);
    MentionsAreOccurrences("", s);
  }

  /** A prefix without slash that ends in a space hides no script and takes part in none. */
  lemma {:induction false} PrefixSkipped(p: string, t: string)
    requires p == "" || (NoSlash(p) && p[|p| - 1] == ' ')
    ensures FirstScript(p + t) == FirstScript(t)
    ensures FirstScript(t).Some? ==> AfterFirst(p + t) == AfterFirst(t)
  {
    hide ScriptLength;
    if p == "" {
      assert p + t == t;
    } else {
      var s := p + t;
      assert ScriptLength(s).None? by {
        if ScriptLength(s).Some? {
          ScriptShape(s);
        }
      }
      assert s[1..] == p[1..] + t;
      PrefixSkipped(p[1..], t);
    }
  }

  /** No `s/` occurs, so no script can. */
  predicate NoScriptSlash(s: string) {
    forall i | 0 <= i < |s| - 1 :: !(s[i] == 's' && s[i + 1] == '/')
  }

  lemma {:induction false} NoScriptWithout(s: string)
    requires NoScriptSlash(s)
    ensures FirstScript(s).None?
  {
    hide ScriptLength;
    if ScriptLength(s).Some? {
      ScriptShape(s);
    } else if s != "" {
      var rest := s[1..];
      forall i | 0 <= i < |rest| - 1 ensures !(rest[i] == 's' && rest[i + 1] == '/') {
        assert !(s[i + 1] == 's' && s[i + 1 + 1] == '/');
      }
      NoScriptWithout(s[1..]);
    }
  }

  // --------------------------------------------------------- passing the screens

  predicate IsEither(c: char, lower: char, upper: char) {
    c == lower || c == upper
  }

  /** Pairs of neighbours, one of which every screened pattern contains. */
  predicate IsScreenedPair(a: char, b: char) {
    || (IsEither(a, 't', 'T') && IsEither(b, 't', 'T'))
    || (IsEither(a, 'e', 'E') && IsEither(b, 'y', 'Y'))
    || (IsEither(a, 'f', 'F') && IsEither(b, 'l', 'L'))
    || (IsEither(a, 'c', 'C') && IsEither(b, 'p', 'P'))
    || (IsEither(a, 'b', 'B') && IsEither(b, 'm', 'M'))
    || (IsEither(a, 'g', 'G') && b == '/')
    || (a == '_' && b == '3')
  }

  predicate IsClean(s: string) {
    forall i | 0 <= i < |s| - 1 :: !IsScreenedPair(s[i], s[i + 1])
  }

  lemma LoweredPair(a: char, b: char)
    requires IsScreenedPair(LowerChar(a), LowerChar(b))
    ensures IsScreenedPair(a, b)
  {
  }

  lemma CharsOccur(t: string, p: string, i: int, k: nat)
    requires k < |p|
    ensures OccursAt(t, p, i) ==> t[i + k] == p[k]
  {
    if OccursAt(t, p, i) {
      assert t[i..i + |p|][k] == t[i + k];
    }
  }

  lemma {:induction false} PairAbsent(s: string, p: string, k: nat)
    requires IsClean(s) && k + 1 < |p| && IsScreenedPair(p[k], p[k + 1])
    ensures !Contains(Lower(s), p)
  {
    hide IsScreenedPair, LowerChar;
    forall i | 0 <= i <= |s| ensures !OccursAt(Lower(s), p, i) {
      CharsOccur(Lower(s), p, i, k);
      CharsOccur(Lower(s), p, i, k + 1);
      if i + k + 1 < |s| && IsScreenedPair(LowerChar(s[i + k]), LowerChar(s[i + k + 1])) {
        LoweredPair(s[i + k], s[i + k + 1]);
      }
    }
  }

  lemma {:induction false} CleanIsNotSensitive(s: string, command: bool)
    requires IsClean(s)
    ensures !IsSensitive(s, command)
  {
    hide IsClean, Contains, Lower;
    PairAbsent(s, "https://", 1);
    PairAbsent(s, "http://", 1);
    PairAbsent(s, "api_key", 5);
    PairAbsent(s, "fred_api_key", 10);
    PairAbsent(s, "dart_api_key", 10);
    PairAbsent(s, "ops/run_3h0", 7);
    PairAbsent(s, "preflight_kr_end" + "_to_end_intake.py", 3);
    PairAbsent(s, "cp ", 0);
    PairAbsent(s, "config/universe", 5);
  }

  lemma {:induction false} CleanHasNoToken(isWord: char -> bool, s: string)
    requires IsClean(s)
    ensures !HasOrderToken(isWord, s)
  {
    assert |ORDER_TOKEN| == 12 && ORDER_TOKEN[2] == 'b' && ORDER_TOKEN[3] == 'm';
    hide ORDER_TOKEN;
    forall i | 0 <= i <= |s| - |ORDER_TOKEN| ensures !OrderTokenAt(isWord, s, i) {
      assert !IsScreenedPair(s[i + 2], s[i + 2 + 1]);
      assert !(MatchesIgnoringCase(s[i + 2], ORDER_TOKEN[2]) && MatchesIgnoringCase(s[i + 3], ORDER_TOKEN[3]));
    }
  }

  lemma {:induction false} CleanIsSafe(isWord: char -> bool, s: string)
    requires IsClean(s)
    ensures IsSafeLine(isWord, s)
  {
    hide IsClean;
    CleanIsNotSensitive(s, true);
    CleanHasNoToken(isWord, s);
  }

  lemma CleanJoin(a: string, b: string)
    requires IsClean(a) && IsClean(b)
    requires a == "" || b == "" || a[|a| - 1] == ' ' || b[0] == ' ' || b[0] == '_'
    ensures IsClean(a + b)
  {
    var s := a + b;
    forall i | 0 <= i < |s| - 1 ensures !IsScreenedPair(s[i], s[i + 1]) {
      if i + 1 < |a| { assert s[i] == a[i] && s[i + 1] == a[i + 1]; }
      if i >= |a| { assert s[i] == b[i - |a|] && s[i + 1] == b[i - |a| + 1]; }
    }
  }
}
