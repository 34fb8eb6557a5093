/** What makes an argument name secret, said of the name's own characters, and what is then hidden. */
module SecretNames {
  import opened PyText
  import opened ArgRedaction

  predicate IsMarker(m: string) {
    m in {"secret", "token", "password", "passwd", "credential", "approval", "appkey", "app_key", "apikey", "api_key", "key"}
  }

  /** A character of a name reads as one of a marker: in either case, the Kelvin sign as `k`, and `-` as `_`. */
  predicate ReadsAs(c: char, x: char) {
    || (c == x && c != '-')
    || ('a' <= x <= 'z' && 'A' <= c <= 'Z' && c as int - 'A' as int == x as int - 'a' as int)
    || (x == 'k' && c == '\U{212A}')
    || (x == '_' && c == '-')
  }

  predicate ReadsAt(name: string, m: string, k: int) {
    0 <= k && k + |m| <= |name| && forall j | 0 <= j < |m| :: ReadsAs(name[k + j], m[j])
  }

  /** Some marker stands somewhere in the name. */
  ghost predicate HasMarker(name: string) {
    exists m, k :: IsMarker(m) && ReadsAt(name, m, k)
  }

  // -------------------------------------------------- LooksSecret is HasMarker

  predicate IsPadding(c: char) {
    IsSpace(c) || c == '-'
  }

  lemma {:induction false} LStripDrops(s: string)
    ensures forall i | 0 <= i < |s| - |LStrip(s)| :: IsSpace(s[i])
  {
    hide IsSpace;
    if s != "" && IsSpace(s[0]) {
      LStripDrops(s[1..]);
      forall i | 0 <= i < |s| - |LStrip(s)| ensures IsSpace(s[i]) {
        if i > 0 { assert s[1..][i - 1] == s[i]; }
      }
    }
  }

  lemma {:induction false} RStripDrops(s: string)
    ensures forall i | |RStrip(s)| <= i < |s| :: IsSpace(s[i])
  {
    hide IsSpace;
    if s != "" && IsSpace(s[|s| - 1]) {
      RStripDrops(s[..|s| - 1]);
    }
  }

  lemma {:induction false} DashesDropped(s: string)
    ensures var r := DropDashes(s);
      |r| <= |s| && r == s[|s| - |r|..] && forall i | 0 <= i < |s| - |r| :: s[i] == '-'
  {
    if s != "" && s[0] == '-' {
      DashesDropped(s[1..]);
      var r := DropDashes(s[1..]);
      forall i | 0 <= i < |s| - |r| ensures s[i] == '-' {
        if i > 0 { assert s[1..][i - 1] == s[i]; }
      }
    }
  }

  /** Only padding is dropped around a name. */
  lemma {:induction false} CoreOf(name: string) returns (a: nat, b: nat)
    ensures a <= b <= |name| && DropDashes(Strip(name)) == name[a..b]
    ensures forall i | 0 <= i < a || b <= i < |name| :: IsPadding(name[i])
  {
    hide IsSpace, LStrip, RStrip, DropDashes;
    var l := LStrip(name);
    LStripDrops(name);
    var s := RStrip(l);
    RStripDrops(l);
    var t := DropDashes(s);
    DashesDropped(s);
    var skipped := |name| - |l|;
    a, b := skipped + |s| - |t|, skipped + |s|;
    forall i | skipped <= i < |name| ensures l[i - skipped] == name[i] {}
    forall i | 0 <= i < |s| ensures s[i] == name[skipped + i] {}
    forall i | 0 <= i < a || b <= i < |name| ensures IsPadding(name[i]) {
      if skipped <= i < a { assert s[i - skipped] == '-'; }
      if b <= i { assert IsSpace(l[i - skipped]); }
    }
    assert t == name[a..b];
  }

  lemma MarkersAre(m: string)
    ensures m in SECRET_MARKERS <==> IsMarker(m)
  {
  }

  lemma MarkerEnds(m: string)
    requires IsMarker(m)
    ensures m != "" && 'a' <= m[0] <= 'z' && 'a' <= m[|m| - 1] <= 'z'
    ensures forall j | 0 <= j < |m| :: m[j] == '_' || 'a' <= m[j] <= 'z'
  {
  }

  lemma {:induction false} CharReads(c: char, x: char)
    requires x == '_' || 'a' <= x <= 'z'
    ensures ReadsAs(c, x) <==> (if LowerChar(c) == '-' then '_' else LowerChar(c)) == x
  {
  }

  lemma LetterIsNoPadding(c: char, x: char)
    requires 'a' <= x <= 'z' && ReadsAs(c, x)
    ensures !IsPadding(c)
  {
  }

  lemma {:induction false} OccursReads(t: string, m: string, k: int)
    requires IsMarker(m)
    ensures OccursAt(Underscored(Lower(t)), m, k) <==> ReadsAt(t, m, k)
  {
    hide LowerChar, ReadsAs, IsMarker;
    MarkerEnds(m);
    var norm := Underscored(Lower(t));
    if 0 <= k && k + |m| <= |t| {
      forall j | 0 <= j < |m| ensures norm[k + j] == m[j] <==> ReadsAs(t[k + j], m[j]) {
        CharReads(t[k + j], m[j]);
      }
      var window := norm[k..k + |m|];
      assert forall j | 0 <= j < |m| :: window[j] == norm[k + j];
    }
  }

  /** A name looks secret exactly when a marker stands at some place in it, whatever the case of its letters and whether `-` or `_` joins them. */
  lemma {:induction false} SecretExactly(name: string)
    ensures LooksSecret(name) <==> HasMarker(name)
  {
    hide IsMarker, ReadsAs, SECRET_MARKERS, Lower, Underscored, Strip, DropDashes, IsPadding;
    var a, b := CoreOf(name);
    var t := DropDashes(Strip(name));
    var norm := Underscored(Lower(t));
    if LooksSecret(name) {
      var m :| m in SECRET_MARKERS && Contains(norm, m);
      var i :| OccursAt(norm, m, i);
      MarkersAre(m);
      OccursReads(t, m, i);
      assert ReadsAt(name, m, a + i) by { ReadsInside(name, m, a, b, i); }
    }
    if m, k :| IsMarker(m) && ReadsAt(name, m, k) {
      MarkerInside(name, m, k, a, b);
      ReadsInside(name, m, a, b, k - a);
      OccursReads(t, m, k - a);
      MarkersAre(m);
      assert OccursAt(norm, m, k - a) && |norm| == |t|;
      assert Contains(norm, m);
    }
  }

  lemma ReadsInside(name: string, m: string, a: nat, b: nat, i: int)
    requires a <= b <= |name| && 0 <= i && a + i + |m| <= b
    ensures ReadsAt(name[a..b], m, i) <==> ReadsAt(name, m, a + i)
  {
    hide ReadsAs;
    var core := name[a..b];
    assert forall l | 0 <= l < b - a :: core[l] == name[a + l];
    if ReadsAt(core, m, i) {
      forall j | 0 <= j < |m| ensures ReadsAs(name[a + i + j], m[j]) { assert ReadsAs(core[i + j], m[j]); }
    }
    if ReadsAt(name, m, a + i) {
      forall j | 0 <= j < |m| ensures ReadsAs(core[i + j], m[j]) { assert ReadsAs(name[a + i + j], m[j]); }
    }
  }

  /** A marker begins and ends with a letter, so none reaches into the padding. */
  lemma {:induction false} MarkerInside(name: string, m: string, k: int, a: nat, b: nat)
    requires IsMarker(m) && ReadsAt(name, m, k) && a <= b <= |name|
    requires forall i | 0 <= i < a || b <= i < |name| :: IsPadding(name[i])
    ensures a <= k && k + |m| <= b
  {
    hide IsMarker, ReadsAs, IsPadding;
    MarkerEnds(m);
    LetterIsNoPadding(name[k + 0], m[0]);
    LetterIsNoPadding(name[k + (|m| - 1)], m[|m| - 1]);
  }

  // ----------------------------------------------------------- what is ignored

  /** The same character for this purpose: letters in either case, and `-` for `_`. */
  predicate SameRead(c: char, d: char) {
    forall x: char | x == '_' || 'a' <= x <= 'z' :: ReadsAs(c, x) <==> ReadsAs(d, x)
  }

  lemma {:induction false} CaseAndDashIgnored(s: string, t: string)
    requires |s| == |t| && forall i | 0 <= i < |s| :: SameRead(s[i], t[i])
    ensures LooksSecret(s) == LooksSecret(t)
  {
    hide LooksSecret, IsMarker, SameRead;
    SecretExactly(s);
    SecretExactly(t);
    if HasMarker(s) { MarkerCarries(s, t); }
    if HasMarker(t) {
      forall i | 0 <= i < |t| ensures SameRead(t[i], s[i]) { SameReadSymmetric(s[i], t[i]); }
      MarkerCarries(t, s);
    }
  }

  lemma SameReadSymmetric(c: char, d: char)
    requires SameRead(c, d)
    ensures SameRead(d, c)
  {
    hide ReadsAs;
  }

  lemma {:induction false} MarkerCarries(s: string, t: string)
    requires |s| == |t| && (forall i | 0 <= i < |s| :: SameRead(s[i], t[i])) && HasMarker(s)
    ensures HasMarker(t)
  {
    hide IsMarker, ReadsAs;
    var m, k :| IsMarker(m) && ReadsAt(s, m, k);
    MarkerEnds(m);
    forall j | 0 <= j < |m| ensures ReadsAs(t[k + j], m[j]) {
      assert SameRead(s[k + j], t[k + j]);
    }
    assert ReadsAt(t, m, k);
  }

  /** Which characters read alike: a letter and its capital, and the two joiners. */
  lemma {:induction false} ReadAlike(c: char)
    requires 'a' <= c <= 'z'
    ensures SameRead(c, (c as int - 32) as char) && SameRead('-', '_')
  {
  }

  /** Dashes and whitespace around a name change nothing; anything at all around a secret name leaves it secret. */
  lemma {:induction false} SurroundingsIgnored(p: string, name: string, q: string)
    ensures LooksSecret(name) ==> LooksSecret(p + name + q)
    ensures (forall c | c in p + q :: IsPadding(c)) ==> LooksSecret(p + name + q) == LooksSecret(name)
  {
    hide LooksSecret, IsMarker, IsPadding, ReadsAs;
    var s, a, b := p + name + q, |p|, |p| + |name|;
    assert s[a..b] == name;
    SecretExactly(name);
    SecretExactly(s);
    if HasMarker(name) {
      var m, k :| IsMarker(m) && ReadsAt(name, m, k);
      ReadsInside(s, m, a, b, k);
    }
    if HasMarker(s) && forall c | c in p + q :: IsPadding(c) {
      var m, k :| IsMarker(m) && ReadsAt(s, m, k);
      forall i | 0 <= i < a || b <= i < |s| ensures IsPadding(s[i]) {
        assert s[i] == if i < a then p[i] else q[i - b];
        assert s[i] in p + q;
      }
      MarkerInside(s, m, k, a, b);
      ReadsInside(s, m, a, b, k - a);
    }
  }

  // ------------------------------------------------------------ what is hidden

  /** A flag with a marker in it and its value apart. */
  ghost predicate AsksForSecret(t: string) {
    t != "" && t[0] == '-' && '=' !in t && HasMarker(t)
  }

  /** `n` tokens in a row before token `i` ask for secrets, and no more than that. */
  ghost predicate IsRunBefore(argv: seq<string>, i: nat, n: nat) {
    n <= i <= |argv| && (forall j | i - n <= j < i :: AsksForSecret(argv[j])) && (n < i ==> !AsksForSecret(argv[i - n - 1]))
  }

  lemma FlagExactly(t: string)
    ensures IsSecretFlag(t) <==> AsksForSecret(t)
  {
    hide LooksSecret, HasMarker;
    SecretExactly(t);
  }

  /** A token is taken for a secret's value exactly after an odd number of such flags: a value is never a flag. */
  lemma {:induction false} ValueExactly(argv: seq<string>, i: nat, n: nat)
    requires i < |argv| && IsRunBefore(argv, i, n)
    ensures IsSecretValue(argv, i) <==> n % 2 == 1
  {
    hide IsSecretFlag, AsksForSecret;
    if i > 0 { FlagExactly(argv[i - 1]); }
    if n > 0 {
      ValueExactly(argv, i - 1, n - 1);
    }
  }

  /**
   End to end: the token after a flag that asks for a secret is hidden, `name=value` keeps its name
   only when a marker stands in the name, and every other token is echoed as it was.
   */
  lemma {:induction false} HiddenExactly(argv: seq<string>, i: nat, n: nat)
    requires i < |argv| && IsRunBefore(argv, i, n)
    ensures n % 2 == 1 ==> Sanitized(argv)[i] == "<redacted>"
    ensures n % 2 == 0 && ('=' !in argv[i] || !HasMarker(NamePart(argv[i]))) ==> Sanitized(argv)[i] == argv[i]
    ensures n % 2 == 0 ==> forall name, value | argv[i] == name + "=" + value && '=' !in name && HasMarker(name) ::
                             Sanitized(argv)[i] == name + "=<redacted>"
  {
    hide LooksSecret, HasMarker, NamePart, IsSecretValue, Sanitized, REDACTED, IsRunBefore;
    ValueExactly(argv, i, n);
    RedactedText();
    var t := argv[i];
    SecretExactly(NamePart(t));
    assert Sanitized(argv)[i] == if IsSecretValue(argv, i) then REDACTED else RedactToken(t);
    forall name, value | t == name + "=" + value && '=' !in name && HasMarker(name)
      ensures RedactToken(t) == name + "=<redacted>"
    {
      NamePartOfJoined(name, value);
      assert name + "=" + REDACTED == name + "=<redacted>";
    }
  }

  lemma RedactedText()
    ensures REDACTED == "<redacted>" && "=" + REDACTED == "=<redacted>"
  {
  }

  /** The value after `-...marker...` is never echoed, unless the flag itself stands where a value is expected. */
  lemma {:induction false} FlagHidesNext(argv: seq<string>, i: nat)
    requires i + 1 < |argv| && AsksForSecret(argv[i]) && !IsSecretValue(argv, i)
    ensures Sanitized(argv)[i + 1] == "<redacted>"
  {
    hide AsksForSecret, IsSecretFlag, REDACTED, Sanitized, IsSecretValue;
    FlagExactly(argv[i]);
    NextIsSecretValue(argv, i);
    RedactedText();
  }
}
