/** Redaction of secret-looking values from the argument list echoed in the run envelope. */
module ArgRedaction {
  import opened PyText

  const REDACTED := "<redacted>"

  const SECRET_MARKERS: seq<string> := [
    "secret", "token", "password", "passwd", "credential", "approval", "appkey", "app_key", "apikey", "api_key", "key"]

  function DropDashes(s: string): string {
    if s != "" && s[0] == '-' then DropDashes(s[1..]) else s
  }

  function Underscored(s: string): (r: string)
    ensures |r| == |s| && forall i | 0 <= i < |s| :: r[i] == if s[i] == '-' then '_' else s[i]
  {
    seq(|s|, i requires 0 <= i < |s| => if s[i] == '-' then '_' else s[i])
  }

  /** `_looks_secret` */
  predicate LooksSecret(name: string) {
    var norm := Underscored(Lower(DropDashes(Strip(name))));
    exists m | m in SECRET_MARKERS :: Contains(norm, m)
  }

  /** The part of a token before its first `=`; the whole token when there is none. */
  function NamePart(t: string): (n: string)
    ensures n <= t && '=' !in n
    ensures n == t <==> '=' !in t
    ensures n != t ==> t[|n|] == '='
  {
    if t == "" || t[0] == '=' then "" else [t[0]] + NamePart(t[1..])
  }

  predicate IsAssignment(t: string) {
    '=' in t
  }

  /** `name=value` with a secret-looking name. */
  predicate IsSecretAssignment(t: string) {
    IsAssignment(t) && LooksSecret(NamePart(t))
  }

  /** A secret-looking flag whose value is the next token. */
  predicate IsSecretFlag(t: string) {
    t != "" && t[0] == '-' && !IsAssignment(t) && LooksSecret(t)
  }

  function RedactToken(t: string): string {
    if IsSecretAssignment(t) then NamePart(t) + "=" + REDACTED else t
  }

  /** Token `i` is the value of the secret flag before it (which is not itself such a value). */
  predicate IsSecretValue(argv: seq<string>, i: nat)
    requires i < |argv|
  {
    i > 0 && !IsSecretValue(argv, i - 1) && IsSecretFlag(argv[i - 1])
  }

  function Sanitized(argv: seq<string>): (r: seq<string>)
    ensures |r| == |argv|
    ensures forall i | 0 <= i < |argv| :: r[i] == if IsSecretValue(argv, i) then REDACTED else RedactToken(argv[i])
  {
    seq(|argv|, i requires 0 <= i < |argv| => if IsSecretValue(argv, i) then REDACTED else RedactToken(argv[i]))
  }

  /** `_sanitize_command_args` */
  method SanitizeCommandArgs(argv: seq<string>) returns (out: seq<string>)
    ensures out == Sanitized(argv)
  {
    hide LooksSecret, REDACTED, NamePart, IsAssignment, Sanitized, IsSecretValue;
    out := [];
    var redactNext := false;
    ghost var spec := Sanitized(argv);
    for i := 0 to |argv|
      invariant out == spec[..i]
      invariant i < |argv| ==> redactNext == (i > 0 && IsSecretValue(argv, i))
    {
      var t := argv[i];
      assert spec[..i + 1] == spec[..i] + [spec[i]];
      NextIsSecretValue(argv, i);
      if redactNext {
        out := out + [REDACTED];
        redactNext := false;
        continue;
      }
      var name := NamePart(t);
      if IsAssignment(t) && LooksSecret(name) {
        out := out + [name + "=" + REDACTED];
        continue;
      }
      out := out + [t];
      if t != "" && t[0] == '-' && !IsAssignment(t) && LooksSecret(t) {
        redactNext := true;
      }
    }
    assert spec[..|argv|] == spec;
  }

  lemma NextIsSecretValue(argv: seq<string>, i: nat)
    requires i < |argv|
    ensures i == 0 ==> !IsSecretValue(argv, i)
    ensures i + 1 < |argv| ==> (IsSecretValue(argv, i + 1) <==> !IsSecretValue(argv, i) && IsSecretFlag(argv[i]))
  {
    hide IsSecretFlag;
  }

  // --------------------------------------------------------- non-interference

  lemma {:induction false} NamePartOfJoined(n: string, v: string)
    requires '=' !in n
    ensures NamePart(n + "=" + v) == n && '=' in n + "=" + v
  {
    var t := n + "=" + v;
    assert t[|n|] == '=';
    var p := NamePart(t);
    assert |p| == |n|;
    assert p == t[..|n|] == n;
  }

  /** Redacting is transparent to the machine: it changes neither a token's kind nor its name, and redacts once. */
  lemma {:induction false} RedactTokenKeepsKind(t: string)
    ensures IsSecretAssignment(RedactToken(t)) == IsSecretAssignment(t)
    ensures IsSecretFlag(RedactToken(t)) == IsSecretFlag(t)
    ensures NamePart(RedactToken(t)) == NamePart(t)
    ensures RedactToken(RedactToken(t)) == RedactToken(t)
  {
    hide LooksSecret, REDACTED, NamePart;
    NamePartOfJoined(NamePart(t), REDACTED);
  }

  /** Same token, or two assignments to the same secret-looking name. */
  predicate SameButSecret(s: string, t: string) {
    s == t || (IsSecretAssignment(s) && IsSecretAssignment(t) && NamePart(s) == NamePart(t))
  }

  lemma {:induction false} RedactTokenExactly(s: string, t: string)
    ensures RedactToken(s) == RedactToken(t) <==> SameButSecret(s, t)
  {
    hide LooksSecret, REDACTED, NamePart;
    RedactTokenKeepsKind(s);
    RedactTokenKeepsKind(t);
  }

  /** The two lists differ at most in values of secret flags and after the `=` of secret names. */
  predicate DifferOnlyInSecrets(a: seq<string>, b: seq<string>) {
    |a| == |b| && forall i | 0 <= i < |a| :: IsSecretValue(a, i) || SameButSecret(a[i], b[i])
  }

  lemma {:induction false} SameValuesSecret(a: seq<string>, b: seq<string>, i: nat)
    requires i < |a| == |b|
    requires DifferOnlyInSecrets(a, b)
    ensures IsSecretValue(a, i) == IsSecretValue(b, i)
  {
    hide LooksSecret, REDACTED, NamePart;
    if i > 0 {
      SameValuesSecret(a, b, i - 1);
      if !IsSecretValue(a, i - 1) {
        assert SameButSecret(a[i - 1], b[i - 1]);
      }
    }
  }

  lemma {:induction false} OutputFixesValues(a: seq<string>, b: seq<string>, i: nat)
    requires i < |a| == |b| && Sanitized(a) == Sanitized(b)
    ensures IsSecretValue(a, i) == IsSecretValue(b, i)
  {
    hide LooksSecret, REDACTED, NamePart, RedactToken, IsSecretFlag;
    if i > 0 {
      OutputFixesValues(a, b, i - 1);
      if !IsSecretValue(a, i - 1) {
        assert Sanitized(a)[i - 1] == RedactToken(a[i - 1]) == RedactToken(b[i - 1]);
        RedactTokenKeepsKind(a[i - 1]);
        RedactTokenKeepsKind(b[i - 1]);
      }
    }
  }

  /**
   Redaction non-interference, both ways: two argument lists sanitize to the same list exactly
   when they differ only in secret values.
   */
  lemma {:induction false} NonInterference(a: seq<string>, b: seq<string>)
    ensures Sanitized(a) == Sanitized(b) <==> DifferOnlyInSecrets(a, b)
  {
    hide LooksSecret, REDACTED, NamePart, RedactToken, SameButSecret, IsSecretValue;
    if DifferOnlyInSecrets(a, b) {
      forall i | 0 <= i < |a| ensures Sanitized(a)[i] == Sanitized(b)[i] {
        SameValuesSecret(a, b, i);
        RedactTokenExactly(a[i], b[i]);
      }
    }
    if Sanitized(a) == Sanitized(b) {
      assert |Sanitized(a)| == |a| && |Sanitized(b)| == |b|;
      forall i | 0 <= i < |a| ensures IsSecretValue(a, i) || SameButSecret(a[i], b[i]) {
        OutputFixesValues(a, b, i);
        assert Sanitized(a)[i] == Sanitized(b)[i];
        RedactTokenExactly(a[i], b[i]);
      }
    }
  }

  /** Sanitizing twice is sanitizing once. */
  lemma {:induction false} SanitizingIsIdempotent(a: seq<string>)
    ensures Sanitized(Sanitized(a)) == Sanitized(a)
  {
    hide LooksSecret, REDACTED, NamePart, RedactToken, SameButSecret, IsSecretValue, Sanitized;
    var s := Sanitized(a);
    forall i | 0 <= i < |a| ensures IsSecretValue(a, i) || SameButSecret(a[i], s[i]) {
      RedactTokenKeepsKind(a[i]);
      RedactTokenExactly(a[i], RedactToken(a[i]));
    }
    NonInterference(a, s);
  }

  /** Length is kept, and a token that is neither a secret value nor a secret assignment passes unchanged. */
  lemma {:induction false} OtherTokensUnchanged(a: seq<string>)
    ensures |Sanitized(a)| == |a|
    ensures forall i | 0 <= i < |a| :: !IsSecretValue(a, i) && !IsSecretAssignment(a[i]) ==> Sanitized(a)[i] == a[i]
    ensures forall i | 0 <= i < |a| :: IsSecretAssignment(a[i]) && !IsSecretValue(a, i) ==> NamePart(Sanitized(a)[i]) == NamePart(a[i])
  {
    hide LooksSecret, REDACTED, NamePart, IsSecretValue;
    forall i | 0 <= i < |a| ensures NamePart(RedactToken(a[i])) == NamePart(a[i]) {
      RedactTokenKeepsKind(a[i]);
    }
  }
}
