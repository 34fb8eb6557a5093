/**
 Date-ID tokens: `YYMMDD-N`, a calendar date of 2000-2099 and a positive sequence
 number without leading zeros once canonical.
 */
module DateIds {
  import opened Wrappers
  import opened PyText

  /** CPython refuses to convert longer digit strings to an integer. */
  const MAX_INT_DIGITS: nat := 4300

  predicate IsDigit(c: char) {
    '0' <= c <= '9'
  }

  predicate AllDigits(s: string) {
    forall i | 0 <= i < |s| :: IsDigit(s[i])
  }

  function DigitValue(c: char): (v: nat)
    requires IsDigit(c)
    ensures v <= 9
  {
    c as int - '0' as int
  }

  function TwoDigits(s: string, i: nat): (v: nat)
    requires AllDigits(s) && i + 1 < |s|
    ensures v <= 99
  {
    10 * DigitValue(s[i]) + DigitValue(s[i + 1])
  }

  /** Days of month `mm` in the year 2000 + `yy`; zero when there is no such month. */
  function DaysInMonth(yy: nat, mm: nat): (d: nat)
    ensures d <= 31
  {
    if mm == 2 then (if yy % 4 == 0 then 29 else 28)
    else if mm in {4, 6, 9, 11} then 30
    else if 1 <= mm <= 12 then 31
    else 0
  }

  function DropLeadingZeros(s: string): (r: string)
    ensures |r| <= |s| && r == s[|s| - |r|..]
    ensures r == "" || r[0] != '0'
  {
    if s != "" && s[0] == '0' then DropLeadingZeros(s[1..]) else s
  }

  /** Six digits naming a day of the calendar. */
  predicate IsDatePart(s: string) {
    && |s| == 6 && AllDigits(s)
    && 1 <= TwoDigits(s, 4) <= DaysInMonth(TwoDigits(s, 0), TwoDigits(s, 2))
  }

  /** `DateId(token).value`, or `None` where the constructor raises. */
  function CanonicalDateId(token: string): (r: Option<string>)
    ensures r.Some? ==> IsCanonical(r.value)
  {
    ParseTrimmed(Strip(token))
  }

  function ParseTrimmed(t: string): (r: Option<string>)
    ensures r.Some? ==> IsCanonical(r.value)
  {
    if |t| < 8 || t[6] != '-' || !AllDigits(t[7..]) || |t| - 7 > MAX_INT_DIGITS || !IsDatePart(t[..6]) then None
    else
      var number := DropLeadingZeros(t[7..]);
      if number == "" then None
      else
        Joins(t[..6], number);
        Some(t[..6] + "-" + number)
  }

  /** The values a `DateId` object can hold. */
  predicate IsCanonical(id: string) {
    && 8 <= |id| <= 7 + MAX_INT_DIGITS
    && IsDatePart(id[..6]) && id[6] == '-' && AllDigits(id[7..]) && id[7] != '0'
  }

  lemma Joins(d: string, n: string)
    requires |d| == 6
    ensures var id := d + "-" + n; id[..6] == d && id[6] == '-' && id[7..] == n
  {
  }

  lemma Rejoins(s: string)
    requires |s| > 6 && s[6] == '-'
    ensures s[..6] + "-" + s[7..] == s
  {
  }

  lemma NoLeadingZero(s: string)
    requires s == "" || s[0] != '0'
    ensures DropLeadingZeros(s) == s
  {
  }

  lemma {:induction false} ParseTrimmedCanonical(id: string)
    requires IsCanonical(id)
    ensures ParseTrimmed(id) == Some(id)
  {
    var number := id[7..];
    NoLeadingZero(number);
    Rejoins(id);
  }

  /** Canonical values are fixed points of the constructor, so they print and parse unchanged. */
  lemma {:induction false} CanonicalIsFixpoint(id: string)
    requires IsCanonical(id)
    ensures CanonicalDateId(id) == Some(id)
  {
    CanonicalCharacters(id);
    ParseTrimmedCanonical(id);
  }

  lemma {:induction false} CanonicalCharacters(id: string)
    requires IsCanonical(id)
    ensures forall i | 0 <= i < |id| :: if i == 6 then id[i] == '-' else IsDigit(id[i])
    ensures id != "" && Strip(id) == id && SingleLine(id) && ']' !in id
  {
    forall i | 0 <= i < |id| ensures if i == 6 then id[i] == '-' else IsDigit(id[i]) {
      if i < 6 { assert id[..6][i] == id[i]; }
      if i > 6 { assert id[7..][i - 7] == id[i]; }
    }
  }

  lemma {:induction false} ZerosDropped(s: string, k: nat)
    requires k < |s| && (forall i | 0 <= i < k :: s[i] == '0') && s[k] != '0'
    ensures DropLeadingZeros(s) == s[k..]
  {
    if k > 0 {
      ZerosDropped(s[1..], k - 1);
    }
  }

  lemma {:induction false} OnlyZerosDropped(s: string)
    ensures forall i | 0 <= i < |s| - |DropLeadingZeros(s)| :: s[i] == '0'
  {
    if s != "" && s[0] == '0' {
      OnlyZerosDropped(s[1..]);
      forall i | 0 <= i < |s| - |DropLeadingZeros(s)| ensures s[i] == '0' {
        if i > 0 { assert s[1..][i - 1] == s[i]; }
      }
    }
  }

  /** The text is the id with `k` more zeros before its number. */
  predicate Spells(t: string, id: string, k: nat)
    requires IsCanonical(id)
  {
    && |t| == |id| + k <= 7 + MAX_INT_DIGITS
    && t[..7] == id[..7] && t[7 + k..] == id[7..] && forall i | 7 <= i < 7 + k :: t[i] == '0'
  }

  /** A token is accepted exactly when, stripped, it spells a canonical id, and it then stands for that id. */
  lemma {:induction false} AcceptedTokensExactly(token: string, id: string)
    ensures CanonicalDateId(token) == Some(id) <==> IsCanonical(id) && exists k :: Spells(Strip(token), id, k)
  {
    hide ParseTrimmed, IsCanonical, Spells;
    var t := Strip(token);
    if ParseTrimmed(t) == Some(id) {
      var k := SpelledBy(t, id);
    }
    if IsCanonical(id) && exists k :: Spells(t, id, k) {
      var k :| Spells(t, id, k);
      SpelledParses(t, id, k);
    }
  }

  lemma {:induction false} SpelledBy(t: string, id: string) returns (k: nat)
    requires ParseTrimmed(t) == Some(id)
    ensures IsCanonical(id) && Spells(t, id, k)
  {
    hide IsDatePart, AllDigits, DropLeadingZeros;
    var tail := t[7..];
    var n := DropLeadingZeros(tail);
    OnlyZerosDropped(tail);
    Joins(t[..6], n);
    Rejoins(t);
    k := |tail| - |n|;
    forall i | 7 <= i < 7 + k ensures t[i] == '0' { assert tail[i - 7] == '0'; }
    assert t[7 + k..] == tail[k..] == n;
    assert t[..7] == t[..6] + "-" && id[..7] == t[..6] + "-";
  }

  lemma {:induction false} SpelledParses(t: string, id: string, k: nat)
    requires IsCanonical(id) && Spells(t, id, k)
    ensures ParseTrimmed(t) == Some(id)
  {
    hide IsDatePart, DropLeadingZeros;
    var tail, n := t[7..], id[7..];
    assert t[..6] == t[..7][..6] == id[..7][..6] == id[..6];
    assert t[6] == t[..7][6] == id[..7][6] == '-';
    assert tail[k..] == n && tail[k] == id[7];
    forall i | 0 <= i < |tail| ensures IsDigit(tail[i]) {
      assert tail[i] == t[i + 7];
      if i >= k { assert tail[i] == n[i - k]; }
    }
    ZerosDropped(tail, k);
    Rejoins(id);
  }

  /** Days of an ordinary year before its `n`th month, counted from zero. */
  const DAYS_BEFORE: seq<nat> := [0, 31, 59, 90, 120, 151, 181, 212, 243, 273, 304, 334, 365]

  /** The leap day falls before the third month of every fourth year, so before the months counted from two. */
  function DaysBefore(yy: nat, n: nat): nat
    requires n <= 12
  {
    DAYS_BEFORE[n] + if n >= 2 && yy % 4 == 0 then 1 else 0
  }

  /** The months fill the year: each begins where the one before it ends. */
  lemma {:induction false} MonthsFillYear(yy: nat, mm: nat)
    requires 1 <= mm <= 12
    ensures DaysBefore(yy, mm) == DaysBefore(yy, mm - 1) + DaysInMonth(yy, mm)
    ensures DaysBefore(yy, 12) == if yy % 4 == 0 then 366 else 365
  {
    if mm <= 4 {
      assert mm == 1 || mm == 2 || mm == 3 || mm == 4;
    } else if mm <= 8 {
      assert mm == 5 || mm == 6 || mm == 7 || mm == 8;
    } else {
      assert mm == 9 || mm == 10 || mm == 11 || mm == 12;
    }
  }
}
