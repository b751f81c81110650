/** The parts of Go's `strings`, `strconv`, `unicode` and `fmt` packages that
    the bot's logic relies on, written over `seq<char>`. */
module Text {
  import opened Wrappers

  predicate IsDigit(c: char) {
    '0' <= c <= '9'
  }

  /** Go's `unicode.IsSpace`: the Latin-1 spaces plus the Unicode `Z` spaces. */
  predicate IsSpace(c: char) {
    ('\U{9}' <= c <= '\U{D}') || c == ' ' || c == '\U{85}' || c == '\U{A0}'
    || c == '\U{1680}' || ('\U{2000}' <= c <= '\U{200A}')
    || c == '\U{2028}' || c == '\U{2029}' || c == '\U{202F}' || c == '\U{205F}' || c == '\U{3000}'
  }

  /** Number of bytes `c` takes in UTF-8, which is what Go's `len` counts. */
  function CharBytes(c: char): (n: nat)
    ensures 1 <= n <= 4
    ensures n == 1 <==> c < '\U{80}'
  {
    if c < '\U{80}' then 1
    else if c < '\U{800}' then 2
    else if c < '\U{10000}' then 3
    else 4
  }

  /** Go's `len(s)` for a string: its length in UTF-8 bytes. */
  function Utf8Len(s: string): (n: nat)
    ensures n >= |s|
    ensures |s| == 0 <==> n == 0
  {
    if |s| == 0 then 0 else CharBytes(s[0]) + Utf8Len(s[1..])
  }

  predicate IsAscii(s: string) {
    forall i :: 0 <= i < |s| ==> s[i] < '\U{80}'
  }

  lemma {:induction false} Utf8LenAppend(a: string, b: string)
    ensures Utf8Len(a + b) == Utf8Len(a) + Utf8Len(b)
  {
    if |a| == 0 {
      assert a + b == b;
    } else {
      assert (a + b)[1..] == a[1..] + b;
      Utf8LenAppend(a[1..], b);
    }
  }

  lemma AsciiAppend(a: string, b: string)
    requires IsAscii(a) && IsAscii(b)
    ensures IsAscii(a + b)
  {
    assert forall i :: 0 <= i < |a + b| ==> (a + b)[i] == if i < |a| then a[i] else b[i - |a|];
  }

  lemma {:induction false} AsciiUtf8Len(s: string)
    requires IsAscii(s)
    ensures Utf8Len(s) == |s|
  {
    if |s| > 0 {
      AsciiUtf8Len(s[1..]);
    }
  }

  /** `n` copies of a space, Go's `strings.Repeat(" ", n)`. */
  function Spaces(n: nat): (r: string)
    ensures |r| == n
    ensures forall i :: 0 <= i < |r| ==> r[i] == ' '
  {
    seq(n, _ => ' ')
  }

  lemma SpacesUtf8Len(n: nat)
    ensures Utf8Len(Spaces(n)) == n
  {
    AsciiUtf8Len(Spaces(n));
  }

  // ---------------------------------------------------------------------
  // Searching

  predicate OccursAt(s: string, key: string, i: nat) {
    i + |key| <= |s| && s[i..i + |key|] == key
  }

  /** Go's `strings.Index`: the first position where `key` occurs in `s`, or
      `None` where Go returns -1. An empty key occurs at 0. */
  function IndexOf(s: string, key: string): (r: Option<nat>)
    ensures r.Some? ==> OccursAt(s, key, r.value)
    ensures r.Some? ==> forall j :: 0 <= j < r.value ==> !OccursAt(s, key, j)
    ensures r.None? ==> forall j :: 0 <= j <= |s| ==> !OccursAt(s, key, j)
  {
    IndexFrom(s, key, 0)
  }

  function IndexFrom(s: string, key: string, from: nat): (r: Option<nat>)
    requires from <= |s| + 1
    requires forall j :: 0 <= j < from ==> !OccursAt(s, key, j)
    ensures r.Some? ==> OccursAt(s, key, r.value)
    ensures r.Some? ==> forall j :: 0 <= j < r.value ==> !OccursAt(s, key, j)
    ensures r.None? ==> forall j :: 0 <= j <= |s| ==> !OccursAt(s, key, j)
    decreases |s| + 1 - from
  {
    if from + |key| > |s| then None
    else if s[from..from + |key|] == key then Some(from)
    else IndexFrom(s, key, from + 1)
  }

  /** Go's `strings.Contains`. */
  predicate Contains(s: string, key: string) {
    IndexOf(s, key).Some?
  }

  lemma ContainsIff(s: string, key: string)
    ensures Contains(s, key) <==> exists j :: 0 <= j <= |s| && OccursAt(s, key, j)
  {
  }

  /** Go's `strings.ReplaceAll` for a non-empty `pat`: every non-overlapping
      occurrence, scanning left to right, is replaced by `repl`. */
  function ReplaceAll(s: string, pat: string, repl: string): string
    requires |pat| > 0
    decreases |s|
  {
    if |s| < |pat| then s
    else if s[..|pat|] == pat then repl + ReplaceAll(s[|pat|..], pat, repl)
    else [s[0]] + ReplaceAll(s[1..], pat, repl)
  }

  /** Text in which `pat` does not occur comes back unchanged. */
  lemma ReplaceAllAbsent(s: string, pat: string, repl: string)
    requires |pat| > 0
    requires forall j :: 0 <= j <= |s| ==> !OccursAt(s, pat, j)
    ensures ReplaceAll(s, pat, repl) == s
  {
    assert s + "" == s;
    ReplaceAllSkip(s, "", pat, repl);
  }

  /** An occurrence at the front is replaced and scanning resumes after it. */
  lemma ReplaceAllMatch(s: string, pat: string, repl: string)
    requires |pat| > 0 && OccursAt(s, pat, 0)
    ensures ReplaceAll(s, pat, repl) == repl + ReplaceAll(s[|pat|..], pat, repl)
  {
  }

  /** A prefix in which no occurrence of `pat` starts is copied unchanged. */
  lemma {:induction false} ReplaceAllSkip(a: string, b: string, pat: string, repl: string)
    requires |pat| > 0
    requires forall j :: 0 <= j < |a| ==> !OccursAt(a + b, pat, j)
    ensures ReplaceAll(a + b, pat, repl) == a + ReplaceAll(b, pat, repl)
    decreases |a|
  {
    if |a| == 0 {
      assert a + b == b;
    } else if |a + b| < |pat| {
      assert ReplaceAll(b, pat, repl) == b;
    } else {
      NoOccurrenceShift(a, b, pat);
      ReplaceAllSkip(a[1..], b, pat, repl);
      ReplaceAllCopy(a, b, pat, repl);
      var t := ReplaceAll(b, pat, repl);
      assert [a[0]] + (a[1..] + t) == a + t;
    }
  }

  lemma NoOccurrenceShift(a: string, b: string, pat: string)
    requires |a| > 0
    requires forall j :: 0 <= j < |a| ==> !OccursAt(a + b, pat, j)
    ensures forall j :: 0 <= j < |a| - 1 ==> !OccursAt(a[1..] + b, pat, j)
  {
    var s := a + b;
    assert s[1..] == a[1..] + b;
    forall j | 0 <= j < |a| - 1
      ensures !OccursAt(a[1..] + b, pat, j)
    {
      assert !OccursAt(s, pat, j + 1);
    }
  }

  /** One step of the scan: a character that does not start `pat` is copied. */
  lemma ReplaceAllCopy(a: string, b: string, pat: string, repl: string)
    requires |pat| > 0 && |a| > 0 && |a + b| >= |pat| && !OccursAt(a + b, pat, 0)
    ensures ReplaceAll(a + b, pat, repl) == [a[0]] + ReplaceAll(a[1..] + b, pat, repl)
  {
    assert (a + b)[1..] == a[1..] + b;
  }

  /** Go's `strings.TrimSpace`: drops the leading and trailing white space. */
  function TrimSpace(s: string): (r: string)
    ensures exists i, j ::
              && 0 <= i <= j <= |s| && r == s[i..j]
              && (forall k :: 0 <= k < i ==> IsSpace(s[k]))
              && (forall k :: j <= k < |s| ==> IsSpace(s[k]))
    ensures |r| > 0 ==> !IsSpace(r[0]) && !IsSpace(r[|r| - 1])
  {
    var i := LeadingSpaces(s, 0);
    var j := TrailingEnd(s, i, |s|);
    assert (forall k :: 0 <= k < i ==> IsSpace(s[k])) && (forall k :: j <= k < |s| ==> IsSpace(s[k]));
    s[i..j]
  }

  function LeadingSpaces(s: string, i: nat): (k: nat)
    requires i <= |s|
    requires forall m :: 0 <= m < i ==> IsSpace(s[m])
    ensures i <= k <= |s|
    ensures forall m :: 0 <= m < k ==> IsSpace(s[m])
    ensures k < |s| ==> !IsSpace(s[k])
    decreases |s| - i
  {
    if i < |s| && IsSpace(s[i]) then LeadingSpaces(s, i + 1) else i
  }

  function TrailingEnd(s: string, lo: nat, j: nat): (k: nat)
    requires lo <= j <= |s|
    requires lo < |s| ==> !IsSpace(s[lo])
    requires forall m :: j <= m < |s| ==> IsSpace(s[m])
    ensures lo <= k <= j
    ensures forall m :: k <= m < |s| ==> IsSpace(s[m])
    ensures k > lo ==> !IsSpace(s[k - 1])
    ensures k == lo ==> lo == |s| || k == j
    decreases j - lo
  {
    if j > lo && IsSpace(s[j - 1]) then TrailingEnd(s, lo, j - 1) else j
  }

  // ---------------------------------------------------------------------
  // Decimal rendering

  function DigitChar(d: nat): (c: char)
    requires d < 10
    ensures IsDigit(c)
  {
    ('0' as int + d) as char
  }

  function DigitValue(c: char): (d: nat)
    requires IsDigit(c)
    ensures d < 10
  {
    c as int - '0' as int
  }

  predicate AllDigits(s: string) {
    forall i :: 0 <= i < |s| ==> IsDigit(s[i])
  }

  /** Decimal digits of a natural number, without leading zeros. */
  function NatToString(n: nat): (r: string)
    ensures |r| > 0 && AllDigits(r)
    ensures |r| > 1 ==> r[0] != '0'
    decreases n
  {
    if n < 10 then [DigitChar(n)] else NatToString(n / 10) + [DigitChar(n % 10)]
  }

  /** The value of a string of decimal digits (the reading side of `NatToString`). */
  function DigitsValue(s: string): nat
    requires AllDigits(s)
  {
    if |s| == 0 then 0 else 10 * DigitsValue(s[..|s| - 1]) + DigitValue(s[|s| - 1])
  }

  lemma {:induction false} NatToStringRoundTrip(n: nat)
    ensures DigitsValue(NatToString(n)) == n
    decreases n
  {
    var r := NatToString(n);
    if n >= 10 {
      NatToStringRoundTrip(n / 10);
      assert r[..|r| - 1] == NatToString(n / 10);
    }
  }

  lemma NatToStringInjective(a: nat, b: nat)
    requires NatToString(a) == NatToString(b)
    ensures a == b
  {
    NatToStringRoundTrip(a);
    NatToStringRoundTrip(b);
  }

  lemma {:induction false} NatToStringLength(n: nat, k: nat)
    requires n < Pow10(k)
    ensures |NatToString(n)| <= if k == 0 then 1 else k
    decreases n
  {
    if n >= 10 {
      assert k >= 2 by { Pow10Small(k); }
      NatToStringLength(n / 10, k - 1);
    }
  }

  function Pow10(k: nat): (p: nat)
    ensures p >= 1
  {
    if k == 0 then 1 else 10 * Pow10(k - 1)
  }

  lemma Pow10Small(k: nat)
    ensures k <= 1 ==> Pow10(k) <= 10
  {
  }

  /** Go's `strconv.Itoa` (and `%d`, `%v` on an integer). */
  function Itoa(n: int): (r: string)
    ensures |r| > 0
    ensures n >= 0 ==> AllDigits(r)
    ensures n < 0 ==> r[0] == '-' && AllDigits(r[1..])
  {
    if n >= 0 then NatToString(n) else "-" + NatToString(-n)
  }

  lemma ItoaInjective(a: int, b: int)
    requires Itoa(a) == Itoa(b)
    ensures a == b
  {
    if a >= 0 && b >= 0 {
      NatToStringInjective(a, b);
    } else if a < 0 && b < 0 {
      assert Itoa(a)[1..] == NatToString(-a);
      assert Itoa(b)[1..] == NatToString(-b);
      NatToStringInjective(-a, -b);
    }
  }

  lemma ItoaAscii(n: int)
    ensures IsAscii(Itoa(n))
  {
  }

  /** Go's `%+d`: the sign is always printed, so 0 is rendered `+0`. */
  function SignedItoa(n: int): (r: string)
    ensures |r| >= 2 && (r[0] == '+' || r[0] == '-')
    ensures r[0] == '+' <==> n >= 0
    ensures AllDigits(r[1..])
    ensures r[1..] == NatToString(if n >= 0 then n else -n)
  {
    if n >= 0 then "+" + NatToString(n) else "-" + NatToString(-n)
  }

  /** Go's `%02d`: zero-padded to width two; the sign counts towards the width. */
  function PadTwo(n: int): (r: string)
    ensures |r| >= 2
    ensures 0 <= n < 10 ==> r == ['0', DigitChar(n)]
    ensures !(0 <= n < 10) ==> r == Itoa(n)
  {
    if 0 <= n < 10 then "0" + NatToString(n) else Itoa(n)
  }
}
