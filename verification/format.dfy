/** The small formatters of the bot: `YearMonth.String` (util/time.go),
    `GetFloatFormatter` (util/money.go), `offsetToGMT` and the time zone name
    built in `setTimeZone` (handler/messsage_handler.go), and
    `removeNonNumeric` (handler/callback_handler.go). */
module Format {
  import opened Wrappers
  import opened Text
  import Int64

  // ---------------------------------------------------------------------
  // YearMonth.String

  /** A calendar month of a year; `month` is Go's `time.Month` (1 to 12 when
      it comes from the clock, but any `int` is representable). */
  datatype YearMonth = YearMonth(month: int, year: int)

  /** `YearMonth.String` as written: rejects a layout lacking `"2006"` or
      `"01"`, then replaces every `"2006"` by the year and afterwards every
      `"01"` of the result by the zero-padded month. */
  function YearMonthString(ym: YearMonth, layout: string): (r: Result<string>)
    ensures r.Err? <==> !Contains(layout, "2006") || !Contains(layout, "01")
    ensures r.Err? ==> r.reason == "invalid layout " + layout
  {
    if !Contains(layout, "2006") || !Contains(layout, "01") then
      Err("invalid layout " + layout)
    else
      var withYear := ReplaceAll(layout, "2006", Itoa(ym.year));
      Ok(ReplaceAll(withYear, "01", PadTwo(ym.month)))
  }

  /** An occurrence anywhere makes `Contains` true. */
  lemma OccursContains(s: string, key: string, p: nat)
    requires OccursAt(s, key, p)
    ensures Contains(s, key)
  {
  }

  /** The month marker, character by character. */
  lemma MonthMarkAt(s: string, i: nat)
    ensures OccursAt(s, "01", i) <==> i + 2 <= |s| && s[i] == '0' && s[i + 1] == '1'
  {
    if i + 2 <= |s| {
      var w := s[i..i + 2];
      assert w[0] == s[i] && w[1] == s[i + 1];
      if s[i] == '0' && s[i + 1] == '1' {
        assert w == "01";
      }
    }
  }

  /** The year marker, character by character. */
  lemma YearMarkAt(s: string, i: nat)
    ensures OccursAt(s, "2006", i) <==>
              i + 4 <= |s| && s[i] == '2' && s[i + 1] == '0' && s[i + 2] == '0' && s[i + 3] == '6'
  {
    if i + 4 <= |s| {
      var w := s[i..i + 4];
      assert w[0] == s[i] && w[1] == s[i + 1] && w[2] == s[i + 2] && w[3] == s[i + 3];
      if s[i] == '2' && s[i + 1] == '0' && s[i + 2] == '0' && s[i + 3] == '6' {
        assert w == "2006";
      }
    }
  }

  /** `2006-01`, spelled as its two halves. */
  lemma StandardLayout()
    ensures "2006-01" == "2006" + "-01"
    ensures "-01" == "-" + "01"
    ensures Contains("2006-01", "2006") && Contains("2006-01", "01")
  {
    YearMarkAt("2006-01", 0);
    OccursContains("2006-01", "2006", 0);
    MonthMarkAt("2006-01", 5);
    OccursContains("2006-01", "01", 5);
  }

  /** The first pass leaves the year text followed by `-01`. */
  lemma YearPass(y: string)
    ensures ReplaceAll("2006-01", "2006", y) == y + "-01"
  {
    StandardLayout();
    YearMarkAt("2006-01", 0);
    ReplaceAllMatch("2006-01", "2006", y);
    assert ("2006" + "-01")[4..] == "-01";
  }

  /** The month pass over `01` and over `-01`. */
  lemma MonthPassTail(m: string)
    ensures ReplaceAll("01", "01", m) == m
    ensures ReplaceAll("-01", "01", m) == "-" + m
  {
    StandardLayout();
    MonthMarkAt("01", 0);
    ReplaceAllMatch("01", "01", m);
    assert "01"[2..] == [];
    MonthMarkAt("-" + "01", 0);
    ReplaceAllSkip("-", "01", "01", m);
  }

  /** The decimal text of a four-digit year. */
  lemma FourDigitYear(n: int)
    requires 1000 <= n < 10000
    ensures Itoa(n) == [DigitChar(n / 1000), DigitChar(n / 100 % 10), DigitChar(n / 10 % 10), DigitChar(n % 10)]
  {
    assert NatToString(n) == NatToString(n / 10) + [DigitChar(n % 10)];
    assert NatToString(n / 10) == NatToString(n / 100) + [DigitChar(n / 10 % 10)];
    assert NatToString(n / 100) == NatToString(n / 1000) + [DigitChar(n / 100 % 10)];
    assert NatToString(n / 1000) == [DigitChar(n / 1000)];
  }

  /** For the layout `2006-01` the as-written code is right whenever the
      year's digits do not contain `"01"`. */
  lemma YearMonthStringNoZeroOne(ym: YearMonth)
    requires !Contains(Itoa(ym.year), "01")
    ensures YearMonthString(ym, "2006-01") == Ok(Itoa(ym.year) + "-" + PadTwo(ym.month))
  {
    var y := Itoa(ym.year);
    var m := PadTwo(ym.month);
    StandardLayout();
    YearPass(y);
    forall j | 0 <= j < |y|
      ensures !OccursAt(y + "-01", "01", j)
    {
      MonthMarkAt(y + "-01", j);
      if j + 2 <= |y| {
        MonthMarkAt(y, j);
      } else {
        assert (y + "-01")[j + 1] == '-';
      }
    }
    ReplaceAllSkip(y, "-01", "01", m);
    MonthPassTail(m);
    assert y + ("-" + m) == y + "-" + m;
  }

  /** The reference example: November 2022 in the layout `2006-01`. */
  lemma YearMonthStringExample()
    ensures YearMonthString(YearMonth(11, 2022), "2006-01") == Ok("2022-11")
  {
    var y := Itoa(2022);
    FourDigitYear(2022);
    assert y == "2022";
    forall j | 0 <= j <= |y|
      ensures !OccursAt(y, "01", j)
    {
      MonthMarkAt(y, j);
    }
    YearMonthStringNoZeroOne(YearMonth(11, 2022));
    assert PadTwo(11) == "11";
    assert "2022" + "-" + "11" == "2022-11";
  }

  /** The year is substituted first, so an `"01"` inside the year text is
      taken for the month as well: March 2001 comes out as `2003-03`. */
  lemma YearMonthStringCorruptsYear()
    ensures YearMonthString(YearMonth(3, 2001), "2006-01") == Ok("2003-03")
  {
    StandardLayout();
    MarchTwoThousandOne();
    YearPass("2001");
    MonthPassOverYear();
  }

  /** The texts of the counterexample's year and month. */
  lemma MarchTwoThousandOne()
    ensures Itoa(2001) == "2001" && PadTwo(3) == "03"
  {
    FourDigitYear(2001);
  }

  /** The month pass over `2001-01` rewrites the year's `01` too. */
  lemma MonthPassOverYear()
    ensures ReplaceAll("2001" + "-01", "01", "03") == "2003-03"
  {
    var s := "20" + ("01" + "-01");
    assert "2001" + "-01" == s;
    MonthMarkAt(s, 0);
    MonthMarkAt(s, 1);
    ReplaceAllSkip("20", "01" + "-01", "01", "03");
    MonthPassTwice();
    assert "20" + "03-03" == "2003-03";
  }

  /** The month pass over `01-01`. */
  lemma MonthPassTwice()
    ensures ReplaceAll("01" + "-01", "01", "03") == "03-03"
  {
    MonthMarkAt("01" + "-01", 0);
    ReplaceAllMatch("01" + "-01", "01", "03");
    assert ("01" + "-01")[2..] == "-01";
    MonthPassTail("03");
    assert "03" + ("-" + "03") == "03-03";
  }

  /** The substitution the layout evidently intends: one left-to-right pass
      in which each `"2006"` becomes the year and each `"01"` of the layout
      itself becomes the month; substituted text is never rescanned. */
  function Substitute(layout: string, year: string, month: string): string
    decreases |layout|
  {
    if |layout| == 0 then ""
    else if OccursAt(layout, "2006", 0) then year + Substitute(layout[4..], year, month)
    else if OccursAt(layout, "01", 0) then month + Substitute(layout[2..], year, month)
    else [layout[0]] + Substitute(layout[1..], year, month)
  }

  /** `YearMonth.String` with the single-pass substitution. */
  function YearMonthStringFixed(ym: YearMonth, layout: string): (r: Result<string>)
    ensures r.Err? <==> !Contains(layout, "2006") || !Contains(layout, "01")
  {
    if !Contains(layout, "2006") || !Contains(layout, "01") then
      Err("invalid layout " + layout)
    else
      Ok(Substitute(layout, Itoa(ym.year), PadTwo(ym.month)))
  }

  /** With the single pass, `2006-01` gives the year, a dash and the padded
      month for every year and month. */
  lemma YearMonthStringFixedLayout(ym: YearMonth)
    ensures YearMonthStringFixed(ym, "2006-01") == Ok(Itoa(ym.year) + "-" + PadTwo(ym.month))
  {
    var y := Itoa(ym.year);
    var m := PadTwo(ym.month);
    StandardLayout();
    SubstituteYearFirst(y, m);
    SubstituteMonthTail(y, m);
    assert y + ("-" + m) == y + "-" + m;
  }

  /** The single pass replaces the leading `2006` and continues after it. */
  lemma SubstituteYearFirst(y: string, m: string)
    ensures Substitute("2006-01", y, m) == y + Substitute("-01", y, m)
  {
    StandardLayout();
    YearMarkAt("2006-01", 0);
    assert ("2006" + "-01")[4..] == "-01";
  }

  /** The single pass over `-01` keeps the dash and replaces `01`. */
  lemma SubstituteMonthTail(y: string, m: string)
    ensures Substitute("-01", y, m) == "-" + m
  {
    YearMarkAt("-01", 0);
    MonthMarkAt("-01", 0);
    assert "-01"[1..] == "01";
    YearMarkAt("01", 0);
    MonthMarkAt("01", 0);
    assert "01"[2..] == [];
    assert Substitute("01", y, m) == m + "";
  }


  /** On the year of the counterexample the two versions differ. */
  lemma YearMonthStringFixedDiffers()
    ensures YearMonthStringFixed(YearMonth(3, 2001), "2006-01") == Ok("2001-03")
    ensures YearMonthString(YearMonth(3, 2001), "2006-01") != YearMonthStringFixed(YearMonth(3, 2001), "2006-01")
  {
    MarchTwoThousandOne();
    YearMonthStringFixedLayout(YearMonth(3, 2001));
    YearMonthStringCorruptsYear();
    assert "2001" + "-" + "03" == "2001-03";
    assert "2001-03"[3] != "2003-03"[3];
  }


  // ---------------------------------------------------------------------
  // GetFloatFormatter

  /** The `fmt` verb for a currency with `fraction` minor digits: `%f` when the
      fraction is 0, otherwise `%.` followed by the fraction and `f`. */
  function FloatFormatter(fraction: int): (r: string)
    ensures |r| >= 2 && r[0] == '%' && r[|r| - 1] == 'f'
    ensures fraction == 0 <==> r == "%f"
    ensures fraction != 0 ==> r[..2] == "%." && r[2..|r| - 1] == Itoa(fraction)
  {
    if fraction == 0 then "%f" else "%." + Itoa(fraction) + "f"
  }

  /** Different fractions give different verbs. */
  lemma FloatFormatterInjective(a: int, b: int)
    requires FloatFormatter(a) == FloatFormatter(b)
    ensures a == b
  {
    if a != 0 && b != 0 {
      ItoaInjective(a, b);
    }
  }

  lemma FloatFormatterExample()
    ensures FloatFormatter(2) == "%.2f"
    ensures FloatFormatter(0) == "%f"
  {
  }

  // ---------------------------------------------------------------------
  // Time zone offsets

  /** `offsetToGMT`: `GMT` followed by the offset with its sign always printed. */
  function OffsetToGMT(offset: int): (r: string)
    ensures |r| >= 5 && r[..3] == "GMT"
    ensures r[3] == (if offset >= 0 then '+' else '-')
    ensures r[4..] == NatToString(if offset >= 0 then offset else -offset)
  {
    "GMT" + SignedItoa(offset)
  }

  lemma OffsetToGMTInjective(a: int, b: int)
    requires OffsetToGMT(a) == OffsetToGMT(b)
    ensures a == b
  {
    var ra, rb := OffsetToGMT(a), OffsetToGMT(b);
    assert ra[4..] == rb[4..];
    NatToStringInjective(if a >= 0 then a else -a, if b >= 0 then b else -b);
  }

  lemma OffsetToGMTExamples()
    ensures OffsetToGMT(0) == "GMT+0"
    ensures OffsetToGMT(8) == "GMT+8"
    ensures OffsetToGMT(-5) == "GMT-5"
  {
  }

  /** The zone name `setTimeZone` asks the tz database for: `Etc/GMT` and the
      negated offset (64-bit negation), because the `Etc/GMT` zones count
      their sign the POSIX way, west of Greenwich positive. */
  function TzName(offset: int): (r: string)
    ensures |r| >= 9 && r[..7] == "Etc/GMT"
    ensures Int64.InRange(offset) && offset != Int64.Min ==>
              r[7] == (if offset <= 0 then '+' else '-')
              && r[8..] == NatToString(if offset >= 0 then offset else -offset)
  {
    "Etc/GMT" + SignedItoa(Int64.Wrap(-1 * offset))
  }

  /** The zone name carries the label's number with the opposite sign. */
  lemma TzNameMirrorsLabel(offset: int)
    requires Int64.InRange(offset) && offset != 0 && offset != Int64.Min
    ensures TzName(offset)[8..] == OffsetToGMT(offset)[4..]
    ensures TzName(offset)[7] != OffsetToGMT(offset)[3]
  {
  }

  lemma TzNameExamples()
    ensures TzName(8) == "Etc/GMT-8"
    ensures TzName(-5) == "Etc/GMT+5"
    ensures TzName(0) == "Etc/GMT+0"
  {
  }

  // ---------------------------------------------------------------------
  // removeNonNumeric

  /** The ASCII digits of `s`, in order (the reference definition). */
  function DigitsOf(s: string): (r: string)
    ensures AllDigits(r) && |r| <= |s|
    decreases |s|
  {
    if |s| == 0 then ""
    else DigitsOf(s[..|s| - 1]) + (if IsDigit(s[|s| - 1]) then [s[|s| - 1]] else "")
  }

  /** `removeNonNumeric`: the loop over the string's runes that keeps `0`..`9`. */
  method RemoveNonNumeric(s: string) returns (r: string)
    ensures r == DigitsOf(s)
  {
    r := "";
    var i := 0;
    while i < |s|
      invariant 0 <= i <= |s|
      invariant r == DigitsOf(s[..i])
    {
      var ch := s[i];
      assert s[..i + 1][..i] == s[..i];
      if '0' <= ch <= '9' {
        r := r + [ch];
      }
      i := i + 1;
    }
    assert s[..|s|] == s;
  }

  /** Filtering distributes over concatenation, so the digits keep their order. */
  lemma {:induction false} DigitsOfAppend(a: string, b: string)
    ensures DigitsOf(a + b) == DigitsOf(a) + DigitsOf(b)
    decreases |b|
  {
    if |b| > 0 {
      var b' := b[..|b| - 1];
      assert (a + b)[..|a + b| - 1] == a + b';
      DigitsOfAppend(a, b');
    } else {
      assert a + b == a;
    }
  }

  /** A string of digits is kept whole; in particular filtering twice is filtering once. */
  lemma {:induction false} DigitsOfDigits(s: string)
    requires AllDigits(s)
    ensures DigitsOf(s) == s
    decreases |s|
  {
    if |s| > 0 {
      DigitsOfDigits(s[..|s| - 1]);
      assert s[..|s| - 1] + [s[|s| - 1]] == s;
    }
  }

  lemma DigitsOfIdempotent(s: string)
    ensures DigitsOf(DigitsOf(s)) == DigitsOf(s)
  {
    DigitsOfDigits(DigitsOf(s));
  }

  /** Every digit of the input is kept, every other character (a minus sign,
      the decimal point, a thousands separator) is dropped. */
  lemma {:induction false} DigitsOfCounts(s: string, c: char)
    ensures multiset(DigitsOf(s))[c] == if IsDigit(c) then multiset(s)[c] else 0
    decreases |s|
  {
    if |s| > 0 {
      var p := s[..|s| - 1];
      DigitsOfCounts(p, c);
      assert s == p + [s[|s| - 1]];
    }
  }

  lemma DigitsOfExample()
    ensures DigitsOf("-12.50") == "1250"
  {
    assert "-12.50"[..5] == "-12.5";
    assert "-12.5"[..4] == "-12.";
    assert "-12."[..3] == "-12";
    assert "-12"[..2] == "-1";
    assert "-1"[..1] == "-";
    assert "-"[..0] == "";
  }
}
