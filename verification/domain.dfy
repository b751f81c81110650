/** The report and listing logic of the domain package: the monthly summary
    report (domain/stat.go) and transactions and category breakdowns
    (domain/transaction.go). Money `Display` and time formatting are left
    uninterpreted: rendered lines keep amounts as integers of minor units,
    and the HTML wrapping of each line is not spelt out. */
module Domain {
  import opened Wrappers
  import opened Text
  import Int64

  // ---------------------------------------------------------------------
  // Longest label

  /** The greatest byte length (Go's `len`) among `names`, 0 when there are none. */
  function Longest(names: seq<string>): (n: nat)
    ensures forall i :: 0 <= i < |names| ==> Utf8Len(names[i]) <= n
    ensures |names| == 0 ==> n == 0
  {
    if |names| == 0 then 0
    else
      var m := Longest(names[..|names| - 1]);
      var l := Utf8Len(names[|names| - 1]);
      if l > m then l else m
  }

  /** The maximum is reached: some name is exactly that long. */
  lemma {:induction false} LongestAttained(names: seq<string>)
    requires |names| > 0
    ensures exists i :: 0 <= i < |names| && Utf8Len(names[i]) == Longest(names)
  {
    var k := |names| - 1;
    if Utf8Len(names[k]) <= Longest(names[..k]) && k > 0 {
      LongestAttained(names[..k]);
      var i :| 0 <= i < k && Utf8Len(names[..k][i]) == Longest(names[..k]);
      assert names[..k][i] == names[i];
    }
  }

  /** The scan both `GetLongestLabelLength` and the breakdown formatter run:
      keep the running maximum of the byte lengths. */
  method LongestLength(names: seq<string>) returns (n: nat)
    ensures n == Longest(names)
  {
    n := 0;
    for i := 0 to |names|
      invariant n == Longest(names[..i])
    {
      assert names[..i + 1][..i] == names[..i];
      var l := Utf8Len(names[i]);
      if l > n {
        n := l;
      }
    }
    assert names[..|names|] == names;
  }

  /** `GetPaddedSpacesForLabel`: the spaces that bring `text` to `width`
      bytes. `strings.Repeat` panics on a negative count, which is `None`. */
  function PaddedSpaces(text: string, width: int): (r: Option<string>)
    ensures r.Some? <==> width >= Utf8Len(text)
    ensures r.Some? ==> Utf8Len(text + r.value) == width
    ensures r.Some? ==> forall i :: 0 <= i < |r.value| ==> r.value[i] == ' '
  {
    if width >= Utf8Len(text) then
      var pad := Spaces(width - Utf8Len(text));
      SpacesUtf8Len(width - Utf8Len(text));
      Utf8LenAppend(text, pad);
      Some(pad)
    else None
  }

  // ---------------------------------------------------------------------
  // Monthly report

  /** One row of the monthly statistics. `month` is a Go `time.Month`, an
      integer that need not lie in 1..12. */
  datatype MonthlySummary = MonthlySummary(month: int, year: int, amount: int, typeLabel: string, multiplier: int)

  function Labels(s: seq<MonthlySummary>): (r: seq<string>)
    ensures |r| == |s|
    ensures forall i :: 0 <= i < |s| ==> r[i] == s[i].typeLabel
  {
    seq(|s|, i requires 0 <= i < |s| => s[i].typeLabel)
  }

  /** The first three letters of `time.Month.String()` for January..December. */
  const MonthNames: seq<string> := ["Jan", "Feb", "Mar", "Apr", "May", "Jun", "Jul", "Aug", "Sep", "Oct", "Nov", "Dec"]

  /** `Month.String()[:3]`: the English abbreviation, or `"%!M"` taken from
      the `%!Month(n)` text Go prints for a month outside 1..12. */
  function MonthAbbrev(m: int): (r: string)
    ensures |r| == 3
  {
    assert |MonthNames| == 12 && forall k :: 0 <= k < 12 ==> |MonthNames[k]| == 3;
    if 1 <= m <= 12 then MonthNames[m - 1] else "%!M"
  }

  /** A rendered report line: the month header, one summary, or a month total.
      Amounts stay in minor units; `Display` is not modelled. */
  datatype ReportLine =
    | MonthHeader(month: string, year: int)
    | SummaryLine(typeLabel: string, padding: string, amount: int)
    | TotalLine(total: int)

  /** Summary `i` opens a run: it is the first, or its month name differs from
      the previous summary's. The year plays no part. */
  predicate StartsRun(s: seq<MonthlySummary>, i: nat)
    requires i < |s|
  {
    i == 0 || MonthAbbrev(s[i].month) != MonthAbbrev(s[i - 1].month)
  }

  /** Summary `i` closes a run: it is the last, or the next one's month name differs. */
  predicate EndsRun(s: seq<MonthlySummary>, i: nat)
    requires i < |s|
  {
    i == |s| - 1 || MonthAbbrev(s[i + 1].month) != MonthAbbrev(s[i].month)
  }

  /** What one summary adds to its month's total: the 64-bit product. */
  function Contribution(x: MonthlySummary): (c: int)
    ensures Int64.InRange(c)
  {
    Int64.Wrap(x.amount * x.multiplier)
  }

  function SumContributions(xs: seq<MonthlySummary>): int {
    if |xs| == 0 then 0 else SumContributions(xs[..|xs| - 1]) + Contribution(xs[|xs| - 1])
  }

  /** Where the run holding summary `i` begins. */
  function RunStart(s: seq<MonthlySummary>, i: nat): (k: nat)
    requires i < |s|
    ensures k <= i && StartsRun(s, k)
    ensures forall j :: k < j <= i ==> !StartsRun(s, j)
  {
    if StartsRun(s, i) then i else RunStart(s, i - 1)
  }

  /** The month total after summary `i`: the 64-bit sum of the contributions
      from the start of its run up to and including `i`. */
  function RunTotal(s: seq<MonthlySummary>, i: nat): int
    requires i < |s|
  {
    Int64.Wrap(SumContributions(s[RunStart(s, i)..i + 1]))
  }

  /** The summary line of summary `i`, padded to the longest label. */
  function SummaryLineFor(s: seq<MonthlySummary>, i: nat): (r: ReportLine)
    requires i < |s|
    ensures r.SummaryLine? && r.typeLabel == s[i].typeLabel && r.amount == s[i].amount
    ensures Utf8Len(r.typeLabel + r.padding) == Longest(Labels(s))
  {
    var width := Longest(Labels(s));
    assert Utf8Len(Labels(s)[i]) <= width;
    SummaryLine(s[i].typeLabel, PaddedSpaces(s[i].typeLabel, width).value, s[i].amount)
  }

  /** The header summary `i` contributes: one when it opens a run. */
  function HeadAt(s: seq<MonthlySummary>, i: nat): seq<ReportLine>
    requires i < |s|
  {
    if StartsRun(s, i) then [MonthHeader(MonthAbbrev(s[i].month), s[i].year)] else []
  }

  /** The total line summary `i` contributes: one when it closes a run. */
  function TailAt(s: seq<MonthlySummary>, i: nat): seq<ReportLine>
    requires i < |s|
  {
    if EndsRun(s, i) then [TotalLine(RunTotal(s, i))] else []
  }

  /** The lines summary `i` contributes: its header, its own line, its total. */
  function LinesAt(s: seq<MonthlySummary>, i: nat): seq<ReportLine>
    requires i < |s|
  {
    HeadAt(s, i) + [SummaryLineFor(s, i)] + TailAt(s, i)
  }

  /** The lines of the first `k` summaries. */
  function ReportUpTo(s: seq<MonthlySummary>, k: nat): seq<ReportLine>
    requires k <= |s|
  {
    if k == 0 then [] else ReportUpTo(s, k - 1) + LinesAt(s, k - 1)
  }

  function Report(s: seq<MonthlySummary>): seq<ReportLine> {
    ReportUpTo(s, |s|)
  }

  lemma RunTotalOpens(s: seq<MonthlySummary>, i: nat)
    requires i < |s| && StartsRun(s, i)
    ensures RunTotal(s, i) == Contribution(s[i]) == Int64.Wrap(0 + Contribution(s[i]))
  {
    assert RunStart(s, i) == i;
    assert s[i..i + 1] == [s[i]];
    assert [s[i]][..0] == [];
    assert SumContributions([s[i]]) == Contribution(s[i]);
  }

  lemma RunTotalContinues(s: seq<MonthlySummary>, i: nat)
    requires i < |s| && !StartsRun(s, i)
    ensures RunTotal(s, i) == Int64.Wrap(RunTotal(s, i - 1) + Contribution(s[i]))
  {
    var k := RunStart(s, i);
    assert k == RunStart(s, i - 1);
    assert s[k..i + 1][..i - k] == s[k..i];
    Int64.WrapAdd(SumContributions(s[k..i]), Contribution(s[i]));
  }

  /** The first half of a step of the report loop: open a new month when the
      name changes (header, total reset to 0), then add the summary's product
      to the running total. */
  method OpenOrContinue(s: seq<MonthlySummary>, i: nat, currMonth: string, total: int)
    returns (head: seq<ReportLine>, month: string, total': int)
    requires i < |s|
    requires i == 0 ==> currMonth == ""
    requires i > 0 ==> currMonth == MonthAbbrev(s[i - 1].month) && total == RunTotal(s, i - 1)
    ensures head == HeadAt(s, i)
    ensures month == MonthAbbrev(s[i].month) && total' == RunTotal(s, i)
  {
    month := currMonth;
    total' := total;
    head := [];
    if month != MonthAbbrev(s[i].month) {
      month := MonthAbbrev(s[i].month);
      head := [MonthHeader(month, s[i].year)];
      total' := 0;
      RunTotalOpens(s, i);
      assert Int64.Wrap(total' + Contribution(s[i])) == RunTotal(s, i);
    } else {
      assert i > 0;
      RunTotalContinues(s, i);
      assert Int64.Wrap(total' + Contribution(s[i])) == RunTotal(s, i);
    }
    total' := Int64.Wrap(total' + Contribution(s[i]));
  }

  /** One step of the report loop: with the previous month name and running
      total in hand, the lines emitted for summary `i` and the new total. */
  method ReportStep(s: seq<MonthlySummary>, i: nat, currMonth: string, total: int, longest: nat)
    returns (emitted: seq<ReportLine>, month: string, total': int)
    requires i < |s| && longest == Longest(Labels(s))
    requires i == 0 ==> currMonth == ""
    requires i > 0 ==> currMonth == MonthAbbrev(s[i - 1].month) && total == RunTotal(s, i - 1)
    ensures emitted == LinesAt(s, i)
    ensures month == MonthAbbrev(s[i].month) && total' == RunTotal(s, i)
  {
    var head;
    head, month, total' := OpenOrContinue(s, i, currMonth, total);
    assert Utf8Len(Labels(s)[i]) <= longest;
    var pad := PaddedSpaces(s[i].typeLabel, longest).value;
    var tail: seq<ReportLine> := [];
    if i == |s| - 1 || MonthAbbrev(s[i + 1].month) != month {
      tail := [TotalLine(total')];
    }
    assert tail == TailAt(s, i);
    emitted := head + [SummaryLine(s[i].typeLabel, pad, s[i].amount)] + tail;
  }

  /** `GenerateReportText`: one pass that remembers the current month name and
      the month's running total, emitting a header whenever the name changes
      and the total before the next summary of another month or at the end. */
  method GenerateReportText(s: seq<MonthlySummary>) returns (lines: seq<ReportLine>)
    ensures lines == Report(s)
  {
    var currMonth := "";
    var total := 0;
    lines := [];
    var longest := LongestLength(Labels(s));
    for i := 0 to |s|
      invariant lines == ReportUpTo(s, i)
      invariant i == 0 ==> currMonth == ""
      invariant i > 0 ==> currMonth == MonthAbbrev(s[i - 1].month) && total == RunTotal(s, i - 1)
    {
      var emitted;
      emitted, currMonth, total := ReportStep(s, i, currMonth, total, longest);
      lines := lines + emitted;
    }
  }

  /** The summary lines of a rendered report, in order. */
  function SummariesOf(lines: seq<ReportLine>): seq<ReportLine> {
    if |lines| == 0 then []
    else SummariesOf(lines[..|lines| - 1]) + (if lines[|lines| - 1].SummaryLine? then [lines[|lines| - 1]] else [])
  }

  lemma {:induction false} SummariesOfAppend(a: seq<ReportLine>, b: seq<ReportLine>)
    ensures SummariesOf(a + b) == SummariesOf(a) + SummariesOf(b)
    decreases |b|
  {
    if |b| == 0 {
      assert a + b == a;
    } else {
      assert (a + b)[..|a + b| - 1] == a + b[..|b| - 1];
      SummariesOfAppend(a, b[..|b| - 1]);
    }
  }

  lemma SummariesOfLinesAt(s: seq<MonthlySummary>, i: nat)
    requires i < |s|
    ensures SummariesOf(LinesAt(s, i)) == [SummaryLineFor(s, i)]
  {
    var hd, tl := HeadAt(s, i), TailAt(s, i);
    SummariesOfAppend(hd + [SummaryLineFor(s, i)], tl);
    SummariesOfAppend(hd, [SummaryLineFor(s, i)]);
    assert SummariesOf(hd) == [] by {
      if |hd| > 0 { assert hd[..0] == []; }
    }
    assert SummariesOf(tl) == [] by {
      if |tl| > 0 { assert tl[..0] == []; }
    }
    assert [SummaryLineFor(s, i)][..0] == [];
  }

  /** The summary lines the first `k` summaries should yield. */
  function ExpectedSummaries(s: seq<MonthlySummary>, k: nat): (r: seq<ReportLine>)
    requires k <= |s|
    ensures |r| == k
    ensures forall i :: 0 <= i < k ==> r[i] == SummaryLineFor(s, i)
  {
    seq(k, i requires 0 <= i < k => SummaryLineFor(s, i))
  }

  lemma ExpectedSummariesSnoc(s: seq<MonthlySummary>, k: nat)
    requires 0 < k <= |s|
    ensures ExpectedSummaries(s, k) == ExpectedSummaries(s, k - 1) + [SummaryLineFor(s, k - 1)]
  {
    var a, b := ExpectedSummaries(s, k), ExpectedSummaries(s, k - 1) + [SummaryLineFor(s, k - 1)];
    forall i | 0 <= i < k
      ensures a[i] == b[i]
    {
      if i < k - 1 {
        assert b[i] == ExpectedSummaries(s, k - 1)[i];
      }
    }
  }

  /** Each summary yields exactly one summary line, in input order. */
  lemma {:induction false} ReportSummaries(s: seq<MonthlySummary>, k: nat)
    requires k <= |s|
    ensures SummariesOf(ReportUpTo(s, k)) == ExpectedSummaries(s, k)
  {
    if k > 0 {
      ReportSummaries(s, k - 1);
      SummariesOfAppend(ReportUpTo(s, k - 1), LinesAt(s, k - 1));
      SummariesOfLinesAt(s, k - 1);
      ExpectedSummariesSnoc(s, k);
    }
  }

  /** The report carries one summary line per summary, in order, with its
      label and amount, every label padded to the same width: the longest label. */
  lemma ReportAligned(s: seq<MonthlySummary>)
    ensures |SummariesOf(Report(s))| == |s|
    ensures forall i :: 0 <= i < |s| ==>
              var l := SummariesOf(Report(s))[i];
              l.SummaryLine? && l.typeLabel == s[i].typeLabel && l.amount == s[i].amount
              && Utf8Len(l.typeLabel + l.padding) == Longest(Labels(s))
  {
    ReportSummaries(s, |s|);
  }

  function Headers(lines: seq<ReportLine>): nat {
    if |lines| == 0 then 0 else Headers(lines[..|lines| - 1]) + (if lines[|lines| - 1].MonthHeader? then 1 else 0)
  }

  function Totals(lines: seq<ReportLine>): nat {
    if |lines| == 0 then 0 else Totals(lines[..|lines| - 1]) + (if lines[|lines| - 1].TotalLine? then 1 else 0)
  }

  lemma {:induction false} CountsAppend(a: seq<ReportLine>, b: seq<ReportLine>)
    ensures Headers(a + b) == Headers(a) + Headers(b)
    ensures Totals(a + b) == Totals(a) + Totals(b)
    decreases |b|
  {
    if |b| == 0 {
      assert a + b == a;
    } else {
      assert (a + b)[..|a + b| - 1] == a + b[..|b| - 1];
      CountsAppend(a, b[..|b| - 1]);
    }
  }

  lemma LinesAtCounts(s: seq<MonthlySummary>, i: nat)
    requires i < |s|
    ensures Headers(LinesAt(s, i)) == (if StartsRun(s, i) then 1 else 0)
    ensures Totals(LinesAt(s, i)) == (if EndsRun(s, i) then 1 else 0)
  {
    var hd, tl := HeadAt(s, i), TailAt(s, i);
    CountsAppend(hd + [SummaryLineFor(s, i)], tl);
    CountsAppend(hd, [SummaryLineFor(s, i)]);
    assert [SummaryLineFor(s, i)][..0] == [];
    if |hd| > 0 { assert hd[..0] == []; }
    if |tl| > 0 { assert tl[..0] == []; }
  }

  /** Runs are closed as they are opened: after `k` summaries there is one
      header per total, plus one for a run still open. */
  lemma {:induction false} HeadersMatchTotalsUpTo(s: seq<MonthlySummary>, k: nat)
    requires k <= |s|
    ensures Headers(ReportUpTo(s, k)) == Totals(ReportUpTo(s, k)) + (if k > 0 && !EndsRun(s, k - 1) then 1 else 0)
  {
    if k > 0 {
      HeadersMatchTotalsUpTo(s, k - 1);
      CountsAppend(ReportUpTo(s, k - 1), LinesAt(s, k - 1));
      LinesAtCounts(s, k - 1);
    }
  }

  /** Every month header of the report is matched by exactly one total line. */
  lemma HeadersMatchTotals(s: seq<MonthlySummary>)
    ensures Headers(Report(s)) == Totals(Report(s))
  {
    HeadersMatchTotalsUpTo(s, |s|);
  }

  /** Grouping looks at the month name only: January 2022 followed by January
      2023 is one group, under the first summary's year, with one total. */
  lemma GroupsByMonthNameOnly()
    ensures var s := [MonthlySummary(1, 2022, 5, "Food", 1), MonthlySummary(1, 2023, 7, "Food", -1)];
            Report(s) == [MonthHeader("Jan", 2022), SummaryLine("Food", "", 5), SummaryLine("Food", "", 7), TotalLine(-2)]
  {
    var s := [MonthlySummary(1, 2022, 5, "Food", 1), MonthlySummary(1, 2023, 7, "Food", -1)];
    JanuaryLines(s);
    assert ReportUpTo(s, 1) == LinesAt(s, 0);
  }

  /** The lines of the two January summaries of `GroupsByMonthNameOnly`. */
  lemma JanuaryLines(s: seq<MonthlySummary>)
    requires s == [MonthlySummary(1, 2022, 5, "Food", 1), MonthlySummary(1, 2023, 7, "Food", -1)]
    ensures LinesAt(s, 0) == [MonthHeader("Jan", 2022), SummaryLine("Food", "", 5)]
    ensures LinesAt(s, 1) == [SummaryLine("Food", "", 7), TotalLine(-2)]
  {
    assert Longest(Labels(s)) == 4 && Utf8Len("Food") == 4 by {
      AsciiUtf8Len("Food");
      assert Labels(s)[..1] == ["Food"];
      assert ["Food"][..0] == [];
    }
    assert SummaryLineFor(s, 0) == SummaryLine("Food", "", 5) && SummaryLineFor(s, 1) == SummaryLine("Food", "", 7) by {
      assert Spaces(0) == "";
    }
    assert StartsRun(s, 0) && !EndsRun(s, 0);
    assert !StartsRun(s, 1) && EndsRun(s, 1);
    RunTotalOpens(s, 0);
    RunTotalContinues(s, 1);
  }



  // ---------------------------------------------------------------------
  // Transactions

  /** `domain.Transaction`, with the `*money.Money` amount split into its
      minor-unit amount and currency code, and the time as an instant on an
      integer time line (`Before` is `<`). */
  datatype Transaction = Transaction(
    id: int, datetime: int, categoryId: int, categoryName: string,
    description: string, userId: int, amount: int, currency: string)

  /** Non-decreasing time, neighbour by neighbour. */
  predicate Sorted(ts: seq<Transaction>) {
    forall i :: 0 < i < |ts| ==> ts[i - 1].datetime <= ts[i].datetime
  }

  lemma {:induction false} SortedPairwise(ts: seq<Transaction>)
    requires Sorted(ts)
    ensures forall i, j :: 0 <= i <= j < |ts| ==> ts[i].datetime <= ts[j].datetime
  {
    forall i, j | 0 <= i <= j < |ts|
      ensures ts[i].datetime <= ts[j].datetime
    {
      var k := i;
      while k < j
        invariant i <= k <= j
        invariant ts[i].datetime <= ts[k].datetime
      {
        k := k + 1;
      }
    }
  }

  function Insert(t: Transaction, ts: seq<Transaction>): (r: seq<Transaction>)
    requires Sorted(ts)
    ensures Sorted(r)
    ensures multiset(r) == multiset(ts) + multiset{t}
    ensures |r| > 0 && (r[0] == t || (|ts| > 0 && r[0] == ts[0]))
  {
    if |ts| == 0 || t.datetime <= ts[0].datetime then [t] + ts
    else
      assert ts == [ts[0]] + ts[1..];
      [ts[0]] + Insert(t, ts[1..])
  }

  /** `SortForDisplay`: the transactions in non-decreasing time order. Go's
      `sort.Slice` is not stable, so the order among equal times is not
      promised; this model fixes one. */
  function SortForDisplay(ts: seq<Transaction>): (r: seq<Transaction>)
    ensures Sorted(r)
    ensures multiset(r) == multiset(ts)
  {
    if |ts| == 0 then []
    else
      assert ts == [ts[0]] + ts[1..];
      Insert(ts[0], SortForDisplay(ts[1..]))
  }

  lemma RemoveAt(b: seq<Transaction>, j: nat)
    requires j < |b|
    ensures multiset(b[..j] + b[j + 1..]) == multiset(b) - multiset{b[j]}
  {
    assert b == b[..j] + [b[j]] + b[j + 1..];
  }

  /** Dropping one element keeps a sorted sequence sorted. */
  lemma SortedRemoveAt(b: seq<Transaction>, j: nat)
    requires Sorted(b) && j < |b|
    ensures Sorted(b[..j] + b[j + 1..])
  {
    SortedPairwise(b);
    var b' := b[..j] + b[j + 1..];
    forall i | 0 < i < |b'|
      ensures b'[i - 1].datetime <= b'[i].datetime
    {
      var p := if i - 1 < j then i - 1 else i;
      var q := if i < j then i else i + 1;
      assert b'[i - 1] == b[p] && b'[i] == b[q] && p <= q;
    }
  }

  /** The first element of a sorted sequence has the least time. */
  lemma SortedHeadLeast(a: seq<Transaction>, x: Transaction)
    requires Sorted(a) && x in multiset(a)
    ensures |a| > 0 && a[0].datetime <= x.datetime
  {
    SortedPairwise(a);
    var j :| 0 <= j < |a| && a[j] == x;
  }

  /** Sorting leaves freedom only among equal times: any two sorted
      arrangements of the same transactions agree on the time at every position. */
  lemma {:induction false} SortedArrangementsAgree(a: seq<Transaction>, b: seq<Transaction>)
    requires Sorted(a) && Sorted(b) && multiset(a) == multiset(b)
    ensures |a| == |b|
    ensures forall i :: 0 <= i < |a| ==> a[i].datetime == b[i].datetime
    decreases |a|
  {
    assert |a| == |multiset(a)| == |multiset(b)| == |b|;
    if |a| > 0 {
      SortedHeadLeast(a, b[0]);
      SortedHeadLeast(b, a[0]);
      var j :| 0 <= j < |b| && b[j] == a[0];
      var b' := b[..j] + b[j + 1..];
      RemoveAt(b, j);
      SortedRemoveAt(b, j);
      assert a == [a[0]] + a[1..];
      SortedArrangementsAgree(a[1..], b');
      AgreeAroundRemoval(a, b, j);
    }
  }

  /** The inductive step: if the tails agree with `b` minus the element equal
      to `a[0]`, and both heads carry the least time, `a` and `b` agree. */
  lemma AgreeAroundRemoval(a: seq<Transaction>, b: seq<Transaction>, j: nat)
    requires Sorted(b) && |a| == |b| && j < |b| && b[j] == a[0] && a[0].datetime == b[0].datetime
    requires forall i :: 0 <= i < |a| - 1 ==> a[1..][i].datetime == (b[..j] + b[j + 1..])[i].datetime
    ensures forall i :: 0 <= i < |a| ==> a[i].datetime == b[i].datetime
  {
    SortedPairwise(b);
    var b' := b[..j] + b[j + 1..];
    forall i | 0 < i < |a|
      ensures a[i].datetime == b[i].datetime
    {
      assert a[i] == a[1..][i - 1];
      if i <= j {
        assert b'[i - 1] == b[i - 1];
        assert b[i - 1].datetime <= b[i].datetime <= b[j].datetime;
      } else {
        assert b'[i - 1] == b[i];
      }
    }
  }

  /** The sorted result agrees on times with every sorted arrangement of the input. */
  lemma SortForDisplayTimes(ts: seq<Transaction>, other: seq<Transaction>)
    requires Sorted(other) && multiset(other) == multiset(ts)
    ensures |SortForDisplay(ts)| == |other|
    ensures forall i :: 0 <= i < |other| ==> SortForDisplay(ts)[i].datetime == other[i].datetime
  {
    SortedArrangementsAgree(SortForDisplay(ts), other);
  }

  // ---------------------------------------------------------------------
  // Category breakdowns

  /** One category's share of a month. The percentage is Go's `float64`,
      already rounded to one decimal; it is exact here. */
  datatype Breakdown = Breakdown(categoryName: string, amount: int, percent: real)

  /** A rendered breakdown line: the space before a one-digit percentage, the
      percentage, the name, the padding after it, and the amount. */
  datatype BreakdownLine = BreakdownLine(lead: string, percent: real, name: string, padding: string, amount: int)

  function Names(bds: seq<Breakdown>): (r: seq<string>)
    ensures |r| == |bds|
    ensures forall i :: 0 <= i < |bds| ==> r[i] == bds[i].categoryName
  {
    seq(|bds|, i requires 0 <= i < |bds| => bds[i].categoryName)
  }

  /** What the line rendered for one breakdown shows: the breakdown's name,
      percentage and amount; a single leading space exactly when the
      percentage is below 10; the name padded with spaces to `width` bytes. */
  predicate Formatted(b: Breakdown, l: BreakdownLine, width: nat) {
    && l.name == b.categoryName && l.percent == b.percent && l.amount == b.amount
    && (l.lead == " " <==> b.percent < 10.0)
    && (l.lead == "" <==> b.percent >= 10.0)
    && Utf8Len(l.name + l.padding) == width
    && forall k :: 0 <= k < |l.padding| ==> l.padding[k] == ' '
  }

  /** `Breakdowns.GetFormattedHTMLMsg`: one line per breakdown, in order, the
      percentages lined up by a leading space exactly when they are below 10,
      and the names padded to the longest one. */
  method FormatBreakdowns(bds: seq<Breakdown>) returns (lines: seq<BreakdownLine>)
    ensures |lines| == |bds|
    ensures forall i :: 0 <= i < |bds| ==> Formatted(bds[i], lines[i], Longest(Names(bds)))
  {
    var longest := LongestLength(Names(bds));
    lines := [];
    for i := 0 to |bds|
      invariant |lines| == i
      invariant forall j :: 0 <= j < i ==> Formatted(bds[j], lines[j], longest)
    {
      var lead := "";
      if bds[i].percent < 10.0 {
        lead := " ";
      }
      assert Utf8Len(Names(bds)[i]) <= longest;
      var pad := PaddedSpaces(bds[i].categoryName, longest).value;
      lines := lines + [BreakdownLine(lead, bds[i].percent, bds[i].categoryName, pad, bds[i].amount)];
    }
  }

  /** The common width is the tightest one: some line needs no padding. */
  lemma BreakdownWidthTight(bds: seq<Breakdown>, lines: seq<BreakdownLine>)
    requires |bds| > 0 && |lines| == |bds|
    requires forall i :: 0 <= i < |bds| ==> Formatted(bds[i], lines[i], Longest(Names(bds)))
    ensures exists i :: 0 <= i < |lines| && lines[i].padding == ""
  {
    LongestAttained(Names(bds));
    var i :| 0 <= i < |bds| && Utf8Len(Names(bds)[i]) == Longest(Names(bds));
    Utf8LenAppend(lines[i].name, lines[i].padding);
  }
}
