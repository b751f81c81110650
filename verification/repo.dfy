/** The transaction repository of repo/transaction.go over an abstract data
    access layer: the month window every month query uses, the per-category
    breakdown with its total, and the paged month listing with its
    zero-count short cut. The SQL behind each query is not modelled: what the
    database answers is a parameter (`Dao`). */
module Repo {
  import opened Wrappers
  import Int64
  import Domain

  // ---------------------------------------------------------------------
  // Month window

  /** A calendar day in the user's location. */
  datatype Date = Date(year: int, month: int, day: int)

  /** The half-open range of days a month query covers. */
  datatype Window = Window(from: Date, to: Date)

  /** Months counted from year 0, so that consecutive months differ by one. */
  function MonthIndex(d: Date): int {
    d.year * 12 + (d.month - 1)
  }

  /** `time.ParseInLocation("2006-01-02", fmt.Sprintf("%v-%02d-01", year, month))`.
      The layout reads exactly four year digits and a month in 1..12, so the
      text parses exactly for years 1000..9999 and months 1..12. */
  function FirstOfMonth(year: int, month: int): (r: Result<Date>)
    ensures r.Ok? <==> 1000 <= year <= 9999 && 1 <= month <= 12
    ensures r.Ok? ==> r.value == Date(year, month, 1)
  {
    if 1000 <= year <= 9999 && 1 <= month <= 12 then Ok(Date(year, month, 1))
    else Err("parsing time: cannot parse first day of month")
  }

  /** `AddDate(0, 1, 0)` on the first day of a month: the first day of the
      next month, December rolling over into January of the next year. */
  function NextMonth(d: Date): (r: Date)
    requires 1 <= d.month <= 12 && d.day == 1
    ensures 1 <= r.month <= 12 && r.day == 1
    ensures MonthIndex(r) == MonthIndex(d) + 1
  {
    if d.month == 12 then Date(d.year + 1, 1, 1) else Date(d.year, d.month + 1, 1)
  }

  /** The `[dateFrom, dateTo)` pair built at the top of both month queries. */
  function MonthWindow(year: int, month: int): (r: Result<Window>)
    ensures r.Ok? <==> FirstOfMonth(year, month).Ok?
    ensures r.Ok? ==> r.value.from == Date(year, month, 1) && r.value.to.day == 1
    ensures r.Ok? ==> MonthIndex(r.value.to) == MonthIndex(r.value.from) + 1
  {
    match FirstOfMonth(year, month)
    case Err(e) => Err(e)
    case Ok(from) => Ok(Window(from, NextMonth(from)))
  }

  /** Date identity from the month index: one month after `from` is a unique day-1 date. */
  lemma MonthIndexDetermines(a: Date, b: Date)
    requires 1 <= a.month <= 12 && 1 <= b.month <= 12 && MonthIndex(a) == MonthIndex(b)
    ensures a.year == b.year && a.month == b.month
  {
  }

  /** The window of December ends on the first of January of the next year;
      any other month ends on the first of the next month of the same year. */
  lemma MonthWindowRollsOver(year: int, month: int)
    requires MonthWindow(year, month).Ok?
    ensures month == 12 ==> MonthWindow(year, month).value.to == Date(year + 1, 1, 1)
    ensures month < 12 ==> MonthWindow(year, month).value.to == Date(year, month + 1, 1)
  {
    var w := MonthWindow(year, month).value;
    MonthIndexDetermines(w.to, if month == 12 then Date(year + 1, 1, 1) else Date(year, month + 1, 1));
  }

  lemma MonthWindowExamples()
    ensures MonthWindow(2022, 12) == Ok(Window(Date(2022, 12, 1), Date(2023, 1, 1)))
    ensures MonthWindow(2023, 2) == Ok(Window(Date(2023, 2, 1), Date(2023, 3, 1)))
    ensures MonthWindow(2023, 13).Err? && MonthWindow(999, 1).Err?
  {
  }

  // ---------------------------------------------------------------------
  // Rows and the data access layer

  /** A grouped row of the breakdown query: a category name and the sum of its amounts. */
  datatype BreakdownEntity = BreakdownEntity(categoryName: string, amount: int)

  /** A transaction row as the list query returns it. */
  datatype TransactionEntity = TransactionEntity(
    id: int, datetime: int, categoryId: int, categoryName: string,
    description: string, userId: int, amount: int, currency: string)

  /** What the database answers to each month query, for a window and a user. */
  datatype Dao = Dao(
    breakdownByCategory: (Window, int) -> Result<seq<BreakdownEntity>>,
    countByMonth: (Window, int) -> Result<int>,
    listByMonth: (Window, int, int, int) -> Result<seq<TransactionEntity>>)

  /** The queries a repository call sends, in order. */
  datatype Query =
    | BreakdownQuery(w: Window, userId: int)
    | CountQuery(w: Window, userId: int)
    | ListQuery(w: Window, offset: int, limit: int, userId: int)

  // ---------------------------------------------------------------------
  // Breakdown by category

  function SumAmounts(es: seq<BreakdownEntity>): int {
    if |es| == 0 then 0 else SumAmounts(es[..|es| - 1]) + es[|es| - 1].amount
  }

  /** The loop `totalAmount += e.Amount` on an `int64`: the sum of the
      amounts, wrapped to 64 bits. */
  method BreakdownTotal(es: seq<BreakdownEntity>) returns (total: int)
    ensures total == Int64.Wrap(SumAmounts(es))
  {
    total := 0;
    for i := 0 to |es|
      invariant total == Int64.Wrap(SumAmounts(es[..i]))
    {
      assert es[..i + 1][..i] == es[..i];
      Int64.WrapAdd(SumAmounts(es[..i]), es[i].amount);
      total := Int64.Wrap(total + es[i].amount);
    }
    assert es[..|es|] == es;
  }

  /** The breakdown of one category row. The percentage is computed in
      floating point and rounded to one decimal; `percentOf(amount, total)`
      stands for that computation. */
  function ToBreakdown(e: BreakdownEntity, total: int, percentOf: (int, int) -> real): (b: Domain.Breakdown)
    ensures b.categoryName == e.categoryName && b.amount == e.amount
  {
    Domain.Breakdown(e.categoryName, e.amount, percentOf(e.amount, total))
  }

  /** `GetTransactionBreakdownByCategory`: fails only when the month window
      cannot be built. An error from the breakdown query is not checked: the
      rows are then empty, so the result is no breakdowns and a zero total. */
  method GetTransactionBreakdownByCategory(dao: Dao, percentOf: (int, int) -> real, month: int, year: int, userId: int)
    returns (r: Result<(seq<Domain.Breakdown>, int)>, queries: seq<Query>)
    ensures r.Err? <==> MonthWindow(year, month).Err?
    ensures r.Err? ==> queries == []
    ensures r.Ok? ==> queries == [BreakdownQuery(MonthWindow(year, month).value, userId)]
    ensures r.Ok? ==>
              var rows := RowsOrNone(dao.breakdownByCategory(MonthWindow(year, month).value, userId));
              && r.value.1 == Int64.Wrap(SumAmounts(rows))
              && |r.value.0| == |rows|
              && forall i :: 0 <= i < |rows| ==>
                   r.value.0[i].categoryName == rows[i].categoryName && r.value.0[i].amount == rows[i].amount
  {
    var window := MonthWindow(year, month);
    if window.Err? {
      return Err(window.reason), [];
    }
    var w := window.value;
    queries := [BreakdownQuery(w, userId)];
    var entities := RowsOrNone(dao.breakdownByCategory(w, userId));
    var total := BreakdownTotal(entities);
    var breakdowns: seq<Domain.Breakdown> := [];
    for i := 0 to |entities|
      invariant |breakdowns| == i
      invariant forall j :: 0 <= j < i ==> breakdowns[j] == ToBreakdown(entities[j], total, percentOf)
    {
      breakdowns := breakdowns + [ToBreakdown(entities[i], total, percentOf)];
    }
    r := Ok((breakdowns, total));
  }

  /** The rows of a query answer, or none when the query failed (Go's nil slice). */
  function RowsOrNone<T>(answer: Result<seq<T>>): (rows: seq<T>)
    ensures answer.Err? ==> rows == []
    ensures answer.Ok? ==> rows == answer.value
  {
    if answer.Ok? then answer.value else []
  }

  // ---------------------------------------------------------------------
  // Paged month listing

  /** `ToDomain` of the list loop: every field carried over, the amount and
      currency code forming the transaction's money. */
  function ToDomain(e: TransactionEntity): (t: Domain.Transaction) {
    Domain.Transaction(e.id, e.datetime, e.categoryId, e.categoryName, e.description, e.userId, e.amount, e.currency)
  }

  /** The other direction, as `Add` builds the row it inserts. */
  function ToEntity(t: Domain.Transaction): (e: TransactionEntity) {
    TransactionEntity(t.id, t.datetime, t.categoryId, t.categoryName, t.description, t.userId, t.amount, t.currency)
  }

  /** Nothing is lost in either direction. */
  lemma DomainEntityRoundTrip(e: TransactionEntity, t: Domain.Transaction)
    ensures ToEntity(ToDomain(e)) == e
    ensures ToDomain(ToEntity(t)) == t
  {
  }

  function MapToDomain(es: seq<TransactionEntity>): (ts: seq<Domain.Transaction>)
    ensures |ts| == |es|
    ensures forall i :: 0 <= i < |es| ==> ToEntity(ts[i]) == es[i]
  {
    if |es| == 0 then [] else [ToDomain(es[0])] + MapToDomain(es[1..])
  }

  /** Go's `(transactions, totalCount, err)`: the count is 0 whenever an error is returned. */
  datatype Listing = Listing(rows: seq<Domain.Transaction>, count: int, error: Option<string>)

  /** `ListByMonthAndYear`: count the month's transactions first; stop there
      when the count fails or is zero; otherwise fetch one page. */
  function ListByMonthAndYear(dao: Dao, month: int, year: int, offset: int, limit: int, userId: int)
    : (r: (Listing, seq<Query>))
    ensures r.0.error.Some? ==> r.0.count == 0 && r.0.rows == []
    ensures MonthWindow(year, month).Err? ==> r.0.error.Some? && r.1 == []
    ensures MonthWindow(year, month).Ok? ==>
              var w := MonthWindow(year, month).value;
              && |r.1| >= 1 && r.1[0] == CountQuery(w, userId)
              && (r.1 == [CountQuery(w, userId)] || r.1 == [CountQuery(w, userId), ListQuery(w, offset, limit, userId)])
  {
    match MonthWindow(year, month)
    case Err(e) => (Listing([], 0, Some(e)), [])
    case Ok(w) =>
      var counted := [CountQuery(w, userId)];
      match dao.countByMonth(w, userId)
      case Err(e) => (Listing([], 0, Some(e)), counted)
      case Ok(totalCount) =>
        if totalCount == 0 then (Listing([], 0, None), counted)
        else
          match dao.listByMonth(w, offset, limit, userId)
          case Err(e) => (Listing([], 0, Some(e)), counted + [ListQuery(w, offset, limit, userId)])
          case Ok(entities) => (Listing(MapToDomain(entities), totalCount, None), counted + [ListQuery(w, offset, limit, userId)])
  }

  /** A zero count answers an empty page and 0 without fetching any rows. */
  lemma ZeroCountShortCircuits(dao: Dao, month: int, year: int, offset: int, limit: int, userId: int)
    requires MonthWindow(year, month).Ok?
    requires dao.countByMonth(MonthWindow(year, month).value, userId) == Ok(0)
    ensures ListByMonthAndYear(dao, month, year, offset, limit, userId).0 == Listing([], 0, None)
    ensures forall q :: q in ListByMonthAndYear(dao, month, year, offset, limit, userId).1 ==> !q.ListQuery?
  {
  }

  /** When both queries succeed with a non-zero count, the page holds the
      fetched rows one for one, in order, every field preserved, and the
      count is passed through. */
  lemma ListMapsRows(dao: Dao, month: int, year: int, offset: int, limit: int, userId: int)
    requires MonthWindow(year, month).Ok?
    requires var w := MonthWindow(year, month).value;
             dao.countByMonth(w, userId).Ok? && dao.countByMonth(w, userId).value != 0
             && dao.listByMonth(w, offset, limit, userId).Ok?
    ensures var w := MonthWindow(year, month).value;
            var es := dao.listByMonth(w, offset, limit, userId).value;
            var l := ListByMonthAndYear(dao, month, year, offset, limit, userId).0;
            && l.error == None && l.count == dao.countByMonth(w, userId).value
            && |l.rows| == |es| && forall i :: 0 <= i < |es| ==> ToEntity(l.rows[i]) == es[i]
  {
  }

  /** The count a listing reports never exceeds what the count query says
      (or 0): a fact the export loop's termination rests on. */
  function CountBound(dao: Dao, month: int, year: int, userId: int): nat {
    match MonthWindow(year, month)
    case Err(_) => 0
    case Ok(w) =>
      match dao.countByMonth(w, userId)
      case Err(_) => 0
      case Ok(n) => if n > 0 then n else 0
  }

  lemma ListingCountBounded(dao: Dao, month: int, year: int, offset: int, limit: int, userId: int)
    ensures ListByMonthAndYear(dao, month, year, offset, limit, userId).0.count <= CountBound(dao, month, year, userId)
  {
  }
}
