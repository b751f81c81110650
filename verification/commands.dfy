/** The command handler (handler/command_handler.go): `/start`, `/help`,
    `/undo`, `/stats`, `/list`, `/export`, and a plain message that starts a
    transaction. */
module Commands {
  import opened Wrappers
  import opened Text
  import opened Store
  import opened Handling
  import Amount
  import Keyboard
  import Domain
  import Repo
  import Int64

  const ListPageSize: int := 10
  const ExportPageSize: int := 1000

  // ---------------------------------------------------------------------
  // Start and Help

  /** The user `Start` signs up: English, Singapore dollars (two minor
      digits), Singapore time, no context. The error of loading the zone is
      discarded, and a nil location prints as `"UTC"` when the row is
      written, so the stored zone always loads. */
  function DefaultUser(st: Store, id: int): (u: User)
    ensures u.id == id && u.currencyCode == "SGD" && u.fraction == 2 && u.currentContext == ""
    ensures LoadsZone(st, u.location)
    ensures u.location == "Asia/Singapore" <==> LoadsZone(st, "Asia/Singapore")
    ensures u.location != "Asia/Singapore" ==> u.location == "UTC"
  {
    var zone := if LoadsZone(st, "Asia/Singapore") then "Asia/Singapore" else "UTC";
    User(id, "en", "SGD", 2, zone, "")
  }

  /** `Start`: a known user is welcomed back; an unknown one is signed up. */
  function Start(st: Store, m: Message): (o: Outcome)
    ensures !o.panicked && |o.replies| == 1
    ensures o.replies[0] == SignUpSuccess <==> FindUser !in st.faults && m.fromId !in st.users && AddUser !in st.faults
    ensures o.replies[0] == UserExists <==> FindUser !in st.faults && Loadable(st, m.fromId)
    ensures o.replies[0] == ErrorFindingUser <==> FindUser in st.faults || (m.fromId in st.users && !Loadable(st, m.fromId))
    ensures o.replies[0] == SignUpSuccess ==> o.store == st.(users := st.users[m.fromId := DefaultUser(st, m.fromId)])
    ensures o.replies[0] != SignUpSuccess ==> o.store == st
    ensures o.replies[0] in {SignUpSuccess, UserExists, ErrorFindingUser, ErrorCreatingUser}
  {
    match FindUserById(st, m.fromId)
    case Failed(_) => Reply1(st, ErrorFindingUser)
    case Found(_) => Reply1(st, UserExists)
    case Missing =>
      match AddUserRow(st, DefaultUser(st, m.fromId))
      case Err(_) => Reply1(st, ErrorCreatingUser)
      case Ok(st') => Reply1(st', SignUpSuccess)
  }

  /** Signing up twice changes nothing the second time, and the user is
      welcomed back: the zone stored at sign-up always loads. */
  lemma StartTwice(st: Store, m: Message)
    requires Start(st, m).replies == [SignUpSuccess]
    ensures var st' := Start(st, m).store;
            Start(st', m) == Reply1(st', UserExists)
  {
  }

  function Help(st: Store, m: Message): (o: Outcome)
    ensures o == Reply1(st, Reply.Help)
  {
    Reply1(st, Reply.Help)
  }

  // ---------------------------------------------------------------------
  // Undo

  /** `Undo`: delete the sender's latest transaction. With none, the
      not-found reply is sent, but the code goes on to read the id of the
      nil transaction and panics. */
  function Undo(st: Store, m: Message): (o: Outcome)
    ensures o.panicked <==> FindLatest !in st.faults && forall i :: 0 <= i < |st.transactions| ==> st.transactions[i].userId != m.fromId
    ensures o.panicked ==> o == Panic(st, [LatestNotFound])
    ensures !o.panicked ==> |o.replies| == 1
    ensures o.store != st ==> exists id :: o.store == st.(transactions := RemoveOwned(st.transactions, id, m.fromId))
  {
    match FindLatestByUserId(st, m.fromId)
    case Err(_) => Reply1(st, GenericError)
    case Ok(None) => Panic(st, [LatestNotFound])
    case Ok(Some(t)) =>
      match DeleteTransactionRow(st, t.id, m.fromId)
      case Err(_) => Reply1(st, GenericError)
      case Ok(st') => Reply1(st', TransactionDeleted(t.amount, t.description))
  }

  /** A confirmed undo removed the sender's transaction with the latest
      time: no row of the sender with its id is left, and no row of the
      sender is later. Other users' rows are all kept. */
  lemma UndoRemovesLatest(st: Store, m: Message)
    requires |Undo(st, m).replies| == 1 && Undo(st, m).replies[0].TransactionDeleted?
    ensures var t := Latest(st.transactions, m.fromId).value;
            var o := Undo(st, m);
            && t.userId == m.fromId
            && (forall i :: 0 <= i < |st.transactions| && st.transactions[i].userId == m.fromId
                  ==> st.transactions[i].datetime <= t.datetime)
            && o.store.transactions == RemoveOwned(st.transactions, t.id, m.fromId)
            && o.replies[0] == TransactionDeleted(t.amount, t.description)
            && (forall i :: 0 <= i < |st.transactions| && st.transactions[i].userId != m.fromId
                  ==> st.transactions[i] in o.store.transactions)
  {
  }

  // ---------------------------------------------------------------------
  // StartTransaction

  /** `StartTransaction`: a known sender, an amount anywhere in the text
      (the util scanner) and a description of at most 20 bytes; then the
      categories are offered against a new context holding the text. */
  function StartTransaction(st: Store, m: Message): (o: Outcome)
    ensures !o.panicked && |o.replies| == 1
    ensures o.store == st || o.store == st.(contexts := st.contexts[st.nextContextId := m.text], nextContextId := st.nextContextId + 1)
    ensures o.store != st ==> CheckText(Amount.Unanchored, CommandDescriptionLimit, m.text).Accepted?
    ensures o.replies[0] == CannotRecogniseAmount <==>
              FindUser !in st.faults && Loadable(st, m.fromId) && Amount.ScanAmount(Amount.Unanchored, m.text).Err?
    ensures o.replies[0] == DescriptionTooLong <==>
              FindUser !in st.faults && Loadable(st, m.fromId) && CheckText(Amount.Unanchored, CommandDescriptionLimit, m.text).TooLong?
    ensures o.replies[0].ChooseCategory? ==> o.replies[0] == OfferCategories(st, m.text).replies[0]
  {
    var found := FindUserById(st, m.fromId);
    if !found.Found? then Reply1(st, GenericError)
    else
      match CheckText(Amount.Unanchored, CommandDescriptionLimit, m.text)
      case Unrecognised => Reply1(st, CannotRecogniseAmount)
      case TooLong => Reply1(st, DescriptionTooLong)
      case Accepted(_, _) => OfferCategories(st, m.text)
  }

  // ---------------------------------------------------------------------
  // Stats

  /** `Stats`: the month's breakdown by category and its total, each line
      padded to the longest category name. The store is only read. */
  method Stats(env: Env, st: Store, m: Message) returns (o: Outcome)
    ensures o.store == st
    ensures o.panicked <==> FindUser !in st.faults && m.fromId !in st.users
    ensures o.panicked ==> o.replies == []
    ensures !o.panicked ==> |o.replies| == 1
    ensures !o.panicked && !o.replies[0].StatsReport? ==> o.replies[0] == GenericError
    ensures !o.panicked && o.replies[0].StatsReport? ==>
              var r := o.replies[0];
              var w := Repo.MonthWindow(r.year, r.month);
              && (r.month, r.year) == env.monthYear(m.text)
              && w.Ok? && Loadable(st, m.fromId)
              && var rows := Repo.RowsOrNone(st.months.breakdownByCategory(w.value, st.users[m.fromId].id));
              && r.total == Int64.Wrap(Repo.SumAmounts(rows))
              && |r.lines| == |rows|
              && var longest := Domain.Longest(seq(|rows|, j requires 0 <= j < |rows| => rows[j].categoryName));
              && forall i :: 0 <= i < |rows| ==>
                   && r.lines[i].name == rows[i].categoryName && r.lines[i].amount == rows[i].amount
                   && Utf8Len(r.lines[i].name + r.lines[i].padding) == longest
  {
    var found := FindUserById(st, m.fromId);
    if found.Failed? {
      return Reply1(st, GenericError);
    }
    if found.Missing? {
      return Panic(st, []);
    }
    var (month, year) := env.monthYear(m.text);
    var r, _ := Repo.GetTransactionBreakdownByCategory(st.months, env.percentOf, month, year, found.value.id);
    if r.Err? {
      return Reply1(st, GenericError);
    }
    var (bds, total) := r.value;
    var lines := Domain.FormatBreakdowns(bds);
    var rows := Repo.RowsOrNone(st.months.breakdownByCategory(Repo.MonthWindow(year, month).value, found.value.id));
    assert Domain.Names(bds) == seq(|rows|, j requires 0 <= j < |rows| => rows[j].categoryName);
    o := Reply1(st, StatsReport(month, year, total, lines));
  }

  // ---------------------------------------------------------------------
  // List

  /** `List`: store the message as a context (the page buttons point back
      to it), then show the first page of the month. A nil user is only
      dereferenced after the context was stored. */
  function List(env: Env, st: Store, m: Message): (o: Outcome)
    ensures o.store == st || o.store == st.(contexts := st.contexts[st.nextContextId := m.text], nextContextId := st.nextContextId + 1)
    ensures o.store.transactions == st.transactions && o.store.users == st.users
    ensures o.store == st <==> FindUser in st.faults || (m.fromId in st.users && !Loadable(st, m.fromId)) || AddContext in st.faults
    ensures o.panicked ==> o.replies == [] && m.fromId !in st.users
    ensures !o.panicked ==> |o.replies| == 1
  {
    var found := FindUserById(st, m.fromId);
    if found.Failed? then Reply1(st, GenericError)
    else
      match AddMessageContext(st, m.text)
      case Err(_) => Reply1(st, GenericError)
      case Ok((st', id)) =>
        if found.Missing? then Panic(st', [])
        else
          var (month, year) := env.monthYear(m.text);
          var listing := Repo.ListByMonthAndYear(st'.months, month, year, 0, ListPageSize, found.value.id).0;
          if listing.error.Some? then Reply1(st', GenericError)
          else if listing.count == 0 then Reply1(st', ListEmpty)
          else Reply1(st', TransactionPage(listing.rows, listing.count, 0, ListPageSize,
                                           Keyboard.PaginationKeyboard(listing.count, 0, ListPageSize, id, Keyboard.PaginationColumns)))
  }

  /** For a known user, the reply follows the month's listing: a failed
      listing is a generic error, an empty month the empty-list message, and
      otherwise the first page of ten rows under a two-column keyboard whose
      buttons point at the context just stored for the message. */
  lemma ListShowsFirstPage(env: Env, st: Store, m: Message)
    requires FindUser !in st.faults && AddContext !in st.faults && Loadable(st, m.fromId)
    ensures var my := env.monthYear(m.text);
            var listing := Repo.ListByMonthAndYear(st.months, my.0, my.1, 0, 10, st.users[m.fromId].id).0;
            var o := List(env, st, m);
            && !o.panicked
            && o.store.contexts == st.contexts[st.nextContextId := m.text]
            && (listing.error.Some? ==> o.replies == [GenericError])
            && (listing.error.None? && listing.count == 0 ==> o.replies == [ListEmpty])
            && (listing.error.None? && listing.count != 0 ==>
                  o.replies == [TransactionPage(listing.rows, listing.count, 0, 10,
                                                Keyboard.PaginationKeyboard(listing.count, 0, 10, st.nextContextId, 2))])
  {
  }

  /** A month without transactions answers the empty-list message, yet the
      context stored for paging stays behind. */
  lemma ListEmptyKeepsContext(env: Env, st: Store, m: Message)
    requires FindUser !in st.faults && AddContext !in st.faults && Loadable(st, m.fromId)
    requires var my := env.monthYear(m.text);
             var w := Repo.MonthWindow(my.1, my.0);
             w.Ok? && st.months.countByMonth(w.value, st.users[m.fromId].id) == Ok(0)
    ensures List(env, st, m).replies == [ListEmpty]
    ensures List(env, st, m).store.contexts == st.contexts[st.nextContextId := m.text]
  {
  }

  // ---------------------------------------------------------------------
  // Export

  /** The rows the export loop writes from `offset` on: fetch a page of
      1000; stop once the offset is past the count the page reports; give
      up on an error; otherwise keep the page and move on. A failed page
      reports a count of 0, so past the first page an error ends the loop
      as if the month were exhausted. */
  function ExportFrom(dao: Repo.Dao, month: int, year: int, userId: int, offset: int): (r: Result<seq<Domain.Transaction>>)
    requires offset >= 0
    decreases Repo.CountBound(dao, month, year, userId) + ExportPageSize - offset
  {
    var listing := Repo.ListByMonthAndYear(dao, month, year, offset, ExportPageSize, userId).0;
    Repo.ListingCountBounded(dao, month, year, offset, ExportPageSize, userId);
    if offset > listing.count then Ok([])
    else if listing.error.Some? then Err(listing.error.value)
    else
      match ExportFrom(dao, month, year, userId, offset + ExportPageSize)
      case Err(e) => Err(e)
      case Ok(rest) => Ok(listing.rows + rest)
  }

  /** Rows already written, followed by what the rest of the loop gives. */
  function Then(rows: seq<Domain.Transaction>, rest: Result<seq<Domain.Transaction>>): Result<seq<Domain.Transaction>> {
    match rest
    case Err(e) => Err(e)
    case Ok(more) => Ok(rows + more)
  }

  lemma ThenEmpty(r: Result<seq<Domain.Transaction>>)
    ensures Then([], r) == r
  {
    if r.Ok? {
      assert [] + r.value == r.value;
    }
  }

  lemma ThenAppend(a: seq<Domain.Transaction>, b: seq<Domain.Transaction>, r: Result<seq<Domain.Transaction>>)
    ensures Then(a, Then(b, r)) == Then(a + b, r)
  {
    if r.Ok? {
      assert a + (b + r.value) == (a + b) + r.value;
    }
  }

  /** The loop of `Export`, page by page. */
  method ExportRows(dao: Repo.Dao, month: int, year: int, userId: int) returns (r: Result<seq<Domain.Transaction>>)
    ensures r == ExportFrom(dao, month, year, userId, 0)
  {
    var rows: seq<Domain.Transaction> := [];
    var offset := 0;
    ThenEmpty(ExportFrom(dao, month, year, userId, 0));
    while true
      invariant offset >= 0
      invariant ExportFrom(dao, month, year, userId, 0) == Then(rows, ExportFrom(dao, month, year, userId, offset))
      decreases Repo.CountBound(dao, month, year, userId) + ExportPageSize - offset
    {
      var listing := Repo.ListByMonthAndYear(dao, month, year, offset, ExportPageSize, userId).0;
      Repo.ListingCountBounded(dao, month, year, offset, ExportPageSize, userId);
      if offset > listing.count {
        assert ExportFrom(dao, month, year, userId, offset) == Ok([]);
        assert rows + [] == rows;
        break;
      }
      if listing.error.Some? {
        assert ExportFrom(dao, month, year, userId, offset) == Err(listing.error.value);
        return Err(listing.error.value);
      }
      assert ExportFrom(dao, month, year, userId, offset) == Then(listing.rows, ExportFrom(dao, month, year, userId, offset + ExportPageSize));
      ThenAppend(rows, listing.rows, ExportFrom(dao, month, year, userId, offset + ExportPageSize));
      rows := rows + listing.rows;
      offset := offset + ExportPageSize;
    }
    r := Ok(rows);
  }

  /** `Export`: all of the month's rows, sent as one document. */
  method Export(env: Env, st: Store, m: Message) returns (o: Outcome)
    ensures o.store == st
    ensures o.panicked <==> FindUser !in st.faults && m.fromId !in st.users
    ensures o.panicked ==> o.replies == []
    ensures !o.panicked ==> |o.replies| == 1
    ensures !o.panicked && o.replies[0].Exported? ==>
              && Loadable(st, m.fromId)
              && (o.replies[0].month, o.replies[0].year) == env.monthYear(m.text)
              && ExportFrom(st.months, o.replies[0].month, o.replies[0].year, st.users[m.fromId].id, 0) == Ok(o.replies[0].rows)
    ensures !o.panicked && !o.replies[0].Exported? ==> o.replies[0] == GenericError
  {
    var found := FindUserById(st, m.fromId);
    if found.Failed? {
      return Reply1(st, GenericError);
    }
    if found.Missing? {
      return Panic(st, []);
    }
    var (month, year) := env.monthYear(m.text);
    var r := ExportRows(st.months, month, year, found.value.id);
    if r.Err? {
      return Reply1(st, GenericError);
    }
    o := Reply1(st, Exported(r.value, month, year));
  }

  /** The database holds `all` as the user's rows of the month: the count
      query gives their number and the list query the slice asked for. */
  ghost predicate Holds(dao: Repo.Dao, w: Repo.Window, userId: int, all: seq<Repo.TransactionEntity>) {
    && dao.countByMonth(w, userId) == Ok(|all|)
    && forall offset: nat, limit: nat {:trigger Page(dao, w, offset, limit, userId)} ::
         limit > 0 ==> Page(dao, w, offset, limit, userId) == Ok(Slice(all, offset, limit))
  }

  /** The list query's answer for one page. */
  function Page(dao: Repo.Dao, w: Repo.Window, offset: int, limit: int, userId: int): Result<seq<Repo.TransactionEntity>> {
    dao.listByMonth(w, offset, limit, userId)
  }

  /** `LIMIT limit OFFSET offset` over `all`. */
  function Slice(all: seq<Repo.TransactionEntity>, offset: nat, limit: nat): (r: seq<Repo.TransactionEntity>)
    ensures |r| <= limit
  {
    if offset >= |all| then [] else all[offset..Keyboard.Min(offset + limit, |all|)]
  }

  lemma {:induction false} MapToDomainAppend(a: seq<Repo.TransactionEntity>, b: seq<Repo.TransactionEntity>)
    ensures Repo.MapToDomain(a + b) == Repo.MapToDomain(a) + Repo.MapToDomain(b)
    decreases |a|
  {
    if |a| > 0 {
      assert (a + b)[1..] == a[1..] + b;
      MapToDomainAppend(a[1..], b);
    } else {
      assert a + b == b;
    }
  }

  /** One page against a consistent database. */
  lemma PageOf(dao: Repo.Dao, month: int, year: int, userId: int, all: seq<Repo.TransactionEntity>, offset: nat)
    requires Repo.MonthWindow(year, month).Ok?
    requires Holds(dao, Repo.MonthWindow(year, month).value, userId, all)
    ensures Repo.ListByMonthAndYear(dao, month, year, offset, ExportPageSize, userId).0
            == if |all| == 0 then Repo.Listing([], 0, None)
               else Repo.Listing(Repo.MapToDomain(Slice(all, offset, ExportPageSize)), |all|, None)
  {
    var w := Repo.MonthWindow(year, month).value;
    assert Page(dao, w, offset, ExportPageSize, userId) == Ok(Slice(all, offset, ExportPageSize));
  }

  /** One step of the export, as the loop takes it. */
  lemma ExportFromUnfold(dao: Repo.Dao, month: int, year: int, userId: int, offset: nat)
    ensures var l := Repo.ListByMonthAndYear(dao, month, year, offset, ExportPageSize, userId).0;
            ExportFrom(dao, month, year, userId, offset)
            == if offset > l.count then Ok([])
               else if l.error.Some? then Err(l.error.value)
               else Then(l.rows, ExportFrom(dao, month, year, userId, offset + ExportPageSize))
  {
  }

  /** The rows of `all` from `offset` on. */
  function From(all: seq<Repo.TransactionEntity>, offset: nat): seq<Repo.TransactionEntity> {
    if offset >= |all| then [] else all[offset..]
  }

  /** A page in the middle of a consistent month: the page, then the rest. */
  lemma CollectPage(dao: Repo.Dao, month: int, year: int, userId: int, all: seq<Repo.TransactionEntity>, offset: nat)
    requires offset < |all|
    requires Repo.ListByMonthAndYear(dao, month, year, offset, ExportPageSize, userId).0
             == Repo.Listing(Repo.MapToDomain(Slice(all, offset, ExportPageSize)), |all|, None)
    requires ExportFrom(dao, month, year, userId, offset + ExportPageSize) == Ok(Repo.MapToDomain(From(all, offset + ExportPageSize)))
    ensures ExportFrom(dao, month, year, userId, offset) == Ok(Repo.MapToDomain(From(all, offset)))
  {
    ExportFromUnfold(dao, month, year, userId, offset);
    PageThenRest(all, offset);
  }

  /** The rows from `offset` on are one page followed by the rest. */
  lemma PageThenRest(all: seq<Repo.TransactionEntity>, offset: nat)
    requires offset < |all|
    ensures Repo.MapToDomain(From(all, offset))
            == Repo.MapToDomain(Slice(all, offset, ExportPageSize)) + Repo.MapToDomain(From(all, offset + ExportPageSize))
  {
    var page := Slice(all, offset, ExportPageSize);
    var rest := From(all, offset + ExportPageSize);
    assert all[offset..] == page + rest;
    MapToDomainAppend(page, rest);
  }


  /** Past the last row of a consistent month the export adds nothing. */
  lemma CollectEnd(dao: Repo.Dao, month: int, year: int, userId: int, all: seq<Repo.TransactionEntity>, offset: nat)
    requires Repo.MonthWindow(year, month).Ok?
    requires Holds(dao, Repo.MonthWindow(year, month).value, userId, all)
    requires offset >= |all|
    requires offset == |all| ==> ExportFrom(dao, month, year, userId, offset + ExportPageSize) == Ok([])
    ensures ExportFrom(dao, month, year, userId, offset) == Ok([])
  {
    PageOf(dao, month, year, userId, all, offset);
    ExportFromUnfold(dao, month, year, userId, offset);
    if offset == |all| {
      assert Slice(all, offset, ExportPageSize) == [];
      ThenEmpty(Ok([]));
    }
  }

  /** Against a database that answers consistently, the export from any
      offset holds every row from there on, each once, in order. */
  lemma {:induction false} ExportFromCollects(dao: Repo.Dao, month: int, year: int, userId: int, all: seq<Repo.TransactionEntity>, offset: nat)
    requires Repo.MonthWindow(year, month).Ok?
    requires Holds(dao, Repo.MonthWindow(year, month).value, userId, all)
    ensures ExportFrom(dao, month, year, userId, offset) == Ok(Repo.MapToDomain(From(all, offset)))
    decreases |all| + ExportPageSize - offset
  {
    if offset <= |all| {
      ExportFromCollects(dao, month, year, userId, all, offset + ExportPageSize);
    }
    if offset < |all| {
      PageOf(dao, month, year, userId, all, offset);
      CollectPage(dao, month, year, userId, all, offset);
    } else {
      CollectEnd(dao, month, year, userId, all, offset);
    }
  }

  /** So the export of a consistent month is the whole month. */
  lemma ExportCollectsAll(dao: Repo.Dao, month: int, year: int, userId: int, all: seq<Repo.TransactionEntity>)
    requires Repo.MonthWindow(year, month).Ok?
    requires Holds(dao, Repo.MonthWindow(year, month).value, userId, all)
    ensures ExportFrom(dao, month, year, userId, 0) == Ok(Repo.MapToDomain(all))
  {
    ExportFromCollects(dao, month, year, userId, all, 0);
    assert all[0..] == all;
  }

  /** A failure of the second page's query is not reported: the export
      stops there and sends the first page alone. */
  lemma ExportDropsFailedPage(dao: Repo.Dao, month: int, year: int, userId: int)
    requires Repo.MonthWindow(year, month).Ok?
    requires var w := Repo.MonthWindow(year, month).value;
             && dao.countByMonth(w, userId).Ok? && dao.countByMonth(w, userId).value >= ExportPageSize
             && dao.listByMonth(w, 0, ExportPageSize, userId).Ok?
             && dao.listByMonth(w, ExportPageSize, ExportPageSize, userId).Err?
    ensures var w := Repo.MonthWindow(year, month).value;
            ExportFrom(dao, month, year, userId, 0) == Ok(Repo.MapToDomain(dao.listByMonth(w, 0, ExportPageSize, userId).value))
  {
    var second := ExportFrom(dao, month, year, userId, ExportPageSize);
    assert second == Ok([]);
    var first := Repo.ListByMonthAndYear(dao, month, year, 0, ExportPageSize, userId).0;
    assert first.rows + [] == first.rows;
  }
}
