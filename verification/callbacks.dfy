/** The callback handler (handler/callback_handler.go): what happens when a
    user presses a category, pagination, undo or Cancel button. */
module Callbacks {
  import opened Wrappers
  import opened Text
  import opened Store
  import opened Handling
  import Amount
  import Callback
  import Keyboard
  import Domain
  import Repo
  import Int64

  // ---------------------------------------------------------------------
  // What a handler may change

  /** Only the transaction table, its counter and the contexts differ. */
  ghost predicate OnlyTransactionsAndContexts(st: Store, st': Store) {
    st' == st.(transactions := st'.transactions, nextTransactionId := st'.nextTransactionId, contexts := st'.contexts)
  }

  /** `st'` holds the rows of `st` plus one new row of `userId` at the end,
      under the next serial id. */
  predicate AppendedOne(st: Store, st': Store, userId: int) {
    && |st'.transactions| == |st.transactions| + 1
    && st'.transactions[..|st.transactions|] == st.transactions
    && st'.nextTransactionId == st.nextTransactionId + 1
    && st'.transactions[|st.transactions|].id == st.nextTransactionId
    && st'.transactions[|st.transactions|].userId == userId
  }

  // ---------------------------------------------------------------------
  // FromCategory

  /** The transaction built from a context message: the amount found by the
      handler's scanner, read as a float and turned into minor units of the
      user's currency; the description after the amount; the pressed
      category; the current time. `None` where the source gives up first. */
  function Draft(env: Env, user: User, fromId: int, category: CategoryRow, text: string): (r: Option<Domain.Transaction>)
    ensures r.Some? ==> && r.value.userId == fromId && r.value.categoryId == category.id
                        && r.value.datetime == env.now && r.value.currency == user.currencyCode
                        && Amount.ScanAmount(env.scanner, text).Ok?
                        && r.value.description == Description(text, Amount.ScanAmount(env.scanner, text).value)
                        && 0 <= r.value.amount <= Int64.Max
  {
    match Amount.ScanAmount(env.scanner, text)
    case Err(_) => None
    case Ok(amountText) =>
      match env.parseFloat(amountText)
      case None => None
      case Some(value) =>
        match Decimalise(env.formatFixed, value, user.fraction)
        case Err(_) => None
        case Ok(amount) =>
          Some(Domain.Transaction(0, env.now, category.id, "", Description(text, amountText), fromId, amount, user.currencyCode))
  }

  /** The amount was found and read as a float: the point where the source
      dereferences the user. */
  predicate AmountRead(env: Env, text: string) {
    Amount.ScanAmount(env.scanner, text).Ok? && env.parseFloat(Amount.ScanAmount(env.scanner, text).value).Some?
  }

  /** No transaction type has the category's type id. */
  predicate TypeMissing(st: Store, category: CategoryRow) {
    forall i :: 0 <= i < |st.transactionTypes| ==> st.transactionTypes[i].id != category.transactionTypeId
  }

  lemma AddAppendsOne(st: Store, t: Domain.Transaction)
    requires AddTransactionRow(st, t).Ok?
    ensures AppendedOne(st, AddTransactionRow(st, t).value, t.userId)
  {
    var st' := AddTransactionRow(st, t).value;
    assert st'.transactions[..|st.transactions|] == st.transactions;
  }

  /** Insert the transaction, look up its type for the reply text, reply. */
  function Insert(st: Store, t: Domain.Transaction, category: CategoryRow): (o: Outcome)
    ensures o.store == st || (AddTransactionRow(st, t).Ok? && o.store == AddTransactionRow(st, t).value)
    ensures o.panicked ==> o.replies == [] && TypeMissing(st, category)
    ensures !o.panicked ==> |o.replies| == 1
    ensures !o.panicked && o.replies[0].TransactionAdded? ==>
              && AddTransactionRow(st, t).Ok? && o.store == AddTransactionRow(st, t).value
              && o.replies[0].amount == t.amount && o.replies[0].description == t.description
              && o.replies[0].categoryName == category.name
  {
    match AddTransactionRow(st, t)
    case Err(_) => Reply1(st, GenericError)
    case Ok(st') =>
      match GetTransactionTypeById(st', category.transactionTypeId)
      case Failed(_) => Reply1(st', GenericError)
      case Missing => Panic(st', [])
      case Found(tt) => Reply1(st', TransactionAdded(tt.replyText, t.amount, category.name, t.description))
  }

  /** Steps 3 to the reply of `FromCategory`: scan, parse, decimalise (a nil
      user panics here), insert, look up the transaction type, reply. */
  function SaveAmount(env: Env, st: Store, user: Option<User>, fromId: int, category: CategoryRow, text: string): (o: Outcome)
    ensures o.store == st || (&& user.Some? && Draft(env, user.value, fromId, category, text).Some?
                              && var added := AddTransactionRow(st, Draft(env, user.value, fromId, category, text).value);
                              && added.Ok? && o.store == added.value)
    ensures o.panicked ==> o.replies == [] && ((AmountRead(env, text) && user.None?) || TypeMissing(st, category))
    ensures !o.panicked ==> |o.replies| == 1
  {
    if !AmountRead(env, text) then Reply1(st, GenericError)
    else if user.None? then Panic(st, [])
    else
      match Draft(env, user.value, fromId, category, text)
      case None => Reply1(st, GenericError)
      case Some(t) => Insert(st, t, category)
  }

  predicate CategoryMissing(st: Store, categoryId: int) {
    forall i :: 0 <= i < |st.categories| ==> st.categories[i].id != categoryId
  }

  /** The body of `FromCategory` once the context delete is deferred. A
      missing category, context or transaction type panics: the data access
      layer indexes the first row of an empty result. */
  function CategoryBody(env: Env, st: Store, user: Option<User>, fromId: int, mc: int, categoryId: int): (o: Outcome)
    ensures o.store == st || (user.Some? && AppendedOne(st, o.store, fromId))
    ensures OnlyTransactionsAndContexts(st, o.store) && o.store.contexts == st.contexts
    ensures o.panicked ==>
              && o.replies == []
              && (|| (GetCategory !in st.faults && CategoryMissing(st, categoryId))
                  || (GetContext !in st.faults && mc !in st.contexts)
                  || user.None?
                  || (GetCategoryById(st, categoryId).Found? && TypeMissing(st, GetCategoryById(st, categoryId).value)))
    ensures !o.panicked ==> |o.replies| == 1
  {
    match GetCategoryById(st, categoryId)
    case Failed(_) => Reply1(st, GenericError)
    case Missing => Panic(st, [])
    case Found(category) =>
      match GetMessageById(st, mc)
      case Failed(_) => Reply1(st, GenericError)
      case Missing => Panic(st, [])
      case Found(text) =>
        var o := SaveAmount(env, st, user, fromId, category, text);
        assert o.store == st || (user.Some? && AppendedOne(st, o.store, fromId)) by {
          if o.store != st {
            AddAppendsOne(st, Draft(env, user.value, fromId, category, text).value);
          }
        }
        o
  }

  /** `FromCategory`. The user is looked up first (an error ends it); a nil
      user is only dereferenced at `decimalise`. Once the payload decodes,
      the context it names is deleted on every way out, a panic included. */
  function FromCategory(env: Env, st: Store, q: CallbackQuery): (o: Outcome)
    ensures OnlyTransactionsAndContexts(st, o.store)
    ensures o.store.transactions == st.transactions || AppendedOne(st, o.store, q.fromId)
    ensures o.replies == [] <==> o.panicked
  {
    var found := FindUserById(st, q.fromId);
    if found.Failed? then Reply1(st, GenericError)
    else
      match Callback.Decode(Callback.CategoryKind, q.data)
      case Err(_) => Reply1(st, GenericError)
      case Ok(cb) =>
        var user := if found.Found? then Some(found.value) else None;
        var body := CategoryBody(env, st, user, q.fromId, cb.c.mc, cb.categoryId);
        body.(store := DeleteMessageContext(body.store, cb.c.mc))
  }

  /** Serial ids stay ahead of the rows and contexts they numbered. */
  lemma FromCategoryKeepsValid(env: Env, st: Store, q: CallbackQuery)
    requires Valid(st)
    ensures Valid(FromCategory(env, st, q).store)
  {
  }

  /** A lookup error or an undecodable payload answers a generic error and
      changes nothing: no context is deleted, since the delete is only
      deferred after decoding. */
  lemma FromCategoryEarlyExit(env: Env, st: Store, q: CallbackQuery)
    requires || FindUser in st.faults
             || (q.fromId in st.users && !Loadable(st, q.fromId))
             || Callback.Decode(Callback.CategoryKind, q.data).Err?
    ensures FromCategory(env, st, q) == Reply1(st, GenericError)
  {
  }

  /** Once the payload decodes, its context is gone afterwards, whatever the
      outcome (unless the delete itself fails, which is only logged). */
  lemma FromCategoryDeletesContext(env: Env, st: Store, q: CallbackQuery)
    requires FindUser !in st.faults && DeleteContext !in st.faults
    requires q.fromId in st.users ==> Loadable(st, q.fromId)
    requires Callback.Decode(Callback.CategoryKind, q.data).Ok?
    ensures Callback.Decode(Callback.CategoryKind, q.data).value.c.mc !in FromCategory(env, st, q).store.contexts
    ensures FromCategory(env, st, q).store.contexts
            == st.contexts - {Callback.Decode(Callback.CategoryKind, q.data).value.c.mc}
  {
  }

  /** A reply confirming the transaction means the row the context message
      describes was stored for the presser, under the pressed category, at
      the current time, with the confirmed amount and description. */
  lemma FromCategoryRecordsDraft(env: Env, st: Store, q: CallbackQuery)
    requires |FromCategory(env, st, q).replies| == 1 && FromCategory(env, st, q).replies[0].TransactionAdded?
    ensures var cb := Callback.Decode(Callback.CategoryKind, q.data).value;
            var o := FromCategory(env, st, q);
            var r := o.replies[0];
            var text := st.contexts[cb.c.mc];
            var amountText := Amount.ScanAmount(env.scanner, text).value;
            && Loadable(st, q.fromId)
            && AppendedOne(st, o.store, q.fromId)
            && var t := o.store.transactions[|st.transactions|];
            && t.categoryId == cb.categoryId && t.datetime == env.now
            && t.description == Description(text, amountText) == r.description
            && t.amount == r.amount && t.currency == st.users[q.fromId].currencyCode
  {
    var found := FindUserById(st, q.fromId);
    var cb := Callback.Decode(Callback.CategoryKind, q.data).value;
    var user := Some(found.value);
    var category := GetCategoryById(st, cb.categoryId).value;
    var text := GetMessageById(st, cb.c.mc).value;
    var t := Draft(env, user.value, q.fromId, category, text).value;
    assert SaveAmount(env, st, user, q.fromId, category, text) == Insert(st, t, category);
    AddAppendsOne(st, t);
  }

  /** A panic has one of four causes: the category, the context or the
      transaction type is missing, or the user is. */
  lemma FromCategoryPanics(env: Env, st: Store, q: CallbackQuery)
    requires FromCategory(env, st, q).panicked
    ensures var cb := Callback.Decode(Callback.CategoryKind, q.data).value;
            || CategoryMissing(st, cb.categoryId)
            || cb.c.mc !in st.contexts
            || q.fromId !in st.users
            || (exists c :: c in st.categories && c.id == cb.categoryId && TypeMissing(st, c))
  {
    var cb := Callback.Decode(Callback.CategoryKind, q.data).value;
    var lookup := GetCategoryById(st, cb.categoryId);
    if lookup.Found? && TypeMissing(st, lookup.value) {
      assert lookup.value in st.categories;
    }
  }

  // ---------------------------------------------------------------------
  // The two scanners

  /** The command handler's scanner takes the thousands separator in:
      the amount of `5,000 <word>` is `5,000`. */
  lemma UnanchoredTakesSeparator(word: string)
    requires |word| > 0 && forall i :: 0 <= i < |word| ==> 'a' <= word[i] <= 'z'
    ensures Amount.ScanAmount(Amount.Unanchored, "5,000 " + word) == Ok("5,000")
  {
    var s := "5,000 " + word;
    assert Amount.CanStart(s, 0) && Amount.FirstStart(s, 0) == Some(0);
    assert Amount.SpanInt(s, 5, Amount.WithCommas) == 5;
    assert Amount.SpanInt(s, 4, Amount.WithCommas) == 5;
    assert Amount.SpanInt(s, 3, Amount.WithCommas) == 5;
    assert Amount.SpanInt(s, 2, Amount.WithCommas) == 5;
    assert Amount.SpanInt(s, 1, Amount.WithCommas) == 5;
    assert Amount.DotEnd(s, 5) == 5 && Amount.SpanFrac(s, 5) == 5;
    assert Amount.MatchEnd(s, 0, Amount.WithCommas) == 5;
    assert s[0..5] == "5,000";
    assert Amount.ParseFloatString(s) == Ok(s[0..5]);
  }

  /** The anchored scanner stops at the comma: the amount is `5`. */
  lemma AnchoredStopsAtSeparator(word: string)
    requires |word| > 0 && forall i :: 0 <= i < |word| ==> 'a' <= word[i] <= 'z'
    ensures Amount.ScanAmount(Amount.Anchored, "5,000 " + word) == Ok("5")
  {
    var s := "5,000 " + word;
    assert Amount.CanStart(s, 0);
    assert Amount.SpanInt(s, 1, Amount.NoCommas) == 1;
    assert Amount.DotEnd(s, 1) == 1 && Amount.SpanFrac(s, 1) == 1;
    assert Amount.MatchEnd(s, 0, Amount.NoCommas) == 1;
    assert s[..1] == "5";
  }

  /** After `5,000` the description is the word. */
  lemma WordAfterSeparator(word: string)
    requires |word| > 0 && forall i :: 0 <= i < |word| ==> 'a' <= word[i] <= 'z'
    ensures Description("5,000 " + word, "5,000") == word
  {
    assert "5,000 " + word == "5,000" + (" " + word);
    AfterLeadingKey("5,000", " " + word);
    TrimOneLeadingSpace(word);
  }


  /** After `5` the description keeps the rest of the number. */
  lemma SeparatorInDescription(word: string)
    requires |word| > 0 && forall i :: 0 <= i < |word| ==> 'a' <= word[i] <= 'z'
    ensures Description("5,000 " + word, "5") == ",000 " + word
  {
    assert "5,000 " + word == "5" + (",000 " + word);
    AfterLeadingKey("5", ",000 " + word);
    var u := ",000 " + word;
    assert LeadingSpaces(u, 0) == 0;
    assert TrailingEnd(u, 0, |u|) == |u|;
    assert u[0..|u|] == u;
  }


  /** When the callback handler runs the same scanner as the command handler,
      every description it stores passed the 20-byte check at the start of
      the transaction. */
  lemma SameScannerKeepsLimit(env: Env, text: string, user: User, fromId: int, category: CategoryRow)
    requires env.scanner == Amount.Unanchored
    requires CheckText(Amount.Unanchored, CommandDescriptionLimit, text).Accepted?
    requires Draft(env, user, fromId, category, text).Some?
    ensures Utf8Len(Draft(env, user, fromId, category, text).value.description) <= CommandDescriptionLimit
  {
  }

  /** With the anchored scanner the check and the stored description come
      apart: `5,000` followed by a word of 16 to 20 letters passes the
      check, yet the description stored is `,000 ` and the word, over 20
      bytes. */
  lemma AnchoredScannerBreaksLimit(word: string)
    requires 16 <= |word| <= 20 && forall i :: 0 <= i < |word| ==> 'a' <= word[i] <= 'z'
    ensures CheckText(Amount.Unanchored, CommandDescriptionLimit, "5,000 " + word).Accepted?
    ensures Amount.ScanAmount(Amount.Anchored, "5,000 " + word) == Ok("5")
    ensures Utf8Len(Description("5,000 " + word, "5")) > CommandDescriptionLimit
  {
    assert IsAscii(word);
    AsciiUtf8Len(word);
    UnanchoredTakesSeparator(word);
    WordAfterSeparator(word);
    AnchoredStopsAtSeparator(word);
    SeparatorInDescription(word);
    SeparatorBytes();
    Utf8LenAppend(",000 ", word);
  }

  lemma SeparatorBytes()
    ensures Utf8Len(",000 ") == 5
  {
    assert ",000 "[1..] == "000 " && "000 "[1..] == "00 " && "00 "[1..] == "0 " && "0 "[1..] == " ";
    assert Utf8Len(" ") == 1;
  }

  // ---------------------------------------------------------------------
  // FromPagination

  /** `FromPagination`: re-read the month from the stored context and show
      the page the button asks for. Nothing is written. */
  function FromPagination(env: Env, st: Store, q: CallbackQuery): (o: Outcome)
    ensures o.store == st
    ensures o.panicked ==> o.replies == []
    ensures !o.panicked ==> |o.replies| == 1
    ensures !o.panicked && !o.replies[0].TransactionPage? ==> o.replies[0] == GenericError
  {
    var found := FindUserById(st, q.fromId);
    if found.Failed? then Reply1(st, GenericError)
    else
      match Callback.Decode(Callback.PaginationKind, q.data)
      case Err(_) => Reply1(st, GenericError)
      case Ok(cb) =>
        match GetMessageById(st, cb.c.mc)
        case Failed(_) => Reply1(st, GenericError)
        case Missing => Panic(st, [])
        case Found(text) =>
          if found.Missing? then Panic(st, [])
          else
            var (month, year) := env.monthYear(text);
            var listing := Repo.ListByMonthAndYear(st.months, month, year, cb.offset, cb.limit, found.value.id).0;
            Reply1(st, TransactionPage(listing.rows, listing.count, cb.offset, cb.limit,
                                       Keyboard.PaginationKeyboard(listing.count, cb.offset, cb.limit, cb.c.mc, Keyboard.PaginationColumns)))
  }

  /** The page shows the rows the listing query returns for the context's
      month at the button's offset and limit; a failed listing is not
      reported but shown as an empty page with a count of zero. */
  lemma FromPaginationShowsListing(env: Env, st: Store, q: CallbackQuery)
    requires FindUser !in st.faults && Loadable(st, q.fromId)
    requires Callback.Decode(Callback.PaginationKind, q.data).Ok?
    requires GetContext !in st.faults
    requires Callback.Decode(Callback.PaginationKind, q.data).value.c.mc in st.contexts
    ensures var cb := Callback.Decode(Callback.PaginationKind, q.data).value;
            var my := env.monthYear(st.contexts[cb.c.mc]);
            var listing := Repo.ListByMonthAndYear(st.months, my.0, my.1, cb.offset, cb.limit, st.users[q.fromId].id).0;
            var r := FromPagination(env, st, q).replies;
            && |r| == 1 && r[0].TransactionPage?
            && r[0].offset == cb.offset && r[0].limit == cb.limit
            && (listing.error.None? ==> r[0].transactions == listing.rows && r[0].totalCount == listing.count)
            && (listing.error.Some? ==> r[0].transactions == [] && r[0].totalCount == 0)
  {
  }

  // ---------------------------------------------------------------------
  // FromUndo

  /** `FromUndo`: delete the presser's transaction with the id the button
      carries. An undecodable payload is only logged, with no reply. */
  function FromUndo(st: Store, q: CallbackQuery): (o: Outcome)
    ensures o.store != st ==>
              (&& Callback.Decode(Callback.UndoKind, q.data).Ok?
               && o.store == st.(transactions := RemoveOwned(st.transactions, Callback.Decode(Callback.UndoKind, q.data).value.txnId, q.fromId)))
    ensures forall i :: 0 <= i < |o.store.transactions| ==> o.store.transactions[i] in st.transactions
    ensures forall i :: 0 <= i < |st.transactions| && st.transactions[i].userId != q.fromId
                        ==> st.transactions[i] in o.store.transactions
    ensures o.panicked ==> o.replies == [] && o.store == st
  {
    match Callback.Decode(Callback.UndoKind, q.data)
    case Err(_) => Silent(st)
    case Ok(cb) =>
      match GetTransactionById(st, cb.txnId, q.fromId)
      case Failed(_) => Reply1(st, GenericError)
      case Missing => Panic(st, [])
      case Found(t) =>
        match DeleteTransactionRow(st, cb.txnId, q.fromId)
        case Err(_) => Reply1(st, GenericError)
        case Ok(st') => Reply1(st', TransactionDeleted(t.amount, t.description))
  }

  /** A confirmed undo removed every row of the presser with that id, and
      the reply repeats the amount and description of such a row. */
  lemma FromUndoRemoves(st: Store, q: CallbackQuery)
    requires |FromUndo(st, q).replies| == 1 && FromUndo(st, q).replies[0].TransactionDeleted?
    ensures var id := Callback.Decode(Callback.UndoKind, q.data).value.txnId;
            var o := FromUndo(st, q);
            && (forall i :: 0 <= i < |o.store.transactions| ==> !Owned(o.store.transactions[i], id, q.fromId))
            && exists i :: 0 <= i < |st.transactions| && Owned(st.transactions[i], id, q.fromId)
                           && st.transactions[i].amount == o.replies[0].amount
                           && st.transactions[i].description == o.replies[0].description
  {
    var id := Callback.Decode(Callback.UndoKind, q.data).value.txnId;
    var t := GetTransactionById(st, id, q.fromId).value;
    var i :| 0 <= i < |Unnamed(st.transactions)| && Unnamed(st.transactions)[i] == t.(categoryName := "");
    assert Owned(st.transactions[i], id, q.fromId);
  }

  // ---------------------------------------------------------------------
  // FromCancel

  /** `FromCancel`: delete the context the Cancel button names; no reply. */
  function FromCancel(st: Store, q: CallbackQuery): (o: Outcome)
    ensures o.replies == [] && !o.panicked
    ensures Callback.Decode(Callback.GenericKind, q.data).Err? ==> o.store == st
    ensures Callback.Decode(Callback.GenericKind, q.data).Ok? && DeleteContext !in st.faults ==>
              o.store == st.(contexts := st.contexts - {Callback.Decode(Callback.GenericKind, q.data).value.c.mc})
    ensures DeleteContext in st.faults ==> o.store == st
  {
    match Callback.Decode(Callback.GenericKind, q.data)
    case Err(_) => Silent(st)
    case Ok(g) => Silent(DeleteMessageContext(st, g.c.mc))
  }
}
