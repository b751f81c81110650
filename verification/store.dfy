/** The persistent state the handlers read and write, as one immutable value,
    and the repository calls over it. Every call kind can be made to fail
    (`faults`), standing for a database error. A lookup by id whose row is
    missing is `Missing`: the data access layer indexes `[0]` into an empty
    result there, which is a panic, and the handlers treat it so. */
module Store {
  import opened Wrappers
  import Domain
  import Repo
  import Keyboard

  /** `domain.User`: the locale, the currency's code and number of minor
      digits, the zone name of the location, and the conversation context
      that the message handler switches on (a field the message handler
      reads but the user type of this snapshot does not declare). */
  datatype User = User(id: int, locale: string, currencyCode: string, fraction: nat, location: string, currentContext: string)

  datatype CategoryRow = CategoryRow(id: int, name: string, transactionTypeId: int)

  /** A transaction type and the reply template used after a transaction of that type. */
  datatype TransactionTypeRow = TransactionTypeRow(id: int, name: string, replyText: string)

  /** The kinds of repository call. */
  datatype Call =
    | FindUser | AddUser | UpdateUser
    | AddContext | GetContext | DeleteContext
    | GetCategory | FindCategories | GetTransactionType
    | AddTransaction | GetTransaction | DeleteTransaction | FindLatest

  /** The database: users by id, message contexts by id, the category and
      transaction-type tables, the transaction table, the serial counters,
      the answers to the month queries, the zone names the process's
      time-zone database knows (`LoadsZone` adds the names
      `time.LoadLocation` answers without it), and the calls that fail. */
  datatype Store = Store(
    users: map<int, User>,
    contexts: map<int, string>,
    nextContextId: int,
    categories: seq<CategoryRow>,
    transactionTypes: seq<TransactionTypeRow>,
    transactions: seq<Domain.Transaction>,
    nextTransactionId: int,
    months: Repo.Dao,
    zones: set<string>,
    faults: set<Call>)

  /** The serial counters run ahead of every id in use. */
  predicate Valid(st: Store) {
    && (forall id :: id in st.contexts ==> id < st.nextContextId)
    && (forall i :: 0 <= i < |st.transactions| ==> st.transactions[i].id < st.nextTransactionId)
  }

  /** The answer to a lookup by id. */
  datatype Lookup<T> = Found(value: T) | Missing | Failed(reason: string)

  // ---------------------------------------------------------------------
  // Users

  /** The zone names `time.LoadLocation` answers without reading the
      time-zone database: `""` and `"UTC"` give UTC, `"Local"` the local zone. */
  const BuiltinZones: set<string> := {"", "UTC", "Local"}

  /** Whether `time.LoadLocation(name)` succeeds. */
  predicate LoadsZone(st: Store, name: string) {
    name in BuiltinZones || name in st.zones
  }

  /** A user row whose stored zone name loads: the only row `FindUserById`
      turns into a user. */
  predicate Loadable(st: Store, id: int) {
    id in st.users && LoadsZone(st, st.users[id].location)
  }

  /** A row stored with one of the built-in zone names is always found, whatever
      the time-zone database holds. */
  lemma BuiltinZoneUserFound(st: Store, id: int)
    requires FindUser !in st.faults && id in st.users && st.users[id].location in BuiltinZones
    ensures FindUserById(st, id) == Found(st.users[id])
  {
  }

  /** `FindUserById`: no row is not an error but a nil user; a row whose zone
      name does not load is an error. */
  function FindUserById(st: Store, id: int): (r: Lookup<User>)
    ensures r.Failed? <==> FindUser in st.faults || (id in st.users && !Loadable(st, id))
    ensures r.Found? <==> FindUser !in st.faults && Loadable(st, id)
    ensures r.Missing? <==> FindUser !in st.faults && id !in st.users
    ensures r.Found? ==> r.value == st.users[id]
  {
    if FindUser in st.faults then Failed("find user")
    else if id !in st.users then Missing
    else if !LoadsZone(st, st.users[id].location) then Failed("unknown time zone " + st.users[id].location)
    else Found(st.users[id])
  }

  /** `UserRepo.Add`: insert the user's row. */
  function AddUserRow(st: Store, u: User): (r: Result<Store>)
    ensures r.Err? <==> AddUser in st.faults || u.id in st.users
    ensures r.Ok? ==> r.value == st.(users := st.users[u.id := u])
    ensures r.Ok? && Valid(st) ==> Valid(r.value)
  {
    if AddUser in st.faults then Err("add user")
    else if u.id in st.users then Err("duplicate key value violates unique constraint")
    else Ok(st.(users := st.users[u.id := u]))
  }

  /** `UserRepo.Update`: rewrite the user's row; the data access layer
      refuses the id 0. A row that does not exist stays absent. */
  function UpdateUserRow(st: Store, u: User): (r: Result<Store>)
    ensures r.Err? <==> UpdateUser in st.faults || u.id == 0
    ensures r.Ok? && u.id in st.users ==> r.value == st.(users := st.users[u.id := u])
    ensures r.Ok? && u.id !in st.users ==> r.value == st
  {
    if UpdateUser in st.faults then Err("update user")
    else if u.id == 0 then Err("user id cannot be 0 or empty")
    else if u.id in st.users then Ok(st.(users := st.users[u.id := u]))
    else Ok(st)
  }

  // ---------------------------------------------------------------------
  // Message contexts

  /** `MessageContextRepo.Add`: store the text under the next serial id. */
  function AddMessageContext(st: Store, text: string): (r: Result<(Store, int)>)
    ensures r.Err? <==> AddContext in st.faults
    ensures r.Ok? ==> r.value.1 == st.nextContextId
    ensures r.Ok? ==> r.value.0 == st.(contexts := st.contexts[r.value.1 := text], nextContextId := st.nextContextId + 1)
    ensures r.Ok? && Valid(st) ==> r.value.1 !in st.contexts && Valid(r.value.0)
  {
    if AddContext in st.faults then Err("add message context")
    else
      var id := st.nextContextId;
      Ok((st.(contexts := st.contexts[id := text], nextContextId := id + 1), id))
  }

  function GetMessageById(st: Store, id: int): (r: Lookup<string>)
    ensures r.Failed? <==> GetContext in st.faults
    ensures r.Found? <==> GetContext !in st.faults && id in st.contexts
    ensures r.Found? ==> r.value == st.contexts[id]
  {
    if GetContext in st.faults then Failed("get message context")
    else if id in st.contexts then Found(st.contexts[id])
    else Missing
  }

  /** `deleteMessageContext`: a failure is only logged, so it leaves the store as it was. */
  function DeleteMessageContext(st: Store, id: int): (r: Store)
    ensures DeleteContext in st.faults ==> r == st
    ensures DeleteContext !in st.faults ==> r == st.(contexts := st.contexts - {id})
    ensures Valid(st) ==> Valid(r)
  {
    if DeleteContext in st.faults then st else st.(contexts := st.contexts - {id})
  }

  // ---------------------------------------------------------------------
  // Categories and transaction types

  /** The first row of a reference table whose id, read by `idOf`, is `id`:
      the row a `WHERE id = $1` query returns first. */
  function FirstWithId<T>(rows: seq<T>, idOf: T -> int, id: int): (r: Option<T>)
    ensures r.Some? ==> r.value in rows && idOf(r.value) == id
    ensures r.None? ==> forall i :: 0 <= i < |rows| ==> idOf(rows[i]) != id
  {
    if |rows| == 0 then None
    else if idOf(rows[0]) == id then Some(rows[0])
    else FirstWithId(rows[1..], idOf, id)
  }

  function GetCategoryById(st: Store, id: int): (r: Lookup<CategoryRow>)
    ensures r.Failed? <==> GetCategory in st.faults
    ensures r.Found? ==> r.value in st.categories && r.value.id == id
    ensures r.Missing? ==> forall i :: 0 <= i < |st.categories| ==> st.categories[i].id != id
  {
    if GetCategory in st.faults then Failed("get category")
    else match FirstWithId(st.categories, (c: CategoryRow) => c.id, id)
      case Some(c) => Found(c)
      case None => Missing
  }

  /** All categories, in table order, as the keyboard builder takes them. */
  function CategoryList(rows: seq<CategoryRow>): (r: seq<Keyboard.Category>)
    ensures |r| == |rows|
    ensures forall i :: 0 <= i < |rows| ==> r[i] == Keyboard.Category(rows[i].id, rows[i].name)
  {
    seq(|rows|, i requires 0 <= i < |rows| => Keyboard.Category(rows[i].id, rows[i].name))
  }

  function FindAllCategories(st: Store): (r: Result<seq<Keyboard.Category>>)
    ensures r.Err? <==> FindCategories in st.faults
    ensures r.Ok? ==> r.value == CategoryList(st.categories)
  {
    if FindCategories in st.faults then Err("find categories") else Ok(CategoryList(st.categories))
  }

  function GetTransactionTypeById(st: Store, id: int): (r: Lookup<TransactionTypeRow>)
    ensures r.Failed? <==> GetTransactionType in st.faults
    ensures r.Found? ==> r.value in st.transactionTypes && r.value.id == id
    ensures r.Missing? ==> forall i :: 0 <= i < |st.transactionTypes| ==> st.transactionTypes[i].id != id
  {
    if GetTransactionType in st.faults then Failed("get transaction type")
    else match FirstWithId(st.transactionTypes, (t: TransactionTypeRow) => t.id, id)
      case Some(t) => Found(t)
      case None => Missing
  }

  // ---------------------------------------------------------------------
  // Transactions

  /** The row the insert stores: the id is the next serial number and the
      category name is not a column of the table. */
  function Inserted(st: Store, t: Domain.Transaction): Domain.Transaction {
    t.(id := st.nextTransactionId, categoryName := "")
  }

  /** `TransactionRepo.Add`: the row is appended under the next serial id. */
  function AddTransactionRow(st: Store, t: Domain.Transaction): (r: Result<Store>)
    ensures r.Err? <==> AddTransaction in st.faults
    ensures r.Ok? ==> r.value == st.(transactions := st.transactions + [Inserted(st, t)],
                                      nextTransactionId := st.nextTransactionId + 1)
    ensures r.Ok? && Valid(st) ==> Valid(r.value)
  {
    if AddTransaction in st.faults then Err("add transaction")
    else Ok(st.(transactions := st.transactions + [Inserted(st, t)],
                nextTransactionId := st.nextTransactionId + 1))
  }

  predicate Owned(t: Domain.Transaction, id: int, userId: int) {
    t.id == id && t.userId == userId
  }

  function FindOwned(ts: seq<Domain.Transaction>, id: int, userId: int): (r: Option<Domain.Transaction>)
    ensures r.Some? ==> r.value in ts && Owned(r.value, id, userId)
    ensures r.None? ==> forall i :: 0 <= i < |ts| ==> !Owned(ts[i], id, userId)
  {
    if |ts| == 0 then None
    else if Owned(ts[0], id, userId) then Some(ts[0])
    else FindOwned(ts[1..], id, userId)
  }

  /** `TransactionRepo.GetById`: the user's transaction with that id. The
      mapping back from the row does not copy the category name. */
  function GetTransactionById(st: Store, id: int, userId: int): (r: Lookup<Domain.Transaction>)
    ensures r.Failed? <==> GetTransaction in st.faults
    ensures r.Found? ==> Owned(r.value, id, userId) && r.value.categoryName == ""
    ensures r.Found? ==> r.value.(categoryName := "") in Unnamed(st.transactions)
    ensures r.Missing? ==> forall i :: 0 <= i < |st.transactions| ==> !Owned(st.transactions[i], id, userId)
  {
    if GetTransaction in st.faults then Failed("get transaction")
    else match FindOwned(st.transactions, id, userId)
      case Some(t) => UnnamedHas(st.transactions, t); Found(t.(categoryName := ""))
      case None => Missing
  }

  /** The table with category names cleared, as the single-row reads return rows. */
  function Unnamed(ts: seq<Domain.Transaction>): (r: seq<Domain.Transaction>)
    ensures |r| == |ts|
    ensures forall i :: 0 <= i < |ts| ==> r[i] == ts[i].(categoryName := "")
  {
    seq(|ts|, i requires 0 <= i < |ts| => ts[i].(categoryName := ""))
  }

  lemma UnnamedHas(ts: seq<Domain.Transaction>, t: Domain.Transaction)
    requires t in ts
    ensures t.(categoryName := "") in Unnamed(ts)
  {
    var i :| 0 <= i < |ts| && ts[i] == t;
    assert Unnamed(ts)[i] == t.(categoryName := "");
  }

  /** The table without the user's transactions of that id, other rows kept in order. */
  function RemoveOwned(ts: seq<Domain.Transaction>, id: int, userId: int): (r: seq<Domain.Transaction>)
    ensures forall i :: 0 <= i < |r| ==> r[i] in ts && !Owned(r[i], id, userId)
    ensures forall i :: 0 <= i < |ts| && !Owned(ts[i], id, userId) ==> ts[i] in r
    ensures |r| <= |ts|
  {
    if |ts| == 0 then []
    else if Owned(ts[0], id, userId) then RemoveOwned(ts[1..], id, userId)
    else
      var rest := RemoveOwned(ts[1..], id, userId);
      assert forall i :: 1 <= i < |ts| ==> ts[i] == ts[1..][i - 1];
      [ts[0]] + rest
  }

  /** Every kept row stays as often as it was stored; an owned one is gone. */
  lemma {:induction false} RemoveOwnedCounts(ts: seq<Domain.Transaction>, id: int, userId: int, t: Domain.Transaction)
    ensures multiset(RemoveOwned(ts, id, userId))[t] == if Owned(t, id, userId) then 0 else multiset(ts)[t]
  {
    if |ts| > 0 {
      assert ts == [ts[0]] + ts[1..];
      RemoveOwnedCounts(ts[1..], id, userId, t);
    }
  }

  /** Removal works row by row: the kept rows keep their order. */
  lemma {:induction false} RemoveOwnedAppend(a: seq<Domain.Transaction>, b: seq<Domain.Transaction>, id: int, userId: int)
    ensures RemoveOwned(a + b, id, userId) == RemoveOwned(a, id, userId) + RemoveOwned(b, id, userId)
  {
    if |a| > 0 {
      assert (a + b)[0] == a[0] && (a + b)[1..] == a[1..] + b;
      RemoveOwnedAppend(a[1..], b, id, userId);
      var rest, tail := RemoveOwned(a[1..], id, userId), RemoveOwned(b, id, userId);
      assert [a[0]] + (rest + tail) == ([a[0]] + rest) + tail;
    } else {
      assert a + b == b;
    }
  }

  /** `TransactionRepo.DeleteById`: delete by id and owner. */
  function DeleteTransactionRow(st: Store, id: int, userId: int): (r: Result<Store>)
    ensures r.Err? <==> DeleteTransaction in st.faults
    ensures r.Ok? ==> r.value == st.(transactions := RemoveOwned(st.transactions, id, userId))
    ensures r.Ok? && Valid(st) ==> Valid(r.value)
  {
    if DeleteTransaction in st.faults then Err("delete transaction")
    else Ok(st.(transactions := RemoveOwned(st.transactions, id, userId)))
  }

  /** The user's latest transaction: the greatest time, the earliest row on a tie. */
  function Latest(ts: seq<Domain.Transaction>, userId: int): (r: Option<Domain.Transaction>)
    ensures r.Some? ==> r.value in ts && r.value.userId == userId
    ensures r.Some? ==> forall i :: 0 <= i < |ts| && ts[i].userId == userId ==> ts[i].datetime <= r.value.datetime
    ensures r.None? ==> forall i :: 0 <= i < |ts| ==> ts[i].userId != userId
  {
    if |ts| == 0 then None
    else
      var rest := Latest(ts[1..], userId);
      assert forall i :: 1 <= i < |ts| ==> ts[i] == ts[1..][i - 1];
      if ts[0].userId != userId then rest
      else if rest.Some? && rest.value.datetime > ts[0].datetime then rest
      else Some(ts[0])
  }

  /** `FindLastestByUserId`: nil when the user has none; the category name is not copied. */
  function FindLatestByUserId(st: Store, userId: int): (r: Result<Option<Domain.Transaction>>)
    ensures r.Err? <==> FindLatest in st.faults
    ensures r.Ok? && r.value.Some? ==> r.value.value.userId == userId && r.value.value.categoryName == ""
    ensures r.Ok? && r.value.Some? ==>
              && (exists i :: 0 <= i < |st.transactions| && st.transactions[i].(categoryName := "") == r.value.value)
              && forall i :: 0 <= i < |st.transactions| && st.transactions[i].userId == userId ==>
                   st.transactions[i].datetime <= r.value.value.datetime
    ensures r.Ok? && r.value.None? ==> forall i :: 0 <= i < |st.transactions| ==> st.transactions[i].userId != userId
    ensures r.Ok? ==> r.value == match Latest(st.transactions, userId)
                                 case Some(t) => Some(t.(categoryName := ""))
                                 case None => None
  {
    if FindLatest in st.faults then Err("find latest transaction")
    else match Latest(st.transactions, userId)
      case Some(t) =>
        ghost var i :| 0 <= i < |st.transactions| && st.transactions[i] == t;
        Ok(Some(t.(categoryName := "")))
      case None => Ok(None)
  }

  // ---------------------------------------------------------------------
  // Replies and outcomes

  type Rows = seq<seq<Keyboard.Button>>

  /** The messages the handlers send, with the data each one carries. Money
      `Display`, time formatting and the HTML markup are not modelled. */
  datatype Reply =
    | GenericError
    | ErrorFindingUser
    | UserExists
    | ErrorCreatingUser
    | SignUpSuccess
    | Help
    | StatsReport(month: int, year: int, total: int, lines: seq<Domain.BreakdownLine>)
    | CannotRecogniseAmount
    | DescriptionTooLong
    | ChooseCategory(keyboard: Rows)
    | TransactionAdded(replyText: string, amount: int, categoryName: string, description: string)
    | TransactionDeleted(amount: int, description: string)
    | LatestNotFound
    | ListEmpty
    | TransactionPage(transactions: seq<Domain.Transaction>, totalCount: int, offset: int, limit: int, keyboard: Rows)
    | Exported(rows: seq<Domain.Transaction>, month: int, year: int)
    | InvalidTimeZone
    | TimeZoneSet(offsetLabel: string)

  /** The result of handling one update: the new store, the replies sent in
      order, and whether the handler ended in a run-time panic (a nil pointer
      or an index out of range). Deferred calls have run in either case. */
  datatype Outcome = Outcome(store: Store, replies: seq<Reply>, panicked: bool)

  function Reply1(st: Store, r: Reply): (o: Outcome)
    ensures o.store == st && o.replies == [r] && !o.panicked
  {
    Outcome(st, [r], false)
  }

  function Silent(st: Store): (o: Outcome)
    ensures o.store == st && o.replies == [] && !o.panicked
  {
    Outcome(st, [], false)
  }

  function Panic(st: Store, replies: seq<Reply>): (o: Outcome)
    ensures o.store == st && o.replies == replies && o.panicked
  {
    Outcome(st, replies, true)
  }
}
