/** main.go's routing: an update's message goes to the command handler, its
    callback query to the callback handler, and the bot handles updates one
    after another until one of them panics. */
module Dispatch {
  import opened Wrappers
  import opened Text
  import opened Store
  import opened Handling
  import Callback
  import Callbacks
  import Commands
  import Enums
  import Keyboard
  import Amount
  import Int64
  import Domain

  // ---------------------------------------------------------------------
  // What no handler may touch

  /** The reference tables, the fault set and the month queries are only
      ever read. */
  ghost predicate TablesKept(st: Store, st': Store) {
    && st'.categories == st.categories
    && st'.transactionTypes == st.transactionTypes
    && st'.months == st.months
    && st'.faults == st.faults
  }

  /** The transactions of every user but `id` are the same before and after. */
  ghost predicate OthersKept(st: Store, st': Store, id: int) {
    forall t: Domain.Transaction :: t.userId != id ==> (t in st'.transactions <==> t in st.transactions)
  }

  lemma RemoveOwnedKeepsOthers(st: Store, id: int, userId: int)
    ensures OthersKept(st, st.(transactions := RemoveOwned(st.transactions, id, userId)), userId)
  {
    var r := RemoveOwned(st.transactions, id, userId);
    forall t: Domain.Transaction | t.userId != userId
      ensures t in r <==> t in st.transactions
    {
      if t in st.transactions {
        var i :| 0 <= i < |st.transactions| && st.transactions[i] == t;
        assert !Owned(st.transactions[i], id, userId);
      }
      if t in r {
        var i :| 0 <= i < |r| && r[i] == t;
        assert r[i] in st.transactions;
      }
    }
  }

  lemma AppendedOneKeepsOthers(st: Store, st': Store, userId: int)
    requires Callbacks.AppendedOne(st, st', userId)
    ensures OthersKept(st, st', userId)
  {
    var n := |st.transactions|;
    assert st'.transactions == st'.transactions[..n] + [st'.transactions[n]];
  }

  // ---------------------------------------------------------------------
  // handleCallback

  /** Where `handleCallback`'s switch sends a callback type. A payload that
      does not decode leaves the type empty, which no case names. */
  datatype Route = ToCategory | ToPagination | ToUndo | ToCancel | Unrouted

  function RouteOf(t: Result<string>): (r: Route)
    ensures t.Err? ==> r == Unrouted
  {
    if t.Err? then Unrouted
    else if t.value == Enums.TagName(Enums.Tag.Category) then ToCategory
    else if t.value == Enums.TagName(Enums.Tag.Pagination) then ToPagination
    else if t.value == Enums.TagName(Enums.Tag.Undo) then ToUndo
    else if t.value == Enums.TagName(Enums.Tag.Cancel) then ToCancel
    else Unrouted
  }

  /** Exactly four of the five tags are routed: `TransactionType` is not. */
  lemma RoutedTags(tag: Enums.Tag)
    ensures RouteOf(Ok(Enums.TagName(tag))) == Unrouted <==> tag == Enums.Tag.TransactionType
  {
  }

  function Routed(env: Env, st: Store, q: CallbackQuery, r: Route): Outcome {
    match r
    case ToCategory => Callbacks.FromCategory(env, st, q)
    case ToPagination => Callbacks.FromPagination(env, st, q)
    case ToUndo => Callbacks.FromUndo(st, q)
    case ToCancel => Callbacks.FromCancel(st, q)
    case Unrouted => Reply1(st, GenericError)
  }

  /** `handleCallback`: read the callback type, then route. An undecodable
      payload is answered with the generic error twice: once for the failed
      read, once by the switch's default case. */
  function HandleCallback(env: Env, st: Store, q: CallbackQuery): (o: Outcome)
    ensures Callback.GetCallbackType(q.data).Err? ==> o == Outcome(st, [GenericError, GenericError], false)
    ensures RouteOf(Callback.GetCallbackType(q.data)) == Unrouted ==>
              o.store == st && |o.replies| > 0 && o.replies[|o.replies| - 1] == GenericError
    ensures Callback.GetCallbackType(q.data).Ok? && RouteOf(Callback.GetCallbackType(q.data)) == Unrouted ==>
              o == Reply1(st, GenericError)
    ensures Callback.GetCallbackType(q.data).Ok? ==> o == Routed(env, st, q, RouteOf(Callback.GetCallbackType(q.data)))
  {
    var t := Callback.GetCallbackType(q.data);
    var routed := Routed(env, st, q, RouteOf(t));
    if t.Err? then Outcome(routed.store, [GenericError] + routed.replies, routed.panicked) else routed
  }

  /** A pressed button changes the presser's transactions at most, and no
      table. */
  lemma CallbackIsolated(env: Env, st: Store, q: CallbackQuery)
    ensures var o := HandleCallback(env, st, q);
            TablesKept(st, o.store) && OthersKept(st, o.store, q.fromId)
  {
    var o := HandleCallback(env, st, q);
    match RouteOf(Callback.GetCallbackType(q.data))
    case ToCategory =>
      if o.store.transactions != st.transactions {
        AppendedOneKeepsOthers(st, o.store, q.fromId);
      }
    case ToUndo =>
      if o.store != st {
        RemoveOwnedKeepsOthers(st, Callback.Decode(Callback.UndoKind, q.data).value.txnId, q.fromId);
      }
    case _ =>
  }

  /** Buttons of the transaction-type keyboard are not routed: the press is
      answered with the generic error and changes nothing. */
  lemma TransactionTypeButtonUnrouted(env: Env, st: Store, fromId: int, r: Callback.Record)
    requires Callback.Valid(r) && r.TransactionTypeCb? && r.c.t == Enums.TagName(Enums.Tag.TransactionType)
    ensures HandleCallback(env, st, CallbackQuery(fromId, Callback.Encode(r))) == Reply1(st, GenericError)
  {
    Callback.CallbackTypeOfEncoding(r);
    RoutedTags(Enums.Tag.TransactionType);
  }

  // ---------------------------------------------------------------------
  // handleMessage

  /** The six commands `handleMessage` names. */
  const CommandNames: set<string> := {"start", "help", "stats", "undo", "list", "export"}

  /** `handleMessage`: a command goes to its handler, any other command to
      `Help`, and a plain message starts a transaction. A message changes
      the sender's transactions at most, and no table. */
  method HandleMessage(env: Env, st: Store, m: Message) returns (o: Outcome)
    ensures TablesKept(st, o.store) && OthersKept(st, o.store, m.fromId)
    ensures m.command.None? ==> o == Commands.StartTransaction(st, m)
    ensures m.command.Some? && m.command.value !in CommandNames ==> o == Reply1(st, Reply.Help)
    ensures m.command == Some("start") ==> o == Commands.Start(st, m)
    ensures m.command == Some("undo") ==> o == Commands.Undo(st, m)
    ensures m.command == Some("list") ==> o == Commands.List(env, st, m)
    ensures m.command in {Some("stats"), Some("export"), Some("help")} ==> o.store == st
    ensures o.store.transactions != st.transactions ==> m.command == Some("undo")
  {
    if m.command.None? {
      o := Commands.StartTransaction(st, m);
      return;
    }
    var c := m.command.value;
    if c == "start" {
      o := Commands.Start(st, m);
    } else if c == "help" {
      o := Commands.Help(st, m);
    } else if c == "stats" {
      o := Commands.Stats(env, st, m);
    } else if c == "undo" {
      o := Commands.Undo(st, m);
      if o.store != st {
        ghost var id :| o.store == st.(transactions := RemoveOwned(st.transactions, id, m.fromId));
        RemoveOwnedKeepsOthers(st, id, m.fromId);
      }
    } else if c == "list" {
      o := Commands.List(env, st, m);
    } else if c == "export" {
      o := Commands.Export(env, st, m);
    } else {
      o := Commands.Help(st, m);
    }
  }

  // ---------------------------------------------------------------------
  // processUpdate

  /** One turn of `processUpdate`'s loop: the message if there is one, else
      the callback query, else nothing. */
  method ProcessUpdate(env: Env, st: Store, u: Update) returns (o: Outcome)
    ensures TablesKept(st, o.store)
    ensures SentFrom(u).None? ==> o == Silent(st)
    ensures SentFrom(u).Some? ==> OthersKept(st, o.store, SentFrom(u).value)
    ensures u.message.None? && u.callbackQuery.Some? ==> o == HandleCallback(env, st, u.callbackQuery.value)
  {
    if u.message.Some? {
      o := HandleMessage(env, st, u.message.value);
    } else if u.callbackQuery.Some? {
      o := HandleCallback(env, st, u.callbackQuery.value);
      CallbackIsolated(env, st, u.callbackQuery.value);
    } else {
      o := Silent(st);
    }
  }

  /** The senders of a run of updates. */
  function Senders(us: seq<Update>): (ids: set<int>)
    ensures forall i :: 0 <= i < |us| && SentFrom(us[i]).Some? ==> SentFrom(us[i]).value in ids
  {
    if |us| == 0 then {}
    else
      var last := us[|us| - 1];
      Senders(us[..|us| - 1]) + (if SentFrom(last).Some? then {SentFrom(last).value} else {})
  }

  /** `processUpdate` over a run of updates, one at a time. An unrecovered
      panic ends the program, so the run stops at the first update whose
      handling panics. Users who sent none of the handled updates keep
      exactly their transactions, and no table changes. */
  method ProcessAll(env: Env, st: Store, us: seq<Update>) returns (st': Store, sent: seq<Reply>, handled: nat, crashed: bool)
    ensures handled <= |us|
    ensures !crashed ==> handled == |us|
    ensures crashed ==> handled > 0
    ensures TablesKept(st, st')
    ensures forall t: Domain.Transaction :: t.userId !in Senders(us[..handled]) ==>
              (t in st'.transactions <==> t in st.transactions)
  {
    st' := st;
    sent := [];
    handled := 0;
    crashed := false;
    while handled < |us|
      invariant handled <= |us|
      invariant TablesKept(st, st')
      invariant forall t: Domain.Transaction :: t.userId !in Senders(us[..handled]) ==>
                  (t in st'.transactions <==> t in st.transactions)
    {
      var o := ProcessUpdate(env, st', us[handled]);
      assert us[..handled + 1][..handled] == us[..handled];
      assert us[..handled + 1][handled] == us[handled];
      st' := o.store;
      sent := sent + o.replies;
      handled := handled + 1;
      if o.panicked {
        crashed := true;
        return;
      }
    }
  }

  // ---------------------------------------------------------------------
  // A whole transaction

  /** Recording a transaction end to end: a plain message, then a press on
      the k-th offered category. When the press is confirmed, the new row is
      the sender's, in the pressed category, and carries exactly the
      description the message check accepted, so at most 20 bytes, provided
      the callback handler scans amounts as the command handler does. */
  lemma RecordFlow(env: Env, st: Store, m: Message, k: nat)
    requires m.command.None? && env.scanner == Amount.Unanchored
    requires Int64.InRange(st.nextContextId)
    requires k < |st.categories| && Int64.InRange(st.categories[k].id)
    requires Commands.StartTransaction(st, m).replies[0].ChooseCategory?
    requires var o1 := Commands.StartTransaction(st, m);
             var rows := o1.replies[0].keyboard;
             var q := CallbackQuery(m.fromId, Keyboard.Data(Keyboard.Flatten(rows[..|rows| - 1])[k]).value);
             var o2 := HandleCallback(env, o1.store, q);
             |o2.replies| == 1 && o2.replies[0].TransactionAdded?
    ensures var o1 := Commands.StartTransaction(st, m);
            var rows := o1.replies[0].keyboard;
            var q := CallbackQuery(m.fromId, Keyboard.Data(Keyboard.Flatten(rows[..|rows| - 1])[k]).value);
            var o2 := HandleCallback(env, o1.store, q);
            var check := CheckText(Amount.Unanchored, CommandDescriptionLimit, m.text);
            && check.Accepted?
            && |o2.store.transactions| == |st.transactions| + 1
            && var t := o2.store.transactions[|st.transactions|];
            && t.userId == m.fromId
            && t.categoryId == st.categories[k].id
            && t.description == check.description
            && Utf8Len(t.description) <= CommandDescriptionLimit
  {
    var o1 := Commands.StartTransaction(st, m);
    assert o1 == OfferCategories(st, m.text);
    var rows := o1.replies[0].keyboard;
    var b := Keyboard.Flatten(rows[..|rows| - 1])[k];
    OfferedButtonsName(st, m.text, k);
    var q := CallbackQuery(m.fromId, Keyboard.Data(b).value);
    var o2 := HandleCallback(env, o1.store, q);
    assert o2 == Callbacks.FromCategory(env, o1.store, q);
    Callbacks.FromCategoryRecordsDraft(env, o1.store, q);
    assert o1.store.contexts[st.nextContextId] == m.text;
  }
}
