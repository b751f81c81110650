/** The message handler (handler/messsage_handler.go): a plain message is
    read according to the sender's conversation context. */
module Messages {
  import opened Wrappers
  import opened Store
  import opened Handling
  import Enums
  import Format
  import Amount
  import Commands

  /** `MessageHandler.Handle`: look the sender up, then dispatch on the exact
      context string stored with the user; an unknown context starts a
      transaction. The lookup's error replies go to the message's chat. */
  function Handle(env: Env, st: Store, u: Update): (o: Outcome)
    ensures SentFrom(u).None? ==> o == Panic(st, [])
    ensures o.store.transactions == st.transactions && o.store.categories == st.categories
    ensures o.store.users != st.users ==>
              && SentFrom(u).Some? && SentFrom(u).value in st.users
              && st.users[SentFrom(u).value].currentContext == Enums.ContextName(Enums.SetTimeZone)
    ensures o.store.contexts != st.contexts ==> u.message.Some?
  {
    match SentFrom(u)
    case None => Panic(st, [])
    case Some(id) =>
      match FindUserById(st, id)
      case Failed(_) => SendToMessageChat(st, u, ErrorFindingUser)
      case Missing => SendToMessageChat(st, u, GenericError)
      case Found(user) =>
        if user.currentContext == Enums.ContextName(Enums.Transaction) then StartTransaction(env, st, u)
        else if user.currentContext == Enums.ContextName(Enums.SetTimeZone) then SetTimeZone(env, st, u, user)
        else if user.currentContext == Enums.ContextName(Enums.SetCurrency) then SetCurrency(st)
        else StartTransaction(env, st, u)
  }

  /** `startTransaction`: the same check and category offer as the command
      handler's, with this package's amount scanner and description limit
      and without a second user lookup. */
  function StartTransaction(env: Env, st: Store, u: Update): (o: Outcome)
    ensures u.message.None? ==> o == Panic(st, [])
    ensures o.store == st || o.store == st.(contexts := st.contexts[st.nextContextId := u.message.value.text], nextContextId := st.nextContextId + 1)
    ensures o.store != st ==> CheckText(env.scanner, env.descLengthLimit, u.message.value.text).Accepted?
    ensures u.message.Some? ==> !o.panicked && |o.replies| == 1
    ensures u.message.Some? && o.replies[0].ChooseCategory? ==>
              CheckText(env.scanner, env.descLengthLimit, u.message.value.text).Accepted?
              && o == OfferCategories(st, u.message.value.text)
  {
    if u.message.None? then Panic(st, [])
    else
      var text := u.message.value.text;
      match CheckText(env.scanner, env.descLengthLimit, text)
      case Unrecognised => Reply1(st, CannotRecogniseAmount)
      case TooLong => Reply1(st, DescriptionTooLong)
      case Accepted(_, _) => OfferCategories(st, text)
  }

  /** `setTimeZone` as written: the zone offset is read from the update's
      callback query, but every reply goes to the update's message. Telegram
      sets only one of the two, so the handler either panics on the missing
      callback query, ends silently on undecodable data, or panics sending
      its reply, after storing the new zone when it loads. */
  function SetTimeZone(env: Env, st: Store, u: Update, user: User): (o: Outcome)
    ensures u.callbackQuery.None? ==> o == Panic(st, [])
    ensures o.store == st || ZoneStored(env, st, o.store, u, user)
  {
    if u.callbackQuery.None? then Panic(st, [])
    else
      match env.decodeTz(u.callbackQuery.value.data)
      case Err(_) => Silent(st)
      case Ok(tz) =>
        var zone := Format.TzName(tz);
        if !LoadsZone(st, zone) then SendToMessageChat(st, u, InvalidTimeZone)
        else
          var st' := match UpdateUserRow(st, user.(location := zone)) case Ok(s) => s case Err(_) => st;
          SendToMessageChat(st', u, TimeZoneSet(Format.OffsetToGMT(tz)))
  }

  /** `st'` is `st` with the user's location set to the zone the pressed
      button names. */
  ghost predicate ZoneStored(env: Env, st: Store, st': Store, u: Update, user: User) {
    && u.callbackQuery.Some?
    && env.decodeTz(u.callbackQuery.value.data).Ok?
    && st' == st.(users := st.users[user.id := user.(location := Format.TzName(env.decodeTz(u.callbackQuery.value.data).value))])
  }

  /** No update Telegram sends gets a reply from `setTimeZone`: the time
      zone can be stored, but the confirmation is never delivered. */
  lemma SetTimeZoneNeverConfirms(env: Env, st: Store, u: Update, user: User)
    requires WellFormed(u)
    ensures SetTimeZone(env, st, u, user).replies == []
    ensures u.callbackQuery.Some? && env.decodeTz(u.callbackQuery.value.data).Ok? ==> SetTimeZone(env, st, u, user).panicked
  {
  }

  /** `setTimeZone` replying to the chat of the pressed button, as the
      confirmation message evidently intends. */
  function SetTimeZoneFixed(env: Env, st: Store, q: CallbackQuery, user: User): (o: Outcome)
    ensures !o.panicked && |o.replies| <= 1
    ensures o.replies == [] <==> env.decodeTz(q.data).Err?
  {
    match env.decodeTz(q.data)
    case Err(_) => Silent(st)
    case Ok(tz) =>
      var zone := Format.TzName(tz);
      if !LoadsZone(st, zone) then Reply1(st, InvalidTimeZone)
      else
        var st' := match UpdateUserRow(st, user.(location := zone)) case Ok(s) => s case Err(_) => st;
        Reply1(st', TimeZoneSet(Format.OffsetToGMT(tz)))
  }

  /** With the reply sent to the button's chat, a zone that loads is stored
      for a known user and confirmed with its GMT label. */
  lemma SetTimeZoneFixedConfirms(env: Env, st: Store, q: CallbackQuery, user: User)
    requires env.decodeTz(q.data).Ok? && LoadsZone(st, Format.TzName(env.decodeTz(q.data).value))
    requires UpdateUser !in st.faults && user.id != 0 && user.id in st.users
    ensures var tz := env.decodeTz(q.data).value;
            var o := SetTimeZoneFixed(env, st, q, user);
            && o.replies == [TimeZoneSet(Format.OffsetToGMT(tz))]
            && o.store.users[user.id].location == Format.TzName(tz)
  {
  }

  /** `setCurrency` has an empty body. */
  function SetCurrency(st: Store): (o: Outcome)
    ensures o.store == st && o.replies == [] && !o.panicked
  {
    Silent(st)
  }

  /** A known sender in the transaction context, or in a context the switch
      does not name, is handled exactly as the command handler handles a
      plain message, provided this package uses the same scanner and limit. */
  lemma HandleAgreesWithCommands(env: Env, st: Store, m: Message)
    requires env.scanner == Amount.Unanchored && env.descLengthLimit == CommandDescriptionLimit
    requires FindUser !in st.faults && Loadable(st, m.fromId)
    requires st.users[m.fromId].currentContext !in
               {Enums.ContextName(Enums.SetTimeZone), Enums.ContextName(Enums.SetCurrency)}
    ensures Handle(env, st, Update(Some(m), None)) == Commands.StartTransaction(st, m)
  {
  }

  /** A sender without a row gets the generic error and nothing changes. */
  lemma HandleUnknownSender(env: Env, st: Store, m: Message)
    requires FindUser !in st.faults && m.fromId !in st.users
    ensures Handle(env, st, Update(Some(m), None)) == Reply1(st, GenericError)
  {
  }

  /** A sender whose stored zone name no longer loads cannot be looked up:
      the lookup error is answered in the message's chat and nothing changes. */
  lemma HandleUnloadableZone(env: Env, st: Store, m: Message)
    requires FindUser !in st.faults && m.fromId in st.users && !Loadable(st, m.fromId)
    ensures Handle(env, st, Update(Some(m), None)) == Reply1(st, ErrorFindingUser)
  {
  }

  /** A message from a sender in the time-zone context panics before any
      change: the handler looks for a callback query the message lacks. */
  lemma TimeZoneContextMessagePanics(env: Env, st: Store, m: Message)
    requires FindUser !in st.faults && Loadable(st, m.fromId)
    requires st.users[m.fromId].currentContext == Enums.ContextName(Enums.SetTimeZone)
    ensures Handle(env, st, Update(Some(m), None)) == Panic(st, [])
  {
  }
}
