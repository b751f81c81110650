/** What the three handlers share: the outside world as parameters, the
    updates they receive, the check a transaction message must pass before
    its context is stored, `decimalise`, and the category offer that ends a
    successful start of a transaction. */
module Handling {
  import opened Wrappers
  import opened Text
  import opened Store
  import Int64
  import Amount
  import StringUtil
  import Format
  import Keyboard
  import Callback
  import Enums

  /** The parts of the handlers' behaviour this model takes as given:
      - `scanner`: which of the handler package's two amount scanners runs;
      - `parseFloat`: `strconv.ParseFloat(s, 64)`, `None` on error;
      - `formatFixed(v, n)`: `fmt.Sprintf("%.nf", v)` of a float64;
      - `now`: `time.Now()` as a number;
      - `descLengthLimit`: the message handler's description limit, a
        constant the snapshot does not define;
      - `monthYear`: `util.ParseMonthYearFromMessage`, not part of this model;
      - `decodeTz`: `json.Unmarshal` into the time-zone callback, whose
        struct is not part of this model;
      - `percentOf`: the floating-point percentage of a breakdown row. */
  datatype Env = Env(
    scanner: Amount.Scanner,
    parseFloat: string -> Option<real>,
    formatFixed: (real, nat) -> string,
    now: int,
    descLengthLimit: int,
    monthYear: string -> (int, int),
    decodeTz: string -> Result<int>,
    percentOf: (int, int) -> real)

  /** A chat message: the sender, the text, and the bot command it starts
      with (the command name without the slash), if any. */
  datatype Message = Message(fromId: int, text: string, command: Option<string>)

  /** A press on an inline button: the presser and the button's data. */
  datatype CallbackQuery = CallbackQuery(fromId: int, data: string)

  /** `tgbotapi.Update`, reduced to its two parts; Telegram sets exactly one. */
  datatype Update = Update(message: Option<Message>, callbackQuery: Option<CallbackQuery>)

  predicate WellFormed(u: Update) {
    u.message.Some? != u.callbackQuery.Some?
  }

  /** `update.SentFrom()`: the sender of whichever part is present; `None` is Go's nil user. */
  function SentFrom(u: Update): (r: Option<int>)
    ensures u.message.Some? ==> r == Some(u.message.value.fromId)
    ensures u.message.None? && u.callbackQuery.Some? ==> r == Some(u.callbackQuery.value.fromId)
    ensures r.None? <==> u.message.None? && u.callbackQuery.None?
  {
    if u.message.Some? then Some(u.message.value.fromId)
    else if u.callbackQuery.Some? then Some(u.callbackQuery.value.fromId)
    else None
  }

  /** Sending to `update.Message.Chat.ID`: a nil message is a panic. */
  function SendToMessageChat(st: Store, u: Update, r: Reply): (o: Outcome)
    ensures u.message.Some? ==> o == Reply1(st, r)
    ensures u.message.None? ==> o == Panic(st, [])
  {
    if u.message.Some? then Reply1(st, r) else Panic(st, [])
  }

  // ---------------------------------------------------------------------
  // The transaction message

  /** The description of a transaction message: the text after the first
      occurrence of the amount, trimmed. */
  function Description(text: string, amountText: string): string {
    TrimSpace(StringUtil.After(text, amountText))
  }

  /** The verdict on a transaction message. */
  datatype TextCheck = Accepted(amountText: string, description: string) | Unrecognised | TooLong

  /** Find the amount; then reject a description longer than `limit` bytes. */
  function CheckText(sc: Amount.Scanner, limit: int, text: string): (c: TextCheck)
    ensures c.Unrecognised? <==> Amount.ScanAmount(sc, text).Err?
    ensures c.Accepted? ==> Amount.ScanAmount(sc, text) == Ok(c.amountText)
                            && c.description == Description(text, c.amountText)
                            && Utf8Len(c.description) <= limit
    ensures c.TooLong? ==> Amount.ScanAmount(sc, text).Ok?
                           && Utf8Len(Description(text, Amount.ScanAmount(sc, text).value)) > limit
  {
    match Amount.ScanAmount(sc, text)
    case Err(_) => Unrecognised
    case Ok(a) =>
      var d := Description(text, a);
      if Utf8Len(d) > limit then TooLong else Accepted(a, d)
  }

  /** The command handler's fixed limit. */
  const CommandDescriptionLimit: int := 20

  /** Only the byte length of the trimmed description decides: with the same
      amount found, one description is accepted exactly when it fits. */
  lemma CheckTextBoundary(sc: Amount.Scanner, limit: int, text: string)
    requires Amount.ScanAmount(sc, text).Ok?
    ensures var d := Description(text, Amount.ScanAmount(sc, text).value);
            CheckText(sc, limit, text).Accepted? <==> Utf8Len(d) <= limit
  {
  }

  /** A message made of the amount `5`, a space and one lower-case word is
      accepted by the command handler exactly when the word has at most 20
      letters, and the word is then the description. */
  lemma AmountThenWord(word: string)
    requires |word| > 0 && forall i :: 0 <= i < |word| ==> 'a' <= word[i] <= 'z'
    ensures var c := CheckText(Amount.Unanchored, CommandDescriptionLimit, "5 " + word);
            && (c.Accepted? <==> |word| <= 20)
            && (c.Accepted? ==> c.amountText == "5" && c.description == word)
  {
    LeadingFiveScans(word);
    WordIsDescription(word);
    assert IsAscii(word);
    AsciiUtf8Len(word);
  }

  /** The amount of `"5 " + word` is `5`. */
  lemma LeadingFiveScans(word: string)
    requires |word| > 0 && forall i :: 0 <= i < |word| ==> 'a' <= word[i] <= 'z'
    ensures Amount.ScanAmount(Amount.Unanchored, "5 " + word) == Ok("5")
  {
    var s := "5 " + word;
    assert Amount.CanStart(s, 0);
    assert Amount.FirstStart(s, 0) == Some(0);
    assert Amount.SpanInt(s, 1, Amount.WithCommas) == 1;
    assert Amount.DotEnd(s, 1) == 1 && Amount.SpanFrac(s, 1) == 1;
    assert Amount.MatchEnd(s, 0, Amount.WithCommas) == 1;
    assert s[0..1] == "5";
    assert Amount.ParseFloatString(s) == Ok(s[0..1]);
  }

  /** What follows the `5` of `"5 " + word`, trimmed, is the word. */
  lemma WordIsDescription(word: string)
    requires |word| > 0 && forall i :: 0 <= i < |word| ==> 'a' <= word[i] <= 'z'
    ensures Description("5 " + word, "5") == word
  {
    assert "5 " + word == "5" + (" " + word);
    AfterLeadingKey("5", " " + word);
    TrimOneLeadingSpace(word);
  }

  /** A key that starts the text is found there, and the rest follows it. */
  lemma AfterLeadingKey(key: string, rest: string)
    requires |key| > 0
    ensures StringUtil.After(key + rest, key) == rest
  {
    var s := key + rest;
    assert s[0..|key|] == key;
    assert OccursAt(s, key, 0);
    assert s[|key|..] == rest;
  }

  /** Trimming a lower-case word behind one space gives the word. */
  lemma TrimOneLeadingSpace(word: string)
    requires |word| > 0 && forall i :: 0 <= i < |word| ==> 'a' <= word[i] <= 'z'
    ensures TrimSpace(" " + word) == word
  {
    var t := " " + word;
    assert LeadingSpaces(t, 1) == 1;
    assert LeadingSpaces(t, 0) == 1;
    assert TrailingEnd(t, 1, |t|) == |t|;
    assert t[1..|t|] == word;
  }



  // ---------------------------------------------------------------------
  // decimalise

  /** `decimalise`: print the value with the currency's number of minor
      digits, keep only the digits, and read them as a 64-bit integer. An
      empty digit string or one beyond `int64` is an error. */
  function Decimalise(formatFixed: (real, nat) -> string, value: real, fraction: nat): (r: Result<int>)
    ensures r.Ok? ==> 0 <= r.value <= Int64.Max
    ensures r.Ok? <==> var ds := Format.DigitsOf(formatFixed(value, fraction));
                       |ds| > 0 && DigitsValue(ds) <= Int64.Max
  {
    var ds := Format.DigitsOf(formatFixed(value, fraction));
    if |ds| == 0 then Err("strconv.ParseInt: invalid syntax")
    else if DigitsValue(ds) > Int64.Max then Err("strconv.ParseInt: value out of range")
    else Ok(DigitsValue(ds))
  }

  /** The minus sign is among the characters dropped: a negative amount is
      recorded as its absolute value in minor units. */
  lemma DecimaliseDropsSign(formatFixed: (real, nat) -> string, value: real)
    requires formatFixed(value, 2) == "-12.50"
    ensures Decimalise(formatFixed, value, 2) == Ok(1250)
  {
    Format.DigitsOfExample();
    assert DigitsValue("1250") == 1250 by {
      assert "1250"[..3] == "125";
      assert "125"[..2] == "12";
      assert "12"[..1] == "1";
      assert "1"[..0] == "";
    }
  }

  // ---------------------------------------------------------------------
  // Offering the categories

  /** The column count of the category keyboard. */
  const CategoryColumns: nat := 3

  /** The common end of both starts of a transaction: store the whole
      message as a new context, then offer every category on a keyboard
      whose buttons carry that context's id. A failure to list the
      categories leaves the new context behind. */
  function OfferCategories(st: Store, text: string): (o: Outcome)
    ensures !o.panicked && |o.replies| == 1
    ensures AddContext in st.faults ==> o == Reply1(st, GenericError)
    ensures AddContext !in st.faults ==>
              o.store == st.(contexts := st.contexts[st.nextContextId := text], nextContextId := st.nextContextId + 1)
    ensures o.replies[0].ChooseCategory? <==> AddContext !in st.faults && FindCategories !in st.faults
    ensures o.replies[0].ChooseCategory? ==>
              o.replies[0].keyboard == Keyboard.CategoriesKeyboard(CategoryList(st.categories), st.nextContextId, CategoryColumns)
    ensures !o.replies[0].ChooseCategory? ==> o.replies[0] == GenericError
  {
    match AddMessageContext(st, text)
    case Err(_) => Reply1(st, GenericError)
    case Ok((st', id)) =>
      match FindAllCategories(st')
      case Err(_) => Reply1(st', GenericError)
      case Ok(cats) => Reply1(st', ChooseCategory(Keyboard.CategoriesKeyboard(cats, id, CategoryColumns)))
  }

  /** Every category is offered, and pressing its button sends back the
      category's id together with the id of the context just stored. */
  lemma OfferedButtonsName(st: Store, text: string, k: nat)
    requires Int64.InRange(st.nextContextId)
    requires k < |st.categories| && Int64.InRange(st.categories[k].id)
    requires OfferCategories(st, text).replies[0].ChooseCategory?
    ensures var rows := OfferCategories(st, text).replies[0].keyboard;
            var b := Keyboard.Flatten(rows[..|rows| - 1])[k];
            && b.text == st.categories[k].name
            && Callback.Decode(Callback.CategoryKind, Keyboard.Data(b).value)
               == Ok(Callback.CategoryCb(Callback.Header(Enums.TagName(Enums.Tag.Category), st.nextContextId), st.categories[k].id))
            && Callback.GetCallbackType(Keyboard.Data(b).value) == Ok(Enums.TagName(Enums.Tag.Category))
  {
    var cats := CategoryList(st.categories);
    Keyboard.CategoryButtonDecodes(cats, st.nextContextId, k);
  }
}
