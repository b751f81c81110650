# telegram-expense-bot: a Dafny model of the decision logic

This project models the core of a Telegram expense-tracking bot written in Go.
Users send a message such as `lunch 12.50`. The bot finds the amount, checks
the description, and stores the message as a *message context*. It then offers
an inline keyboard of categories. Pressing a category button records a
transaction. Commands (`/start`, `/help`, `/undo`, `/stats`, `/list`,
`/export`) manage the user and show the month's spending. Pagination, undo and
Cancel buttons act on stored contexts and transactions.

The model covers the logic between the Telegram transport and the Postgres
data access layer:

- **Amount scanning.** The two regular-expression scanners become a DFA over
  `seq<char>` (`Amount`). Each scanner is proved to return the leftmost,
  longest match.
- **Description extraction.** `StringUtil.After`, `Text.TrimSpace` and the
  "amount, then description length" check (`Handling.CheckText`).
- **Callback payloads.** The `encoding/json` wire form of the five callback
  records, with a JSON renderer and parser (`Json`, `Callback`). Decoding an
  encoding gives the record back. `getCallbackType` reads the nested header.
- **Keyboards.** Row-major tiling with ceiling division, the Cancel row,
  pagination buttons, and the category, transaction-type and time-zone
  keyboards (`Keyboard`).
- **Formatters.** The year-month layout, the GMT labels and `Etc/GMT` zone
  names, the float format verb, `removeNonNumeric`, and user contexts
  (`Format`, `Enums`).
- **Reports.** The monthly report with its month headers and running totals,
  the breakdown table padding, and the display sort (`Domain`).
- **Repository.** The month query window, the breakdown total, the zero-count
  short-circuit, and row mapping (`Repo`).
- **Handlers.** Each handler is a pure transition over an abstract `Store`.
  The store holds users, contexts, categories, transaction types and
  transactions. Its result is an `Outcome`: the new store, the replies, and
  whether the handler panicked (`Store`, `Handling`, `Commands`, `Messages`,
  `Callbacks`, `Dispatch`).

Outside effects are parameters:

- A `faults` set in the store makes a named store call fail.
- A `zones` set in the store names the zones the time-zone database knows.
  `time.LoadLocation` also accepts `""`, `"UTC"` and `"Local"` without it
  (`Store.LoadsZone`).
- An `Env` record supplies the things this model cannot compute: the clock,
  `strconv.ParseFloat`, fixed-point float formatting, the
  month parsed from a message, the time-zone payload decoder, which amount
  scanner the handler package uses, and its description limit.
- A `Repo.Dao` supplies the month queries.

A Go panic is modelled, not excluded. A data-access `GetById` indexes the
first row of an empty result, and a nil user is dereferenced. Both give an
outcome with `panicked` set. A deferred delete still runs after such a panic.

Go's `int` is 64 bits wide. Where a sum or an offset can overflow, the model
wraps it explicitly (`Int64.Wrap`). String lengths that Go measures in bytes
are UTF-8 lengths (`Text.Utf8Len`).

## Model

| member | source | states |
|---|---|---|
| StringUtil.After | util/string.go:6-17 | With no occurrence of the key the result is empty. Otherwise it is exactly the text after the first occurrence. |
| StringUtil.AfterIsSuffix | util/string.go:12-16 | The result is always a suffix of the value. |
| StringUtil.AfterAtEnd | util/string.go:13-15 | When the first occurrence ends the value, the result is empty. |
| StringUtil.AfterEmptyKey | util/string.go:8-16 | An empty key matches at 0, so the whole value comes back. |
| StringUtil.AfterFirstOccurrenceExample | util/string_test.go:7-13 | Only the first of two occurrences counts. |
| Amount.MatchEndLongest | util/parser.go:8 | At a start position, the scanner's end gives a string the pattern accepts, and no longer prefix is accepted. |
| Amount.HasDigitIffCanStart | util/parser.go:8 | A match can start somewhere exactly when the text holds a digit. |
| Amount.ParseFloatString | util/parser.go:8-17 | Fails exactly when the text has no digit. Otherwise returns the leftmost-longest match of the unanchored pattern, as a substring. |
| Amount.ParseFloatStringAnchored | handler/parser.go:9-19 | Succeeds exactly when the text begins with a digit, or a minus sign then a digit. The match is the longest accepted prefix. On failure no prefix is accepted. |
| Amount.AcceptedShape | util/parser.go:8 | An accepted amount has an optional sign, then a digit. It has at most one dot, with no comma after the dot. The anchored pattern accepts no comma at all. |
| Amount.AnchoredStopsAtComma | handler/parser.go:9 | The anchored scanner reads `1,000` as `1`. |
| Amount.FirstNumberWins | util/parser.go:15 | With two numbers in the text, the first is returned (`lunch 12.50 and 3` gives `12.50`). |
| Amount.BracesAfterDot | util/parser.go:8 | `[\d{2}]` is a character class, so `5.{2}` is accepted whole. |
| Handling.CheckText | handler/command_handler.go:140-151 | Unrecognised exactly when scanning fails. Too long exactly when the trimmed text after the amount exceeds the limit in UTF-8 bytes. Otherwise accepted, with that description. |
| Handling.CheckTextBoundary | handler/command_handler.go:148 | A description of exactly the limit is accepted and one byte more is rejected. |
| Handling.AmountThenWord | handler/command_handler.go:140-151 | `5 ` and a short lower-case word are accepted with amount `5` and the word as description. |
| Handling.Decimalise | handler/callback_handler.go:255-264 | Succeeds exactly when the fixed-point rendering has digits that fit in an int64. The result is those digits read as a number, so it is never negative. |
| Handling.DecimaliseDropsSign | handler/callback_handler.go:256-263 | `-12.50` is stored as 1250: the sign is lost with the non-digits. |
| Handling.OfferCategories | handler/command_handler.go:153-176 | Stores the text as a new context, then offers the categories keyboard for that context. A failed insert or listing gives one generic error. |
| Handling.OfferedButtonsName | handler/callback_handler.go:214-235 | The k-th offered button decodes to a Category callback for the k-th category and the new context. |
| Handling.SentFrom | handler/messsage_handler.go:40 | The sender is the message's sender, else the callback presser. There is none exactly when the update holds neither. |
| Handling.SendToMessageChat | handler/messsage_handler.go:43-51 | A reply addressed to the message's chat panics when the update has no message. |
| Enums.ParseTag | enum/callback_type.go:10-14 | Reads back only the five tag strings. |
| Enums.ParseTagName | enum/callback_type.go:10-14 | Every tag's wire string parses back to that tag. |
| Enums.TagNameInjective | enum/callback_type.go:10-14 | The five tags have distinct wire strings. |
| Enums.ToUpper | enum/callback_type.go:31 | Upper-cases each character as Go's `strings.ToUpper` does for ASCII and the two special lower-case letters. Length is preserved. |
| Enums.ToUpperIdempotent | enum/callback_type.go:31 | Upper-casing twice is upper-casing once. |
| Enums.ParseUserContext | enum/callback_type.go:24-33 | Returns the context whose name equals the upper-cased input, and none when no name does. |
| Enums.ParseUserContextIgnoresCase | enum/callback_type.go:30-31 | Parsing ignores case. |
| Enums.ParseUserContextName | enum/callback_type.go:19-28 | Each context name parses to its context. |
| Enums.ParseUserContextExamples | enum/callback_type.go:24-33 | Lower-case and mixed-case names parse. A long s (`ſ`) upper-cases to `S`. A name without its underscore does not parse. |
| Text.IndexOf | util/string.go:8 | The first index where the key occurs, or none when it never occurs. |
| Text.NatToStringRoundTrip | util/time.go:21 | Reading the decimal digits back gives the number. |
| Text.ItoaInjective | util/time.go:21 | Distinct integers print differently. |
| Text.ReplaceAllMatch | util/time.go:22-23 | A match at the front is replaced and the scan continues after it. |
| Text.ReplaceAllAbsent | util/time.go:22-23 | A string without the pattern is unchanged. |
| Int64.Wrap | repo/transaction.go:110-114 | The result lies in int64 range, is congruent to the input modulo 2^64, and equals the input when it already fits. |
| Int64.WrapAdd | repo/transaction.go:110-114 | Wrapping a running sum at each step is wrapping the final sum. |
| Json.ParseRender | util/encoding.go:7-13 | Parsing the rendering of any well-formed JSON value gives the value back. |
| Json.EscapeCharReadsBack | util/encoding.go:7-13 | Each escaped character reads back as that character. |
| Callback.Encode | domain/callback.go:5-34 | Each record encodes as a JSON object. |
| Callback.FieldsReadBack | domain/callback.go:14-34 | The top-level members of a valid record decode back to its fields. Omitted zero fields decode to zero. Pagination keeps `o` and `l` even when 0. |
| Callback.HeaderReadsBack | domain/callback.go:5-12 | The nested `c` header reads back, with `t` omitted when empty and `mc` omitted when zero. |
| Callback.DecodeEncode | domain/callback.go:5-34 | Decoding any valid record's encoding as its own kind gives the record. |
| Callback.CallbackTypeOfEncoding | main.go:28-35 | The callback type read from any valid encoding is the header's type. |
| Callback.DecodeRejectsNonJson | main.go:28-35 | Text that is not JSON fails both to decode and to yield a type. |
| Callback.DecodeNeedsObject | domain/callback.go:5-34 | A JSON value other than an object or null does not decode. |
| Keyboard.RoundUpIsCeiling | util/keyboard.go:114-118 | The rounded-up quotient is the least q with q·d ≥ n. |
| Keyboard.TileShape | util/keyboard.go:80-95 | Tiling gives ⌈n/c⌉ rows whose concatenation is the input. Every row but the last is full, and the last is non-empty. |
| Keyboard.InlineKeyboard | util/keyboard.go:79-112 | The item rows tile the buttons in order. With `cancellable` exactly one more row follows, holding only the Cancel button for the context. |
| Keyboard.NewInlineKeyboard | util/keyboard.go:79-112 | The loop builds exactly the tiled rows plus the optional Cancel row. |
| Keyboard.NewInlineKeyboardIsInlineKeyboard | util/keyboard.go:79-112 | The loop's rows satisfy every property of the tiling. |
| Keyboard.TileExample | util/keyboard.go:83-95 | Seven buttons in three columns give rows of 3, 3 and 1. |
| Keyboard.EmptyKeyboard | util/keyboard.go:80-83 | No buttons give no item rows. |
| Keyboard.PaginationButtons | util/keyboard.go:16-56 | `<` is present iff the offset and the limit are both below the count. `>` is present iff the offset is not 0. `<` comes first, each with the payload for its direction. |
| Keyboard.PaginationKeyboard | util/keyboard.go:16-56 | The pagination keyboard holds those buttons and ends with the Cancel row. |
| Keyboard.ArrowPayloadsDecode | util/keyboard.go:19-53 | The `"<"` button reads back as action `Prev` one page further, the `">"` button as action `Next` one page back. The two actions differ, and both name the same context. |
| Keyboard.PaginationPayloadsDecode | util/keyboard.go:19-53 | Each page button decodes to a Pagination callback whose action, offset and limit match its direction. |
| Keyboard.LastPageStillOffersOlder | util/keyboard.go:19-35 | On the last page `<` is still offered, and it points past the last row. |
| Keyboard.CategoriesKeyboard | handler/callback_handler.go:214-236 | One button per category, in order, labelled by name. Then a Cancel row. |
| Keyboard.CategoryButtonDecodes | handler/callback_handler.go:216-230 | Each category button decodes to a Category callback with that category's id and the context. |
| Keyboard.TransactionTypesKeyboard | handler/command_handler.go:298-319 | One button per transaction type, in order. Then a Cancel row. |
| Keyboard.TransactionTypeButtonDecodes | handler/command_handler.go:302-310 | Each type button decodes to a TransactionType callback with the type id and the context. |
| Keyboard.TimeZoneKeyboard | handler/messsage_handler.go:132-157 | The time-zone buttons tile ahead of a Cancel row. |
| Keyboard.TimeZoneButtonsShape | handler/messsage_handler.go:132-157 | 26 buttons for offsets -12 to 13, in increasing order, with distinct GMT labels. Every payload is tagged `Category` and carries the context. |
| Format.YearMonthString | util/time.go:16-25 | Fails exactly when the layout lacks `2006` or `01`, with the layout in the message. |
| Format.YearMonthStringNoZeroOne | util/time.go:21-24 | When the year's digits hold no `01`, layout `2006-01` gives the year, a dash and the two-digit month. |
| Format.YearMonthStringExample | util/time.go:17-24 | November 2022 prints as `2022-11`. |
| Format.YearMonthStringCorruptsYear | util/time.go:22-23 | March 2001 prints as `2003-03`: the month pass rewrites the `01` inside the year. |
| Format.YearMonthStringFixed | util/time.go:16-25 | The corrected layout fails under the same conditions. |
| Format.YearMonthStringFixedLayout | util/time.go:21-24 | With both marks substituted in one pass, `2006-01` prints every year and month correctly. |
| Format.YearMonthStringFixedDiffers | util/time.go:22-23 | On March 2001 the two versions disagree. |
| Format.FloatFormatter | util/money.go:8-13 | The verb starts with `%` and ends with `f`. It is `%f` exactly for fraction 0, and otherwise carries the fraction's decimal digits after `%.`. |
| Format.FloatFormatterInjective | util/money.go:8-13 | Distinct fractions give distinct verbs. |
| Format.FloatFormatterExample | util/money.go:9-12 | Fraction 2 gives `%.2f`, and 0 gives `%f`. |
| Format.OffsetToGMT | handler/messsage_handler.go:159-161 | `GMT`, then a sign that is always present, then the offset's absolute value. |
| Format.OffsetToGMTInjective | handler/messsage_handler.go:159-161 | Distinct offsets have distinct labels. |
| Format.OffsetToGMTExamples | handler/messsage_handler.go:159-161 | 0, 8 and -5 print as `GMT+0`, `GMT+8` and `GMT-5`. |
| Format.TzName | handler/messsage_handler.go:116 | `Etc/GMT` followed by the negated offset, as the IANA `Etc/GMT±N` zones are named. |
| Format.TzNameMirrorsLabel | handler/messsage_handler.go:116 | For a non-zero offset the zone name has the label's digits with the opposite sign. |
| Format.TzNameExamples | handler/messsage_handler.go:116 | Offset 8 names `Etc/GMT-8`, and -5 names `Etc/GMT+5`. |
| Format.RemoveNonNumeric | handler/callback_handler.go:267-275 | The loop keeps exactly the digits, in order. |
| Format.DigitsOfAppend | handler/callback_handler.go:267-275 | Digit filtering distributes over concatenation. |
| Format.DigitsOfIdempotent | handler/callback_handler.go:267-275 | Filtering twice is filtering once. |
| Format.DigitsOfCounts | handler/callback_handler.go:267-275 | Every digit keeps its number of occurrences. Every other character, a minus sign included, is dropped. |
| Domain.Longest | domain/stat.go:18-27 | Bounds the byte length of every label. It is 0 for no labels. |
| Domain.LongestAttained | domain/transaction.go:53-59 | Some name attains the longest length. |
| Domain.LongestLength | domain/stat.go:18-27 | The loop computes the longest label length. |
| Domain.PaddedSpaces | domain/stat.go:63-65 | Defined exactly when the width is at least the label's length, since `strings.Repeat` panics on a negative count. The padding is spaces that bring the label to the width. |
| Domain.MonthAbbrev | domain/stat.go:37 | A three-letter month name. |
| Domain.GenerateReportText | domain/stat.go:29-53 | The loop emits the report: a header when the month name changes, one line per summary, and the run's total after its last summary. |
| Domain.RunTotalContinues | domain/stat.go:40-44 | Within a month the running total adds the amount times the multiplier, wrapped to int64. |
| Domain.RunTotalOpens | domain/stat.go:38-41 | At a new month the total restarts from that summary alone. |
| Domain.ReportAligned | domain/stat.go:45-46 | The report has one summary line per input summary, in order, padded to the longest label. |
| Domain.HeadersMatchTotals | domain/stat.go:37-50 | There are as many month headers as total lines. |
| Domain.LinesAtCounts | domain/stat.go:37-50 | A summary opens a header exactly when its month starts a run, and closes a total exactly when it ends one. |
| Domain.GroupsByMonthNameOnly | domain/stat.go:37-38 | January 2022 and January 2023 fall in one group under one header. |
| Domain.SortForDisplay | domain/transaction.go:36-40 | The result is sorted by time and is a permutation of the input. |
| Domain.SortForDisplayTimes | domain/transaction.go:36-40 | Any sorted permutation has the same times, position by position. Only ties may be ordered differently. |
| Domain.SortedArrangementsAgree | domain/transaction.go:36-40 | Two sorted permutations of one sequence agree on every position's time. |
| Domain.FormatBreakdowns | domain/transaction.go:50-70 | One line per breakdown, in order. Each name is padded to the longest name, with a leading space exactly when the percentage is below 10. |
| Domain.BreakdownWidthTight | domain/transaction.go:53-67 | Some line needs no padding, so the width is no wider than needed. |
| Repo.FirstOfMonth | repo/transaction.go:96-103 | The first day of the month exists exactly for a four-digit year and a month from 1 to 12. |
| Repo.NextMonth | repo/transaction.go:132-139 | The next month's first day is one month later. |
| Repo.MonthWindow | repo/transaction.go:96-107 | The window runs from the month's first day to the first day of the month after. |
| Repo.MonthWindowRollsOver | repo/transaction.go:96-103 | December's window ends on 1 January of the next year. |
| Repo.MonthWindowExamples | repo/transaction.go:96-107 | Concrete windows for December and February. A month 13 and a three-digit year are rejected. |
| Repo.MonthIndexDetermines | repo/transaction.go:96-103 | The month index determines the year and month. |
| Repo.BreakdownTotal | repo/transaction.go:110-114 | The total is the sum of the entity amounts, wrapped to int64. |
| Repo.ToBreakdown | repo/transaction.go:116-123 | Each breakdown keeps its entity's category name and amount. |
| Repo.GetTransactionBreakdownByCategory | repo/transaction.go:93-127 | Fails with no query exactly when the month is invalid. Otherwise it makes one breakdown query and returns one breakdown per row, in order, with their total. |
| Repo.DomainEntityRoundTrip | repo/transaction.go:154-165 | Row mapping and its inverse compose to the identity both ways. |
| Repo.MapToDomain | repo/transaction.go:154-165 | Rows map one to one, in order, and nothing is lost. |
| Repo.ListByMonthAndYear | repo/transaction.go:129-168 | An invalid month or a failed count gives an error with no rows. Otherwise the count, then the page's rows unless the count is 0. |
| Repo.ZeroCountShortCircuits | repo/transaction.go:141-147 | A zero count answers empty without querying any rows. |
| Repo.ListMapsRows | repo/transaction.go:149-165 | A successful page is the query's rows mapped in order, with the queried count. |
| Repo.ListingCountBounded | repo/transaction.go:141-168 | The reported count never exceeds what the count query answered. |
| Store.BuiltinZoneUserFound | repo/user.go:31-34 | A row whose zone is `""`, `"UTC"` or `"Local"` is found whatever the time-zone database holds. |
| Store.FindUserById | repo/user.go:21-44 | Fails exactly on a fault or when the row's zone name does not load. Missing exactly when no row has the id. Otherwise returns the row. |
| Store.AddUserRow | repo/user.go:46-58 | Adds the row unless the id exists or the insert faults. |
| Store.UpdateUserRow | repo/user.go:60-72 | Fails on a fault or on id 0. Otherwise it replaces an existing row and leaves an unknown id alone. |
| Store.AddMessageContext | repo/message_context.go:17-28 | Stores the text under the next serial id and returns that fresh id. |
| Store.GetMessageById | repo/message_context.go:30-36 | Fails on a fault. Otherwise the text is found exactly when the id is stored. |
| Store.DeleteMessageContext | handler/callback_handler.go:247-252 | Removes exactly that context. A failed delete is only logged and changes nothing. |
| Store.GetCategoryById | repo/category.go:34-45 | A found category has that id. Missing means no row has it. |
| Store.FindAllCategories | handler/command_handler.go:160-165 | All categories, in table order. |
| Store.GetTransactionTypeById | repo/transaction_type.go:38-52 | A found type has that id. Missing means no row has it. |
| Store.AddTransactionRow | repo/transaction.go:23-41 | Appends one row under the next serial id. Serial ids stay ahead of the rows. |
| Store.GetTransactionById | repo/transaction.go:43-59 | Finds a row with that id owned by that user, without its category name. Missing means there is none. |
| Store.DeleteTransactionRow | repo/transaction.go:83-91 | Removes exactly the user's rows with that id. |
| Store.RemoveOwned | repo/transaction.go:83-91 | Keeps every row that is not the user's row with that id, and only rows of the input. |
| Store.RemoveOwnedCounts | repo/transaction.go:83-91 | A kept row stays as many times as it was stored. A row owned by the user with that id is gone. |
| Store.RemoveOwnedAppend | repo/transaction.go:83-91 | Removal goes row by row, so the kept rows stay in their order. |
| Store.Latest | repo/transaction.go:61-81 | The user's row with the latest time. None exactly when the user has no rows. |
| Store.FindLatestByUserId | repo/transaction.go:61-81 | Fails exactly on a fault. A result is one of the user's rows with the category name cleared, and no row of the user is later. It is the row `Latest` picks. None means the user has no rows. |
| Commands.DefaultUser | handler/command_handler.go:75-83 | The sign-up defaults: English and SGD with two digits. The zone is `Asia/Singapore` exactly when it loads, and otherwise `"UTC"`, which a nil location prints as. The stored zone always loads. |
| Commands.Start | handler/command_handler.go:58-94 | An unknown sender is signed up with the defaults. A known one whose zone loads is told they exist. The lookup error message answers exactly a fault or a zone that does not load. Only sign-up changes the store. |
| Commands.StartTwice | handler/command_handler.go:58-94 | Starting again right after sign-up changes nothing and always answers that the user exists. |
| Commands.Undo | handler/command_handler.go:101-124 | With no latest transaction it sends not-found and then panics, since no `return` follows. Any change removes one id of the sender's rows. |
| Commands.UndoRemovesLatest | handler/command_handler.go:103-123 | A confirmed undo removes the sender's latest row and repeats its amount and description. |
| Commands.StartTransaction | handler/command_handler.go:126-177 | Checks the amount, then the description. A context is stored only after both pass, and then the categories are offered. |
| Commands.Stats | handler/command_handler.go:179-203 | Read-only. Panics exactly for an unknown sender. Otherwise it reports the month's breakdown and total, or a generic error. |
| Commands.List | handler/command_handler.go:205-247 | The store stays unchanged exactly when the lookup fails or the context insert fails. Otherwise only the new context is added, and users and transactions are kept. A panic has no reply and means the sender has no row. Otherwise there is exactly one reply. |
| Commands.ListShowsFirstPage | handler/command_handler.go:205-247 | For a found user, the context is stored. A failed listing answers a generic error and an empty month the empty-list message. Otherwise the reply is page one: the listed rows and count, offset 0, limit 10, and a two-column keyboard pointing at the new context. |
| Commands.ListEmptyKeepsContext | handler/command_handler.go:230-233 | An empty month answers the empty-list message, but the context stays stored. |
| Commands.ExportRows | handler/command_handler.go:268-291 | The paging loop computes the rows the page-by-page definition gives. |
| Commands.Export | handler/command_handler.go:249-296 | Read-only. The exported rows are the loop's rows, or a generic error. |
| Commands.ExportCollectsAll | handler/command_handler.go:268-291 | Against a database that answers consistently, the pages of 1000 concatenate to all the month's rows, in order. |
| Commands.ExportDropsFailedPage | handler/command_handler.go:270-277 | A failed second page is not reported: the export ends with the first page only. |
| Messages.Handle | handler/messsage_handler.go:39-64 | Routes on the user's exact context string. Only the time-zone context can change users, and only a message can add a context. |
| Messages.HandleAgreesWithCommands | handler/messsage_handler.go:54-63 | With the same scanner and limit, a known sender outside the time-zone and currency contexts is handled as the command handler handles text. |
| Messages.HandleUnknownSender | handler/messsage_handler.go:48-52 | A sender without a row gets the generic error and nothing changes. |
| Messages.HandleUnloadableZone | handler/messsage_handler.go:42-47 | A sender whose stored zone does not load gets the lookup error message and nothing changes. |
| Messages.TimeZoneContextMessagePanics | handler/messsage_handler.go:57-58 | A message in the time-zone context panics before any change. |
| Messages.StartTransaction | handler/messsage_handler.go:66-104 | A context is stored only when the check passes, and the categories are then offered as in the command handler. |
| Messages.SetTimeZone | handler/messsage_handler.go:106-127 | Needs a callback query. The only possible store change is the user's zone set to the decoded offset's name. |
| Messages.SetTimeZoneNeverConfirms | handler/messsage_handler.go:106-127 | For any update Telegram can send, no reply is delivered, and a decodable zone ends in a panic. |
| Messages.SetTimeZoneFixed | handler/messsage_handler.go:106-127 | Replying to the pressed button's chat: exactly one reply unless the payload does not decode. |
| Messages.SetTimeZoneFixedConfirms | handler/messsage_handler.go:116-126 | A zone that loads is stored for the user and confirmed with its GMT label. |
| Messages.SetCurrency | handler/messsage_handler.go:129-130 | Does nothing. |
| Callbacks.Draft | handler/callback_handler.go:77-106 | A drafted transaction is the presser's, in the pressed category, at the current time, in the user's currency. Its description is the trimmed text after the scanned amount, and its amount is a non-negative int64. |
| Callbacks.FromCategory | handler/callback_handler.go:45-127 | Changes only transactions and contexts, and adds at most the presser's one row. It panics exactly when it sends nothing. |
| Callbacks.FromCategoryKeepsValid | handler/callback_handler.go:45-127 | Serial ids stay ahead of the rows and contexts. |
| Callbacks.FromCategoryEarlyExit | handler/callback_handler.go:47-59 | A lookup error or an undecodable payload gives one generic error and deletes nothing. |
| Callbacks.FromCategoryDeletesContext | handler/callback_handler.go:61-126 | Once the payload decodes, its context is deleted on every way out, and no other context is touched. |
| Callbacks.FromCategoryRecordsDraft | handler/callback_handler.go:95-126 | A confirmation means one row was appended for the presser, with the pressed category, the current time, and the confirmed amount and description. |
| Callbacks.FromCategoryPanics | handler/callback_handler.go:63-120 | A panic has one of four causes: a missing category, context, user or transaction type. |
| Callbacks.UnanchoredTakesSeparator | util/parser.go:8 | The command handler's scanner reads `5,000` whole. |
| Callbacks.AnchoredStopsAtSeparator | handler/parser.go:9 | The anchored scanner reads `5,000` as `5`. |
| Callbacks.SameScannerKeepsLimit | handler/callback_handler.go:77-106 | With the command handler's scanner, every stored description passed the 20-byte check. |
| Callbacks.AnchoredScannerBreaksLimit | handler/parser.go:9-19 | With the anchored scanner, `5,000` and a 16 to 20 letter word pass the check yet store a description over 20 bytes. |
| Callbacks.FromPagination | handler/callback_handler.go:129-171 | Read-only: the context is read and never deleted. One reply, a page or a generic error, or a panic. |
| Callbacks.FromPaginationShowsListing | handler/callback_handler.go:154-170 | The page is the listing for the context's month at the button's offset and limit. A failed listing shows as an empty page. |
| Callbacks.FromUndo | handler/callback_handler.go:173-201 | Only the presser's rows with the button's id can go. Other users' rows stay, and no row is invented. |
| Callbacks.FromUndoRemoves | handler/callback_handler.go:184-200 | A confirmed undo leaves none of those rows and repeats one's amount and description. |
| Callbacks.FromCancel | handler/callback_handler.go:203-212 | Deletes exactly the named context, silently. An undecodable payload changes nothing. |
| Dispatch.RoutedTags | main.go:46-57 | Of the five tags, exactly `TransactionType` is not routed. |
| Dispatch.HandleCallback | main.go:37-59 | An undecodable payload sends two generic errors. An unrouted type sends one. The others go to their handler. |
| Dispatch.CallbackIsolated | main.go:37-59 | A button press changes no table and leaves every other user's transactions alone. |
| Dispatch.TransactionTypeButtonUnrouted | main.go:55-57 | A transaction-type button press gets a generic error and changes nothing. |
| Dispatch.HandleMessage | main.go:61-84 | Each named command goes to its handler and any other command to Help. Plain text starts a transaction. Only `/undo` changes transactions. |
| Dispatch.ProcessUpdate | main.go:215-223 | An update with a message goes to the message handler, else the callback goes to the callback handler. No table changes. |
| Dispatch.ProcessAll | main.go:215-228 | Updates are handled in order until one panics. Users who sent none of the handled updates keep exactly their transactions. |
| Dispatch.RecordFlow | handler/command_handler.go:126-177 | A message followed by a category press stores one row for the sender, in that category. Its description is the one the check accepted, so at most 20 bytes. |

## Left out

- Floating point: `strconv.ParseFloat`, fixed-point formatting inside
  `decimalise`, and the percentage of each breakdown. Each is a parameter
  (`Env.parseFloat`, `Env.formatFixed`, the `percentOf` argument).
- Money display (`Display`, `AsMajorUnits`), time formatting, the
  time-zone database and the clock. `Env` supplies the current time, and
  `Store.LoadsZone` says which zone names load.
- The report and list message texts (`GetFormattedHTMLMsg` of transactions)
  and the CSV writer and temporary file of `/export`. Replies are a datatype
  naming the message and its data, not the rendered text.
- The Telegram transport, webhook, polling, worker goroutines, the message
  deletion after a button press, `CloseInlineKeyboard` and logging. The
  update loop is sequential in the model.
- SQL and the data access layer. The store is an abstract record, with a
  fault set for failing calls. The month queries of the transaction table
  are an abstract `Repo.Dao`.
- The DAO's sort order argument is not passed by the repository, so the
  listing has no order parameter.
- `parseFloatStringFromString` and its `floatParser` are declared twice in
  package `handler`, with an unanchored and an anchored pattern. The
  `Env.scanner` parameter chooses which one the callback and message
  handlers use. The command handler uses the unanchored util version.
- `descLengthLimit` is not defined in the message handler package. It is
  the parameter `Env.descLengthLimit`.
- `MessageContextRepo.Add` takes the text only, while its callers pass
  more arguments. The model stores the text.
- `categoryRepo.FindAll` does not exist (only a lookup by transaction type).
  `Store.FindAllCategories` returns every category.
- `User.CurrentContext` is not a field of the domain user. The model gives
  users a `currentContext` string.
- `domain.TimeZoneCallback` is not declared. Its decoding is the parameter
  `Env.decodeTz`.
- `util.ParseMonthYearFromMessage` is not part of this model. The month a
  message names is the parameter `Env.monthYear`.
- `FromPagination` passes one argument more to `ListByMonthAndYear` than the
  repository takes, and ignores its error. The model calls the repository
  with the user id and shows a failed listing as an empty page.
- The entity transaction has no category name. Mapped rows carry an empty
  one.
- `MessageHandler` is not wired into `main.go`, whose message path uses only
  the command handler. `Messages.Handle` is modelled on its own, and
  `Messages.HandleAgreesWithCommands` relates the two.
- Json: the parser reads the grammar of RFC 8259. Numbers are kept as their
  literal text and decoded as int64 integers only, which is all the callback
  fields use. Floats and exponents are not read as callback fields.
- Callback.DecodeEncode: stated for valid records, meaning int64 fields and
  the tag of the record's kind. An out-of-range integer makes `encoding/json`
  fail, and the model reports an error there too.
- Store.Latest: among the user's rows with the greatest time it picks the
  first stored. `ORDER BY datetime DESC LIMIT 1` leaves the choice among
  such ties to the database, so the model fixes one valid choice.
- Store.GetCategoryById: the first row with the id is returned. The database
  has unique ids, which the model does not assume.
- Keyboard.LastPageStillOffersOlder: states the as-written gating. The
  intended gate, `offset+limit < totalCount`, is not modelled separately.
- The optional bound of the pagination payload against Telegram's 64-byte
  `callback_data` limit is not proved.
- Enums.ToUpper: models Go's `strings.ToUpper` for ASCII, `ı` and `ſ` only.
  Other non-ASCII letters are left unchanged.
- Handling.Decimalise: the float value is rendered by the `Env.formatFixed`
  parameter, so rounding is not modelled.

## Findings

| source | as written | input that shows it | evidently intended | confidence | as-written member | corrected member |
|---|---|---|---|---|---|---|
| util/time.go:21-23 | the year is substituted first, and the month pass then rewrites every `01`, including one inside the year | March 2001 with layout `2006-01` prints `2003-03` | `2001-03` | high, not executed | Format.YearMonthStringCorruptsYear | Format.YearMonthStringFixedLayout |
| handler/messsage_handler.go:106-127 | the offset is read from the update's callback query, but every reply goes to the update's message chat | any update: Telegram sets a message or a callback query, never both, so there is either a nil callback query or a nil message | reply to the chat of the pressed button | high, not executed | Messages.SetTimeZoneNeverConfirms | Messages.SetTimeZoneFixedConfirms |
