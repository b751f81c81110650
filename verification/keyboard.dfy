/** The inline keyboards of util/keyboard.go and the handlers: row-major tiling
    of buttons, the optional Cancel row, the pagination arrows, and the
    category, transaction-type and time-zone keyboards. */
module Keyboard {
  import opened Wrappers
  import opened Text
  import opened Enums
  import opened Callback
  import Int64
  import Format

  /** What a button sends back when pressed. `Cb` payloads are sent as
      `Encode(r)`. `TimeZoneCb` stands for `domain.TimeZoneCallback`, a struct
      the snapshot uses but never declares, so only its fields are known. */
  datatype Payload =
    | Cb(r: Record)
    | TimeZoneCb(c: Header, tzOffset: int)

  /** An `InlineKeyboardConfig` / `InlineKeyboardButton`: a label and its payload. */
  datatype Button = Button(text: string, payload: Payload)

  /** The callback data string of a button, where its wire form is known. */
  function Data(b: Button): (d: Option<string>)
    ensures b.payload.Cb? <==> d.Some?
    ensures d.Some? ==> |d.value| > 0 && d.value[0] == '{'
  {
    match b.payload
    case Cb(r) => Some(Encode(r))
    case TimeZoneCb(_, _) => None
  }

  // ---------------------------------------------------------------------
  // Tiling

  /** `roundUpDivision` on non-negative counts: `n / d` rounded up, computed
      by taking off one row of `d` at a time. */
  function RoundUpDivision(n: nat, d: nat): nat
    requires d > 0
    decreases n
  {
    if n == 0 then 0
    else if n <= d then 1
    else RoundUpDivision(n - d, d) + 1
  }

  /** It is the ceiling: the least `q` with `q * d >= n`. */
  lemma {:induction false} RoundUpIsCeiling(n: nat, d: nat)
    requires d > 0
    ensures RoundUpDivision(n, d) * d >= n
    ensures RoundUpDivision(n, d) > 0 ==> (RoundUpDivision(n, d) - 1) * d < n
    decreases n
  {
    if n > d {
      var q' := RoundUpDivision(n - d, d);
      RoundUpIsCeiling(n - d, d);
      assert (q' + 1) * d == q' * d + d;
      if q' > 0 {
        assert q' * d == (q' - 1) * d + d;
      }
    }
  }

  /** The example of the source's comment on row counts: 7 items in 3 columns take 3 rows. */
  lemma RoundUpExample()
    ensures RoundUpDivision(7, 3) == 3 && RoundUpDivision(6, 3) == 2 && RoundUpDivision(0, 3) == 0
  {
  }

  /** Concatenation of the rows, in order. */
  function Flatten(rows: seq<seq<Button>>): seq<Button> {
    if |rows| == 0 then [] else rows[0] + Flatten(rows[1..])
  }

  lemma {:induction false} FlattenAppend(a: seq<seq<Button>>, b: seq<seq<Button>>)
    ensures Flatten(a + b) == Flatten(a) + Flatten(b)
    decreases |a|
  {
    if |a| == 0 {
      assert a + b == b;
    } else {
      assert (a + b)[1..] == a[1..] + b;
      FlattenAppend(a[1..], b);
    }
  }

  /** The reference tiling: full rows of `c` buttons, the remainder in a last,
      shorter row, and no row at all for no buttons. */
  function Tile(xs: seq<Button>, c: nat): seq<seq<Button>>
    requires c > 0
    decreases |xs|
  {
    if |xs| == 0 then []
    else if |xs| <= c then [xs]
    else [xs[..c]] + Tile(xs[c..], c)
  }

  /** The tiling has `roundUpDivision(n, c)` rows, every row but the last is
      full, the last is not empty, and reading the rows in order gives the
      buttons back. */
  lemma {:induction false} TileCount(xs: seq<Button>, c: nat)
    requires c > 0
    ensures |Tile(xs, c)| == RoundUpDivision(|xs|, c)
    decreases |xs|
  {
    TileUnfold(xs, c);
    if |xs| > c {
      TileCount(xs[c..], c);
    }
  }

  lemma {:induction false} TileShape(xs: seq<Button>, c: nat)
    requires c > 0
    ensures |Tile(xs, c)| == RoundUpDivision(|xs|, c)
    ensures Flatten(Tile(xs, c)) == xs
    ensures forall k :: 0 <= k < |Tile(xs, c)| - 1 ==> |Tile(xs, c)[k]| == c
    ensures |Tile(xs, c)| > 0 ==> 0 < |Tile(xs, c)[|Tile(xs, c)| - 1]| <= c
    decreases |xs|
  {
    TileUnfold(xs, c);
    if 0 < |xs| <= c {
      assert Flatten([xs]) == xs + Flatten([]);
    } else if |xs| > c {
      var rest := Tile(xs[c..], c);
      TileShape(xs[c..], c);
      assert ([xs[..c]] + rest)[1..] == rest;
      assert xs[..c] + xs[c..] == xs;
    }
  }

  /** Where row `k` starts: `c * k`, spelled as repeated addition. */
  function RowStart(c: nat, k: nat): nat {
    if k == 0 then 0 else RowStart(c, k - 1) + c
  }

  lemma {:induction false} RowStartIsProduct(c: nat, k: nat)
    ensures RowStart(c, k) == c * k
  {
    if k > 0 {
      RowStartIsProduct(c, k - 1);
      assert c * k == c * (k - 1) + c;
    }
  }

  /** Row `k` of the tiling holds the buttons from `c*k` up to `c*k + c` (or the end). */
  lemma {:induction false} TileRow(xs: seq<Button>, c: nat, k: nat)
    requires c > 0 && k < |Tile(xs, c)|
    ensures RowStart(c, k) < |xs|
    ensures Tile(xs, c)[k] == xs[RowStart(c, k)..Min(RowStart(c, k) + c, |xs|)]
    decreases k
  {
    TileUnfold(xs, c);
    if k == 0 {
      assert xs[0..Min(c, |xs|)] == if |xs| <= c then xs else xs[..c];
    } else {
      TileRow(xs[c..], c, k - 1);
      var p := RowStart(c, k - 1);
      var rest := Tile(xs[c..], c);
      assert RowStart(c, k) == c + p;
      assert Min(RowStart(c, k) + c, |xs|) == c + Min(p + c, |xs| - c);
      assert Tile(xs, c)[k] == rest[k - 1];
      SliceOfSlice(xs, c, p, Min(p + c, |xs| - c));
    }
  }

  /** One step of the reference tiling. */
  lemma TileUnfold(xs: seq<Button>, c: nat)
    requires c > 0
    ensures |xs| == 0 ==> Tile(xs, c) == []
    ensures 0 < |xs| <= c ==> Tile(xs, c) == [xs]
    ensures |xs| > c ==> Tile(xs, c) == [xs[..c]] + Tile(xs[c..], c)
    ensures |xs| > c ==> RoundUpDivision(|xs|, c) == RoundUpDivision(|xs| - c, c) + 1
    ensures |xs| > 0 ==> RoundUpDivision(|xs|, c) > 0
  {
  }

  lemma SliceOfSlice(s: seq<Button>, a: nat, i: nat, j: nat)
    requires a <= |s| && i <= j <= |s| - a
    ensures s[a..][i..j] == s[a + i..a + j]
  {
  }

  function Min(a: int, b: int): int {
    if a <= b then a else b
  }

  /** The Cancel button: a Generic callback tagged Cancel with the context id. */
  function CancelButton(mc: int): (b: Button)
    ensures b.text == "Cancel" && b.payload.Cb? && KindOf(b.payload.r) == GenericKind
    ensures b.payload.r.c == Header(TagName(Cancel), mc)
  {
    Button("Cancel", Cb(Generic(Header(TagName(Cancel), mc))))
  }

  /** The keyboard `NewInlineKeyboard` returns, as a function: the tiled
      items, then the Cancel row when `cancellable`. */
  function InlineKeyboard(configs: seq<Button>, mc: int, colSize: nat, cancellable: bool): (rows: seq<seq<Button>>)
    requires colSize > 0
    ensures |rows| == RoundUpDivision(|configs|, colSize) + (if cancellable then 1 else 0)
    ensures Flatten(rows[..RoundUpDivision(|configs|, colSize)]) == configs
    ensures forall k :: 0 <= k < RoundUpDivision(|configs|, colSize) - 1 ==> |rows[k]| == colSize
    ensures cancellable ==> rows[|rows| - 1] == [CancelButton(mc)]
    ensures Flatten(rows) == configs + (if cancellable then [CancelButton(mc)] else [])
  {
    var items := Tile(configs, colSize);
    TileShape(configs, colSize);
    var extra := if cancellable then [[CancelButton(mc)]] else [];
    FlattenAppend(items, extra);
    assert Flatten(extra) == if cancellable then [CancelButton(mc)] else [] by {
      if cancellable {
        assert extra[1..] == [];
      }
    }
    assert (items + extra)[..|items|] == items;
    items + extra
  }

  /** `NewInlineKeyboard`: the nested loops of the source, filling row `i`
      with the configs from `colSize*i` until the row is full or the configs
      run out, then appending the Cancel row when asked to. */
  method NewInlineKeyboard(configs: seq<Button>, mc: int, colSize: nat, cancellable: bool)
    returns (rows: seq<seq<Button>>)
    requires colSize > 0
    ensures rows == Tile(configs, colSize) + (if cancellable then [[CancelButton(mc)]] else [])
  {
    var numOfRows := RoundUpDivision(|configs|, colSize);
    TileCount(configs, colSize);
    rows := [];
    var i := 0;
    while i < numOfRows
      invariant 0 <= i <= numOfRows
      invariant |rows| == i
      invariant forall k :: 0 <= k < i ==> rows[k] == Tile(configs, colSize)[k]
    {
      TileRow(configs, colSize, i);
      var row := FillRow(configs, colSize, i);
      rows := rows + [row];
      i := i + 1;
    }
    if cancellable {
      rows := rows + [[CancelButton(mc)]];
    }
  }

  /** The inner loop of `NewInlineKeyboard`: row `i`, stopping early when the
      configs run out. */
  method FillRow(configs: seq<Button>, colSize: nat, i: nat) returns (row: seq<Button>)
    requires colSize > 0 && RowStart(colSize, i) < |configs|
    ensures row == configs[RowStart(colSize, i)..Min(RowStart(colSize, i) + colSize, |configs|)]
  {
    RowStartIsProduct(colSize, i);
    ghost var start := RowStart(colSize, i);
    row := [];
    var j := 0;
    while j < colSize
      invariant 0 <= j <= colSize
      invariant start + j <= |configs|
      invariant row == configs[start..start + j]
    {
      var itemIndex := colSize * i + j;
      if itemIndex == |configs| {
        break;
      }
      row := row + [configs[itemIndex]];
      j := j + 1;
    }
  }

  /** The method builds the keyboard the function describes. */
  lemma NewInlineKeyboardIsInlineKeyboard(configs: seq<Button>, mc: int, colSize: nat, cancellable: bool)
    requires colSize > 0
    ensures InlineKeyboard(configs, mc, colSize, cancellable)
            == Tile(configs, colSize) + (if cancellable then [[CancelButton(mc)]] else [])
  {
  }

  /** The example of a 7-button keyboard with 3 columns: rows of 3, 3 and 1. */
  lemma TileExample(xs: seq<Button>)
    requires |xs| == 7
    ensures |Tile(xs, 3)| == 3
    ensures |Tile(xs, 3)[0]| == 3 && |Tile(xs, 3)[1]| == 3 && |Tile(xs, 3)[2]| == 1
  {
    TileCount(xs, 3);
    RoundUpExample();
    TileRow(xs, 3, 0);
    TileRow(xs, 3, 1);
    TileRow(xs, 3, 2);
  }

  /** No buttons, no item rows: a cancellable keyboard is then just the Cancel row. */
  lemma EmptyKeyboard(mc: int, colSize: nat)
    requires colSize > 0
    ensures InlineKeyboard([], mc, colSize, true) == [[CancelButton(mc)]]
    ensures InlineKeyboard([], mc, colSize, false) == []
  {
  }

  // ---------------------------------------------------------------------
  // Pagination

  /** The `"<"` button: older items, shown by the action `Prev` at `offset + limit`. */
  function OlderButton(offset: int, limit: int, mc: int): Button {
    Button("<", Cb(PaginationCb(Header(TagName(Pagination), mc), ActionName(Previous), Int64.Wrap(offset + limit), limit)))
  }

  /** The `">"` button: newer items, shown by the action `Next` at `offset - limit`. */
  function NewerButton(offset: int, limit: int, mc: int): Button {
    Button(">", Cb(PaginationCb(Header(TagName(Pagination), mc), ActionName(Next), Int64.Wrap(offset - limit), limit)))
  }

  /** The arrows `NewPaginationKeyboard` offers, in order. */
  function PaginationButtons(totalCount: int, offset: int, limit: int, mc: int): (bs: seq<Button>)
    ensures |bs| <= 2
    ensures forall k :: 0 <= k < |bs| ==> bs[k].text == "<" || bs[k].text == ">"
    ensures (exists k :: 0 <= k < |bs| && bs[k].text == "<") <==> offset < totalCount && limit < totalCount
    ensures (exists k :: 0 <= k < |bs| && bs[k].text == ">") <==> offset != 0
    ensures forall k :: 0 <= k < |bs| && bs[k].text == "<" ==> k == 0 && bs[k] == OlderButton(offset, limit, mc)
    ensures forall k :: 0 <= k < |bs| && bs[k].text == ">" ==> k == |bs| - 1 && bs[k] == NewerButton(offset, limit, mc)
  {
    var older := if offset < totalCount && limit < totalCount then [OlderButton(offset, limit, mc)] else [];
    var newer := if offset != 0 then [NewerButton(offset, limit, mc)] else [];
    var bs := older + newer;
    assert |older| == 1 ==> bs[0] == OlderButton(offset, limit, mc);
    assert |newer| == 1 ==> bs[|bs| - 1] == NewerButton(offset, limit, mc);
    bs
  }

  /** The column count both handlers pass for the pagination keyboard. */
  const PaginationColumns: nat := 2

  /** `NewPaginationKeyboard`: the arrows tiled into `colSize` columns, then
      the Cancel row. The source's error return cannot happen, since
      `json.Marshal` of these structs never fails. */
  function PaginationKeyboard(totalCount: int, offset: int, limit: int, mc: int, colSize: nat): (rows: seq<seq<Button>>)
    requires colSize > 0
    ensures |rows| >= 1 && rows[|rows| - 1] == [CancelButton(mc)]
    ensures Flatten(rows) == PaginationButtons(totalCount, offset, limit, mc) + [CancelButton(mc)]
  {
    InlineKeyboard(PaginationButtons(totalCount, offset, limit, mc), mc, colSize, true)
  }

  /** Every pagination payload survives the wire: decoding the button's data
      gives the Pagination callback back, and its header says `Pagination`. */
  lemma PaginationPayloadsDecode(totalCount: int, offset: int, limit: int, mc: int, k: nat)
    requires Int64.InRange(mc) && Int64.InRange(limit)
    requires k < |PaginationButtons(totalCount, offset, limit, mc)|
    ensures var b := PaginationButtons(totalCount, offset, limit, mc)[k];
            Decode(PaginationKind, Data(b).value) == Ok(b.payload.r)
            && GetCallbackType(Data(b).value) == Ok(TagName(Pagination))
  {
    var b := PaginationButtons(totalCount, offset, limit, mc)[k];
    assert b == OlderButton(offset, limit, mc) || b == NewerButton(offset, limit, mc);
    DecodeEncode(b.payload.r);
    CallbackTypeOfEncoding(b.payload.r);
  }

  /** The two arrows read back as different actions: `"<"` carries `Prev`
      and the page after this one, `">"` carries `Next` and the page before. */
  lemma ArrowPayloadsDecode(offset: int, limit: int, mc: int)
    requires Int64.InRange(mc) && Int64.InRange(limit)
    ensures var older := Decode(PaginationKind, Data(OlderButton(offset, limit, mc)).value);
            var newer := Decode(PaginationKind, Data(NewerButton(offset, limit, mc)).value);
            && older.Ok? && newer.Ok?
            && older.value.action == "Prev" && older.value.offset == Int64.Wrap(offset + limit)
            && newer.value.action == "Next" && newer.value.offset == Int64.Wrap(offset - limit)
            && older.value.action != newer.value.action
            && older.value.c.mc == newer.value.c.mc == mc
  {
    DecodeEncode(OlderButton(offset, limit, mc).payload.r);
    DecodeEncode(NewerButton(offset, limit, mc).payload.r);
  }

  /** As written, the `"<"` button is offered on the last page too: with
      more items than a page, an offset on the last page still gets an arrow
      whose offset lies at or past the end. */
  lemma LastPageStillOffersOlder(totalCount: int, offset: int, limit: int, mc: int)
    requires 0 <= offset < totalCount && 0 < limit < totalCount
    requires offset + limit >= totalCount
    ensures var bs := PaginationButtons(totalCount, offset, limit, mc);
            |bs| >= 1 && bs[0] == OlderButton(offset, limit, mc)
    ensures Int64.InRange(offset + limit) ==> OlderButton(offset, limit, mc).payload.r.offset >= totalCount
  {
    var bs := PaginationButtons(totalCount, offset, limit, mc);
    assert bs[0].text == "<";
  }

  /** With two columns (as `List` and `FromPagination` use) both arrows share one row. */
  lemma PaginationTwoColumns(totalCount: int, offset: int, limit: int, mc: int)
    requires offset != 0 && offset < totalCount && limit < totalCount
    ensures PaginationKeyboard(totalCount, offset, limit, mc, 2)
            == [[OlderButton(offset, limit, mc), NewerButton(offset, limit, mc)], [CancelButton(mc)]]
  {
    var bs := PaginationButtons(totalCount, offset, limit, mc);
    assert bs == [OlderButton(offset, limit, mc), NewerButton(offset, limit, mc)];
    TileRow(bs, 2, 0);
  }

  // ---------------------------------------------------------------------
  // Category, transaction-type and time-zone keyboards

  /** `domain.Category` and `domain.TransactionType`, reduced to what the
      keyboards read (their declaring files are not part of this model). */
  datatype Category = Category(id: int, name: string)
  datatype TransactionType = TransactionType(id: int, name: string)

  /** The configs `newCategoriesKeyboard` appends, one per category. */
  function CategoryButtons(cats: seq<Category>, mc: int): (bs: seq<Button>)
    ensures |bs| == |cats|
    ensures forall k :: 0 <= k < |bs| ==> bs[k].text == cats[k].name
    ensures forall k :: 0 <= k < |bs| ==>
              bs[k].payload == Cb(CategoryCb(Header(TagName(Tag.Category), mc), cats[k].id))
    decreases |cats|
  {
    if |cats| == 0 then []
    else
      var last := cats[|cats| - 1];
      CategoryButtons(cats[..|cats| - 1], mc)
        + [Button(last.name, Cb(CategoryCb(Header(TagName(Tag.Category), mc), last.id)))]
  }

  /** `newCategoriesKeyboard`; the column count is `categoriesInlineColSize` (3)
      at both call sites. */
  function CategoriesKeyboard(cats: seq<Category>, mc: int, colSize: nat): (rows: seq<seq<Button>>)
    requires colSize > 0
    ensures |rows| == RoundUpDivision(|cats|, colSize) + 1
    ensures rows[|rows| - 1] == [CancelButton(mc)]
    ensures Flatten(rows[..|rows| - 1]) == CategoryButtons(cats, mc)
  {
    var rows := InlineKeyboard(CategoryButtons(cats, mc), mc, colSize, true);
    rows
  }

  /** Pressing the `k`-th category button sends a payload that decodes to the
      category's id and the context id, tagged `Category`. */
  lemma CategoryButtonDecodes(cats: seq<Category>, mc: int, k: nat)
    requires k < |cats| && Int64.InRange(mc) && Int64.InRange(cats[k].id)
    ensures var d := Data(CategoryButtons(cats, mc)[k]).value;
            Decode(CategoryKind, d) == Ok(CategoryCb(Header(TagName(Tag.Category), mc), cats[k].id))
            && GetCallbackType(d) == Ok(TagName(Tag.Category))
  {
    var r := CategoryCb(Header(TagName(Tag.Category), mc), cats[k].id);
    DecodeEncode(r);
    CallbackTypeOfEncoding(r);
  }

  /** The configs `newTransactionTypesKeyboard` appends, one per type. */
  function TransactionTypeButtons(types: seq<TransactionType>, mc: int): (bs: seq<Button>)
    ensures |bs| == |types|
    ensures forall k :: 0 <= k < |bs| ==> bs[k].text == types[k].name
    ensures forall k :: 0 <= k < |bs| ==>
              bs[k].payload == Cb(TransactionTypeCb(Header(TagName(Tag.TransactionType), mc), types[k].id))
    decreases |types|
  {
    if |types| == 0 then []
    else
      var last := types[|types| - 1];
      TransactionTypeButtons(types[..|types| - 1], mc)
        + [Button(last.name, Cb(TransactionTypeCb(Header(TagName(Tag.TransactionType), mc), last.id)))]
  }

  /** `newTransactionTypesKeyboard`; `transactionTypeInlineColSize` is 2. */
  function TransactionTypesKeyboard(types: seq<TransactionType>, mc: int, colSize: nat): (rows: seq<seq<Button>>)
    requires colSize > 0
    ensures |rows| == RoundUpDivision(|types|, colSize) + 1
    ensures rows[|rows| - 1] == [CancelButton(mc)]
    ensures Flatten(rows[..|rows| - 1]) == TransactionTypeButtons(types, mc)
  {
    var rows := InlineKeyboard(TransactionTypeButtons(types, mc), mc, colSize, true);
    rows
  }

  lemma TransactionTypeButtonDecodes(types: seq<TransactionType>, mc: int, k: nat)
    requires k < |types| && Int64.InRange(mc) && Int64.InRange(types[k].id)
    ensures var d := Data(TransactionTypeButtons(types, mc)[k]).value;
            Decode(TransactionTypeKind, d) == Ok(TransactionTypeCb(Header(TagName(Tag.TransactionType), mc), types[k].id))
            && GetCallbackType(d) == Ok(TagName(Tag.TransactionType))
  {
    var r := TransactionTypeCb(Header(TagName(Tag.TransactionType), mc), types[k].id);
    DecodeEncode(r);
    CallbackTypeOfEncoding(r);
  }

  const TzOffsetStart: int := -12
  const TzOffsetEnd: int := 13

  /** The configs `newTimeZoneKeyboard` builds for the offsets `from` up to
      `TzOffsetEnd`, labelled with `offsetToGMT`. The header tag is
      `Category`, as in the source. */
  function TimeZoneButtons(from: int, mc: int): (bs: seq<Button>)
    requires TzOffsetStart <= from <= TzOffsetEnd + 1
    ensures |bs| == TzOffsetEnd + 1 - from
    ensures forall k :: 0 <= k < |bs| ==> bs[k] == TimeZoneButton(from + k, mc)
    decreases TzOffsetEnd + 1 - from
  {
    if from > TzOffsetEnd then []
    else
      var rest := TimeZoneButtons(from + 1, mc);
      var bs := [TimeZoneButton(from, mc)] + rest;
      assert forall k :: 0 <= k < |bs| ==> bs[k] == TimeZoneButton(from + k, mc) by {
        forall k | 1 <= k < |bs|
          ensures bs[k] == TimeZoneButton(from + k, mc)
        {
          assert bs[k] == rest[k - 1] == TimeZoneButton(from + 1 + (k - 1), mc);
        }
      }
      bs
  }

  /** The button for one offset. */
  function TimeZoneButton(offset: int, mc: int): Button {
    Button(Format.OffsetToGMT(offset), TimeZoneCb(Header(TagName(Tag.Category), mc), offset))
  }

  /** `newTimeZoneKeyboard`. */
  function TimeZoneKeyboard(mc: int, colSize: nat): (rows: seq<seq<Button>>)
    requires colSize > 0
    ensures |rows| == RoundUpDivision(TzOffsetEnd + 1 - TzOffsetStart, colSize) + 1
    ensures rows[|rows| - 1] == [CancelButton(mc)]
    ensures Flatten(rows[..|rows| - 1]) == TimeZoneButtons(TzOffsetStart, mc)
  {
    var rows := InlineKeyboard(TimeZoneButtons(TzOffsetStart, mc), mc, colSize, true);
    rows
  }

  /** 26 offsets, -12 to 13 in increasing order, with distinct labels, every
      one tagged `Category` rather than a time-zone tag of its own. */
  lemma TimeZoneButtonsShape(mc: int)
    ensures var bs := TimeZoneButtons(TzOffsetStart, mc);
            && |bs| == 26
            && bs[0].payload.tzOffset == -12 && bs[25].payload.tzOffset == 13
            && (forall k :: 0 <= k < 25 ==> bs[k].payload.tzOffset < bs[k + 1].payload.tzOffset)
            && (forall k :: 0 <= k < 26 ==> bs[k].payload.c == Header(TagName(Tag.Category), mc))
    ensures var bs := TimeZoneButtons(TzOffsetStart, mc);
            forall k, m :: 0 <= k < m < 26 ==> bs[k].text != bs[m].text
  {
    TimeZoneOffsetsIncrease(mc);
    TimeZoneLabelsDistinct(mc);
  }

  /** The offsets run from -12 to 13 and every header carries `Category`. */
  lemma TimeZoneOffsetsIncrease(mc: int)
    ensures var bs := TimeZoneButtons(TzOffsetStart, mc);
            && |bs| == 26
            && bs[0].payload.tzOffset == -12 && bs[25].payload.tzOffset == 13
            && (forall k :: 0 <= k < 25 ==> bs[k].payload.tzOffset < bs[k + 1].payload.tzOffset)
            && (forall k :: 0 <= k < 26 ==> bs[k].payload.c == Header(TagName(Tag.Category), mc))
  {
    var bs := TimeZoneButtons(TzOffsetStart, mc);
    forall k | 0 <= k < 26
      ensures bs[k].payload == TimeZoneCb(Header(TagName(Tag.Category), mc), TzOffsetStart + k)
    {
      assert bs[k] == TimeZoneButton(TzOffsetStart + k, mc);
    }
  }

  /** No two offsets share a label. */
  lemma TimeZoneLabelsDistinct(mc: int)
    ensures var bs := TimeZoneButtons(TzOffsetStart, mc);
            forall k, m :: 0 <= k < m < 26 ==> bs[k].text != bs[m].text
  {
    LabelsDistinctFrom(TzOffsetStart, mc);
  }

  lemma LabelsDistinctFrom(from: int, mc: int)
    requires TzOffsetStart <= from <= TzOffsetEnd + 1
    ensures var bs := TimeZoneButtons(from, mc);
            forall k, m :: 0 <= k < m < |bs| ==> bs[k].text != bs[m].text
  {
    var bs := TimeZoneButtons(from, mc);
    forall k, m | 0 <= k < m < |bs|
      ensures bs[k].text != bs[m].text
    {
      LabelsDiffer(from + k, from + m);
    }
  }

  lemma LabelsDiffer(a: int, b: int)
    requires a != b
    ensures Format.OffsetToGMT(a) != Format.OffsetToGMT(b)
  {
    if Format.OffsetToGMT(a) == Format.OffsetToGMT(b) {
      Format.OffsetToGMTInjective(a, b);
    }
  }
}
