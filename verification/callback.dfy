/** The inline-keyboard callback payloads of domain/callback.go and their wire
    form: `json.Marshal` of the Go structs (fields in declaration order, the
    common `{t, mc}` header nested under `"c"`, `omitempty` fields left out when
    zero) and `json.Unmarshal` back into a struct of the expected kind. */
module Callback {
  import opened Wrappers
  import opened Text
  import opened Json
  import Int64

  /** `domain.Callback`: the callback type tag and the message-context id. */
  datatype Header = Header(t: string, mc: int)

  /** The five payload structs. Go's `int` is 64 bits wide: see `Valid`. */
  datatype Record =
    | Generic(c: Header)
    | TransactionTypeCb(c: Header, typeId: int)
    | CategoryCb(c: Header, categoryId: int)
    | PaginationCb(c: Header, action: string, offset: int, limit: int)
    | UndoCb(c: Header, txnId: int)

  /** Which struct a payload is decoded into. */
  datatype Kind = GenericKind | TransactionTypeKind | CategoryKind | PaginationKind | UndoKind

  function KindOf(r: Record): Kind {
    match r
    case Generic(_) => GenericKind
    case TransactionTypeCb(_, _) => TransactionTypeKind
    case CategoryCb(_, _) => CategoryKind
    case PaginationCb(_, _, _, _) => PaginationKind
    case UndoCb(_, _) => UndoKind
  }

  /** The Go zero value of the struct of kind `k`. */
  function Zero(k: Kind): (r: Record)
    ensures KindOf(r) == k
    ensures r.c == Header("", 0)
  {
    match k
    case GenericKind => Generic(Header("", 0))
    case TransactionTypeKind => TransactionTypeCb(Header("", 0), 0)
    case CategoryKind => CategoryCb(Header("", 0), 0)
    case PaginationKind => PaginationCb(Header("", 0), "", 0, 0)
    case UndoKind => UndoCb(Header("", 0), 0)
  }

  /** Every integer field fits Go's 64-bit `int`. */
  predicate Valid(r: Record) {
    Int64.InRange(r.c.mc)
    && match r
       case Generic(_) => true
       case TransactionTypeCb(_, id) => Int64.InRange(id)
       case CategoryCb(_, id) => Int64.InRange(id)
       case PaginationCb(_, _, o, l) => Int64.InRange(o) && Int64.InRange(l)
       case UndoCb(_, t) => Int64.InRange(t)
  }

  // ---------------------------------------------------------------------
  // Encoding

  function IntMember(key: string, n: int): JMember {
    JMember(key, JNum(Itoa(n)))
  }

  /** `"key": n`, or nothing when `n` is 0 (`omitempty`). */
  function OmitZero(key: string, n: int): seq<JMember> {
    if n == 0 then [] else [IntMember(key, n)]
  }

  /** `"key": s`, or nothing when `s` is empty (`omitempty`). */
  function OmitEmpty(key: string, s: string): seq<JMember> {
    if s == "" then [] else [JMember(key, JStr(s))]
  }

  function HeaderJson(h: Header): JValue {
    JObj(OmitEmpty("t", h.t) + OmitZero("mc", h.mc))
  }

  /** The members after `"c"`, in struct declaration order. */
  function Fields(r: Record): seq<JMember> {
    match r
    case Generic(_) => []
    case TransactionTypeCb(_, id) => OmitZero("id", id)
    case CategoryCb(_, id) => OmitZero("id", id)
    case PaginationCb(_, a, o, l) => OmitEmpty("a", a) + [IntMember("o", o), IntMember("l", l)]
    case UndoCb(_, t) => [IntMember("t", t)]
  }

  function ToJson(r: Record): JValue {
    JObj([JMember("c", HeaderJson(r.c))] + Fields(r))
  }

  /** `util.ToJson` of a payload: the callback data string put on a button. */
  function Encode(r: Record): (s: string)
    ensures |s| > 0 && s[0] == '{'
  {
    Render(ToJson(r))
  }

  // ---------------------------------------------------------------------
  // Decoding

  function AsciiLower(c: char): char {
    if 'A' <= c <= 'Z' then (c as int + 32) as char else c
  }

  /** How `encoding/json` matches an object key to a field name: exactly or
      ignoring case. For the field names used here (`c`, `t`, `mc`, `id`, `a`,
      `o`, `l`) Unicode case folding adds nothing to ASCII case folding. */
  predicate KeyIs(key: string, name: string) {
    |key| == |name| && forall i :: 0 <= i < |key| ==> AsciiLower(key[i]) == AsciiLower(name[i])
  }

  /** Storing a JSON value into an `int` field: `null` keeps the old value, an
      integer literal in range replaces it, anything else is an error. */
  function DecodeInt(v: JValue, prev: int): (r: Result<int>)
    ensures r.Ok? ==> Int64.InRange(r.value) || r.value == prev
  {
    match v
    case JNull => Ok(prev)
    case JNum(lit) =>
      if IntLiteral(lit) && Int64.InRange(IntLiteralValue(lit)) then Ok(IntLiteralValue(lit))
      else Err("json: cannot unmarshal number " + lit + " into Go value of type int")
    case _ => Err("json: cannot unmarshal into Go value of type int")
  }

  /** Storing a JSON value into a `string` field. */
  function DecodeStr(v: JValue, prev: string): (r: Result<string>)
  {
    match v
    case JNull => Ok(prev)
    case JStr(s) => Ok(s)
    case _ => Err("json: cannot unmarshal into Go value of type string")
  }

  /** Folding the members of the `"c"` object into the header, in order; a
      repeated key overwrites, an unknown key is skipped. */
  function HeaderMembers(ms: seq<JMember>, h: Header): (r: Result<Header>)
    decreases |ms|
  {
    if |ms| == 0 then Ok(h)
    else
      var m := ms[0];
      if KeyIs(m.key, "t") then
        match DecodeStr(m.value, h.t)
        case Err(e) => Err(e)
        case Ok(t) => HeaderMembers(ms[1..], h.(t := t))
      else if KeyIs(m.key, "mc") then
        match DecodeInt(m.value, h.mc)
        case Err(e) => Err(e)
        case Ok(mc) => HeaderMembers(ms[1..], h.(mc := mc))
      else HeaderMembers(ms[1..], h)
  }

  /** Storing a JSON value into the embedded header: an object is merged into
      the current header, `null` leaves it alone. */
  function DecodeHeader(v: JValue, h: Header): Result<Header> {
    match v
    case JNull => Ok(h)
    case JObj(ms) => HeaderMembers(ms, h)
    case _ => Err("json: cannot unmarshal into Go struct field of type domain.Callback")
  }

  /** One object member stored into the payload struct `r`. */
  function SetField(r: Record, m: JMember): (out: Result<Record>)
    ensures out.Ok? ==> KindOf(out.value) == KindOf(r)
  {
    if KeyIs(m.key, "c") then
      match DecodeHeader(m.value, r.c)
      case Err(e) => Err(e)
      case Ok(h) => Ok(r.(c := h))
    else
      match r
      case Generic(_) => Ok(r)
      case TransactionTypeCb(_, id) =>
        if KeyIs(m.key, "id") then IntInto(DecodeInt(m.value, id), r) else Ok(r)
      case CategoryCb(_, id) =>
        if KeyIs(m.key, "id") then IntInto(DecodeInt(m.value, id), r) else Ok(r)
      case PaginationCb(_, a, o, l) =>
        if KeyIs(m.key, "a") then
          (match DecodeStr(m.value, a)
           case Err(e) => Err(e)
           case Ok(s) => Ok(r.(action := s)))
        else if KeyIs(m.key, "o") then
          (match DecodeInt(m.value, o)
           case Err(e) => Err(e)
           case Ok(n) => Ok(r.(offset := n)))
        else if KeyIs(m.key, "l") then
          (match DecodeInt(m.value, l)
           case Err(e) => Err(e)
           case Ok(n) => Ok(r.(limit := n)))
        else Ok(r)
      case UndoCb(_, t) =>
        if KeyIs(m.key, "t") then IntInto(DecodeInt(m.value, t), r) else Ok(r)
  }

  /** The single integer field of an id-carrying payload set to a decoded value. */
  function IntInto(n: Result<int>, r: Record): (out: Result<Record>)
    requires r.TransactionTypeCb? || r.CategoryCb? || r.UndoCb?
    ensures out.Ok? ==> KindOf(out.value) == KindOf(r) && out.value.c == r.c
  {
    match n
    case Err(e) => Err(e)
    case Ok(v) =>
      match r
      case TransactionTypeCb(_, _) => Ok(r.(typeId := v))
      case CategoryCb(_, _) => Ok(r.(categoryId := v))
      case UndoCb(_, _) => Ok(r.(txnId := v))
  }

  function RecordMembers(ms: seq<JMember>, r: Record): (out: Result<Record>)
    ensures out.Ok? ==> KindOf(out.value) == KindOf(r)
    decreases |ms|
  {
    if |ms| == 0 then Ok(r)
    else
      match SetField(r, ms[0])
      case Err(e) => Err(e)
      case Ok(r2) => RecordMembers(ms[1..], r2)
  }

  /** `json.Unmarshal(data, &x)` with `x` a zero struct of kind `k`: the text
      must be valid JSON; `null` leaves the zero struct; an object is folded
      member by member; any other value is a type error. */
  function Decode(k: Kind, s: string): (r: Result<Record>)
    ensures r.Ok? ==> KindOf(r.value) == k
  {
    match Parse(s)
    case None => Err("invalid character in callback data")
    case Some(v) =>
      match v
      case JNull => Ok(Zero(k))
      case JObj(ms) => RecordMembers(ms, Zero(k))
      case _ => Err("json: cannot unmarshal into Go value of callback type")
  }

  /** `getCallbackType` (main.go): the type tag of any payload, read through
      the generic struct that knows only the header. */
  function GetCallbackType(data: string): (r: Result<string>)
  {
    match Decode(GenericKind, data)
    case Err(e) => Err(e)
    case Ok(g) => Ok(g.c.t)
  }

  // ---------------------------------------------------------------------
  // Round trip

  lemma ToJsonWellFormed(r: Record)
    ensures WellFormed(ToJson(r))
  {
    var ms := ToJson(r).members;
    HeaderWellFormed(r.c);
    FieldsWellFormed(r);
    assert forall i :: 1 <= i < |ms| ==> ms[i] == Fields(r)[i - 1];
  }

  lemma HeaderWellFormed(h: Header)
    ensures WellFormed(HeaderJson(h))
  {
    ItoaIsIntLiteral(h.mc);
  }

  lemma FieldsWellFormed(r: Record)
    ensures forall i :: 0 <= i < |Fields(r)| ==> WellFormed(Fields(r)[i].value)
  {
    match r
    case Generic(_) =>
    case TransactionTypeCb(_, id) => ItoaIsIntLiteral(id);
    case CategoryCb(_, id) => ItoaIsIntLiteral(id);
    case PaginationCb(_, _, o, l) => ItoaIsIntLiteral(o); ItoaIsIntLiteral(l);
    case UndoCb(_, t) => ItoaIsIntLiteral(t);
  }

  /** The keys a payload is written with, told apart the way the decoder tells them apart. */
  lemma KeysDistinct()
    ensures KeyIs("c", "c") && KeyIs("t", "t") && KeyIs("mc", "mc") && KeyIs("id", "id")
    ensures KeyIs("a", "a") && KeyIs("o", "o") && KeyIs("l", "l")
    ensures !KeyIs("t", "c") && !KeyIs("a", "c") && !KeyIs("o", "c") && !KeyIs("l", "c")
    ensures !KeyIs("mc", "c") && !KeyIs("id", "c") && !KeyIs("mc", "t")
    ensures !KeyIs("o", "a") && !KeyIs("l", "a") && !KeyIs("l", "o")
  {
    assert AsciiLower('t') != AsciiLower('c') && AsciiLower('a') != AsciiLower('c');
    assert AsciiLower('o') != AsciiLower('c') && AsciiLower('l') != AsciiLower('c');
    assert AsciiLower('o') != AsciiLower('a') && AsciiLower('l') != AsciiLower('a');
    assert AsciiLower('l') != AsciiLower('o');
    assert "t"[0] == 't' && "c"[0] == 'c' && "a"[0] == 'a' && "o"[0] == 'o' && "l"[0] == 'l';
  }

  lemma DecodeIntItoa(n: int, prev: int)
    requires Int64.InRange(n)
    ensures DecodeInt(JNum(Itoa(n)), prev) == Ok(n)
  {
    ItoaIsIntLiteral(n);
  }

  lemma HeaderReadsBack(h: Header)
    requires Int64.InRange(h.mc)
    ensures DecodeHeader(HeaderJson(h), Header("", 0)) == Ok(h)
  {
    TitleReadsBack(h.t, OmitZero("mc", h.mc));
    CountReadsBack(h.t, h.mc);
  }

  /** The optional `"t"` member sets the title and decoding goes on. */
  lemma TitleReadsBack(t: string, rest: seq<JMember>)
    ensures HeaderMembers(OmitEmpty("t", t) + rest, Header("", 0)) == HeaderMembers(rest, Header(t, 0))
  {
    var ms := OmitEmpty("t", t) + rest;
    KeysDistinct();
    if t != "" {
      assert ms[0] == JMember("t", JStr(t)) && ms[1..] == rest;
    } else {
      assert ms == rest;
    }
  }

  /** The optional `"mc"` member sets the message count. */
  lemma CountReadsBack(t: string, mc: int)
    requires Int64.InRange(mc)
    ensures HeaderMembers(OmitZero("mc", mc), Header(t, 0)) == Ok(Header(t, mc))
  {
    if mc != 0 {
      var m := IntMember("mc", mc);
      KeysDistinct();
      DecodeIntItoa(mc, 0);
      assert HeaderMembers([m], Header(t, 0)) == HeaderMembers([m][1..], Header(t, mc));
      assert [m][1..] == [];
    }
  }

  /** Folding members whose keys the struct does not know changes nothing. */
  lemma {:induction false} UnknownKeysSkipped(ms: seq<JMember>, r: Record)
    requires forall i :: 0 <= i < |ms| ==> !KeyIs(ms[i].key, "c")
    requires r.Generic?
    ensures RecordMembers(ms, r) == Ok(r)
    decreases |ms|
  {
    if |ms| > 0 {
      UnknownKeysSkipped(ms[1..], r);
    }
  }

  lemma FieldsNotHeader(r: Record)
    ensures forall i :: 0 <= i < |Fields(r)| ==> !KeyIs(Fields(r)[i].key, "c")
  {
    KeysDistinct();
  }

  /** After the header, the remaining fields fold into the record. */
  lemma FieldsReadBack(r: Record)
    requires Valid(r)
    ensures RecordMembers(Fields(r), Zero(KindOf(r)).(c := r.c)) == Ok(r)
  {
    var z := Zero(KindOf(r)).(c := r.c);
    KeysDistinct();
    match r
    case Generic(_) =>
    case TransactionTypeCb(h, id) =>
      if id != 0 {
        DecodeIntItoa(id, 0);
        assert Fields(r)[1..] == [];
      }
    case CategoryCb(h, id) =>
      if id != 0 {
        DecodeIntItoa(id, 0);
        assert Fields(r)[1..] == [];
      }
    case PaginationCb(h, a, o, l) =>
      var tail := [IntMember("o", o), IntMember("l", l)];
      var z1 := PaginationCb(h, a, 0, 0);
      assert RecordMembers(Fields(r), z) == RecordMembers(tail, z1) by {
        if a != "" {
          assert Fields(r)[0] == JMember("a", JStr(a)) && Fields(r)[1..] == tail;
        } else {
          assert Fields(r) == tail;
        }
      }
      DecodeIntItoa(o, 0);
      DecodeIntItoa(l, 0);
      var z2 := PaginationCb(h, a, o, 0);
      assert SetField(z1, tail[0]) == Ok(z2);
      assert tail[1..] == [IntMember("l", l)];
      assert SetField(z2, tail[1]) == Ok(r);
      assert RecordMembers(tail[1..], z2) == RecordMembers(tail[1..][1..], r);
      assert tail[1..][1..] == [];
    case UndoCb(h, t) =>
      DecodeIntItoa(t, 0);
      assert Fields(r)[1..] == [];
  }

  /** Decoding the encoding of any payload into its own struct kind gives the
      payload back; fields left out as zero come back as zero. */
  lemma DecodeEncode(r: Record)
    requires Valid(r)
    ensures Decode(KindOf(r), Encode(r)) == Ok(r)
  {
    ToJsonWellFormed(r);
    ParseRender(ToJson(r));
    var ms := ToJson(r).members;
    var z := Zero(KindOf(r));
    KeysDistinct();
    HeaderReadsBack(r.c);
    assert SetField(z, ms[0]) == Ok(z.(c := r.c));
    assert ms[1..] == Fields(r);
    FieldsReadBack(r);
  }

  /** `getCallbackType` recovers the header tag from the encoding of any payload. */
  lemma CallbackTypeOfEncoding(r: Record)
    requires Valid(r)
    ensures GetCallbackType(Encode(r)) == Ok(r.c.t)
  {
    ToJsonWellFormed(r);
    ParseRender(ToJson(r));
    var ms := ToJson(r).members;
    var z := Zero(GenericKind);
    KeysDistinct();
    HeaderReadsBack(r.c);
    assert SetField(z, ms[0]) == Ok(Generic(r.c));
    assert ms[1..] == Fields(r);
    FieldsNotHeader(r);
    UnknownKeysSkipped(Fields(r), Generic(r.c));
  }

  /** Text that is not JSON is rejected before any field is looked at. */
  lemma DecodeRejectsNonJson(k: Kind, s: string)
    requires Parse(s).None?
    ensures Decode(k, s).Err? && GetCallbackType(s).Err?
  {
  }

  /** Only the JSON `null` and objects decode into a payload struct. */
  lemma DecodeNeedsObject(k: Kind, s: string)
    requires Parse(s).Some? && !Parse(s).value.JNull? && !Parse(s).value.JObj?
    ensures Decode(k, s).Err?
  {
  }
}
