/** JSON text (RFC 8259) as Go's `encoding/json` writes and reads it.

    `Render` is the writer: no white space, object members in the given order,
    strings escaped the way `json.Marshal` escapes them (`"` and `\` with a
    backslash, `\n` `\r` `\t` short, other control characters and the
    HTML-sensitive `<`, `>`, `&` and the line and paragraph separators
    U+2028/U+2029 as `\u` escapes).

    `Parse` is the reader: the whole RFC 8259 grammar (white space between
    tokens, all escapes including surrogate pairs, the number grammar), with
    the result that a value written by `Render` reads back as itself. */
module Json {
  import opened Wrappers
  import opened Text

  datatype JValue =
    | JNull
    | JBool(b: bool)
    | JNum(literal: string)
    | JStr(s: string)
    | JArr(items: seq<JValue>)
    | JObj(members: seq<JMember>)

  datatype JMember = JMember(key: string, value: JValue)

  // ---------------------------------------------------------------------
  // Characters

  /** White space between tokens (RFC 8259 section 2). */
  predicate IsWs(c: char) {
    c == ' ' || c == '\t' || c == '\n' || c == '\r'
  }

  predicate IsHex(c: char) {
    IsDigit(c) || 'a' <= c <= 'f' || 'A' <= c <= 'F'
  }

  function HexValue(c: char): (n: nat)
    requires IsHex(c)
    ensures n < 16
  {
    if IsDigit(c) then DigitValue(c)
    else if 'a' <= c <= 'f' then c as int - 'a' as int + 10
    else c as int - 'A' as int + 10
  }

  /** The lower-case hex digit `json.Marshal` writes. */
  function HexChar(n: nat): (c: char)
    requires n < 16
    ensures IsHex(c) && HexValue(c) == n
  {
    if n < 10 then DigitChar(n) else ('a' as int + n - 10) as char
  }

  predicate IsHex4(s: string) {
    |s| >= 4 && IsHex(s[0]) && IsHex(s[1]) && IsHex(s[2]) && IsHex(s[3])
  }

  function Hex4Value(s: string): (n: nat)
    requires IsHex4(s)
    ensures n < 0x10000
  {
    4096 * HexValue(s[0]) + 256 * HexValue(s[1]) + 16 * HexValue(s[2]) + HexValue(s[3])
  }

  // ---------------------------------------------------------------------
  // Writing

  /** One character of a string body as `json.Marshal` writes it. */
  function EscapeChar(c: char): (r: string)
    ensures |r| >= 1
  {
    if c == '"' then "\\\""
    else if c == '\\' then "\\\\"
    else if c == '\n' then "\\n"
    else if c == '\r' then "\\r"
    else if c == '\t' then "\\t"
    else if c < ' ' || c == '<' || c == '>' || c == '&' then
      "\\u00" + [HexChar(c as int / 16), HexChar(c as int % 16)]
    else if c == '\U{2028}' then "\\u2028"
    else if c == '\U{2029}' then "\\u2029"
    else [c]
  }

  function Escape(s: string): string {
    if |s| == 0 then "" else EscapeChar(s[0]) + Escape(s[1..])
  }

  /** Printable ASCII that `json.Marshal` writes unescaped. */
  predicate Plain(s: string) {
    forall i :: 0 <= i < |s| ==>
      ' ' <= s[i] < '\U{7F}' && s[i] != '"' && s[i] != '\\' && s[i] != '<' && s[i] != '>' && s[i] != '&'
  }

  lemma {:induction false} EscapePlain(s: string)
    requires Plain(s)
    ensures Escape(s) == s
  {
    if |s| > 0 {
      EscapePlain(s[1..]);
      assert [s[0]] + s[1..] == s;
    }
  }

  function Quote(s: string): string {
    "\"" + Escape(s) + "\""
  }

  function Render(v: JValue): string {
    match v
    case JNull => "null"
    case JBool(b) => if b then "true" else "false"
    case JNum(lit) => lit
    case JStr(s) => Quote(s)
    case JArr(items) => "[" + RenderItems(items) + "]"
    case JObj(ms) => "{" + RenderMembers(ms) + "}"
  }

  function RenderItems(items: seq<JValue>): string {
    if |items| == 0 then ""
    else if |items| == 1 then Render(items[0])
    else Render(items[0]) + "," + RenderItems(items[1..])
  }

  function RenderMember(m: JMember): string {
    Quote(m.key) + ":" + Render(m.value)
  }

  function RenderMembers(ms: seq<JMember>): string {
    if |ms| == 0 then ""
    else if |ms| == 1 then RenderMember(ms[0])
    else RenderMember(ms[0]) + "," + RenderMembers(ms[1..])
  }

  // ---------------------------------------------------------------------
  // Numbers

  /** An integer literal as `strconv.Itoa` writes it: optional minus, digits, no leading zero. */
  predicate IntLiteral(lit: string) {
    var d := if |lit| > 0 && lit[0] == '-' then lit[1..] else lit;
    |d| > 0 && AllDigits(d) && (|d| > 1 ==> d[0] != '0')
  }

  function IntLiteralValue(lit: string): int
    requires IntLiteral(lit)
  {
    if lit[0] == '-' then 0 - DigitsValue(lit[1..]) else DigitsValue(lit)
  }

  lemma ItoaIsIntLiteral(n: int)
    ensures IntLiteral(Itoa(n))
    ensures IntLiteralValue(Itoa(n)) == n
  {
    if n >= 0 {
      NatToStringRoundTrip(n);
    } else {
      assert Itoa(n)[1..] == NatToString(-n);
      NatToStringRoundTrip(-n);
    }
  }

  function DigitRun(s: string, i: nat): (j: nat)
    requires i <= |s|
    ensures i <= j <= |s|
    ensures forall k :: i <= k < j ==> IsDigit(s[k])
    ensures j < |s| ==> !IsDigit(s[j])
    decreases |s| - i
  {
    if i < |s| && IsDigit(s[i]) then DigitRun(s, i + 1) else i
  }

  /** Length of the number literal at the start of `s` (RFC 8259 section 6):
      `-? (0 | [1-9][0-9]*) (. [0-9]+)? ([eE] [+-]? [0-9]+)?`. */
  function ScanNumber(s: string): (r: Option<nat>)
    ensures r.Some? ==> 0 < r.value <= |s|
  {
    var i0 := if |s| > 0 && s[0] == '-' then 1 else 0;
    if i0 >= |s| || !IsDigit(s[i0]) then None
    else
      var i1 := if s[i0] == '0' then i0 + 1 else DigitRun(s, i0 + 1);
      var fracOk := !(i1 < |s| && s[i1] == '.') || (i1 + 1 < |s| && IsDigit(s[i1 + 1]));
      if !fracOk then None
      else
        var i2 := if i1 < |s| && s[i1] == '.' then DigitRun(s, i1 + 1) else i1;
        if i2 < |s| && (s[i2] == 'e' || s[i2] == 'E') then
          var e0 := if i2 + 1 < |s| && (s[i2 + 1] == '+' || s[i2 + 1] == '-') then i2 + 2 else i2 + 1;
          if e0 < |s| && IsDigit(s[e0]) then Some(DigitRun(s, e0)) else None
        else Some(i2)
  }

  // ---------------------------------------------------------------------
  // Reading

  function SkipWs(s: string): (r: string)
    ensures |r| <= |s|
    ensures |r| > 0 ==> !IsWs(r[0])
  {
    if |s| > 0 && IsWs(s[0]) then SkipWs(s[1..]) else s
  }

  /** The character a `\u` escape of code `hi` stands for, with Go's treatment
      of surrogates: a high surrogate followed by a `\u` low surrogate is one
      character, any other surrogate reads as U+FFFD. Returns the rest after
      what was consumed. `s` is what follows the four hex digits. */
  function UnicodeEscape(hi: nat, s: string): (r: (char, string))
    requires hi < 0x10000
    ensures |r.1| <= |s|
  {
    if hi < 0xD800 || hi >= 0xE000 then (hi as char, s)
    else if hi < 0xDC00 && |s| >= 6 && s[0] == '\\' && s[1] == 'u' && IsHex4(s[2..])
            && 0xDC00 <= Hex4Value(s[2..]) < 0xE000 then
      var lo := Hex4Value(s[2..]);
      ((0x10000 + (hi - 0xD800) * 0x400 + (lo - 0xDC00)) as char, s[6..])
    else ('\U{FFFD}', s)
  }

  /** One escape sequence; `s` is what follows the backslash. */
  function ParseEscape(s: string): (r: Option<(char, string)>)
    ensures r.Some? ==> |r.value.1| < |s|
  {
    if |s| == 0 then None
    else if s[0] == '"' then Some(('"', s[1..]))
    else if s[0] == '\\' then Some(('\\', s[1..]))
    else if s[0] == '/' then Some(('/', s[1..]))
    else if s[0] == 'b' then Some(('\U{8}', s[1..]))
    else if s[0] == 'f' then Some(('\U{C}', s[1..]))
    else if s[0] == 'n' then Some(('\n', s[1..]))
    else if s[0] == 'r' then Some(('\r', s[1..]))
    else if s[0] == 't' then Some(('\t', s[1..]))
    else if s[0] == 'u' && IsHex4(s[1..]) then Some(UnicodeEscape(Hex4Value(s[1..]), s[5..]))
    else None
  }

  /** A string body up to and including the closing quote; `s` follows the opening quote. */
  function ParseStringBody(s: string): (r: Option<(string, string)>)
    ensures r.Some? ==> |r.value.1| < |s|
    decreases |s|
  {
    if |s| == 0 then None
    else if s[0] == '"' then Some(("", s[1..]))
    else if s[0] < ' ' then None
    else if s[0] == '\\' then
      match ParseEscape(s[1..])
      case None => None
      case Some((c, rest)) =>
        match ParseStringBody(rest)
        case None => None
        case Some((tail, rest2)) => Some(([c] + tail, rest2))
    else
      match ParseStringBody(s[1..])
      case None => None
      case Some((tail, rest2)) => Some(([s[0]] + tail, rest2))
  }

  /** One value after optional white space; returns the value and what follows it. */
  function ParseValue(s: string): (r: Option<(JValue, string)>)
    ensures r.Some? ==> |r.value.1| < |s|
    decreases |s|, 2
  {
    var t := SkipWs(s);
    if |t| == 0 then None else ParseToken(t)
  }

  /** One value starting at the first character of `t`. */
  function ParseToken(t: string): (r: Option<(JValue, string)>)
    requires |t| > 0
    ensures r.Some? ==> |r.value.1| < |t|
    decreases |t|, 1
  {
    if t[0] == '{' then ParseObject(t[1..])
    else if t[0] == '[' then ParseArray(t[1..])
    else if t[0] == '"' then
      match ParseStringBody(t[1..])
      case None => None
      case Some((str, rest)) => Some((JStr(str), rest))
    else ParseScalar(t)
  }

  /** `null`, `true`, `false` or a number at the start of `t`. */
  function ParseScalar(t: string): (r: Option<(JValue, string)>)
    ensures r.Some? ==> |r.value.1| < |t|
  {
    if |t| >= 4 && t[..4] == "null" then Some((JNull, t[4..]))
    else if |t| >= 4 && t[..4] == "true" then Some((JBool(true), t[4..]))
    else if |t| >= 5 && t[..5] == "false" then Some((JBool(false), t[5..]))
    else
      match ScanNumber(t)
      case None => None
      case Some(n) => Some((JNum(t[..n]), t[n..]))
  }

  /** An object; `s` follows its opening brace. */
  function ParseObject(s: string): (r: Option<(JValue, string)>)
    ensures r.Some? ==> |r.value.1| < |s|
    decreases |s|, 2
  {
    var u := SkipWs(s);
    if |u| > 0 && u[0] == '}' then Some((JObj([]), u[1..]))
    else
      match ParseMembers(s)
      case None => None
      case Some((ms, rest)) => Some((JObj(ms), rest))
  }

  /** An array; `s` follows its opening bracket. */
  function ParseArray(s: string): (r: Option<(JValue, string)>)
    ensures r.Some? ==> |r.value.1| < |s|
    decreases |s|, 4
  {
    var u := SkipWs(s);
    if |u| > 0 && u[0] == ']' then Some((JArr([]), u[1..]))
    else
      match ParseItems(s)
      case None => None
      case Some((items, rest)) => Some((JArr(items), rest))
  }

  /** The members of an object up to and including its closing brace; `s`
      follows the opening brace or a comma. */
  function ParseMembers(s: string): (r: Option<(seq<JMember>, string)>)
    ensures r.Some? ==> |r.value.1| < |s|
    decreases |s|, 1
  {
    match ParseMember(s)
    case None => None
    case Some((m, rest)) => MembersAfter(m, rest)
  }

  /** `"key": value`, after optional white space. */
  function ParseMember(s: string): (r: Option<(JMember, string)>)
    ensures r.Some? ==> |r.value.1| < |s|
    decreases |s|, 0
  {
    var t := SkipWs(s);
    if |t| == 0 || t[0] != '"' then None
    else
      match ParseStringBody(t[1..])
      case None => None
      case Some((key, rest)) =>
        var u := SkipWs(rest);
        if |u| == 0 || u[0] != ':' then None
        else
          match ParseValue(u[1..])
          case None => None
          case Some((v, rest2)) => Some((JMember(key, v), rest2))
  }

  /** What follows member `m`: the closing brace, or a comma and more members. */
  function MembersAfter(m: JMember, s: string): (r: Option<(seq<JMember>, string)>)
    ensures r.Some? ==> |r.value.1| < |s|
    decreases |s|, 0
  {
    var w := SkipWs(s);
    if |w| == 0 then None
    else if w[0] == '}' then Some(([m], w[1..]))
    else if w[0] == ',' then
      match ParseMembers(w[1..])
      case None => None
      case Some((more, rest)) => Some(([m] + more, rest))
    else None
  }

  /** The items of an array up to and including its closing bracket; `s`
      follows the opening bracket or a comma. */
  function ParseItems(s: string): (r: Option<(seq<JValue>, string)>)
    ensures r.Some? ==> |r.value.1| < |s|
    decreases |s|, 3
  {
    match ParseValue(s)
    case None => None
    case Some((v, rest)) => ItemsAfter(v, rest)
  }

  /** What follows item `v`: the closing bracket, or a comma and more items. */
  function ItemsAfter(v: JValue, s: string): (r: Option<(seq<JValue>, string)>)
    ensures r.Some? ==> |r.value.1| < |s|
    decreases |s|, 0
  {
    var w := SkipWs(s);
    if |w| == 0 then None
    else if w[0] == ']' then Some(([v], w[1..]))
    else if w[0] == ',' then
      match ParseItems(w[1..])
      case None => None
      case Some((more, rest)) => Some(([v] + more, rest))
    else None
  }

  /** A whole JSON text: one value with nothing but white space around it. */
  function Parse(s: string): (r: Option<JValue>)
  {
    match ParseValue(s)
    case None => None
    case Some((v, rest)) => if |SkipWs(rest)| == 0 then Some(v) else None
  }

  // ---------------------------------------------------------------------
  // Reading back what was written

  /** Values whose number literals are integers as Go writes them. */
  predicate WellFormed(v: JValue) {
    match v
    case JNum(lit) => IntLiteral(lit)
    case JArr(items) => forall i :: 0 <= i < |items| ==> WellFormed(items[i])
    case JObj(ms) => forall i :: 0 <= i < |ms| ==> WellFormed(ms[i].value)
    case _ => true
  }

  /** What may follow a value inside a JSON text written by `Render`. */
  predicate Delimited(rest: string) {
    |rest| == 0 || rest[0] == ',' || rest[0] == '}' || rest[0] == ']'
  }

  lemma EscapeCharReadsBack(c: char, more: string)
    ensures EscapeChar(c)[0] != '"' && EscapeChar(c)[0] >= ' '
    ensures EscapeChar(c)[0] == '\\' ==> ParseEscape(EscapeChar(c)[1..] + more) == Some((c, more))
    ensures EscapeChar(c)[0] != '\\' ==> EscapeChar(c) == [c]
  {
    var e := EscapeChar(c);
    if c < ' ' || c == '<' || c == '>' || c == '&' {
      if c != '\n' && c != '\r' && c != '\t' {
        var h := [HexChar(c as int / 16), HexChar(c as int % 16)];
        assert e == "\\u00" + h;
        var s := e[1..] + more;
        assert s == ['u', '0', '0', h[0], h[1]] + more;
        assert s[1..][..4] == ['0', '0', h[0], h[1]];
        assert IsHex4(s[1..]);
        assert Hex4Value(s[1..]) == c as int;
        assert s[5..] == more;
      }
    } else if c == '\U{2028}' || c == '\U{2029}' {
      var s := e[1..] + more;
      assert s[1..][..4] == e[2..6];
      assert IsHex4(s[1..]);
      assert s[5..] == more;
    }
  }

  lemma {:induction false} StringBodyReadsBack(str: string, rest: string)
    ensures ParseStringBody(Escape(str) + "\"" + rest) == Some((str, rest))
    decreases |str|
  {
    var s := Escape(str) + "\"" + rest;
    if |str| == 0 {
      assert s == "\"" + rest;
    } else {
      var tail := Escape(str[1..]) + "\"" + rest;
      assert s == EscapeChar(str[0]) + tail;
      StringBodyReadsBack(str[1..], rest);
      BodyStep(str[0], tail, str[1..], rest);
      assert [str[0]] + str[1..] == str;
    }
  }

  /** One written character, escaped or not, is read back in front of what follows it. */
  lemma BodyStep(c: char, tail: string, t: string, rest: string)
    requires ParseStringBody(tail) == Some((t, rest))
    ensures ParseStringBody(EscapeChar(c) + tail) == Some(([c] + t, rest))
  {
    var e := EscapeChar(c);
    EscapeCharReadsBack(c, tail);
    var s := e + tail;
    assert s[0] == e[0];
    if e[0] == '\\' {
      assert s[1..] == e[1..] + tail;
    } else {
      assert s[1..] == tail;
    }
  }

  lemma ItoaReadsBack(lit: string, rest: string)
    requires IntLiteral(lit)
    requires Delimited(rest)
    ensures ScanNumber(lit + rest) == Some(|lit|)
  {
    var s := lit + rest;
    var i0 := if s[0] == '-' then 1 else 0;
    assert s[..|lit|] == lit;
    if s[i0] == '0' {
      assert |lit| == i0 + 1;
    } else {
      assert DigitRun(s, i0 + 1) == |lit| by {
        DigitRunOver(s, i0 + 1, |lit|);
      }
    }
  }

  lemma {:induction false} DigitRunOver(s: string, i: nat, j: nat)
    requires i <= j <= |s|
    requires forall k :: i <= k < j ==> IsDigit(s[k])
    requires j < |s| ==> !IsDigit(s[j])
    ensures DigitRun(s, i) == j
    decreases j - i
  {
    if i < j {
      DigitRunOver(s, i + 1, j);
    }
  }

  lemma SkipWsNoop(s: string)
    requires |s| > 0 && !IsWs(s[0])
    ensures SkipWs(s) == s
  {
  }

  lemma {:induction false} ValueReadsBack(v: JValue, rest: string)
    requires WellFormed(v)
    requires Delimited(rest)
    ensures ParseValue(Render(v) + rest) == Some((v, rest))
    decreases v, 2
  {
    var s := Render(v) + rest;
    RenderStart(v);
    SkipWsNoop(s);
    match v
    case JNull => LiteralReadsBack(v, rest);
    case JBool(_) => LiteralReadsBack(v, rest);
    case JNum(lit) => NumberReadsBack(lit, rest);
    case JStr(str) => StrReadsBack(str, rest);
    case JArr(items) =>
      assert s == "[" + (RenderItems(items) + "]" + rest);
      ArrReadsBack(items, rest);
    case JObj(ms) =>
      assert s == "{" + (RenderMembers(ms) + "}" + rest);
      ObjReadsBack(ms, rest);
  }

  lemma LiteralReadsBack(v: JValue, rest: string)
    requires v.JNull? || v.JBool?
    ensures ParseToken(Render(v) + rest) == Some((v, rest))
  {
    var s := Render(v) + rest;
    if v.JNull? {
      assert s[..4] == "null" && s[4..] == rest;
    } else if v.b {
      assert s[..4] == "true" && s[4..] == rest;
    } else {
      assert s[..4] != "null" && s[..4] != "true";
      assert s[..5] == "false" && s[5..] == rest;
    }
  }

  lemma NumberReadsBack(lit: string, rest: string)
    requires IntLiteral(lit)
    requires Delimited(rest)
    ensures ParseToken(lit + rest) == Some((JNum(lit), rest))
  {
    var s := lit + rest;
    assert s[0] == '-' || IsDigit(s[0]);
    assert ParseToken(s) == ParseScalar(s);
    ItoaReadsBack(lit, rest);
    assert s[..|lit|] == lit && s[|lit|..] == rest;
  }

  lemma StrReadsBack(str: string, rest: string)
    ensures ParseToken(Render(JStr(str)) + rest) == Some((JStr(str), rest))
  {
    var s := Render(JStr(str)) + rest;
    assert s == "\"" + (Escape(str) + "\"" + rest);
    StringBodyReadsBack(str, rest);
  }

  lemma {:induction false} ArrReadsBack(items: seq<JValue>, rest: string)
    requires forall i :: 0 <= i < |items| ==> WellFormed(items[i])
    requires Delimited(rest)
    ensures ParseArray(RenderItems(items) + "]" + rest) == Some((JArr(items), rest))
    decreases items, 2
  {
    var t := RenderItems(items) + "]" + rest;
    if |items| == 0 {
      assert t == "]" + rest;
      SkipWsNoop(t);
    } else {
      assert SkipWs(t) == t && t[0] != ']' by {
        ItemsStart(items);
        assert t[0] == Render(items[0])[0];
        SkipWsNoop(t);
      }
      assert ParseItems(t) == Some((items, rest)) by {
        ItemsReadBack(items, rest);
      }
    }
  }

  lemma {:induction false} ObjReadsBack(ms: seq<JMember>, rest: string)
    requires forall i :: 0 <= i < |ms| ==> WellFormed(ms[i].value)
    requires Delimited(rest)
    ensures ParseObject(RenderMembers(ms) + "}" + rest) == Some((JObj(ms), rest))
    decreases ms, 2
  {
    var t := RenderMembers(ms) + "}" + rest;
    if |ms| == 0 {
      assert t == "}" + rest;
      SkipWsNoop(t);
    } else {
      assert SkipWs(t) == t && t[0] != '}' by {
        MembersStart(ms);
        SkipWsNoop(t);
      }
      assert ParseMembers(t) == Some((ms, rest)) by {
        MembersReadBack(ms, rest);
      }
    }
  }

  /** A rendered value never starts with white space, a closing bracket or a comma. */
  lemma RenderStart(v: JValue)
    requires WellFormed(v)
    ensures |Render(v)| > 0
    ensures var c := Render(v)[0]; !IsWs(c) && c != ']' && c != '}' && c != ','
  {
  }

  lemma ItemsStart(items: seq<JValue>)
    requires |items| > 0 && WellFormed(items[0])
    ensures |RenderItems(items)| > 0 && RenderItems(items)[0] == Render(items[0])[0]
  {
    RenderStart(items[0]);
  }

  lemma MembersStart(ms: seq<JMember>)
    requires |ms| > 0
    ensures |RenderMembers(ms)| > 0 && RenderMembers(ms)[0] == '"'
  {
  }

  /** What follows the first item of a rendered, bracket-terminated item list. */
  function ItemsRest(items: seq<JValue>, rest: string): string
    requires |items| > 0
  {
    if |items| == 1 then "]" + rest else "," + (RenderItems(items[1..]) + "]" + rest)
  }

  lemma {:induction false} ItemsReadBack(items: seq<JValue>, rest: string)
    requires |items| > 0
    requires forall i :: 0 <= i < |items| ==> WellFormed(items[i])
    requires Delimited(rest)
    ensures ParseItems(RenderItems(items) + "]" + rest) == Some((items, rest))
    decreases items, 1
  {
    var s := RenderItems(items) + "]" + rest;
    var after := ItemsRest(items, rest);
    assert ParseItems(s) == ItemsAfter(items[0], after) by {
      assert s == Render(items[0]) + after;
      ValueReadsBack(items[0], after);
    }
    ItemsAfterReadsBack(items, rest);
  }

  lemma {:induction false} ItemsAfterReadsBack(items: seq<JValue>, rest: string)
    requires |items| > 0
    requires forall i :: 0 <= i < |items| ==> WellFormed(items[i])
    requires Delimited(rest)
    ensures ItemsAfter(items[0], ItemsRest(items, rest)) == Some((items, rest))
    decreases items, 0
  {
    var after := ItemsRest(items, rest);
    SkipWsNoop(after);
    if |items| == 1 {
      assert after[1..] == rest;
      assert [items[0]] == items;
    } else {
      assert after[1..] == RenderItems(items[1..]) + "]" + rest;
      ItemsReadBack(items[1..], rest);
      assert [items[0]] + items[1..] == items;
    }
  }

  lemma KeyReadsBack(key: string, afterKey: string)
    ensures var s := Quote(key) + afterKey;
            SkipWs(s) == s && s[0] == '"' && ParseStringBody(s[1..]) == Some((key, afterKey))
  {
    var s := Quote(key) + afterKey;
    SkipWsNoop(s);
    assert s[1..] == Escape(key) + "\"" + afterKey;
    StringBodyReadsBack(key, afterKey);
  }

  /** A rendered member reads back once its value does. */
  lemma MemberReadsBack(m: JMember, after: string)
    requires ParseValue(Render(m.value) + after) == Some((m.value, after))
    ensures ParseMember(RenderMember(m) + after) == Some((m, after))
  {
    var afterKey := ":" + (Render(m.value) + after);
    assert RenderMember(m) + after == Quote(m.key) + afterKey;
    KeyReadsBack(m.key, afterKey);
    SkipWsNoop(afterKey);
    assert afterKey[1..] == Render(m.value) + after;
  }

  /** What follows the first member of a rendered, brace-terminated member list. */
  function MembersRest(ms: seq<JMember>, rest: string): string
    requires |ms| > 0
  {
    if |ms| == 1 then "}" + rest else "," + (RenderMembers(ms[1..]) + "}" + rest)
  }

  lemma {:induction false} MembersReadBack(ms: seq<JMember>, rest: string)
    requires |ms| > 0
    requires forall i :: 0 <= i < |ms| ==> WellFormed(ms[i].value)
    requires Delimited(rest)
    ensures ParseMembers(RenderMembers(ms) + "}" + rest) == Some((ms, rest))
    decreases ms, 1
  {
    var s := RenderMembers(ms) + "}" + rest;
    var after := MembersRest(ms, rest);
    assert ParseMembers(s) == MembersAfter(ms[0], after) by {
      assert s == RenderMember(ms[0]) + after;
      ValueReadsBack(ms[0].value, after);
      MemberReadsBack(ms[0], after);
    }
    MembersAfterReadsBack(ms, rest);
  }

  lemma {:induction false} MembersAfterReadsBack(ms: seq<JMember>, rest: string)
    requires |ms| > 0
    requires forall i :: 0 <= i < |ms| ==> WellFormed(ms[i].value)
    requires Delimited(rest)
    ensures MembersAfter(ms[0], MembersRest(ms, rest)) == Some((ms, rest))
    decreases ms, 0
  {
    var after := MembersRest(ms, rest);
    SkipWsNoop(after);
    if |ms| == 1 {
      assert after[1..] == rest;
      assert [ms[0]] == ms;
    } else {
      assert after[1..] == RenderMembers(ms[1..]) + "}" + rest;
      MembersReadBack(ms[1..], rest);
      assert [ms[0]] + ms[1..] == ms;
    }
  }

  /** Reading a rendered value gives the value back. */
  lemma ParseRender(v: JValue)
    requires WellFormed(v)
    ensures Parse(Render(v)) == Some(v)
  {
    ValueReadsBack(v, "");
    assert Render(v) + "" == Render(v);
  }
}
