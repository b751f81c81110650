/** The string enumerations of enum/callback_type.go: callback type tags,
    pagination actions and the user conversation contexts. */
module Enums {
  import opened Wrappers

  /** The five callback type tags. */
  datatype Tag = TransactionType | Category | Pagination | Undo | Cancel

  /** The wire string of each tag. */
  function TagName(t: Tag): string {
    match t
    case TransactionType => "TransactionType"
    case Category => "Category"
    case Pagination => "Pagination"
    case Undo => "Undo"
    case Cancel => "Cancel"
  }

  /** The tag a wire string names, if any. */
  function ParseTag(s: string): (r: Option<Tag>)
    ensures r.Some? ==> TagName(r.value) == s
  {
    if s == "TransactionType" then Some(TransactionType)
    else if s == "Category" then Some(Category)
    else if s == "Pagination" then Some(Pagination)
    else if s == "Undo" then Some(Undo)
    else if s == "Cancel" then Some(Cancel)
    else None
  }

  /** Reading a tag's wire string gives the tag back, so the five names are distinct. */
  lemma ParseTagName(t: Tag)
    ensures ParseTag(TagName(t)) == Some(t)
  {
  }

  lemma TagNameInjective(a: Tag, b: Tag)
    requires TagName(a) == TagName(b)
    ensures a == b
  {
    ParseTagName(a);
    ParseTagName(b);
  }

  /** Pagination actions. The button that shows older items carries `Previous`. */
  datatype Action = Next | Previous

  function ActionName(a: Action): string {
    match a
    case Next => "Next"
    case Previous => "Prev"
  }

  /** What the bot expects the user's next plain message to be. */
  datatype UserContext = Transaction | SetTimeZone | SetCurrency

  function ContextName(uc: UserContext): string {
    match uc
    case Transaction => "TRANSACTION"
    case SetTimeZone => "SET_TIMEZONE"
    case SetCurrency => "SET_CURRENCY"
  }

  /** Go's `unicode.ToUpper` restricted to what can reach ASCII: the ASCII
      letters, and the two non-ASCII letters whose upper case is ASCII
      (dotless i and long s). Every other character maps to a non-ASCII
      character in Go and is kept as it is here. */
  function Upper(c: char): (u: char)
    ensures c < '\U{80}' ==> u < '\U{80}'
    ensures 'a' <= c <= 'z' ==> u as int == c as int - 32
    ensures !('a' <= c <= 'z') && c != '\U{131}' && c != '\U{17F}' ==> u == c
  {
    if 'a' <= c <= 'z' then (c as int - 32) as char
    else if c == '\U{131}' then 'I'
    else if c == '\U{17F}' then 'S'
    else c
  }

  /** Go's `strings.ToUpper`, character by character. */
  function ToUpper(s: string): (r: string)
    ensures |r| == |s|
    ensures forall i :: 0 <= i < |s| ==> r[i] == Upper(s[i])
  {
    seq(|s|, i requires 0 <= i < |s| => Upper(s[i]))
  }

  lemma UpperIdempotent(c: char)
    ensures Upper(Upper(c)) == Upper(c)
  {
  }

  lemma ToUpperIdempotent(s: string)
    ensures ToUpper(ToUpper(s)) == ToUpper(s)
  {
    forall i | 0 <= i < |s|
      ensures ToUpper(ToUpper(s))[i] == ToUpper(s)[i]
    {
      UpperIdempotent(s[i]);
    }
  }

  /** `ParseUserContext`: the context whose name equals the upper-cased input;
      `None` stands for Go's `("", false)`. */
  function ParseUserContext(s: string): (r: Option<UserContext>)
    ensures r.Some? ==> ToUpper(s) == ContextName(r.value)
    ensures r.None? ==> forall uc :: ToUpper(s) != ContextName(uc)
  {
    var u := ToUpper(s);
    if u == "TRANSACTION" then Some(Transaction)
    else if u == "SET_TIMEZONE" then Some(SetTimeZone)
    else if u == "SET_CURRENCY" then Some(SetCurrency)
    else None
  }

  /** The lookup ignores case: upper-casing the input first changes nothing. */
  lemma ParseUserContextIgnoresCase(s: string)
    ensures ParseUserContext(s) == ParseUserContext(ToUpper(s))
  {
    ToUpperIdempotent(s);
  }

  /** Each context name reads back as its context. */
  lemma ParseUserContextName(uc: UserContext)
    ensures ParseUserContext(ContextName(uc)) == Some(uc)
  {
    var n := ContextName(uc);
    assert ToUpper(n) == n;
  }

  /** Lower-case spellings are accepted too, and so is the long s that Go upper-cases to S. */
  lemma ParseUserContextExamples()
    ensures ParseUserContext("transaction") == Some(Transaction)
    ensures ParseUserContext("Set_TimeZone") == Some(SetTimeZone)
    ensures ParseUserContext("\U{17F}et_currency") == Some(SetCurrency)
    ensures ParseUserContext("SETCURRENCY").None?
  {
    assert ToUpper("transaction") == "TRANSACTION";
    assert ToUpper("Set_TimeZone") == "SET_TIMEZONE";
    assert ToUpper("\U{17F}et_currency") == "SET_CURRENCY";
    assert ToUpper("SETCURRENCY") == "SETCURRENCY";
  }
}
