/** The amount scanners of util/parser.go and handler/parser.go.

    Both are Go regular expressions: util's `-?\d[\d,]*[.]?[\d{2}]*`, searched
    anywhere in the text, and handler's `^(-?\d[\d]*[.]?[\d{2}]*)`, anchored at
    the start and without the comma. `[\d{2}]` is a character class, so after
    the optional dot the pattern accepts digits, `{` and `}`.

    The language of each pattern is given independently of the scanners as a
    small deterministic automaton (`Accepts`); the scanners are proved to
    return the leftmost, longest accepted substring, which is what Go's
    leftmost-first matching returns for these patterns. */
module Amount {
  import opened Wrappers
  import opened Text

  /** Which of the two patterns: with commas in the integer part (util) or without (handler). */
  datatype Grammar = WithCommas | NoCommas

  // ---------------------------------------------------------------------
  // The language, as an automaton

  datatype State = Start | Sign | Int | Dot | Frac | Dead

  predicate IntChar(c: char, g: Grammar) {
    IsDigit(c) || (g == WithCommas && c == ',')
  }

  /** The character class `[\d{2}]`. */
  predicate FracChar(c: char) {
    IsDigit(c) || c == '{' || c == '}'
  }

  function Step(q: State, c: char, g: Grammar): State {
    match q
    case Start => if c == '-' then Sign else if IsDigit(c) then Int else Dead
    case Sign => if IsDigit(c) then Int else Dead
    case Int =>
      if IntChar(c, g) then Int
      else if c == '.' then Dot
      else if FracChar(c) then Frac
      else Dead
    case Dot => if FracChar(c) then Frac else Dead
    case Frac => if FracChar(c) then Frac else Dead
    case Dead => Dead
  }

  function Run(q: State, t: string, g: Grammar): State
    decreases |t|
  {
    if |t| == 0 then q else Run(Step(q, t[0], g), t[1..], g)
  }

  predicate Accepting(q: State) {
    q == Int || q == Dot || q == Frac
  }

  /** `t` is in the language of the pattern. */
  predicate Accepts(t: string, g: Grammar) {
    Accepting(Run(Start, t, g))
  }

  lemma {:induction false} RunAppend(q: State, a: string, b: string, g: Grammar)
    ensures Run(q, a + b, g) == Run(Run(q, a, g), b, g)
    decreases |a|
  {
    if |a| > 0 {
      assert (a + b)[0] == a[0];
      assert (a + b)[1..] == a[1..] + b;
      RunAppend(Step(q, a[0], g), a[1..], b, g);
    } else {
      assert a + b == b;
    }
  }

  lemma {:induction false} RunDead(t: string, g: Grammar)
    ensures Run(Dead, t, g) == Dead
    decreases |t|
  {
    if |t| > 0 {
      RunDead(t[1..], g);
    }
  }

  /** A state that every character of `t` leaves unchanged is where the run ends. */
  lemma {:induction false} RunStays(q: State, t: string, g: Grammar)
    requires forall k :: 0 <= k < |t| ==> Step(q, t[k], g) == q
    ensures Run(q, t, g) == q
    decreases |t|
  {
    if |t| > 0 {
      RunStays(q, t[1..], g);
    }
  }

  // ---------------------------------------------------------------------
  // The scanner

  /** A match can begin at `i`: a digit, or a `-` directly followed by a digit. */
  predicate CanStart(s: string, i: nat) {
    i < |s| && (IsDigit(s[i]) || (s[i] == '-' && i + 1 < |s| && IsDigit(s[i + 1])))
  }

  /** End of the longest run of integer-part characters that begins at `i`. */
  function SpanInt(s: string, i: nat, g: Grammar): (j: nat)
    requires i <= |s|
    ensures i <= j <= |s|
    ensures forall k :: i <= k < j ==> IntChar(s[k], g)
    ensures j < |s| ==> !IntChar(s[j], g)
    decreases |s| - i
  {
    if i < |s| && IntChar(s[i], g) then SpanInt(s, i + 1, g) else i
  }

  /** End of the longest run of `[\d{2}]` characters that begins at `i`. */
  function SpanFrac(s: string, i: nat): (j: nat)
    requires i <= |s|
    ensures i <= j <= |s|
    ensures forall k :: i <= k < j ==> FracChar(s[k])
    ensures j < |s| ==> !FracChar(s[j])
    decreases |s| - i
  {
    if i < |s| && FracChar(s[i]) then SpanFrac(s, i + 1) else i
  }

  /** Where the sign and first digit of a match that begins at `i` end. */
  function LeadEnd(s: string, i: nat): nat {
    if i < |s| && s[i] == '-' then i + 2 else i + 1
  }

  /** Where the optional dot after the integer run ends. */
  function DotEnd(s: string, j1: nat): nat {
    if j1 < |s| && s[j1] == '.' then j1 + 1 else j1
  }

  /** Where the greedy match that begins at `i` ends: sign, first digit, the
      integer run, an optional dot, then the `[\d{2}]` run. */
  function MatchEnd(s: string, i: nat, g: Grammar): (j: nat)
    requires CanStart(s, i)
    ensures i < j <= |s|
  {
    var j1 := SpanInt(s, LeadEnd(s, i), g);
    SpanFrac(s, DotEnd(s, j1))
  }

  /** `s[i..j]` is the match Go returns: accepted, not extendable, and no
      accepted substring begins further left. */
  predicate LeftmostLongest(s: string, i: nat, j: nat, g: Grammar) {
    && i <= j <= |s|
    && Accepts(s[i..j], g)
    && (forall k :: j < k <= |s| ==> !Accepts(s[i..k], g))
    && (forall a, b :: 0 <= a < i && a <= b <= |s| ==> !Accepts(s[a..b], g))
  }

  /** Nothing accepted begins at a position where no match can start. */
  lemma NoMatchAt(s: string, a: nat, b: nat, g: Grammar)
    requires a <= b <= |s|
    requires !CanStart(s, a)
    ensures !Accepts(s[a..b], g)
  {
    var t := s[a..b];
    if |t| >= 1 {
      var q1 := Step(Start, t[0], g);
      if q1 == Dead {
        assert t == [t[0]] + t[1..];
        RunAppend(Start, [t[0]], t[1..], g);
        RunDead(t[1..], g);
      } else {
        assert q1 == Sign && t[0] == '-';
        if |t| >= 2 {
          assert !IsDigit(t[1]);
          assert t == [t[0], t[1]] + t[2..];
          RunAppend(Start, [t[0], t[1]], t[2..], g);
          RunDead(t[2..], g);
        } else {
          assert Run(Start, t, g) == Sign;
        }
      }
    }
  }

  /** The automaton's state after the sign, the first digit and the integer run. */
  lemma IntRunState(s: string, i: nat, g: Grammar)
    requires CanStart(s, i)
    ensures Run(Start, s[i..SpanInt(s, LeadEnd(s, i), g)], g) == Int
  {
    var d := LeadEnd(s, i);
    var j1 := SpanInt(s, d, g);
    assert Run(Start, s[i..d], g) == Int by {
      var t := s[i..d];
      if s[i] == '-' {
        assert t[1..][1..] == [];
        assert Run(Start, t, g) == Run(Sign, t[1..], g) == Run(Int, t[1..][1..], g);
      } else {
        assert t[1..] == [];
      }
    }
    RunStays(Int, s[d..j1], g);
    RunAppend(Start, s[i..d], s[d..j1], g);
    assert s[i..d] + s[d..j1] == s[i..j1];
  }

  /** The state after the optional dot as well. */
  lemma DotState(s: string, i: nat, g: Grammar) returns (q: State)
    requires CanStart(s, i)
    ensures var j1 := SpanInt(s, LeadEnd(s, i), g);
            q == (if DotEnd(s, j1) == j1 + 1 then Dot else Int)
            && Run(Start, s[i..DotEnd(s, j1)], g) == q
  {
    var j1 := SpanInt(s, LeadEnd(s, i), g);
    var j2 := DotEnd(s, j1);
    IntRunState(s, i, g);
    q := if j2 == j1 + 1 then Dot else Int;
    if j2 == j1 + 1 {
      RunAppend(Start, s[i..j1], s[j1..j2], g);
      assert s[i..j1] + s[j1..j2] == s[i..j2];
      assert s[j1..j2] == [s[j1]];
    }
  }

  /** The state at the end of the greedy match: accepting, and dead on the next character. */
  lemma EndState(s: string, i: nat, g: Grammar) returns (q: State)
    requires CanStart(s, i)
    ensures Accepting(q)
    ensures Run(Start, s[i..MatchEnd(s, i, g)], g) == q
    ensures MatchEnd(s, i, g) < |s| ==> Step(q, s[MatchEnd(s, i, g)], g) == Dead
  {
    var j1 := SpanInt(s, LeadEnd(s, i), g);
    var j2 := DotEnd(s, j1);
    var j3 := SpanFrac(s, j2);
    var q2 := DotState(s, i, g);
    if j3 == j2 {
      q := q2;
    } else {
      q := Frac;
      FracRun(s, i, g);
    }
  }

  /** A match with fraction digits ends in the fraction state. */
  lemma FracRun(s: string, i: nat, g: Grammar)
    requires CanStart(s, i)
    requires SpanFrac(s, DotEnd(s, SpanInt(s, LeadEnd(s, i), g))) != DotEnd(s, SpanInt(s, LeadEnd(s, i), g))
    ensures Run(Start, s[i..SpanFrac(s, DotEnd(s, SpanInt(s, LeadEnd(s, i), g)))], g) == Frac
  {
    var j1 := SpanInt(s, LeadEnd(s, i), g);
    var j2 := DotEnd(s, j1);
    var j3 := SpanFrac(s, j2);
    var q2 := DotState(s, i, g);
    assert Step(q2, s[j2], g) == Frac;
    FracTail(q2, s[j2..j3], g);
    RunAppend(Start, s[i..j2], s[j2..j3], g);
    assert s[i..j2] + s[j2..j3] == s[i..j3];
  }

  /** A first character that leads to the fraction state, then fraction characters only. */
  lemma FracTail(q: State, t: string, g: Grammar)
    requires |t| > 0 && Step(q, t[0], g) == Frac
    requires forall k :: 0 < k < |t| ==> FracChar(t[k])
    ensures Run(q, t, g) == Frac
  {
    RunStays(Frac, t[1..], g);
  }


  /** The greedy match is accepted and cannot be extended. */
  lemma MatchEndLongest(s: string, i: nat, g: Grammar)
    requires CanStart(s, i)
    ensures Accepts(s[i..MatchEnd(s, i, g)], g)
    ensures forall k :: MatchEnd(s, i, g) < k <= |s| ==> !Accepts(s[i..k], g)
  {
    var j := MatchEnd(s, i, g);
    var q := EndState(s, i, g);
    forall k | j < k <= |s|
      ensures !Accepts(s[i..k], g)
    {
      assert s[i..k] == s[i..j] + ([s[j]] + s[j + 1..k]);
      RunAppend(Start, s[i..j], [s[j]] + s[j + 1..k], g);
      RunAppend(q, [s[j]], s[j + 1..k], g);
      RunDead(s[j + 1..k], g);
    }
  }

  /** The first position at or after `i` where a match can start. */
  function FirstStart(s: string, i: nat): (r: Option<nat>)
    requires i <= |s|
    ensures r.Some? ==> i <= r.value < |s| && CanStart(s, r.value)
    ensures r.Some? ==> forall k :: i <= k < r.value ==> !CanStart(s, k)
    ensures r.None? ==> forall k :: i <= k <= |s| ==> !CanStart(s, k)
    decreases |s| - i
  {
    if i == |s| then None
    else if CanStart(s, i) then Some(i)
    else FirstStart(s, i + 1)
  }

  lemma HasDigitIffCanStart(s: string)
    ensures (exists k :: 0 <= k < |s| && IsDigit(s[k])) <==> (exists k :: 0 <= k <= |s| && CanStart(s, k))
  {
    if exists k :: 0 <= k < |s| && IsDigit(s[k]) {
      var k :| 0 <= k < |s| && IsDigit(s[k]);
      assert CanStart(s, k);
    }
    if exists k :: 0 <= k <= |s| && CanStart(s, k) {
      var k :| 0 <= k <= |s| && CanStart(s, k);
      if !IsDigit(s[k]) {
        assert IsDigit(s[k + 1]);
      }
    }
  }

  /** `util.ParseFloatStringFromString`: the first match of the comma-tolerant
      pattern anywhere in `s`, or an error when there is none. */
  function ParseFloatString(s: string): (r: Result<string>)
    ensures r.Ok? <==> exists k :: 0 <= k < |s| && IsDigit(s[k])
    ensures r.Ok? ==> exists i: nat, j: nat :: LeftmostLongest(s, i, j, WithCommas) && r.value == s[i..j]
  {
    HasDigitIffCanStart(s);
    match FirstStart(s, 0)
    case None => Err("no float found in string: " + s)
    case Some(i) =>
      var j := MatchEnd(s, i, WithCommas);
      MatchEndLongest(s, i, WithCommas);
      assert forall a, b :: 0 <= a < i && a <= b <= |s| ==> !Accepts(s[a..b], WithCommas) by {
        forall a, b | 0 <= a < i && a <= b <= |s|
          ensures !Accepts(s[a..b], WithCommas)
        {
          NoMatchAt(s, a, b, WithCommas);
        }
      }
      assert LeftmostLongest(s, i, j, WithCommas);
      Ok(s[i..j])
  }

  /** The anchored, comma-free scanner of handler/parser.go: a match only at
      the very start of `s`. */
  function ParseFloatStringAnchored(s: string): (r: Result<string>)
    ensures r.Ok? <==> CanStart(s, 0)
    ensures r.Ok? ==> exists j: nat :: LeftmostLongest(s, 0, j, NoCommas) && r.value == s[..j]
    ensures r.Err? ==> forall k :: 0 <= k <= |s| ==> !Accepts(s[..k], NoCommas)
  {
    if CanStart(s, 0) then
      var j := MatchEnd(s, 0, NoCommas);
      MatchEndLongest(s, 0, NoCommas);
      assert s[0..j] == s[..j];
      assert LeftmostLongest(s, 0, j, NoCommas);
      Ok(s[..j])
    else
      assert forall k :: 0 <= k <= |s| ==> !Accepts(s[..k], NoCommas) by {
        forall k | 0 <= k <= |s|
          ensures !Accepts(s[..k], NoCommas)
        {
          NoMatchAt(s, 0, k, NoCommas);
          assert s[0..k] == s[..k];
        }
      }
      Err("no float found in string: " + s)
  }

  /** The scanner the handler package uses. The package declares
      `parseFloatStringFromString` twice (handler/callback_handler.go and
      handler/parser.go), so which of the two runs is left open. */
  datatype Scanner = Unanchored | Anchored

  function ScanAmount(sc: Scanner, s: string): (r: Result<string>)
    ensures sc == Unanchored ==> r == ParseFloatString(s)
    ensures sc == Anchored ==> r == ParseFloatStringAnchored(s)
  {
    match sc
    case Unanchored => ParseFloatString(s)
    case Anchored => ParseFloatStringAnchored(s)
  }

  // ---------------------------------------------------------------------
  // Properties of the language and examples

  /** Every accepted string has the pattern's shape: it starts with a digit or
      with `-` and a digit, holds at most one dot, no comma after the dot, and
      nothing outside digits, `,`, `.`, `-`, `{`, `}`. */
  lemma {:induction false} AcceptedShape(t: string, g: Grammar)
    requires Accepts(t, g)
    ensures |t| >= 1 && (IsDigit(t[0]) || (t[0] == '-' && |t| >= 2 && IsDigit(t[1])))
    ensures forall a, b :: 0 <= a < b < |t| && t[a] == '.' ==> t[b] != '.' && t[b] != ','
    ensures forall k :: 1 <= k < |t| ==> t[k] != '-'
    ensures g == NoCommas ==> forall k :: 0 <= k < |t| ==> t[k] != ','
  {
    assert |t| >= 1;
    ShapeFrom(Start, t, g);
  }

  /** What a run from `q` that ends accepting says about the characters read. */
  lemma {:induction false} ShapeFrom(q: State, t: string, g: Grammar)
    requires Accepting(Run(q, t, g))
    ensures q == Start && |t| >= 1 ==> IsDigit(t[0]) || (t[0] == '-' && |t| >= 2 && IsDigit(t[1]))
    ensures q == Sign ==> |t| >= 1 && IsDigit(t[0])
    ensures forall k :: 0 <= k < |t| && (q != Start || k >= 1) ==> t[k] != '-'
    ensures forall a, b :: 0 <= a < b < |t| && t[a] == '.' ==> t[b] != '.' && t[b] != ','
    ensures (q == Dot || q == Frac) ==> forall k :: 0 <= k < |t| ==> t[k] != '.' && t[k] != ','
    ensures g == NoCommas ==> forall k :: 0 <= k < |t| ==> t[k] != ','
    decreases |t|
  {
    if |t| == 0 {
    } else {
      var q1 := Step(q, t[0], g);
      if q1 == Dead {
        RunDead(t[1..], g);
      }
      ShapeFrom(q1, t[1..], g);
      if q == Sign && |t| == 1 {
        assert Run(q, t, g) == q1;
      }
      if q == Start && t[0] == '-' {
        assert q1 == Sign;
      }
      forall a, b | 0 <= a < b < |t| && t[a] == '.'
        ensures t[b] != '.' && t[b] != ','
      {
        if a == 0 {
          assert q1 == Dot || q1 == Dead;
          assert t[b] == t[1..][b - 1];
        } else {
          assert t[1..][a - 1] == '.';
          assert t[b] == t[1..][b - 1];
        }
      }
    }
  }

  /** The comma-free scanner stops at a thousands separator. */
  lemma AnchoredStopsAtComma()
    ensures ParseFloatStringAnchored("1,000") == Ok("1")
  {
    var s := "1,000";
    assert CanStart(s, 0) && LeadEnd(s, 0) == 1;
    assert SpanInt(s, 1, NoCommas) == 1;
    assert DotEnd(s, 1) == 1;
    assert SpanFrac(s, 1) == 1;
    assert MatchEnd(s, 0, NoCommas) == 1;
    assert s[..1] == "1";
  }

  /** Several numbers in a message: only the first is taken. */
  lemma FirstNumberWins()
    ensures ParseFloatString("lunch 12.50 and 3") == Ok("12.50")
  {
    var s := "lunch 12.50 and 3";
    LunchStart();
    LunchSpans();
    assert s[6..11] == "12.50";
  }

  /** No match can start inside the word `lunch ` . */
  lemma LunchStart()
    ensures FirstStart("lunch 12.50 and 3", 0) == Some(6)
  {
    var s := "lunch 12.50 and 3";
    assert s[..7] == "lunch 1";
    forall k | 0 <= k < 6
      ensures !CanStart(s, k)
    {
      assert s[k] == s[..7][k];
    }
    assert FirstStart(s, 6) == Some(6);
  }

  /** The match at 6 covers `12`, the dot and `50`. */
  lemma LunchSpans()
    ensures SpanInt("lunch 12.50 and 3", 7, WithCommas) == 8
    ensures SpanFrac("lunch 12.50 and 3", 9) == 11
  {
    var s := "lunch 12.50 and 3";
    assert SpanInt(s, 8, WithCommas) == 8;
    assert SpanFrac(s, 11) == 11;
  }

  /** The `[\d{2}]` class lets braces through after the dot. */
  lemma BracesAfterDot()
    ensures ParseFloatString("5.{2}") == Ok("5.{2}")
  {
    var s := "5.{2}";
    assert FirstStart(s, 0) == Some(0);
    assert SpanInt(s, 1, WithCommas) == 1;
    assert SpanFrac(s, 2) == 5;
    assert s[0..5] == s;
  }
}
