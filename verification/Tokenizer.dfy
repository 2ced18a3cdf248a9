/**
 * The lexer of the condition language: text to tokens.
 *
 * `Lex` is the value of the scanning loop; `Tokenize` is the loop itself. What the tokens have
 * to do with the text is stated by `Spells`, which never mentions scanning.
 */
module Tokenizer {
  import opened Values

  datatype OpSym =
    | OrOr | AndAnd | EqEq | NotEq | GreaterEq | LessEq | Greater | Less
    | Plus | Minus | Star | Slash | Percent | Bang

  datatype Token =
    | Number(lit: string)
    | Str(lit: string)
    | Path(lit: string)
    | Op(op: OpSym)
    | LParen
    | RParen
    | EOF

  // ---- character classes ----

  datatype Class = Digit | IdentCont | Blank | NotQuote

  predicate IsIdentStart(c: char) {
    'a' <= c <= 'z' || 'A' <= c <= 'Z' || c == '_'
  }

  predicate In(c: char, cls: Class) {
    match cls
    case Digit => IsDigit(c)
    case IdentCont => IsIdentStart(c) || IsDigit(c)
    case Blank => c == ' ' || c == '\t' || c == '\n' || c == '\r'
    case NotQuote => c != '"'
  }

  /** End of the longest run of `cls` characters that starts at i. */
  function Span(s: string, i: nat, cls: Class): (j: nat)
    requires i <= |s|
    ensures i <= j <= |s|
    ensures forall k :: i <= k < j ==> In(s[k], cls)
    ensures j < |s| ==> !In(s[j], cls)
    decreases |s| - i
  {
    if i < |s| && In(s[i], cls) then Span(s, i + 1, cls) else i
  }

  lemma SpanIs(s: string, i: nat, cls: Class, j: nat)
    requires i <= j <= |s|
    requires forall k :: i <= k < j ==> In(s[k], cls)
    requires j < |s| ==> !In(s[j], cls)
    ensures Span(s, i, cls) == j
  {
  }

  // ---- lexemes, as stretches [i, j) of a text ----

  predicate Run(s: string, i: nat, j: nat, cls: Class) {
    i <= j <= |s| && forall k :: i <= k < j ==> In(s[k], cls)
  }

  predicate DigitsIn(s: string, i: nat, j: nat) {
    i < j && Run(s, i, j, Digit)
  }

  predicate IdentIn(s: string, i: nat, j: nat) {
    i < j && Run(s, i, j, IdentCont) && IsIdentStart(s[i])
  }

  /** One `.name` or `[N]`. */
  predicate SegmentIn(s: string, i: nat, j: nat) {
    && i + 1 < j <= |s|
    && (|| (s[i] == '.' && IdentIn(s, i + 1, j))
        || (s[i] == '[' && s[j - 1] == ']' && DigitsIn(s, i + 1, j - 1)))
  }

  ghost predicate SegmentsIn(s: string, i: nat, j: nat)
    decreases j - i
  {
    i <= j <= |s| && (i == j || exists m :: i < m <= j && SegmentIn(s, i, m) && SegmentsIn(s, m, j))
  }

  ghost predicate PathIn(s: string, i: nat, j: nat) {
    exists m :: i < m <= j && IdentIn(s, i, m) && SegmentsIn(s, m, j)
  }

  ghost predicate NumberIn(s: string, i: nat, j: nat) {
    DigitsIn(s, i, j) || exists m :: i < m < j <= |s| && DigitsIn(s, i, m) && s[m] == '.' && DigitsIn(s, m + 1, j)
  }

  predicate StringIn(s: string, i: nat, j: nat) {
    i + 2 <= j <= |s| && s[i] == '"' && s[j - 1] == '"' && Run(s, i + 1, j - 1, NotQuote)
  }

  function OpText(op: OpSym): string {
    match op
    case OrOr => "||"
    case AndAnd => "&&"
    case EqEq => "=="
    case NotEq => "!="
    case GreaterEq => ">="
    case LessEq => "<="
    case Greater => ">"
    case Less => "<"
    case Plus => "+"
    case Minus => "-"
    case Star => "*"
    case Slash => "/"
    case Percent => "%"
    case Bang => "!"
  }

  function Lexeme(t: Token): string {
    match t
    case Number(lit) => lit
    case Str(lit) => "\"" + lit + "\""
    case Path(lit) => lit
    case Op(op) => OpText(op)
    case LParen => "("
    case RParen => ")"
    case EOF => ""
  }

  /** The stretch [i, j) of s is a lexeme of token t. */
  ghost predicate TokenIn(s: string, i: nat, j: nat, t: Token) {
    && i < j <= |s|
    && match t
       case Number(lit) => NumberIn(s, i, j) && s[i..j] == lit
       case Str(lit) => StringIn(s, i, j) && s[i + 1..j - 1] == lit
       case Path(lit) => PathIn(s, i, j) && s[i..j] == lit
       case EOF => false
       case _ => s[i..j] == Lexeme(t)
  }

  /** A token that some text could contain: its own lexeme reads as it. */
  ghost predicate ValidToken(t: Token) {
    TokenIn(Lexeme(t), 0, |Lexeme(t)|, t)
  }

  ghost predicate ValidTokens(toks: seq<Token>) {
    forall t :: t in toks ==> ValidToken(t)
  }

  /** The path that ends at j does not go on: no further letter, `.name` or `[`. */
  predicate PathEnds(s: string, j: nat)
    requires 0 < j <= |s|
  {
    j == |s| || (&& (s[j - 1] == ']' || !In(s[j], IdentCont))
                 && s[j] != '['
                 && !(s[j] == '.' && j + 1 < |s| && IsIdentStart(s[j + 1])))
  }

  /** The lexeme [i, j) of t is not the front of a longer one. */
  predicate Unextended(s: string, i: nat, j: nat, t: Token)
    requires i < j <= |s|
  {
    match t
    case Number(_) =>
      && (j == |s| || !IsDigit(s[j]))
      && !(DigitsIn(s, i, j) && j + 1 < |s| && s[j] == '.' && IsDigit(s[j + 1]))
    case Path(_) => PathEnds(s, j)
    case Op(op) => (op == Bang || op == Greater || op == Less) ==> j == |s| || s[j] != '='
    case _ => true
  }

  /** From position i on, s is lexemes of toks in order, none cut short, with nothing but blanks between them. */
  ghost predicate Spells(s: string, i: nat, toks: seq<Token>)
    requires i <= |s|
    decreases |toks|, 1
  {
    SpellsAt(s, Span(s, i, Blank), toks)
  }

  ghost predicate SpellsAt(s: string, a: nat, toks: seq<Token>)
    requires a <= |s|
    decreases |toks|, 0
  {
    if toks == [] then
      a == |s|
    else
      var b := a + |Lexeme(toks[0])|;
      && TokenIn(s, a, b, toks[0])
      && Unextended(s, a, b, toks[0])
      && Spells(s, b, toks[1..])
  }

  // ---- the scanner ----

  datatype Scan = Bad | Good(tok: Token, end: nat)

  function NumberEnd(s: string, i: nat): (j: nat)
    requires i < |s|
    ensures i < j <= |s|
  {
    var j := Span(s, i + 1, Digit);
    if j < |s| && s[j] == '.' && j + 1 < |s| && IsDigit(s[j + 1]) then Span(s, j + 1, Digit) else j
  }

  datatype PathStep = Stop | Malformed | Next(end: nat)

  /** The `.name` or `[N]` continuation at i, if there is one. */
  function NextSegment(s: string, i: nat): (r: PathStep)
    requires i <= |s|
    ensures r.Next? ==> i < r.end <= |s|
  {
    if i < |s| && s[i] == '.' && i + 1 < |s| && IsIdentStart(s[i + 1]) then
      Next(Span(s, i + 1, IdentCont))
    else if i < |s| && s[i] == '[' then
      var j := Span(s, i + 1, Digit);
      if j == i + 1 || j >= |s| || s[j] != ']' then Malformed else Next(j + 1)
    else
      Stop
  }

  function PathTail(s: string, i: nat): (r: Option<nat>)
    requires i <= |s|
    ensures r.Some? ==> i <= r.value <= |s|
    decreases |s| - i
  {
    match NextSegment(s, i)
    case Stop => Some(i)
    case Malformed => None
    case Next(j) => PathTail(s, j)
  }

  // One operator that is either the two characters `c second` or the single character c.
  function OneOrTwo(s: string, i: nat, second: char, two: OpSym, one: OpSym): (r: Scan)
    requires i < |s|
    ensures r.Good? && i < r.end <= |s|
  {
    if i + 1 < |s| && s[i + 1] == second then Good(Op(two), i + 2) else Good(Op(one), i + 1)
  }

  function Doubled(s: string, i: nat, op: OpSym): (r: Scan)
    requires i < |s|
    ensures r.Good? ==> i < r.end <= |s|
  {
    if i + 1 < |s| && s[i + 1] == s[i] then Good(Op(op), i + 2) else Bad
  }

  /** The token that starts at the non-blank position i. */
  function ScanToken(s: string, i: nat): (r: Scan)
    requires i < |s|
    ensures r.Good? ==> i < r.end <= |s|
  {
    var c := s[i];
    if IsDigit(c) then
      var j := NumberEnd(s, i);
      Good(Number(s[i..j]), j)
    else if c == '"' then
      var j := Span(s, i + 1, NotQuote);
      if j >= |s| then Bad else Good(Str(s[i + 1..j]), j + 1)
    else if IsIdentStart(c) then
      var tail := PathTail(s, Span(s, i + 1, IdentCont));
      if tail.None? then Bad else Good(Path(s[i..tail.value]), tail.value)
    else
      match c
      case '(' => Good(LParen, i + 1)
      case ')' => Good(RParen, i + 1)
      case '|' => Doubled(s, i, OrOr)
      case '&' => Doubled(s, i, AndAnd)
      case '=' => Doubled(s, i, EqEq)
      case '!' => OneOrTwo(s, i, '=', NotEq, Bang)
      case '>' => OneOrTwo(s, i, '=', GreaterEq, Greater)
      case '<' => OneOrTwo(s, i, '=', LessEq, Less)
      case '+' => Good(Op(Plus), i + 1)
      case '-' => Good(Op(Minus), i + 1)
      case '*' => Good(Op(Star), i + 1)
      case '/' => Good(Op(Slash), i + 1)
      case '%' => Good(Op(Percent), i + 1)
      case _ => Bad
  }

  /** The tokens from position i on, without the EOF sentinel. */
  function Lex(s: string, i: nat): (r: Option<seq<Token>>)
    requires i <= |s|
    decreases |s| - i
  {
    if i == |s| then
      Some([])
    else if In(s[i], Blank) then
      Lex(s, i + 1)
    else
      var t := ScanToken(s, i);
      if t.Bad? then None
      else
        var rest := Lex(s, t.end);
        if rest.None? then None else Some([t.tok] + rest.value)
  }

  // ---- the scanning loops ----

  method SkipWhile(s: string, i: nat, cls: Class) returns (j: nat)
    requires i <= |s|
    ensures j == Span(s, i, cls)
  {
    j := i;
    while j < |s| && In(s[j], cls)
      invariant i <= j <= |s|
      invariant Span(s, j, cls) == Span(s, i, cls)
    {
      j := j + 1;
    }
  }

  method SkipPathTail(s: string, i: nat) returns (r: Option<nat>)
    requires i <= |s|
    ensures r == PathTail(s, i)
  {
    var k := i;
    while k < |s|
      invariant i <= k <= |s|
      invariant PathTail(s, k) == PathTail(s, i)
    {
      var next := k;
      if s[k] == '.' && k + 1 < |s| && IsIdentStart(s[k + 1]) {
        next := SkipWhile(s, k + 1, IdentCont);
      } else if s[k] == '[' {
        var j := SkipWhile(s, k + 1, Digit);
        if j == k + 1 || j >= |s| || s[j] != ']' {
          assert NextSegment(s, k) == Malformed;
          return None;
        }
        next := j + 1;
      } else {
        assert NextSegment(s, k) == Stop;
        break;
      }
      assert NextSegment(s, k) == Next(next);
      k := next;
    }
    return Some(k);
  }

  method ScanOne(s: string, i: nat) returns (r: Scan)
    requires i < |s|
    ensures r == ScanToken(s, i)
  {
    var c := s[i];
    if IsDigit(c) {
      var j := SkipWhile(s, i + 1, Digit);
      if j < |s| && s[j] == '.' && j + 1 < |s| && IsDigit(s[j + 1]) {
        j := SkipWhile(s, j + 1, Digit);
      }
      r := Good(Number(s[i..j]), j);
    } else if c == '"' {
      var j := SkipWhile(s, i + 1, NotQuote);
      r := if j >= |s| then Bad else Good(Str(s[i + 1..j]), j + 1);
    } else if IsIdentStart(c) {
      var j := SkipWhile(s, i + 1, IdentCont);
      var tail := SkipPathTail(s, j);
      r := if tail.None? then Bad else Good(Path(s[i..tail.value]), tail.value);
    } else if c == '(' {
      r := Good(LParen, i + 1);
    } else if c == ')' {
      r := Good(RParen, i + 1);
    } else if c == '|' || c == '&' || c == '=' {
      if i + 1 < |s| && s[i + 1] == c {
        r := Good(Op(if c == '|' then OrOr else if c == '&' then AndAnd else EqEq), i + 2);
      } else {
        r := Bad;
      }
    } else if c == '!' || c == '>' || c == '<' {
      if i + 1 < |s| && s[i + 1] == '=' {
        r := Good(Op(if c == '!' then NotEq else if c == '>' then GreaterEq else LessEq), i + 2);
      } else {
        r := Good(Op(if c == '!' then Bang else if c == '>' then Greater else Less), i + 1);
      }
    } else if c == '+' || c == '-' || c == '*' || c == '/' || c == '%' {
      r := Good(Op(if c == '+' then Plus else if c == '-' then Minus else if c == '*' then Star else if c == '/' then Slash else Percent), i + 1);
    } else {
      r := Bad;
    }
  }

  /** Splits a condition into tokens and appends the EOF sentinel, or reports a lexical error. */
  method Tokenize(s: string) returns (r: Option<seq<Token>>)
    ensures r == if Lex(s, 0).None? then None else Some(Lex(s, 0).value + [EOF])
  {
    var toks: seq<Token> := [];
    var i := 0;
    assert Lex(s, 0).Some? ==> [] + Lex(s, 0).value == Lex(s, 0).value;
    while i < |s|
      invariant i <= |s|
      invariant Lex(s, i).None? ==> Lex(s, 0).None?
      invariant Lex(s, i).Some? ==> Lex(s, 0) == Some(toks + Lex(s, i).value)
    {
      if In(s[i], Blank) {
        i := i + 1;
      } else {
        var t := ScanOne(s, i);
        if t.Bad? {
          return None;
        }
        assert Lex(s, t.end).Some? ==>
            toks + ([t.tok] + Lex(s, t.end).value) == toks + [t.tok] + Lex(s, t.end).value;
        toks := toks + [t.tok];
        i := t.end;
      }
    }
    assert toks + [] == toks;
    return Some(toks + [EOF]);
  }

  // ---- soundness: what Lex returns is spelled by the text ----

  lemma NextSegmentSound(s: string, i: nat)
    requires i <= |s| && NextSegment(s, i).Next?
    ensures SegmentIn(s, i, NextSegment(s, i).end)
  {
    if s[i] == '.' {
      assert In(s[i + 1], IdentCont);
    }
  }

  lemma {:induction false} PathTailSound(s: string, i: nat)
    requires i <= |s| && PathTail(s, i).Some?
    ensures SegmentsIn(s, i, PathTail(s, i).value)
    decreases |s| - i
  {
    if NextSegment(s, i).Next? {
      NextSegmentSound(s, i);
      PathTailSound(s, NextSegment(s, i).end);
    }
  }

  lemma NumberSound(s: string, i: nat)
    requires i < |s| && IsDigit(s[i])
    ensures NumberIn(s, i, NumberEnd(s, i)) && Unextended(s, i, NumberEnd(s, i), Number(s[i..NumberEnd(s, i)]))
  {
    var j, end := Span(s, i + 1, Digit), NumberEnd(s, i);
    assert DigitsIn(s, i, j);
    if j != end {
      assert In(s[j + 1], Digit);
      assert !In(s[j], Digit);
    }
    assert end < |s| ==> !In(s[end], Digit);
  }

  lemma {:induction false} PathTailEnds(s: string, i: nat)
    requires 0 < i <= |s| && PathTail(s, i).Some? && (s[i - 1] == ']' || i == |s| || !In(s[i], IdentCont))
    ensures PathEnds(s, PathTail(s, i).value)
    decreases |s| - i
  {
    if NextSegment(s, i).Next? {
      PathTailEnds(s, NextSegment(s, i).end);
    }
  }

  lemma PathSound(s: string, i: nat)
    requires i < |s| && IsIdentStart(s[i]) && PathTail(s, Span(s, i + 1, IdentCont)).Some?
    ensures var j := PathTail(s, Span(s, i + 1, IdentCont)).value;
            PathIn(s, i, j) && PathEnds(s, j)
  {
    var m := Span(s, i + 1, IdentCont);
    PathTailSound(s, m);
    PathTailEnds(s, m);
    assert In(s[i], IdentCont);
    assert IdentIn(s, i, m);
  }

  lemma ScanSound(s: string, i: nat)
    requires i < |s| && ScanToken(s, i).Good?
    ensures var t := ScanToken(s, i);
            TokenIn(s, i, t.end, t.tok) && t.end == i + |Lexeme(t.tok)| && Unextended(s, i, t.end, t.tok)
  {
    var c := s[i];
    if IsDigit(c) {
      NumberSound(s, i);
    } else if IsIdentStart(c) {
      PathSound(s, i);
    }
  }

  lemma {:induction false} SpellsFromBlank(s: string, i: nat, toks: seq<Token>)
    requires i < |s| && In(s[i], Blank)
    requires Spells(s, i + 1, toks)
    ensures Spells(s, i, toks)
  {
  }

  lemma {:induction false} SpellsHere(s: string, i: nat, toks: seq<Token>, rest: seq<Token>, b: nat)
    requires toks != [] && toks[1..] == rest && i < |s| && !In(s[i], Blank)
    requires b == i + |Lexeme(toks[0])| <= |s| && TokenIn(s, i, b, toks[0])
    requires Unextended(s, i, b, toks[0]) && Spells(s, b, rest)
    ensures Spells(s, i, toks)
  {
    assert Span(s, i, Blank) == i;
    assert SpellsAt(s, i, toks);
  }

  /** Every token list the lexer accepts is spelled by the text, blanks aside. */
  lemma {:induction false} LexSound(s: string, i: nat)
    requires i <= |s| && Lex(s, i).Some?
    ensures Spells(s, i, Lex(s, i).value)
    decreases |s| - i
  {
    if i == |s| {
    } else if In(s[i], Blank) {
      LexSound(s, i + 1);
      SpellsFromBlank(s, i, Lex(s, i + 1).value);
    } else {
      var t := ScanToken(s, i);
      LexSound(s, t.end);
      ScanSound(s, i);
      var toks, rest := Lex(s, i).value, Lex(s, t.end).value;
      assert toks[0] == t.tok && toks[1..] == rest;
      SpellsHere(s, i, toks, rest, t.end);
    }
  }

  lemma {:induction false} SpelledTokensAreNotEOF(s: string, i: nat, toks: seq<Token>)
    requires i <= |s| && Spells(s, i, toks)
    ensures EOF !in toks
    decreases |toks|
  {
    if toks != [] {
      SpelledTokensAreNotEOF(s, Span(s, i, Blank) + |Lexeme(toks[0])|, toks[1..]);
      assert toks == [toks[0]] + toks[1..];
    }
  }

  // ---- completeness: every spelling is read back ----

  lemma SegmentScan(s: string, i: nat, j: nat)
    requires SegmentIn(s, i, j) && (s[i] == '.' ==> j == |s| || !In(s[j], IdentCont))
    ensures !In(s[i], IdentCont) && NextSegment(s, i) == Next(j)
  {
    if s[i] == '.' {
      SpanIs(s, i + 1, IdentCont, j);
    } else {
      SpanIs(s, i + 1, Digit, j - 1);
    }
  }

  lemma {:induction false} PathTailComplete(s: string, i: nat, j: nat)
    requires 0 < i && SegmentsIn(s, i, j) && PathEnds(s, j)
    ensures PathTail(s, i) == Some(j) && (i == |s| || s[i - 1] == ']' || !In(s[i], IdentCont))
    decreases j - i
  {
    if i < j {
      var m :| i < m <= j && SegmentIn(s, i, m) && SegmentsIn(s, m, j);
      PathTailComplete(s, m, j);
      assert s[i] == '.' ==> In(s[m - 1], IdentCont);
      SegmentScan(s, i, m);
    }
  }

  lemma PathComplete(s: string, i: nat, j: nat)
    requires PathIn(s, i, j) && PathEnds(s, j)
    ensures i < |s| && IsIdentStart(s[i]) && PathTail(s, Span(s, i + 1, IdentCont)) == Some(j)
  {
    var m :| i < m <= j && IdentIn(s, i, m) && SegmentsIn(s, m, j);
    PathTailComplete(s, m, j);
    assert In(s[m - 1], IdentCont);
    SpanIs(s, i + 1, IdentCont, m);
  }

  lemma NumberComplete(s: string, i: nat, j: nat)
    requires NumberIn(s, i, j) && i < j <= |s| && Unextended(s, i, j, Number(s[i..j]))
    ensures i < |s| && IsDigit(s[i]) && NumberEnd(s, i) == j
  {
    if DigitsIn(s, i, j) {
      SpanIs(s, i + 1, Digit, j);
    } else {
      var m :| i < m < j && DigitsIn(s, i, m) && s[m] == '.' && DigitsIn(s, m + 1, j);
      SpanIs(s, i + 1, Digit, m);
      SpanIs(s, m + 1, Digit, j);
    }
  }

  lemma OpComplete(s: string, i: nat, j: nat, op: OpSym)
    requires TokenIn(s, i, j, Op(op)) && Unextended(s, i, j, Op(op))
    ensures !In(s[i], Blank) && ScanToken(s, i) == Good(Op(op), j)
  {
    var x := OpText(op);
    assert s[i] == s[i..j][0] == x[0];
    assert |x| == 2 ==> s[i + 1] == s[i..j][1] == x[1];
  }

  lemma ScanComplete(s: string, i: nat, j: nat, t: Token)
    requires TokenIn(s, i, j, t) && Unextended(s, i, j, t)
    ensures !In(s[i], Blank) && ScanToken(s, i) == Good(t, j)
  {
    match t
    case Number(lit) =>
      NumberComplete(s, i, j);
    case Path(lit) =>
      PathComplete(s, i, j);
    case Str(lit) =>
      SpanIs(s, i + 1, NotQuote, j - 1);
    case Op(op) =>
      OpComplete(s, i, j, op);
    case LParen =>
      assert s[i] == s[i..j][0];
    case RParen =>
      assert s[i] == s[i..j][0];
  }

  lemma {:induction false} LexFromSpan(s: string, i: nat)
    requires i <= |s|
    ensures Lex(s, i) == Lex(s, Span(s, i, Blank))
    decreases |s| - i
  {
    if i < |s| && In(s[i], Blank) {
      LexFromSpan(s, i + 1);
    }
  }

  lemma LexStep(s: string, a: nat, b: nat, toks: seq<Token>)
    requires toks != [] && TokenIn(s, a, b, toks[0]) && Unextended(s, a, b, toks[0])
    requires Lex(s, b) == Some(toks[1..])
    ensures Lex(s, a) == Some(toks)
  {
    ScanComplete(s, a, b, toks[0]);
    assert [toks[0]] + toks[1..] == toks;
  }

  /** A text that spells tokens is read back as those tokens. */
  lemma {:induction false} LexComplete(s: string, i: nat, toks: seq<Token>)
    requires i <= |s| && Spells(s, i, toks)
    ensures Lex(s, i) == Some(toks)
    decreases |toks|
  {
    var a := Span(s, i, Blank);
    LexFromSpan(s, i);
    assert SpellsAt(s, a, toks);
    if toks != [] {
      var b := SpellsParts(s, a, toks);
      LexComplete(s, b, toks[1..]);
      LexStep(s, a, b, toks);
    }
  }

  lemma SpellsParts(s: string, a: nat, toks: seq<Token>) returns (b: nat)
    requires a <= |s| && toks != [] && SpellsAt(s, a, toks)
    ensures b <= |s| && TokenIn(s, a, b, toks[0]) && Unextended(s, a, b, toks[0]) && Spells(s, b, toks[1..])
  {
    b := a + |Lexeme(toks[0])|;
  }

  /** The lexer accepts a text as exactly the tokens it spells, so a text has at most one spelling. */
  lemma LexExactly(s: string, toks: seq<Token>)
    ensures Lex(s, 0) == Some(toks) <==> Spells(s, 0, toks)
  {
    if Lex(s, 0) == Some(toks) {
      LexSound(s, 0);
    }
    if Spells(s, 0, toks) {
      LexComplete(s, 0, toks);
    }
  }

  // ---- a canonical spelling ----

  /** The tokens' lexemes separated by single blanks. */
  function Render(toks: seq<Token>): string {
    if toks == [] then "" else if |toks| == 1 then Lexeme(toks[0])
    else Lexeme(toks[0]) + " " + Render(toks[1..])
  }

  // The text x stands in s at offset d.
  ghost predicate Copied(x: string, s: string, d: nat) {
    d + |x| <= |s| && forall k :: 0 <= k < |x| ==> x[k] == s[d + k]
  }

  lemma ShiftSlice(x: string, s: string, d: nat, i: nat, j: nat)
    requires Copied(x, s, d) && i <= j <= |x|
    ensures x[i..j] == s[d + i..d + j]
  {
  }

  lemma ShiftRun(x: string, s: string, d: nat, i: nat, j: nat, cls: Class)
    requires Copied(x, s, d) && Run(x, i, j, cls)
    ensures Run(s, d + i, d + j, cls)
  {
    forall k | d + i <= k < d + j ensures In(s[k], cls) {
      assert x[k - d] == s[k];
    }
  }

  lemma ShiftSegment(x: string, s: string, d: nat, i: nat, j: nat)
    requires Copied(x, s, d) && SegmentIn(x, i, j)
    ensures SegmentIn(s, d + i, d + j)
  {
    assert x[i] == s[d + i] && x[i + 1] == s[d + (i + 1)] && x[j - 1] == s[d + (j - 1)];
    if x[i] == '.' {
      ShiftRun(x, s, d, i + 1, j, IdentCont);
    } else {
      ShiftRun(x, s, d, i + 1, j - 1, Digit);
    }
  }

  lemma {:induction false} ShiftSegments(x: string, s: string, d: nat, i: nat, j: nat)
    requires Copied(x, s, d) && SegmentsIn(x, i, j)
    ensures SegmentsIn(s, d + i, d + j)
    decreases j - i
  {
    if i < j {
      var m :| i < m <= j && SegmentIn(x, i, m) && SegmentsIn(x, m, j);
      ShiftSegment(x, s, d, i, m);
      ShiftSegments(x, s, d, m, j);
    }
  }

  lemma ShiftPath(x: string, s: string, d: nat, i: nat, j: nat)
    requires Copied(x, s, d) && PathIn(x, i, j)
    ensures PathIn(s, d + i, d + j)
  {
    var m :| i < m <= j && IdentIn(x, i, m) && SegmentsIn(x, m, j);
    assert x[i] == s[d + i];
    ShiftRun(x, s, d, i, m, IdentCont);
    ShiftSegments(x, s, d, m, j);
    assert IdentIn(s, d + i, d + m);
  }

  lemma ShiftNumber(x: string, s: string, d: nat, i: nat, j: nat)
    requires Copied(x, s, d) && NumberIn(x, i, j)
    ensures NumberIn(s, d + i, d + j)
  {
    if DigitsIn(x, i, j) {
      ShiftRun(x, s, d, i, j, Digit);
    } else {
      var m :| i < m < j && DigitsIn(x, i, m) && x[m] == '.' && DigitsIn(x, m + 1, j);
      ShiftRun(x, s, d, i, m, Digit);
      ShiftRun(x, s, d, m + 1, j, Digit);
      assert DigitsIn(s, d + i, d + m) && s[d + m] == '.' && DigitsIn(s, d + m + 1, d + j);
    }
  }

  /** A token's lexeme is still its lexeme wherever it is copied to. */
  lemma ShiftToken(t: Token, s: string, d: nat)
    requires ValidToken(t) && Copied(Lexeme(t), s, d)
    ensures TokenIn(s, d, d + |Lexeme(t)|, t)
  {
    var x := Lexeme(t);
    var n := |x|;
    ShiftSlice(x, s, d, 0, n);
    assert x[0..n] == x;
    match t
    case Number(lit) =>
      ShiftNumber(x, s, d, 0, n);
    case Path(lit) =>
      ShiftPath(x, s, d, 0, n);
    case Str(lit) =>
      assert x[0] == s[d + 0] && x[n - 1] == s[d + (n - 1)];
      ShiftSlice(x, s, d, 1, n - 1);
      ShiftRun(x, s, d, 1, n - 1, NotQuote);
    case _ =>
  }

  lemma PathLastChar(s: string, i: nat, j: nat)
    requires PathIn(s, i, j)
    ensures i < j <= |s| && !IsUnicodeSpace(s[j - 1])
  {
    var m :| i < m <= j && IdentIn(s, i, m) && SegmentsIn(s, m, j);
    if m == j {
      assert In(s[j - 1], IdentCont);
    } else {
      SegmentsLastChar(s, m, j);
    }
  }

  lemma {:induction false} SegmentsLastChar(s: string, i: nat, j: nat)
    requires i < j && SegmentsIn(s, i, j)
    ensures !IsUnicodeSpace(s[j - 1])
    decreases j - i
  {
    var m :| i < m <= j && SegmentIn(s, i, m) && SegmentsIn(s, m, j);
    if m < j {
      SegmentsLastChar(s, m, j);
    } else if s[i] == '.' {
      assert In(s[j - 1], IdentCont);
    }
  }

  lemma LexemeEdges(t: Token)
    requires ValidToken(t)
    ensures var x := Lexeme(t);
            x != "" && !IsUnicodeSpace(x[0]) && !IsUnicodeSpace(x[|x| - 1])
  {
    var x := Lexeme(t);
    match t
    case Number(lit) =>
      if DigitsIn(lit, 0, |lit|) {
        assert In(lit[0], Digit) && In(lit[|lit| - 1], Digit);
      } else {
        var m :| 0 < m < |lit| && DigitsIn(lit, 0, m) && lit[m] == '.' && DigitsIn(lit, m + 1, |lit|);
        assert In(lit[0], Digit) && In(lit[|lit| - 1], Digit);
      }
    case Path(lit) =>
      PathLastChar(lit, 0, |lit|);
    case _ =>
  }

  lemma {:induction false} RenderEdges(toks: seq<Token>)
    requires toks != [] && ValidTokens(toks)
    ensures var x := Render(toks);
            x != "" && !IsUnicodeSpace(x[0]) && !IsUnicodeSpace(x[|x| - 1])
    decreases |toks|
  {
    LexemeEdges(toks[0]);
    if |toks| > 1 {
      RenderEdges(toks[1..]);
    }
  }

  lemma CopiedParts(toks: seq<Token>, s: string, i: nat)
    requires |toks| > 1 && Copied(Render(toks), s, i)
    ensures var b := i + |Lexeme(toks[0])|;
            Copied(Lexeme(toks[0]), s, i) && s[b] == ' ' && Copied(Render(toks[1..]), s, b + 1)
  {
    var x, y := Lexeme(toks[0]), Render(toks[1..]);
    var all := x + " " + y;
    assert all == Render(toks);
    forall k | 0 <= k < |x| ensures x[k] == s[i + k] {
      assert all[k] == x[k];
    }
    assert all[|x|] == ' ';
    forall k | 0 <= k < |y| ensures y[k] == s[i + |x| + 1 + k] {
      assert all[|x| + 1 + k] == y[k];
    }
  }

  lemma ShiftFirst(toks: seq<Token>, s: string, i: nat)
    requires toks != [] && ValidToken(toks[0]) && Copied(Lexeme(toks[0]), s, i)
    ensures TokenIn(s, i, i + |Lexeme(toks[0])|, toks[0]) && !In(s[i], Blank)
  {
    ShiftToken(toks[0], s, i);
    LexemeEdges(toks[0]);
    assert Lexeme(toks[0])[0] == s[i];
  }

  // The layout of `Render`: one blank after every token but the last.
  ghost predicate Laid(s: string, i: nat, toks: seq<Token>)
    decreases |toks|
  {
    if toks == [] then
      i == |s|
    else
      var b := i + |Lexeme(toks[0])|;
      && TokenIn(s, i, b, toks[0])
      && !In(s[i], Blank)
      && if |toks| == 1 then b == |s| else b < |s| && s[b] == ' ' && Laid(s, b + 1, toks[1..])
  }

  lemma {:induction false} RenderLaid(toks: seq<Token>, s: string, i: nat)
    requires ValidTokens(toks)
    requires Copied(Render(toks), s, i) && |s| == i + |Render(toks)|
    ensures Laid(s, i, toks)
    decreases |toks|
  {
    if |toks| > 1 {
      CopiedParts(toks, s, i);
      RenderLaid(toks[1..], s, i + |Lexeme(toks[0])| + 1);
    }
    if toks != [] {
      ShiftFirst(toks, s, i);
    }
  }

  /** Before a blank or the end of the text nothing is cut short. */
  lemma EndsUnextended(s: string, i: nat, j: nat, t: Token)
    requires i < j <= |s| && (j == |s| || s[j] == ' ')
    ensures Unextended(s, i, j, t)
  {
  }

  lemma {:induction false} LaidSpells(s: string, i: nat, toks: seq<Token>)
    requires i <= |s| && Laid(s, i, toks)
    ensures Spells(s, i, toks)
    decreases |toks|
  {
    if toks != [] {
      var b := i + |Lexeme(toks[0])|;
      if |toks| == 1 {
        assert Spells(s, b, toks[1..]);
      } else {
        LaidSpells(s, b + 1, toks[1..]);
        SpellsFromBlank(s, b, toks[1..]);
      }
      EndsUnextended(s, i, b, toks[0]);
      SpellsHere(s, i, toks, toks[1..], b);
    }
  }

  /** Printing valid tokens and reading the text back gives the same tokens. */
  lemma LexRenderRoundTrip(toks: seq<Token>)
    requires ValidTokens(toks)
    ensures Lex(Render(toks), 0) == Some(toks)
  {
    RenderLaid(toks, Render(toks), 0);
    LaidSpells(Render(toks), 0, toks);
    LexComplete(Render(toks), 0, toks);
  }
}
