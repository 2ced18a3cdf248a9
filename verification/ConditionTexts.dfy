/** Condition texts, from the characters to the answer: which symbol does what, and how symbols group. */
module ConditionTexts {
  import opened Values
  import opened Tokenizer
  import opened Grammar
  import opened Program
  import opened Evaluator
  import opened Compiler
  import opened ConditionMeaning

  // ---- one operator between two numerals ----

  function Numeral(n: nat): Expr {
    Num(Digits(n))
  }

  lemma NumeralIsValid(n: nat)
    ensures ValidToken(Number(Digits(n)))
  {
    var d := Digits(n);
    forall k | 0 <= k < |d| ensures In(d[k], Digit) {
      assert IsDigit(d[k]);
    }
    assert DigitsIn(d, 0, |d|);
    assert d[0..|d|] == d;
  }

  lemma {:induction false} DigitsHaveNoDot(n: nat)
    ensures '.' !in Digits(n)
  {
    forall k | 0 <= k < |Digits(n)| ensures Digits(n)[k] != '.' {
      assert IsDigit(Digits(n)[k]);
    }
  }

  lemma OperatorIsValid(op: OpSym)
    ensures ValidToken(Op(op))
  {
    var x := OpText(op);
    assert x[0..|x|] == x;
  }

  /** A numeral is worth its number. */
  lemma NumeralMeans<F>(fl: FloatOps<F>, env: Env<F>, n: nat)
    requires n <= MAX_INT64
    ensures Denote(fl, env, Numeral(n)) == Outcome(Val(Signed(W64, n)), None)
  {
    DigitsHaveNoDot(n);
    ParseDecimal(n);
  }

  function Between(a: nat, symbol: string, b: nat): string {
    Digits(a) + " " + (symbol + " " + Digits(b))
  }

  lemma RenderThree(x: Token, y: Token, z: Token)
    ensures Render([x, y, z]) == Lexeme(x) + " " + (Lexeme(y) + " " + Lexeme(z))
  {
    assert [x, y, z][1..] == [y, z];
    assert [y, z][1..] == [z];
    assert Render([y, z]) == Lexeme(y) + " " + Lexeme(z);
  }

  lemma PrintsOperation(op: OpSym, a: nat, b: nat)
    requires op != Bang
    ensures var e := Bin(op, Numeral(a), Numeral(b));
            WellFormed(e) && ValidLeaves(e) && Grouped(e) == e && Print(e) == Between(a, OpText(op), b)
  {
    var e := Bin(op, Numeral(a), Numeral(b));
    var toks := [Number(Digits(a)), Op(op), Number(Digits(b))];
    NumeralIsValid(a);
    NumeralIsValid(b);
    OperatorIsValid(op);
    assert Tokens(e) == toks;
    GroupedIsSameTree(e);
    RenderThree(toks[0], toks[1], toks[2]);
  }

  /** Two numerals around a symbol are read as that operator on them. */
  lemma ReadsOperation(source: string, op: OpSym, symbol: string, a: nat, b: nat)
    requires op != Bang && symbol == OpText(op) && source == PREFIX_STATE + Between(a, symbol, b)
    ensures Read(source) == Test(Bin(op, Numeral(a), Numeral(b)))
  {
    PrintsOperation(op, a, b);
    PrintReadRoundTrip(Bin(op, Numeral(a), Numeral(b)));
  }

  /** What a condition text answers, None unless it is an expression. */
  function Answer<F>(fl: FloatOps<F>, env: Env<F>, source: string): Option<Res<F>> {
    match Read(source)
    case Test(e) => Some(Denote(fl, env, e).res)
    case _ => None
  }

  lemma AnswersOperation<F>(fl: FloatOps<F>, env: Env<F>, source: string, op: OpSym, symbol: string, a: nat, b: nat)
    requires op != Bang && symbol == OpText(op) && source == PREFIX_STATE + Between(a, symbol, b)
    ensures Answer(fl, env, source) == Some(Result(fl, env, op, Numeral(a), Numeral(b)))
  {
    ReadsOperation(source, op, symbol, a, b);
  }

  /** The six comparison symbols, on any two numerals. */
  lemma ComparisonTexts<F>(fl: FloatOps<F>, env: Env<F>, source: string, symbol: string, a: nat, b: nat)
    requires a <= MAX_INT64 && b <= MAX_INT64 && source == "state:" + Between(a, symbol, b)
    requires symbol == "==" || symbol == "!=" || symbol == ">" || symbol == ">=" || symbol == "<" || symbol == "<="
    ensures Answer(fl, env, source) == Some(Val(Bool(
                if symbol == "==" then a == b
                else if symbol == "!=" then a != b
                else if symbol == ">" then a > b
                else if symbol == ">=" then a >= b
                else if symbol == "<" then a < b
                else a <= b)))
  {
    var op := if symbol == "==" then EqEq else if symbol == "!=" then NotEq else if symbol == ">" then Greater
      else if symbol == ">=" then GreaterEq else if symbol == "<" then Less else LessEq;
    AnswersOperation(fl, env, source, op, symbol, a, b);
    NumeralMeans(fl, env, a);
    NumeralMeans(fl, env, b);
    IntegersCompare(fl, env, op, Numeral(a), Numeral(b), Signed(W64, a), Signed(W64, b));
  }

  ghost predicate AnswersNumber<F>(answer: Option<Res<F>>, n: int) {
    answer.Some? && IsWrapped(answer.value, n)
  }

  lemma NumeralsAreOperands<F>(fl: FloatOps<F>, env: Env<F>, a: nat, b: nat, x: Value<F>, y: Value<F>)
    requires a <= MAX_INT64 && b <= MAX_INT64 && x == Signed(W64, a) && y == Signed(W64, b)
    ensures Operands(fl, env, Numeral(a), Numeral(b), x, y) && Int64Operand(x, a) && Int64Operand(y, b)
  {
    NumeralMeans(fl, env, a);
    NumeralMeans(fl, env, b);
  }

  lemma NumeralsCalculate<F>(fl: FloatOps<F>, env: Env<F>, op: OpSym, a: nat, b: nat, n: int)
    requires a <= MAX_INT64 && b <= MAX_INT64 && (op == Plus || op == Minus || op == Star)
    requires n == if op == Plus then a + b else if op == Minus then (a as int) - b else a * b
    ensures IsWrapped(Result(fl, env, op, Numeral(a), Numeral(b)), n)
  {
    var x: Value<F>, y: Value<F> := Signed(W64, a), Signed(W64, b);
    NumeralsAreOperands(fl, env, a, b, x, y);
    if op == Plus {
      IntegersAdd(fl, env, Numeral(a), Numeral(b), x, y, a, b);
    } else if op == Minus {
      IntegersSubtract(fl, env, Numeral(a), Numeral(b), x, y, a, b);
    } else {
      IntegersMultiply(fl, env, Numeral(a), Numeral(b), x, y, a, b);
    }
  }

  /** The symbols `+`, `-` and `*`, on any two numerals. */
  lemma ArithmeticTexts<F>(fl: FloatOps<F>, env: Env<F>, source: string, symbol: string, a: nat, b: nat)
    requires a <= MAX_INT64 && b <= MAX_INT64 && source == "state:" + Between(a, symbol, b)
    requires symbol == "+" || symbol == "-" || symbol == "*"
    ensures AnswersNumber(Answer(fl, env, source), if symbol == "+" then a + b else if symbol == "-" then (a as int) - b else a * b)
  {
    var op := if symbol == "+" then Plus else if symbol == "-" then Minus else Star;
    AnswersOperation(fl, env, source, op, symbol, a, b);
    NumeralsCalculate(fl, env, op, a, b, if op == Plus then a + b else if op == Minus then (a as int) - b else a * b);
  }

  /** The symbols `/` and `%`, on any two numerals. */
  lemma DivisionTexts<F>(fl: FloatOps<F>, env: Env<F>, source: string, symbol: string, a: nat, b: nat)
    requires a <= MAX_INT64 && b <= MAX_INT64 && source == "state:" + Between(a, symbol, b)
    requires symbol == "/" || symbol == "%"
    ensures Answer(fl, env, source) ==
            Some(if b == 0 then Err(DivisionByZero) else Val(Signed(W64, if symbol == "/" then a / b else a % b)))
  {
    var x: Value<F>, y: Value<F> := Signed(W64, a), Signed(W64, b);
    var op := if symbol == "/" then Slash else Percent;
    AnswersOperation(fl, env, source, op, symbol, a, b);
    NumeralMeans(fl, env, a);
    NumeralMeans(fl, env, b);
    IntegersDivide(fl, env, Numeral(a), Numeral(b), x, y, a, b);
    if b != 0 {
      var q, rest :| Divides(a, b, q, rest)
                     && Result(fl, env, Percent, Numeral(a), Numeral(b)) == Val(Signed(W64, rest))
                     && Result(fl, env, Slash, Numeral(a), Numeral(b)) == Val(Signed(W64, q));
      EuclidAgrees(a, b, q, rest);
    }
  }

  lemma EuclidAgrees(a: nat, b: nat, q: int, r: int)
    requires b > 0 && Divides(a, b, q, r)
    ensures q == a / b && r == a % b
  {
    QuotientAndRest(a, b);
    SameQuotient(b, a / b, a % b, q, r);
  }

  lemma SameQuotient(b: int, q: int, r: int, k: int, s: int)
    requires b > 0 && b * q + r == b * k + s && 0 <= r < b && 0 <= s < b
    ensures q == k && r == s
  {
    var d := q - k;
    assert b * d == s - r by {
      assert b * q - b * k == b * (q - k);
    }
    ProductBounds(b, d);
  }

  lemma ProductBounds(b: int, d: int)
    requires b > 0
    ensures d >= 1 ==> b * d >= b
    ensures d <= -1 ==> b * d <= -b
  {
    if d <= -1 {
      assert b * -d >= b;
      assert b * d == -(b * -d);
    }
  }

  // ---- literals and paths ----

  predicate IsLetter(c: char) {
    'a' <= c <= 'z' || 'A' <= c <= 'Z' || c == '_'
  }

  /** Letters, digits and underscores, no digit first. */
  predicate IsName(name: string) {
    |name| > 0 && IsLetter(name[0]) && forall k :: 0 <= k < |name| ==> IsLetter(name[k]) || '0' <= name[k] <= '9'
  }

  /** What a leaf is worth: a text itself, a path what the state holds there. */
  lemma LeavesMean<F>(fl: FloatOps<F>, env: Env<F>, text: string, path: string, get: string -> Option<Value<F>>)
    ensures Denote(fl, env, Lit(text)) == Outcome(Val(Text(text)), None)
    ensures env == NoEnv ==> Denote(fl, env, Ref(path)) == Outcome(Err(NoStore), Some(NoStore))
    ensures env == Env(get) && get(path).None? ==> Denote(fl, env, Ref(path)) == Outcome(Err(MissingPath(path)), Some(MissingPath(path)))
    ensures env == Env(get) && get(path).Some? ==> Denote(fl, env, Ref(path)) == Outcome(Val(get(path).value), None)
  {
  }

  lemma ReadsLeaf(source: string, e: Expr, text: string)
    requires (e.Num? || e.Lit? || e.Ref?) && text == Lexeme(Tokens(e)[0]) && ValidToken(Tokens(e)[0])
    requires source == PREFIX_STATE + text
    ensures Read(source) == Test(e)
  {
    GroupedIsSameTree(e);
    assert Tokens(e)[1..] == [];
    assert Print(e) == text;
    PrintReadRoundTrip(e);
  }

  /** Anything without a quote between two quotes is that text. */
  lemma StringTexts(source: string, text: string, quoted: string)
    requires '"' !in text && quoted == ['"'] + text + ['"'] && source == "state:" + quoted
    ensures Read(source) == Test(Lit(text))
  {
    var q := Lexeme(Str(text));
    assert q == quoted && q[1..|q| - 1] == text;
    forall k | 1 <= k < |q| - 1 ensures In(q[k], NotQuote) {
      assert q[k] == text[k - 1];
    }
    assert Run(q, 1, |q| - 1, NotQuote);
    ReadsLeaf(source, Lit(text), quoted);
  }

  lemma NameIsIdent(s: string, i: nat, j: nat)
    requires i < j <= |s| && IsName(s[i..j])
    ensures IdentIn(s, i, j)
  {
    forall k | i <= k < j ensures In(s[k], IdentCont) {
      assert s[k] == s[i..j][k - i];
    }
    assert s[i] == s[i..j][0];
  }

  /** A name, and a name with a field or an element behind it, is the path spelled that way. */
  lemma PathTexts(source: string, name: string, path: string, field: string, n: nat)
    requires IsName(name) && source == "state:" + path
    requires path == name || (IsName(field) && path == name + "." + field) || path == name + "[" + Digits(n) + "]"
    ensures Read(source) == Test(Ref(path))
  {
    var m, end := |name|, |path|;
    assert path[..m] == name && path[0..m] == name;
    NameIsIdent(path, 0, m);
    assert SegmentsIn(path, end, end);
    if m < end {
      if IsName(field) && path == name + "." + field {
        FieldIsName(path, name, field);
        NameIsIdent(path, m + 1, end);
      } else {
        IndexIsDigits(path, name, Digits(n));
      }
      assert SegmentIn(path, m, end);
    }
    assert SegmentsIn(path, m, end);
    assert PathIn(path, 0, end);
    assert path[0..end] == path;
    ReadsLeaf(source, Ref(path), path);
  }

  lemma FieldIsName(path: string, name: string, field: string)
    requires path == name + "." + field && |field| > 0
    ensures path[|name|] == '.' && path[|name| + 1..|path|] == field
  {
  }

  lemma IndexIsDigits(path: string, name: string, digits: string)
    requires AllDigits(digits) && |digits| > 0 && path == name + "[" + digits + "]"
    ensures path[|name|] == '[' && path[|path| - 1] == ']' && DigitsIn(path, |name| + 1, |path| - 1)
  {
    forall k | |name| < k < |path| - 1 ensures In(path[k], Digit) {
      assert path[k] == digits[k - |name| - 1];
    }
  }

  /** Numerals with a fraction are read by the float parser; whole ones beyond int64 fail when they are needed. */
  lemma OtherNumerals<F>(fl: FloatOps<F>, env: Env<F>, source: string, a: nat, b: nat, lit: string)
    requires source == "state:" + lit
    ensures lit == Digits(a) && a > MAX_INT64 ==>
              Read(source) == Test(Num(lit)) && Denote(fl, env, Num(lit)) == Outcome(Err(BadInteger(lit)), Some(BadInteger(lit)))
    ensures lit == Digits(a) + "." + Digits(b) ==>
              && Read(source) == Test(Num(lit))
              && Denote(fl, env, Num(lit)).res == match fl.parse(lit) case Some(f) => Val(Float(f)) case None => Err(BadFloat(lit))
  {
    if lit == Digits(a) {
      NumeralIsValid(a);
      DigitsHaveNoDot(a);
      ParseDecimal(a);
      ReadsLeaf(source, Num(lit), lit);
    }
    if lit == Digits(a) + "." + Digits(b) {
      FractionIsNumber(lit, Digits(a), Digits(b));
      assert lit[0..|lit|] == lit;
      ReadsLeaf(source, Num(lit), lit);
    }
  }

  lemma FractionIsNumber(lit: string, whole: string, fraction: string)
    requires AllDigits(whole) && AllDigits(fraction) && |whole| > 0 && |fraction| > 0 && lit == whole + "." + fraction
    ensures NumberIn(lit, 0, |lit|) && '.' in lit
  {
    var m := |whole|;
    assert lit[m] == '.';
    forall k | 0 <= k < m ensures In(lit[k], Digit) {
      assert lit[k] == whole[k];
    }
    forall k | m + 1 <= k < |lit| ensures In(lit[k], Digit) {
      assert lit[k] == fraction[k - m - 1];
    }
    assert DigitsIn(lit, 0, m) && DigitsIn(lit, m + 1, |lit|);
  }

  // ---- grouping ----

  /** The binary symbols from the loosest to the tightest. */
  const LAYERS: seq<set<string>> := [{"||"}, {"&&"}, {"==", "!=", ">", ">=", "<", "<="}, {"+", "-"}, {"*", "/", "%"}]

  predicate InLayer(op: OpSym, k: nat) {
    k < |LAYERS| && OpText(op) in LAYERS[k]
  }

  predicate IsLeaf(e: Expr) {
    e.Num? || e.Lit? || e.Ref?
  }

  function Chain(a: Expr, p: OpSym, b: Expr, q: OpSym, c: Expr): seq<Token> {
    Tokens(a) + [Op(p)] + Tokens(b) + [Op(q)] + Tokens(c)
  }

  lemma LayerIsLevel(op: OpSym, k: nat)
    requires InLayer(op, k)
    ensures OpLevel(op) == if k < 2 then k else k + 1
  {
  }

  predicate IsOperand(t: Token) {
    t.Number? || t.Str? || t.Path?
  }

  lemma ThreeTokens(x: Expr, s: Token, q: OpSym, t: Token)
    requires Tokens(x) == [s, Op(q), t] && IsOperand(s)
    ensures x.Bin? && x.op == q
  {
    assert Tokens(x)[0] == s && Tokens(x)[1] == Op(q);
    match x
    case Bin(op, l, r) =>
      assert |Tokens(l)| == 1 && |Tokens(r)| == 1;
      assert Tokens(x)[1] == Op(op);
    case _ =>
  }

  lemma NoComparisonChain(s: Token, p: OpSym, t: Token, q: OpSym, u: Token, e: Expr)
    requires IsOperand(s) && IsOperand(t) && IsOperand(u) && OpLevel(p) == 3 && OpLevel(q) == 3
    requires Derivable(e)
    ensures Tokens(e) != [s, Op(p), t, Op(q), u]
  {
    var toks := [s, Op(p), t, Op(q), u];
    if Tokens(e) == toks {
      assert Tokens(e)[0] == s;
      if e.Bin? {
        var n := |Tokens(e.left)|;
        assert toks[n] == Op(e.op);
        assert Tokens(e.left) == toks[..n] && Tokens(e.right) == toks[n + 1..];
        if n == 1 {
          assert toks[2..] == [t, Op(q), u];
          ThreeTokens(e.right, t, q, u);
        } else {
          assert n == 3 && toks[..3] == [s, Op(p), t];
          ThreeTokens(e.left, s, p, t);
        }
      }
    }
  }

  lemma RightChain(a: Expr, p: OpSym, b: Expr, q: OpSym, c: Expr)
    requires IsLeaf(a) && IsLeaf(b) && IsLeaf(c) && OpLevel(p) < OpLevel(q) <= 5
    ensures var x := Bin(p, a, Bin(q, b, c)); Derivable(x) && Tokens(x) == Chain(a, p, b, q, c)
  {
    LeafIsFactor(a);
    LeafIsFactor(b);
    LeafIsFactor(c);
    BinaryDerivable(q, b, c);
    BinaryDerivable(p, a, Bin(q, b, c));
  }

  lemma LeftChain(a: Expr, p: OpSym, b: Expr, q: OpSym, c: Expr)
    requires IsLeaf(a) && IsLeaf(b) && IsLeaf(c) && LeftLevel(OpLevel(q)) <= OpLevel(p) <= 5 && OpLevel(q) <= 5
    ensures var x := Bin(q, Bin(p, a, b), c); Derivable(x) && Tokens(x) == Chain(a, p, b, q, c)
  {
    LeafIsFactor(a);
    LeafIsFactor(b);
    LeafIsFactor(c);
    BinaryDerivable(p, a, b);
    BinaryDerivable(q, Bin(p, a, b), c);
  }

  lemma ComparisonsDoNotChain(a: Expr, p: OpSym, b: Expr, q: OpSym, c: Expr, e: Expr)
    requires IsLeaf(a) && IsLeaf(b) && IsLeaf(c) && InLayer(p, 2) && InLayer(q, 2) && EOF !in Chain(a, p, b, q, c)
    ensures !Accepts(Chain(a, p, b, q, c), e)
  {
    LayerIsLevel(p, 2);
    LayerIsLevel(q, 2);
    var toks := Chain(a, p, b, q, c);
    AcceptsExactly(toks, e);
    if Derivable(e) {
      assert toks == [Tokens(a)[0], Op(p), Tokens(b)[0], Op(q), Tokens(c)[0]];
      NoComparisonChain(Tokens(a)[0], p, Tokens(b)[0], q, Tokens(c)[0], e);
    }
  }

  /** Of two operators in a row the tighter binds, of equals the left one; two comparisons in a row are no expression. */
  lemma ChainsGroup(a: Expr, p: OpSym, b: Expr, q: OpSym, c: Expr, j: nat, k: nat, e: Expr)
    requires IsLeaf(a) && IsLeaf(b) && IsLeaf(c) && InLayer(p, j) && InLayer(q, k)
    requires EOF !in Chain(a, p, b, q, c)
    ensures Accepts(Chain(a, p, b, q, c), e) <==>
            if j < k then e == Bin(p, a, Bin(q, b, c))
            else if j == 2 && k == 2 then false
            else e == Bin(q, Bin(p, a, b), c)
  {
    LayerIsLevel(p, j);
    LayerIsLevel(q, k);
    if j == 2 && k == 2 {
      ComparisonsDoNotChain(a, p, b, q, c, e);
    } else if j < k {
      RightChain(a, p, b, q, c);
      AcceptsOnly(Chain(a, p, b, q, c), Bin(p, a, Bin(q, b, c)), e);
    } else {
      LeftChain(a, p, b, q, c);
      AcceptsOnly(Chain(a, p, b, q, c), Bin(q, Bin(p, a, b), c), e);
    }
  }

  lemma LeafIsFactor(e: Expr)
    requires IsLeaf(e)
    ensures Level(e) == FACTOR && Derivable(e)
  {
  }

  lemma BinaryDerivable(op: OpSym, l: Expr, r: Expr)
    requires OpLevel(op) <= 5 && Derivable(l) && Derivable(r) && Level(l) >= LeftLevel(OpLevel(op)) && Level(r) > OpLevel(op)
    ensures Derivable(Bin(op, l, r)) && Level(Bin(op, l, r)) == OpLevel(op)
  {
  }

  lemma AcceptsOnly(toks: seq<Token>, x: Expr, e: Expr)
    requires Derivable(x) && Tokens(x) == toks && EOF !in toks
    ensures Accepts(toks, e) <==> e == x
  {
    AcceptsExactly(toks, e);
    AcceptsExactly(toks, x);
    if Derivable(e) && Tokens(e) == toks {
      Unambiguous(e, x);
    }
  }

  /** `!` takes a whole comparison, but only the left operand of `&&` and `||`. */
  lemma BangGroups(a: Expr, op: OpSym, b: Expr, k: nat, e: Expr)
    requires IsLeaf(a) && IsLeaf(b) && InLayer(op, k) && EOF !in Tokens(a) && EOF !in Tokens(b)
    ensures Accepts([Op(Bang)] + Tokens(a) + [Op(op)] + Tokens(b), e) <==>
            e == if k < 2 then Bin(op, Not(a), b) else Not(Bin(op, a, b))
  {
    LayerIsLevel(op, k);
    var x := if k < 2 then Bin(op, Not(a), b) else Not(Bin(op, a, b));
    LeafIsFactor(a);
    LeafIsFactor(b);
    if k < 2 {
      BinaryDerivable(op, Not(a), b);
    } else {
      BinaryDerivable(op, a, b);
    }
    assert Derivable(x);
    assert Tokens(x) == [Op(Bang)] + Tokens(a) + [Op(op)] + Tokens(b);
    AcceptsOnly([Op(Bang)] + Tokens(a) + [Op(op)] + Tokens(b), x, e);
  }

  /** Unary minus takes a single factor. */
  lemma MinusGroups(a: Expr, op: OpSym, b: Expr, k: nat, e: Expr)
    requires IsLeaf(a) && IsLeaf(b) && InLayer(op, k) && EOF !in Tokens(a) && EOF !in Tokens(b)
    ensures Accepts([Op(Minus)] + Tokens(a) + [Op(op)] + Tokens(b), e) <==> e == Bin(op, Neg(a), b)
  {
    LayerIsLevel(op, k);
    var x := Bin(op, Neg(a), b);
    LeafIsFactor(a);
    LeafIsFactor(b);
    BinaryDerivable(op, Neg(a), b);
    assert Tokens(x) == [Op(Minus)] + Tokens(a) + [Op(op)] + Tokens(b);
    AcceptsOnly([Op(Minus)] + Tokens(a) + [Op(op)] + Tokens(b), x, e);
  }

  // ---- prefixes ----

  /** What a text is by its prefix: blank is always true, `lua:` names a script, anything but these and `state:` is refused. */
  lemma PrefixesMean(name: string, text: string)
    ensures TrimSpace(text) == "" ==> Read(text) == Always
    ensures TrimSpace("lua:" + name) == "lua:" + name ==> Read("lua:" + name) == Script(name)
    ensures TrimSpace(text) == text && text != "" && !("lua:" <= text) && !("state:" <= text) ==> Read(text) == Invalid(MissingPrefix)
  {
    assert ("lua:" + name)[|"lua:"|..] == name;
  }
}
