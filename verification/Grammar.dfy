/**
 * The grammar of conditions and its parser, as values.
 *
 *   or       := and ('||' and)*
 *   and      := unary ('&&' unary)*
 *   unary    := '!' unary | compare
 *   compare  := arith [('==' | '!=' | '>' | '>=' | '<' | '<=') arith]
 *   arith    := term (('+' | '-') term)*
 *   term     := factor (('*' | '/' | '%') factor)*
 *   factor   := number | string | path | '(' or ')' | '-' factor
 */
module Grammar {
  import opened Tokenizer

  // Expression trees; `Group` is a pair of parentheses.
  datatype Expr =
    | Num(lit: string)
    | Lit(text: string)
    | Ref(path: string)
    | Group(inner: Expr)
    | Neg(arg: Expr)
    | Not(arg: Expr)
    | Bin(op: OpSym, left: Expr, right: Expr)

  /** The rule an operator belongs to, numbered from `or` (0) to `term` (5); 7 for the prefix `!`. */
  function OpLevel(op: OpSym): nat {
    match op
    case OrOr => 0
    case AndAnd => 1
    case EqEq => 3
    case NotEq => 3
    case GreaterEq => 3
    case LessEq => 3
    case Greater => 3
    case Less => 3
    case Plus => 4
    case Minus => 4
    case Star => 5
    case Slash => 5
    case Percent => 5
    case Bang => 7
  }

  const FACTOR := 6

  function Level(e: Expr): nat {
    match e
    case Bin(op, _, _) => OpLevel(op)
    case Not(_) => 2
    case _ => FACTOR
  }

  /** The lowest rule a left operand may come from: itself for the repeating rules, `arith` for `compare`. */
  function LeftLevel(level: nat): nat {
    if level == 3 then 4 else level
  }

  /** e is a derivation of the grammar: no operand needs parentheses it does not have. */
  predicate Derivable(e: Expr) {
    match e
    case Group(x) => Derivable(x)
    case Neg(x) => Derivable(x) && Level(x) >= FACTOR
    case Not(x) => Derivable(x) && Level(x) >= 2
    case Bin(op, l, r) =>
      && OpLevel(op) <= 5
      && Derivable(l) && Level(l) >= LeftLevel(OpLevel(op))
      && Derivable(r) && Level(r) > OpLevel(op)
    case _ => true
  }

  function Tokens(e: Expr): (ts: seq<Token>)
    ensures ts != []
  {
    match e
    case Num(lit) => [Number(lit)]
    case Lit(text) => [Str(text)]
    case Ref(path) => [Path(path)]
    case Group(x) => [LParen] + Tokens(x) + [RParen]
    case Neg(x) => [Op(Minus)] + Tokens(x)
    case Not(x) => [Op(Bang)] + Tokens(x)
    case Bin(op, l, r) => Tokens(l) + [Op(op)] + Tokens(r)
  }

  // ---- the recursive-descent parser ----

  datatype ParseError = UnexpectedToken | MissingParen
  datatype Parsed = Fail(error: ParseError) | Ok(e: Expr, pos: nat)

  /** Token lists as the lexer makes them: one EOF, at the end. */
  predicate Terminated(toks: seq<Token>) {
    toks != [] && toks[|toks| - 1] == EOF && forall k :: 0 <= k < |toks| - 1 ==> toks[k] != EOF
  }

  predicate IsOpAt(toks: seq<Token>, pos: nat, level: nat) {
    pos < |toks| && toks[pos].Op? && OpLevel(toks[pos].op) == level
  }

  function Parse(level: nat, toks: seq<Token>, pos: nat): (r: Parsed)
    requires level <= FACTOR && Terminated(toks) && pos < |toks|
    ensures r.Ok? ==> pos < r.pos < |toks|
    decreases |toks| - pos, FACTOR - level, 1
  {
    if level == FACTOR then
      ParseFactor(toks, pos)
    else if level == 2 then
      if toks[pos] == Op(Bang) then
        var x := Parse(2, toks, pos + 1);
        if x.Fail? then x else Ok(Not(x.e), x.pos)
      else
        Parse(3, toks, pos)
    else
      var first := Parse(level + 1, toks, pos);
      if first.Fail? then first
      else if level == 3 then
        if IsOpAt(toks, first.pos, 3) then
          var right := Parse(4, toks, first.pos + 1);
          if right.Fail? then right else Ok(Bin(toks[first.pos].op, first.e, right.e), right.pos)
        else first
      else
        ParseRest(level, first.e, toks, first.pos)
  }

  /** The repetition of a left-associative rule, with `left` already read. */
  function ParseRest(level: nat, left: Expr, toks: seq<Token>, pos: nat): (r: Parsed)
    requires level <= 5 && Terminated(toks) && pos < |toks|
    ensures r.Ok? ==> pos <= r.pos < |toks|
    decreases |toks| - pos, FACTOR - level, 0
  {
    if IsOpAt(toks, pos, level) then
      var right := Parse(level + 1, toks, pos + 1);
      if right.Fail? then right else ParseRest(level, Bin(toks[pos].op, left, right.e), toks, right.pos)
    else
      Ok(left, pos)
  }

  function ParseFactor(toks: seq<Token>, pos: nat): (r: Parsed)
    requires Terminated(toks) && pos < |toks|
    ensures r.Ok? ==> pos < r.pos < |toks|
    decreases |toks| - pos, 0, 0
  {
    match toks[pos]
    case Number(lit) => Ok(Num(lit), pos + 1)
    case Str(text) => Ok(Lit(text), pos + 1)
    case Path(path) => Ok(Ref(path), pos + 1)
    case LParen =>
      var x := Parse(0, toks, pos + 1);
      if x.Fail? then x
      else if toks[x.pos] != RParen then Fail(MissingParen)
      else Ok(Group(x.e), x.pos + 1)
    case Op(op) =>
      if op == Minus then
        var x := ParseFactor(toks, pos + 1);
        if x.Fail? then x else Ok(Neg(x.e), x.pos)
      else Fail(UnexpectedToken)
    case _ => Fail(UnexpectedToken)
  }

  lemma ParseFactorFails(toks: seq<Token>, pos: nat)
    requires Terminated(toks) && pos < |toks| && (toks[pos].RParen? || toks[pos].EOF? || (toks[pos].Op? && toks[pos].op != Minus))
    ensures Parse(FACTOR, toks, pos) == Fail(UnexpectedToken)
  {
    assert Parse(FACTOR, toks, pos) == ParseFactor(toks, pos);
  }

  lemma ParseFactorGroup(toks: seq<Token>, pos: nat)
    requires Terminated(toks) && pos < |toks| && toks[pos] == LParen
    ensures pos + 1 < |toks|
    ensures var x := Parse(0, toks, pos + 1);
            Parse(FACTOR, toks, pos) == if x.Fail? then x else if toks[x.pos] != RParen then Fail(MissingParen) else Ok(Group(x.e), x.pos + 1)
  {
    assert Parse(FACTOR, toks, pos) == ParseFactor(toks, pos);
  }

  // ---- soundness: what the parser returns derives the tokens it read ----

  ghost predicate Derives(e: Expr, level: nat, toks: seq<Token>, i: nat, j: nat) {
    Derivable(e) && Level(e) >= level && i <= j <= |toks| && toks[i..j] == Tokens(e)
  }

  lemma DerivesBin(op: OpSym, l: Expr, r: Expr, toks: seq<Token>, i: nat, m: nat, j: nat)
    requires OpLevel(op) <= 5 && m < |toks| && toks[m] == Op(op)
    requires Derives(l, LeftLevel(OpLevel(op)), toks, i, m)
    requires Derives(r, OpLevel(op) + 1, toks, m + 1, j)
    ensures Derives(Bin(op, l, r), OpLevel(op), toks, i, j)
  {
    assert toks[i..j] == toks[i..m] + [toks[m]] + toks[m + 1..j];
  }

  lemma DerivesPrefix(op: OpSym, x: Expr, toks: seq<Token>, i: nat, j: nat)
    requires i < |toks| && toks[i] == Op(op)
    ensures op == Minus && Derives(x, FACTOR, toks, i + 1, j) ==> Derives(Neg(x), FACTOR, toks, i, j)
    ensures op == Bang && Derives(x, 2, toks, i + 1, j) ==> Derives(Not(x), 2, toks, i, j)
  {
    if i < j <= |toks| {
      assert toks[i..j] == [toks[i]] + toks[i + 1..j];
    }
  }

  lemma DerivesGroup(x: Expr, toks: seq<Token>, i: nat, j: nat)
    requires i < |toks| && j < |toks| && toks[i] == LParen && toks[j] == RParen
    requires Derives(x, 0, toks, i + 1, j)
    ensures Derives(Group(x), FACTOR, toks, i, j + 1)
  {
    assert toks[i..j + 1] == [toks[i]] + toks[i + 1..j] + [toks[j]];
  }

  lemma {:induction false} ParseSound(level: nat, toks: seq<Token>, pos: nat)
    requires level <= FACTOR && Terminated(toks) && pos < |toks|
    requires Parse(level, toks, pos).Ok?
    ensures var r := Parse(level, toks, pos); Derives(r.e, level, toks, pos, r.pos)
    decreases |toks| - pos, FACTOR - level, 1
  {
    if level == FACTOR {
      ParseFactorSound(toks, pos);
    } else if level == 2 {
      if toks[pos] == Op(Bang) {
        ParseSound(2, toks, pos + 1);
        var x := Parse(2, toks, pos + 1);
        DerivesPrefix(Bang, x.e, toks, pos, x.pos);
      } else {
        ParseSound(3, toks, pos);
      }
    } else {
      ParseSound(level + 1, toks, pos);
      var first := Parse(level + 1, toks, pos);
      if level == 3 {
        if IsOpAt(toks, first.pos, 3) {
          ParseSound(4, toks, first.pos + 1);
          var right := Parse(4, toks, first.pos + 1);
          DerivesBin(toks[first.pos].op, first.e, right.e, toks, pos, first.pos, right.pos);
        }
      } else {
        ParseRestSound(level, first.e, toks, pos, first.pos);
      }
    }
  }

  lemma {:induction false} ParseRestSound(level: nat, left: Expr, toks: seq<Token>, start: nat, pos: nat)
    requires level <= 5 && level != 2 && level != 3 && Terminated(toks) && pos < |toks|
    requires Derives(left, level, toks, start, pos)
    requires ParseRest(level, left, toks, pos).Ok?
    ensures var r := ParseRest(level, left, toks, pos); Derives(r.e, level, toks, start, r.pos)
    decreases |toks| - pos, FACTOR - level, 0
  {
    if IsOpAt(toks, pos, level) {
      ParseSound(level + 1, toks, pos + 1);
      var right := Parse(level + 1, toks, pos + 1);
      var op := toks[pos].op;
      DerivesBin(op, left, right.e, toks, start, pos, right.pos);
      ParseRestSound(level, Bin(op, left, right.e), toks, start, right.pos);
    }
  }

  lemma {:induction false} ParseFactorSound(toks: seq<Token>, pos: nat)
    requires Terminated(toks) && pos < |toks| && ParseFactor(toks, pos).Ok?
    ensures var r := ParseFactor(toks, pos); Derives(r.e, FACTOR, toks, pos, r.pos)
    decreases |toks| - pos, 0, 0
  {
    match toks[pos]
    case LParen =>
      ParseSound(0, toks, pos + 1);
      var x := Parse(0, toks, pos + 1);
      DerivesGroup(x.e, toks, pos, x.pos);
    case Op(op) =>
      ParseFactorSound(toks, pos + 1);
      var x := ParseFactor(toks, pos + 1);
      DerivesPrefix(Minus, x.e, toks, pos, x.pos);
    case Number(_) => assert toks[pos..pos + 1] == [toks[pos]];
    case Str(_) => assert toks[pos..pos + 1] == [toks[pos]];
    case Path(_) => assert toks[pos..pos + 1] == [toks[pos]];
    case _ =>
  }

  // ---- completeness: every derivation is found ----

  /** The token at j cannot extend an expression of a rule between low and `term`. */
  predicate Stops(toks: seq<Token>, j: nat, low: nat) {
    j < |toks| && (toks[j].Op? ==> !(low <= OpLevel(toks[j].op) <= 5))
  }

  lemma DerivesBinParts(e: Expr, toks: seq<Token>, i: nat, j: nat) returns (m: nat)
    requires e.Bin? && Derives(e, OpLevel(e.op), toks, i, j)
    ensures i < m < j && toks[m] == Op(e.op)
    ensures Derives(e.left, LeftLevel(OpLevel(e.op)), toks, i, m)
    ensures Derives(e.right, OpLevel(e.op) + 1, toks, m + 1, j)
  {
    m := i + |Tokens(e.left)|;
    var ts := toks[i..j];
    assert toks[i..m] == ts[..m - i] == Tokens(e.left);
    assert toks[m] == ts[m - i];
    assert toks[m + 1..j] == ts[m + 1 - i..] == Tokens(e.right);
  }

  lemma DerivesUnaryParts(e: Expr, toks: seq<Token>, i: nat, j: nat)
    requires (e.Not? || e.Neg?) && Derives(e, 0, toks, i, j)
    ensures i + 1 < j && toks[i] == (if e.Not? then Op(Bang) else Op(Minus))
    ensures Derives(e.arg, if e.Not? then 2 else FACTOR, toks, i + 1, j)
  {
    var ts := toks[i..j];
    assert toks[i] == ts[0];
    assert toks[i + 1..j] == ts[1..] == Tokens(e.arg);
  }

  lemma DerivesGroupParts(e: Expr, toks: seq<Token>, i: nat, j: nat)
    requires e.Group? && Derives(e, 0, toks, i, j)
    ensures i + 2 < j && toks[i] == LParen && toks[j - 1] == RParen
    ensures Derives(e.inner, 0, toks, i + 1, j - 1)
  {
    Bracketed(toks, i, j, Tokens(e.inner));
  }

  lemma Bracketed(toks: seq<Token>, i: nat, j: nat, inner: seq<Token>)
    requires i <= j <= |toks| && toks[i..j] == [LParen] + inner + [RParen]
    ensures j == i + |inner| + 2 && toks[i] == LParen && toks[j - 1] == RParen
    ensures toks[i + 1..j - 1] == inner
  {
    var ts := [LParen] + inner + [RParen];
    assert |toks[i..j]| == |ts|;
    assert toks[i..j][0] == ts[0] && toks[i..j][|ts| - 1] == ts[|ts| - 1];
    forall k | 0 <= k < |inner| ensures toks[i + 1 + k] == inner[k] {
      assert toks[i..j][1 + k] == ts[1 + k];
    }
  }

  lemma {:induction false} NoLeadingBang(e: Expr)
    requires Derivable(e) && Level(e) >= 3
    ensures Tokens(e)[0] != Op(Bang)
  {
    if e.Bin? {
      NoLeadingBang(e.left);
    }
  }

  lemma {:induction false} ParseComplete(level: nat, e: Expr, toks: seq<Token>, i: nat, j: nat)
    requires level <= FACTOR && Terminated(toks)
    requires Derives(e, level, toks, i, j) && Stops(toks, j, level)
    ensures Parse(level, toks, i) == Ok(e, j)
    decreases e, FACTOR - level, 1
  {
    if level == FACTOR {
      FactorComplete(e, toks, i, j);
    } else if level == 2 {
      if e.Not? {
        DerivesUnaryParts(e, toks, i, j);
        ParseComplete(2, e.arg, toks, i + 1, j);
      } else {
        NoLeadingBang(e);
        assert toks[i] == toks[i..j][0];
        ParseComplete(3, e, toks, i, j);
      }
    } else if level == 3 {
      if Level(e) == 3 {
        var m := DerivesBinParts(e, toks, i, j);
        ParseComplete(4, e.left, toks, i, m);
        ParseComplete(4, e.right, toks, m + 1, j);
      } else {
        ParseComplete(4, e, toks, i, j);
      }
    } else {
      SpineComplete(level, e, toks, i, j);
    }
  }

  /** Reading a left-associative chain up to j leaves exactly its tree on the left of the repetition. */
  lemma {:induction false} SpineComplete(level: nat, e: Expr, toks: seq<Token>, i: nat, j: nat)
    requires level <= 5 && level != 2 && level != 3 && Terminated(toks)
    requires Derives(e, level, toks, i, j) && Stops(toks, j, level + 1)
    ensures Parse(level, toks, i) == ParseRest(level, e, toks, j)
    decreases e, FACTOR - level, 0
  {
    if Level(e) == level {
      var m := DerivesBinParts(e, toks, i, j);
      SpineComplete(level, e.left, toks, i, m);
      ParseComplete(level + 1, e.right, toks, m + 1, j);
    } else {
      ParseComplete(level + 1, e, toks, i, j);
    }
  }

  lemma {:induction false} FactorComplete(e: Expr, toks: seq<Token>, i: nat, j: nat)
    requires Terminated(toks) && Derives(e, FACTOR, toks, i, j) && j < |toks|
    ensures ParseFactor(toks, i) == Ok(e, j)
    decreases e, 0, 0
  {
    assert toks[i] == toks[i..j][0];
    match e
    case Group(x) =>
      DerivesGroupParts(e, toks, i, j);
      ParseComplete(0, x, toks, i + 1, j - 1);
    case Neg(x) =>
      DerivesUnaryParts(e, toks, i, j);
      FactorComplete(x, toks, i + 1, j);
    case Bin(_, _, _) =>
    case Not(_) =>
    case _ =>
  }

  /** The whole token list is one expression. */
  predicate Accepts(toks: seq<Token>, e: Expr)
    requires EOF !in toks
  {
    TerminatedAppend(toks);
    Parse(0, toks + [EOF], 0) == Ok(e, |toks|)
  }

  lemma TerminatedAppend(toks: seq<Token>)
    requires EOF !in toks
    ensures Terminated(toks + [EOF])
  {
    forall k | 0 <= k < |toks| ensures (toks + [EOF])[k] != EOF {
      assert (toks + [EOF])[k] in toks;
    }
  }

  /** The parser accepts exactly the derivations of the grammar. */
  lemma AcceptsExactly(toks: seq<Token>, e: Expr)
    requires EOF !in toks
    ensures Accepts(toks, e) <==> Derivable(e) && Tokens(e) == toks
  {
    TerminatedAppend(toks);
    var all := toks + [EOF];
    assert all[0..|toks|] == toks;
    if Accepts(toks, e) {
      ParseSound(0, all, 0);
    }
    if Derivable(e) && Tokens(e) == toks {
      assert Derives(e, 0, all, 0, |toks|);
      ParseComplete(0, e, all, 0, |toks|);
    }
  }

  /** No token list has two derivations. */
  lemma Unambiguous(e1: Expr, e2: Expr)
    requires Derivable(e1) && Derivable(e2) && Tokens(e1) == Tokens(e2) && EOF !in Tokens(e1)
    ensures e1 == e2
  {
    AcceptsExactly(Tokens(e1), e1);
    AcceptsExactly(Tokens(e1), e2);
  }

  // ---- parentheses where the grammar needs them ----

  function AtLeast(e: Expr, level: nat): (r: Expr)
    requires level <= FACTOR
    ensures Level(r) >= level
    ensures Derivable(e) ==> Derivable(r)
  {
    if Level(e) >= level then e else Group(e)
  }

  /** A tree whose binary nodes carry binary operators. */
  predicate WellFormed(e: Expr) {
    match e
    case Group(x) => WellFormed(x)
    case Neg(x) => WellFormed(x)
    case Not(x) => WellFormed(x)
    case Bin(op, l, r) => op != Bang && WellFormed(l) && WellFormed(r)
    case _ => true
  }

  /** e with parentheses added exactly where its operands would otherwise be read differently. */
  function Grouped(e: Expr): (r: Expr)
    requires WellFormed(e)
    ensures Derivable(r)
  {
    match e
    case Group(x) => Group(Grouped(x))
    case Neg(x) => Neg(AtLeast(Grouped(x), FACTOR))
    case Not(x) => Not(AtLeast(Grouped(x), 2))
    case Bin(op, l, r) =>
      Bin(op, AtLeast(Grouped(l), LeftLevel(OpLevel(op))), AtLeast(Grouped(r), OpLevel(op) + 1))
    case _ => e
  }

  /** A tree without its parentheses. */
  function Bare(e: Expr): (r: Expr)
    ensures !r.Group?
  {
    match e
    case Group(x) => Bare(x)
    case Neg(x) => Neg(Bare(x))
    case Not(x) => Not(Bare(x))
    case Bin(op, l, r) => Bin(op, Bare(l), Bare(r))
    case _ => e
  }

  lemma {:induction false} GroupedIsSameTree(e: Expr)
    requires WellFormed(e)
    ensures Bare(Grouped(e)) == Bare(e)
    ensures Derivable(e) ==> Grouped(e) == e
  {
    match e
    case Group(x) => GroupedIsSameTree(x);
    case Neg(x) => GroupedIsSameTree(x);
    case Not(x) => GroupedIsSameTree(x);
    case Bin(op, l, r) => GroupedIsSameTree(l); GroupedIsSameTree(r);
    case _ =>
  }
}
