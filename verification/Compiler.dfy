/** From condition text to a compiled condition, and the theorems that tie the stages together. */
module Compiler {
  import opened Values
  import opened Tokenizer
  import opened Grammar
  import opened Program
  import opened Evaluator

  const PREFIX_STATE := "state:"
  const PREFIX_LUA := "lua:"

  datatype CompileError = MissingPrefix | LexicalError | SyntaxError(error: ParseError) | TrailingToken

  /** What a condition text stands for. */
  datatype Condition = Always | Script(name: string) | Test(e: Expr) | Invalid(error: CompileError)

  function ReadExpression(text: string): Condition {
    match Lex(text, 0)
    case None => Invalid(LexicalError)
    case Some(toks) =>
      LexSound(text, 0);
      SpelledTokensAreNotEOF(text, 0, toks);
      TerminatedAppend(toks);
      match Parse(0, toks + [EOF], 0)
      case Fail(err) => Invalid(SyntaxError(err))
      case Ok(e, end) => if end != |toks| then Invalid(TrailingToken) else Test(e)
  }

  function ReadState(text: string): Condition {
    if text == "" then Always else ReadExpression(text)
  }

  /** Reads a text without surrounding space. */
  function ReadPrefixed(s: string): Condition {
    if s == "" then Always
    else if PREFIX_LUA <= s then Script(s[|PREFIX_LUA|..])
    else if !(PREFIX_STATE <= s) then Invalid(MissingPrefix)
    else ReadState(TrimSpace(s[|PREFIX_STATE|..]))
  }

  function Read(source: string): Condition {
    ReadPrefixed(TrimSpace(source))
  }

  // ---- the compiler ----

  datatype Compiled<F> = StateProgram(program: Program<F>) | LuaScript(name: string)
  datatype CompileResult<F> = Compiles(condition: Compiled<F>) | Refused(error: CompileError)

  /** The program has no node that reads a later node, and it stands for what the text says. */
  ghost predicate Implements<F>(fl: FloatOps<F>, r: CompileResult<F>, c: Condition) {
    match c
    case Always => r == Compiles(StateProgram(Program(0, [Literal(Bool(true))])))
    case Script(name) => r == Compiles(LuaScript(name))
    case Invalid(err) => r == Refused(err)
    case Test(e) =>
      && r.Compiles? && r.condition.StateProgram?
      && Descending(r.condition.program.nodes)
      && Represents(fl, r.condition.program.nodes, r.condition.program.root, e)
  }

  method CompileExpression<F>(fl: FloatOps<F>, text: string) returns (r: CompileResult<F>)
    ensures Implements(fl, r, ReadExpression(text))
  {
    var tokens := Tokenize(text);
    if tokens.None? { return Refused(LexicalError); }
    ghost var toks := Lex(text, 0).value;
    LexSound(text, 0);
    SpelledTokensAreNotEOF(text, 0, toks);
    TerminatedAppend(toks);
    var parser := new ConditionParser(fl, tokens.value);
    var root := parser.ParseOr();
    if root.Rejected? { return Refused(SyntaxError(root.error)); }
    if parser.tokens[parser.pos] != EOF { return Refused(TrailingToken); }
    r := Compiles(StateProgram(Program(root.index, parser.nodes)));
  }

  method CompileCondition<F>(fl: FloatOps<F>, source: string) returns (r: CompileResult<F>)
    ensures Implements(fl, r, Read(source))
  {
    var s := TrimSpace(source);
    if s == "" { return Compiles(StateProgram(Program(0, [Literal(Bool(true))]))); }
    if PREFIX_LUA <= s { return Compiles(LuaScript(s[|PREFIX_LUA|..])); }
    if !(PREFIX_STATE <= s) { return Refused(MissingPrefix); }
    var text := TrimSpace(s[|PREFIX_STATE|..]);
    if text == "" { return Compiles(StateProgram(Program(0, [Literal(Bool(true))]))); }
    r := CompileExpression(fl, text);
  }

  ghost predicate Remembers<F>(fl: FloatOps<F>, s: string, c: Compiled<F>) {
    Implements(fl, Compiles(c), Read(s))
  }

  lemma ImplementsTrimmed<F>(fl: FloatOps<F>, source: string, r: CompileResult<F>)
    requires Implements(fl, r, Read(TrimSpace(source)))
    ensures Implements(fl, r, Read(source))
    ensures r.Compiles? ==> Remembers(fl, TrimSpace(source), r.condition)
  {
    ReadTrimmed(source);
  }

  /** Compiles each distinct text once; a remembered program is as good as a fresh one. */
  class ConditionCompiler<F> {
    const fl: FloatOps<F>
    var conditions: map<string, Compiled<F>>

    ghost predicate Valid()
      reads this
    {
      forall s :: s in conditions ==> Remembers(fl, s, conditions[s])
    }

    constructor (fl: FloatOps<F>)
      ensures Valid() && this.fl == fl && conditions == map[]
    {
      this.fl := fl;
      conditions := map[];
    }

    method Compile(source: string) returns (r: CompileResult<F>)
      requires Valid()
      modifies this`conditions
      ensures Valid()
      ensures Implements(fl, r, Read(source))
      ensures old(conditions.Keys) <= conditions.Keys
      ensures r.Compiles? ==> TrimSpace(source) in conditions && conditions[TrimSpace(source)] == r.condition
    {
      var s := TrimSpace(source);
      if s in conditions {
        assert Remembers(fl, s, conditions[s]);
        ImplementsTrimmed(fl, source, Compiles(conditions[s]));
        return Compiles(conditions[s]);
      }
      r := CompileCondition(fl, s);
      ImplementsTrimmed(fl, source, r);
      if r.Compiles? {
        conditions := conditions[s := r.condition];
      }
    }
  }

  lemma ReadTrimmed(source: string)
    ensures Read(TrimSpace(source)) == Read(source)
  {
    var s := TrimSpace(source);
    if s != "" {
      TrimSpaceIdentity(s);
    }
  }

  /** Evaluates a compiled condition; a script condition is always false here. */
  method EvalState<F>(fl: FloatOps<F>, env: Env<F>, c: Compiled<F>, ghost cond: Condition) returns (b: bool, logged: Option<EvalError>)
    requires Implements(fl, Compiles(c), cond)
    ensures cond.Always? ==> b && logged == None
    ensures cond.Script? ==> !b
    ensures cond.Test? ==> b == (Denote(fl, env, cond.e).res == Val(Bool(true)))
    ensures cond.Test? ==> logged == Denote(fl, env, cond.e).first
  {
    if c.LuaScript? { return false, None; }
    b, logged := Eval(fl, env, c.program, if cond.Test? then cond.e else Lit(""));
  }

  // ---- theorems ----

  /** Leaves that the lexer can read. */
  ghost predicate ValidLeaves(e: Expr) {
    forall t :: t in Tokens(e) ==> ValidToken(t)
  }

  /** An expression printed with single blanks and the parentheses it needs. */
  function Print(e: Expr): string
    requires WellFormed(e)
  {
    Render(Tokens(Grouped(e)))
  }

  lemma {:induction false} GroupedTokens(e: Expr, t: Token)
    requires WellFormed(e) && t in Tokens(Grouped(e))
    ensures t in Tokens(e) || t == LParen || t == RParen
    decreases e
  {
    match e
    case Group(x) => if t in Tokens(Grouped(x)) { GroupedTokens(x, t); }
    case Neg(x) => if t in Tokens(Grouped(x)) { GroupedTokens(x, t); }
    case Not(x) => if t in Tokens(Grouped(x)) { GroupedTokens(x, t); }
    case Bin(op, l, r) =>
      if t in Tokens(Grouped(l)) { GroupedTokens(l, t); }
      if t in Tokens(Grouped(r)) { GroupedTokens(r, t); }
    case _ =>
  }

  lemma GroupedLeaves(e: Expr)
    requires WellFormed(e) && ValidLeaves(e)
    ensures ValidTokens(Tokens(Grouped(e)))
  {
    forall t | t in Tokens(Grouped(e)) ensures ValidToken(t) {
      GroupedTokens(e, t);
    }
  }

  lemma ReadPrinted(s: string, text: string)
    requires text != "" && !IsUnicodeSpace(text[0]) && !IsUnicodeSpace(text[|text| - 1])
    requires s == PREFIX_STATE + text
    ensures Read(s) == ReadExpression(text)
  {
    assert s[0] == 's' && s[|s| - 1] == text[|text| - 1];
    TrimSpaceIdentity(s);
    ReadsBehindPrefix(s, text);
  }

  lemma ReadsBehindPrefix(s: string, text: string)
    requires text != "" && !IsUnicodeSpace(text[0]) && !IsUnicodeSpace(text[|text| - 1])
    requires s == PREFIX_STATE + text
    ensures ReadPrefixed(s) == ReadExpression(text)
  {
    TrimSpaceIdentity(text);
    assert s[0] == 's' && s[|PREFIX_STATE|..] == text;
  }

  lemma PrintedTokens(e: Expr)
    requires WellFormed(e) && ValidLeaves(e)
    ensures Lex(Print(e), 0) == Some(Tokens(Grouped(e))) && EOF !in Tokens(Grouped(e))
  {
    GroupedLeaves(e);
    LexRenderRoundTrip(Tokens(Grouped(e)));
  }

  lemma PrintedEdges(e: Expr)
    requires WellFormed(e) && ValidLeaves(e)
    ensures var x := Print(e);
            x != "" && !IsUnicodeSpace(x[0]) && !IsUnicodeSpace(x[|x| - 1])
  {
    GroupedLeaves(e);
    RenderEdges(Tokens(Grouped(e)));
  }

  /** Every expression tree, printed and read back, is the same tree with the parentheses it needs. */
  lemma PrintReadRoundTrip(e: Expr)
    requires WellFormed(e) && ValidLeaves(e)
    ensures Read(PREFIX_STATE + Print(e)) == Test(Grouped(e))
  {
    PrintedEdges(e);
    ReadPrinted(PREFIX_STATE + Print(e), Print(e));
    PrintedTokens(e);
    ReadExpressionIs(Print(e), Tokens(Grouped(e)), Grouped(e));
  }

  lemma ReadExpressionIs(text: string, toks: seq<Token>, g: Expr)
    requires Lex(text, 0) == Some(toks) && EOF !in toks && Derivable(g) && toks == Tokens(g)
    ensures ReadExpression(text) == Test(g)
  {
    AcceptsExactly(toks, g);
  }

  /** Reading back keeps the meaning, whatever the float operations and the store. */
  lemma PrintKeepsMeaning<F>(fl: FloatOps<F>, env: Env<F>, e: Expr)
    requires WellFormed(e) && ValidLeaves(e)
    ensures var c := Read(PREFIX_STATE + Print(e));
            c.Test? && Denote(fl, env, c.e) == Denote(fl, env, e)
  {
    PrintReadRoundTrip(e);
    GroupedIsSameTree(e);
    DenoteBare(fl, env, e);
    DenoteBare(fl, env, Grouped(e));
  }

  /** A text is read as a tree exactly when it spells, blanks aside and nothing cut short, a derivation of that tree. */
  lemma ReadsExactly(text: string, e: Expr)
    ensures ReadExpression(text) == Test(e) <==> Derivable(e) && Spells(text, 0, Tokens(e))
  {
    if Derivable(e) && Spells(text, 0, Tokens(e)) {
      LexComplete(text, 0, Tokens(e));
      SpelledTokensAreNotEOF(text, 0, Tokens(e));
      ReadExpressionIs(text, Tokens(e), e);
    }
    if ReadExpression(text) == Test(e) {
      LexSound(text, 0);
      SpelledTokensAreNotEOF(text, 0, Lex(text, 0).value);
      AcceptsExactly(Lex(text, 0).value, e);
    }
  }

  lemma {:induction false} DerivableIsWellFormed(e: Expr)
    requires Derivable(e)
    ensures WellFormed(e)
  {
    match e
    case Group(x) => DerivableIsWellFormed(x);
    case Neg(x) => DerivableIsWellFormed(x);
    case Not(x) => DerivableIsWellFormed(x);
    case Bin(_, l, r) => DerivableIsWellFormed(l); DerivableIsWellFormed(r);
    case _ =>
  }

  /** No accepted condition can ever fail on a bad node index or an unknown operator. */
  lemma AcceptedTextNeverFailsInternally<F>(fl: FloatOps<F>, env: Env<F>, text: string)
    requires ReadExpression(text).Test?
    ensures NotInternal(Denote(fl, env, ReadExpression(text).e))
  {
    ReadsExactly(text, ReadExpression(text).e);
    DerivableIsWellFormed(ReadExpression(text).e);
    NeverInternal(fl, env, ReadExpression(text).e);
  }
}
