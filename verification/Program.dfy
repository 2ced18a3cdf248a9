/**
 * The flat condition program and the parser object that fills it.
 *
 * Nodes live in one array and name their children by index. `Represents` says which tree a node
 * stands for; `Descending` says that children precede their parents.
 */
module Program {
  import opened Values
  import opened Tokenizer
  import opened Grammar

  datatype Operator =
    | OpOr | OpAnd | OpNot
    | OpEqual | OpNotEqual | OpGreater | OpGreaterEqual | OpLess | OpLessEqual
    | OpAdd | OpSubtract | OpMultiply | OpDivide | OpModulo
    | OpNegate

  datatype EvalError =
    | BadInteger(lit: string)
    | BadFloat(lit: string)
    | NoStore
    | MissingPath(path: string)
    | NotBool
    | NotScalar
    | TypeMismatch
    | NotNumeric
    | NotInteger
    | DivisionByZero
    | OutOfRange
    | BadNodeIndex(index: int)
    | UnknownOperator

  datatype Node<F> =
    | Literal(value: Value<F>)
    | PathRef(text: string)
    | RuntimeError(error: EvalError)
    | Unary(op: Operator, left: int)
    | Binary(op: Operator, left: int, right: int)

  datatype Program<F> = Program(root: int, nodes: seq<Node<F>>)

  function BinaryOperator(op: OpSym): Operator {
    match op
    case OrOr => OpOr
    case AndAnd => OpAnd
    case EqEq => OpEqual
    case NotEq => OpNotEqual
    case Greater => OpGreater
    case GreaterEq => OpGreaterEqual
    case Less => OpLess
    case LessEq => OpLessEqual
    case Plus => OpAdd
    case Minus => OpSubtract
    case Star => OpMultiply
    case Slash => OpDivide
    case Percent => OpModulo
    case Bang => OpNot
  }

  datatype Number<F> = Parsed(value: Value<F>) | Unparsable(error: EvalError)

  /** The value of a number literal; an overflowing one becomes an error raised at evaluation. */
  function ParseNumber<F>(fl: FloatOps<F>, lit: string): Number<F> {
    if '.' in lit then
      match fl.parse(lit)
      case Some(f) => Parsed(Float(f))
      case None => Unparsable(BadFloat(lit))
    else
      match ParseInt64(lit)
      case Some(i) => Parsed(Signed(W64, i))
      case None => Unparsable(BadInteger(lit))
  }

  function NumberNode<F>(fl: FloatOps<F>, lit: string): Node<F> {
    match ParseNumber(fl, lit)
    case Parsed(v) => Literal(v)
    case Unparsable(err) => RuntimeError(err)
  }

  // ---- what a flat program means ----

  predicate Descending<F>(nodes: seq<Node<F>>) {
    forall k :: 0 <= k < |nodes| ==> ChildrenBelow(nodes[k], k)
  }

  predicate ChildrenBelow<F>(n: Node<F>, k: int) {
    match n
    case Unary(_, l) => l < k
    case Binary(_, l, r) => l < k && r < k
    case _ => true
  }

  /** Node `index` stands for the tree e; parentheses leave no node. */
  ghost predicate Represents<F>(fl: FloatOps<F>, nodes: seq<Node<F>>, index: int, e: Expr)
    decreases e
  {
    && 0 <= index < |nodes|
    && match e
       case Num(lit) => nodes[index] == NumberNode(fl, lit)
       case Lit(text) => nodes[index] == Literal(Text(text))
       case Ref(path) => nodes[index] == PathRef(path)
       case Group(x) => Represents(fl, nodes, index, x)
       case Neg(x) =>
         && nodes[index].Unary? && nodes[index].op == OpNegate
         && Represents(fl, nodes, nodes[index].left, x)
       case Not(x) =>
         && nodes[index].Unary? && nodes[index].op == OpNot
         && Represents(fl, nodes, nodes[index].left, x)
       case Bin(op, l, r) =>
         && nodes[index].Binary? && nodes[index].op == BinaryOperator(op)
         && Represents(fl, nodes, nodes[index].left, l)
         && Represents(fl, nodes, nodes[index].right, r)
  }

  lemma {:induction false} RepresentsExtend<F>(fl: FloatOps<F>, nodes: seq<Node<F>>, more: seq<Node<F>>, index: int, e: Expr)
    requires Represents(fl, nodes, index, e) && nodes <= more
    ensures Represents(fl, more, index, e)
    decreases e
  {
    assert more[index] == nodes[index];
    match e
    case Group(x) => RepresentsExtend(fl, nodes, more, index, x);
    case Neg(x) => RepresentsExtend(fl, nodes, more, nodes[index].left, x);
    case Not(x) => RepresentsExtend(fl, nodes, more, nodes[index].left, x);
    case Bin(_, l, r) =>
      RepresentsExtend(fl, nodes, more, nodes[index].left, l);
      RepresentsExtend(fl, nodes, more, nodes[index].right, r);
    case _ =>
  }

  lemma {:induction false} RepresentsBare<F>(fl: FloatOps<F>, nodes: seq<Node<F>>, index: int, e: Expr)
    ensures Represents(fl, nodes, index, e) <==> Represents(fl, nodes, index, Bare(e))
    decreases e
  {
    if 0 <= index < |nodes| {
      match e
      case Group(x) => RepresentsBare(fl, nodes, index, x);
      case Neg(x) => if nodes[index].Unary? { RepresentsBare(fl, nodes, nodes[index].left, x); }
      case Not(x) => if nodes[index].Unary? { RepresentsBare(fl, nodes, nodes[index].left, x); }
      case Bin(_, l, r) =>
        if nodes[index].Binary? {
          RepresentsBare(fl, nodes, nodes[index].left, l);
          RepresentsBare(fl, nodes, nodes[index].right, r);
        }
      case _ =>
    }
  }

  // ---- the parser object ----

  datatype IndexResult = Index(index: nat) | Rejected(error: ParseError)

  predicate IsTermOp(t: Token)
    ensures IsTermOp(t) <==> t.Op? && OpLevel(t.op) == 5
  {
    t == Op(Star) || t == Op(Slash) || t == Op(Percent)
  }

  class ConditionParser<F> {
    const fl: FloatOps<F>
    const tokens: seq<Token>
    var pos: nat
    var nodes: seq<Node<F>>

    ghost predicate Valid()
      reads this
    {
      Terminated(tokens) && pos < |tokens| && Descending(nodes)
    }

    /** r is the node for what `Parse` reads at rule `level` from `start`, and everything before it is untouched. */
    ghost predicate Parsed(level: nat, start: nat, was: seq<Node<F>>, r: IndexResult)
      requires Terminated(tokens) && start < |tokens| && level <= FACTOR
      reads this
    {
      && was <= nodes
      && match Parse(level, tokens, start)
         case Fail(err) => r == Rejected(err)
         case Ok(e, end) => r.Index? && pos == end && Represents(fl, nodes, r.index, e)
    }

    /** A left operand has been read and the repetition of rule `level` goes on from pos. */
    ghost predicate Looping(level: nat, start: nat, was: seq<Node<F>>, left: nat, e: Expr)
      requires Terminated(tokens) && start < |tokens| && level <= 5
      reads this
    {
      && Valid()
      && start <= pos
      && was <= nodes
      && Represents(fl, nodes, left, e)
      && Parse(level, tokens, start) == ParseRest(level, e, tokens, pos)
    }

    constructor (fl: FloatOps<F>, tokens: seq<Token>)
      requires Terminated(tokens)
      ensures Valid() && pos == 0 && nodes == [] && this.tokens == tokens && this.fl == fl
    {
      this.fl := fl;
      this.tokens := tokens;
      pos := 0;
      nodes := [];
    }

    method Next()
      requires Valid()
      modifies this`pos
      ensures pos == if tokens[old(pos)] == EOF then old(pos) else old(pos) + 1
      ensures Valid()
    {
      if tokens[pos] != EOF {
        pos := pos + 1;
      }
    }

    method AddNode(n: Node<F>) returns (index: nat)
      requires Valid() && ChildrenBelow(n, |nodes|)
      modifies this`nodes
      ensures Valid() && nodes == old(nodes) + [n] && index == |old(nodes)|
    {
      nodes := nodes + [n];
      index := |nodes| - 1;
    }

    method AddUnary(op: Operator, child: nat, ghost x: Expr) returns (index: nat)
      requires Valid() && Represents(fl, nodes, child, x)
      modifies this`nodes
      ensures Valid() && old(nodes) <= nodes
      ensures op == OpNot ==> Represents(fl, nodes, index, Not(x))
      ensures op == OpNegate ==> Represents(fl, nodes, index, Neg(x))
    {
      index := AddNode(Unary(op, child));
      RepresentsExtend(fl, old(nodes), nodes, child, x);
    }

    method AddBinary(sym: OpSym, left: nat, right: nat, ghost l: Expr, ghost r: Expr) returns (index: nat)
      requires Valid() && Represents(fl, nodes, left, l) && Represents(fl, nodes, right, r)
      modifies this`nodes
      ensures Valid() && old(nodes) <= nodes
      ensures Represents(fl, nodes, index, Bin(sym, l, r))
    {
      index := AddNode(Binary(BinaryOperator(sym), left, right));
      RepresentsExtend(fl, old(nodes), nodes, left, l);
      RepresentsExtend(fl, old(nodes), nodes, right, r);
    }

    /** The left operand was finished before the right one was read. */
    method Join(sym: OpSym, left: nat, right: nat, ghost before: seq<Node<F>>, ghost l: Expr, ghost r: Expr) returns (index: nat)
      requires Valid() && before <= nodes && Represents(fl, before, left, l) && Represents(fl, nodes, right, r)
      modifies this`nodes
      ensures Valid() && old(nodes) <= nodes
      ensures Represents(fl, nodes, index, Bin(sym, l, r))
    {
      RepresentsExtend(fl, before, nodes, left, l);
      index := AddBinary(sym, left, right, l, r);
    }

    method ParseOr() returns (r: IndexResult)
      requires Valid()
      modifies this`pos, this`nodes
      ensures Valid() && Parsed(0, old(pos), old(nodes), r)
      decreases |tokens| - pos, 6
    {
      ghost var start, was := pos, nodes;
      r := ParseAnd();
      if r.Rejected? { return; }
      var left := r.index;
      ghost var e := Parse(1, tokens, start).e;
      while tokens[pos] == Op(OrOr)
        invariant start < pos && Looping(0, start, was, left, e)
        decreases |tokens| - pos
      {
        var sym := tokens[pos].op;
        ghost var at, before := pos, nodes;
        Next();
        r := ParseAnd();
        if r.Rejected? { return; }
        ghost var right := Parse(1, tokens, at + 1).e;
        left := Join(sym, left, r.index, before, e, right);
        e := Bin(sym, e, right);
      }
      r := Index(left);
    }

    method ParseAnd() returns (r: IndexResult)
      requires Valid()
      modifies this`pos, this`nodes
      ensures Valid() && Parsed(1, old(pos), old(nodes), r)
      decreases |tokens| - pos, 5
    {
      ghost var start, was := pos, nodes;
      r := ParseUnary();
      if r.Rejected? { return; }
      var left := r.index;
      ghost var e := Parse(2, tokens, start).e;
      while tokens[pos] == Op(AndAnd)
        invariant start < pos && Looping(1, start, was, left, e)
        decreases |tokens| - pos
      {
        var sym := tokens[pos].op;
        ghost var at, before := pos, nodes;
        Next();
        r := ParseUnary();
        if r.Rejected? { return; }
        ghost var right := Parse(2, tokens, at + 1).e;
        left := Join(sym, left, r.index, before, e, right);
        e := Bin(sym, e, right);
      }
      r := Index(left);
    }

    method ParseUnary() returns (r: IndexResult)
      requires Valid()
      modifies this`pos, this`nodes
      ensures Valid() && Parsed(2, old(pos), old(nodes), r)
      decreases |tokens| - pos, 4
    {
      ghost var start := pos;
      if tokens[pos] == Op(Bang) {
        Next();
        r := ParseUnary();
        if r.Rejected? { return; }
        var index := AddUnary(OpNot, r.index, Parse(2, tokens, start + 1).e);
        r := Index(index);
      } else {
        r := ParseComparison();
      }
    }

    method ParseComparison() returns (r: IndexResult)
      requires Valid()
      modifies this`pos, this`nodes
      ensures Valid() && Parsed(3, old(pos), old(nodes), r)
      decreases |tokens| - pos, 3
    {
      ghost var start := pos;
      r := ParseArithmetic();
      if r.Rejected? { return; }
      var left := r.index;
      ghost var e := Parse(4, tokens, start).e;
      if IsOpAt(tokens, pos, 3) {
        var sym := tokens[pos].op;
        ghost var at, before := pos, nodes;
        Next();
        r := ParseArithmetic();
        if r.Rejected? { return; }
        var index := Join(sym, left, r.index, before, e, Parse(4, tokens, at + 1).e);
        r := Index(index);
      }
    }

    method ParseArithmetic() returns (r: IndexResult)
      requires Valid()
      modifies this`pos, this`nodes
      ensures Valid() && Parsed(4, old(pos), old(nodes), r)
      decreases |tokens| - pos, 2
    {
      ghost var start, was := pos, nodes;
      r := ParseTerm();
      if r.Rejected? { return; }
      var left := r.index;
      ghost var e := Parse(5, tokens, start).e;
      while tokens[pos] == Op(Plus) || tokens[pos] == Op(Minus)
        invariant start < pos && Looping(4, start, was, left, e)
        decreases |tokens| - pos
      {
        var sym := tokens[pos].op;
        ghost var at, before := pos, nodes;
        Next();
        r := ParseTerm();
        if r.Rejected? { return; }
        ghost var right := Parse(5, tokens, at + 1).e;
        left := Join(sym, left, r.index, before, e, right);
        e := Bin(sym, e, right);
      }
      r := Index(left);
    }

    method ParseTerm() returns (r: IndexResult)
      requires Valid()
      modifies this`pos, this`nodes
      ensures Valid() && Parsed(5, old(pos), old(nodes), r)
      decreases |tokens| - pos, 1
    {
      ghost var start, was := pos, nodes;
      r := ParseFactor();
      if r.Rejected? { return; }
      var left := r.index;
      ghost var e := Parse(6, tokens, start).e;
      while IsTermOp(tokens[pos])
        invariant start < pos && Looping(5, start, was, left, e)
        decreases |tokens| - pos
      {
        var sym := tokens[pos].op;
        ghost var at, before := pos, nodes;
        Next();
        r := ParseFactor();
        if r.Rejected? { return; }
        ghost var right := Parse(6, tokens, at + 1).e;
        left := Join(sym, left, r.index, before, e, right);
        e := Bin(sym, e, right);
      }
      r := Index(left);
    }

    method ParseFactor() returns (r: IndexResult)
      requires Valid()
      modifies this`pos, this`nodes
      ensures Valid() && Parsed(6, old(pos), old(nodes), r)
      decreases |tokens| - pos, 0
    {
      ghost var start := pos;
      match tokens[pos]
      case Number(lit) =>
        Next();
        var index := AddNode(NumberNode(fl, lit));
        r := Index(index);
      case Str(text) =>
        Next();
        var index := AddNode(Literal(Text(text)));
        r := Index(index);
      case Path(path) =>
        Next();
        var index := AddNode(PathRef(path));
        r := Index(index);
      case LParen =>
        ParseFactorGroup(tokens, pos);
        Next();
        r := ParseOr();
        if r.Rejected? { return; }
        if tokens[pos] != RParen { return Rejected(MissingParen); }
        Next();
      case Op(op) =>
        if op != Minus {
          ParseFactorFails(tokens, pos);
          return Rejected(UnexpectedToken);
        }
        Next();
        r := ParseFactor();
        if r.Rejected? { return; }
        var index := AddUnary(OpNegate, r.index, Parse(6, tokens, start + 1).e);
        r := Index(index);
      case _ =>
        ParseFactorFails(tokens, pos);
        return Rejected(UnexpectedToken);
    }
  }
}
