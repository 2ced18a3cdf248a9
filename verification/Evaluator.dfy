/**
 * What a condition means, and the evaluator of flat programs.
 *
 * `Denote` gives every expression tree its value together with the first error met on the way.
 * In the boolean connectives an erroring operand counts as false and evaluation goes on.
 */
module Evaluator {
  import opened Values
  import opened Tokenizer
  import opened Grammar
  import opened Program

  // ---- numbers ----

  datatype NumRep<F> =
    | NotNumber
    | IntRep(i: int, u: nat, isU: bool, bigU: bool, f: F)
    | FloatRep(f: F)

  function Classify<F>(fl: FloatOps<F>, v: Value<F>): NumRep<F> {
    match v
    case Signed(_, i) => IntRep(i, 0, false, false, fl.ofInt(i))
    case Unsigned(_, u) =>
      if u > MAX_INT64 then IntRep(0, u, true, true, fl.ofInt(u)) else IntRep(u, u, true, false, fl.ofInt(u))
    case Float(f) => FloatRep(f)
    case _ => NotNumber
  }

  function CompareInts(a: int, b: int): int {
    if a < b then -1 else if a > b then 1 else 0
  }

  /** -1, 0 or 1; integers of any signedness are compared exactly, anything else as floats. */
  function CompareNumbers<F>(fl: FloatOps<F>, a: Value<F>, b: Value<F>): int
    requires Classify(fl, a) != NotNumber && Classify(fl, b) != NotNumber
  {
    var ra, rb := Classify(fl, a), Classify(fl, b);
    if ra.IntRep? && rb.IntRep? then
      var aNeg := !ra.isU && ra.i < 0;
      var bNeg := !rb.isU && rb.i < 0;
      if aNeg && bNeg then CompareInts(ra.i, rb.i)
      else if aNeg then -1
      else if bNeg then 1
      else CompareInts(if ra.isU then ra.u else ra.i, if rb.isU then rb.u else rb.i)
    else if fl.less(ra.f, rb.f) then -1
    else if fl.less(rb.f, ra.f) then 1
    else 0
  }

  /** The mathematical value of an integer of either signedness. */
  function IntValue<F>(v: Value<F>): Option<int> {
    match v
    case Signed(_, i) => Some(i)
    case Unsigned(_, u) => Some(u)
    case _ => None
  }

  /** Integer comparison is exact across signed, unsigned and beyond-int64 operands. */
  lemma CompareNumbersExact<F>(fl: FloatOps<F>, a: Value<F>, b: Value<F>)
    requires IntValue(a).Some? && IntValue(b).Some?
    ensures CompareNumbers(fl, a, b) == CompareInts(IntValue(a).value, IntValue(b).value)
  {
  }

  datatype Res<F> = Val(v: Value<F>) | Err(error: EvalError)

  function IsScalar<F>(v: Value<F>): bool {
    !v.Opaque?
  }

  predicate IsComparison(op: Operator) {
    op in {OpEqual, OpNotEqual, OpGreater, OpGreaterEqual, OpLess, OpLessEqual}
  }

  predicate IsArithmetic(op: Operator) {
    op in {OpAdd, OpSubtract, OpMultiply, OpDivide, OpModulo}
  }

  function StrictCompare<F>(fl: FloatOps<F>, op: Operator, a: Value<F>, b: Value<F>): Res<F>
    requires IsComparison(op)
  {
    var numeric := Classify(fl, a) != NotNumber && Classify(fl, b) != NotNumber;
    if !IsScalar(a) || !IsScalar(b) then
      Err(NotScalar)
    else if op == OpEqual || op == OpNotEqual then
      if numeric then
        Val(Bool((CompareNumbers(fl, a, b) == 0) == (op == OpEqual)))
      else if a.Text? && b.Text? then
        Val(Bool((a.s == b.s) == (op == OpEqual)))
      else if a.Bool? && b.Bool? then
        Val(Bool((a.b == b.b) == (op == OpEqual)))
      else
        Err(TypeMismatch)
    else if !numeric then
      Err(NotNumeric)
    else
      var c := CompareNumbers(fl, a, b);
      Val(Bool(
            if op == OpGreater then c > 0
            else if op == OpGreaterEqual then c >= 0
            else if op == OpLess then c < 0
            else c <= 0))
  }

  function EvalArith<F>(fl: FloatOps<F>, op: Operator, a: Value<F>, b: Value<F>): Res<F>
    requires IsArithmetic(op)
  {
    var ra, rb := Classify(fl, a), Classify(fl, b);
    if ra == NotNumber || rb == NotNumber then
      Err(NotNumeric)
    else
      var ints := ra.IntRep? && rb.IntRep? && !ra.bigU && !rb.bigU;
      match op
      case OpModulo =>
        if !ints then Err(NotInteger)
        else if rb.i == 0 then Err(DivisionByZero)
        else Val(Signed(W64, Wrap64(TruncMod(ra.i, rb.i))))
      case OpDivide =>
        if ints then
          if rb.i == 0 then Err(DivisionByZero) else Val(Signed(W64, Wrap64(TruncDiv(ra.i, rb.i))))
        else if fl.isZero(rb.f) then Err(DivisionByZero)
        else Val(Float(fl.div(ra.f, rb.f)))
      case OpMultiply =>
        if ints then Val(Signed(W64, Wrap64(ra.i * rb.i))) else Val(Float(fl.mul(ra.f, rb.f)))
      case OpAdd =>
        if ints then Val(Signed(W64, Wrap64(ra.i + rb.i))) else Val(Float(fl.add(ra.f, rb.f)))
      case _ =>
        if ints then Val(Signed(W64, Wrap64(ra.i - rb.i))) else Val(Float(fl.sub(ra.f, rb.f)))
  }

  function Negate<F>(fl: FloatOps<F>, v: Value<F>): Res<F> {
    match Classify(fl, v)
    case NotNumber => Err(NotNumeric)
    case IntRep(i, _, _, bigU, _) => if bigU then Err(OutOfRange) else Val(Signed(W64, Wrap64(-i)))
    case FloatRep(f) => Val(Float(fl.neg(f)))
  }

  /** A comparison or arithmetic operator on two values. */
  function Apply<F>(fl: FloatOps<F>, op: Operator, a: Value<F>, b: Value<F>): Res<F> {
    if IsComparison(op) then StrictCompare(fl, op, a, b)
    else if IsArithmetic(op) then EvalArith(fl, op, a, b)
    else Err(UnknownOperator)
  }

  // ---- the meaning of a tree ----

  datatype Env<!F> = NoEnv | Env(get: string -> Option<Value<F>>)

  datatype Outcome<F> = Outcome(res: Res<F>, first: Option<EvalError>)

  function First<E>(a: Option<E>, b: Option<E>): Option<E> {
    if a.Some? then a else b
  }

  function ErrorOf<F>(r: Res<F>): Option<EvalError> {
    if r.Err? then Some(r.error) else None
  }

  /** A boolean operand: true only for the value true; anything but a bool is an error that reads as false. */
  function Truth<F>(o: Outcome<F>): (bool, Option<EvalError>) {
    match o.res
    case Val(Bool(b)) => (b, o.first)
    case Val(_) => (false, First(o.first, Some(NotBool)))
    case Err(_) => (false, o.first)
  }

  function Denote<F>(fl: FloatOps<F>, env: Env<F>, e: Expr): (o: Outcome<F>)
    ensures o.res.Err? ==> o.first.Some?
  {
    match e
    case Num(lit) =>
      (match ParseNumber(fl, lit)
       case Parsed(v) => Outcome(Val(v), None)
       case Unparsable(err) => Outcome(Err(err), Some(err)))
    case Lit(text) => Outcome(Val(Text(text)), None)
    case Ref(path) => Lookup(env, path)
    case Group(x) => Denote(fl, env, x)
    case Neg(x) =>
      var o := Denote(fl, env, x);
      if o.res.Err? then o
      else
        var r := Negate(fl, o.res.v);
        Outcome(r, First(o.first, ErrorOf(r)))
    case Not(x) =>
      var (b, first) := Truth(Denote(fl, env, x));
      Outcome(Val(Bool(!b)), first)
    case Bin(op, l, r) =>
      var left := Denote(fl, env, l);
      if op == OrOr || op == AndAnd then
        var (a, first) := Truth(left);
        if a == (op == OrOr) then
          Outcome(Val(Bool(a)), first)
        else
          var (b, second) := Truth(Denote(fl, env, r));
          Outcome(Val(Bool(b)), First(first, second))
      else if left.res.Err? then
        left
      else
        var right := Denote(fl, env, r);
        var first := First(left.first, right.first);
        if right.res.Err? then
          Outcome(right.res, first)
        else
          var v := Apply(fl, BinaryOperator(op), left.res.v, right.res.v);
          Outcome(v, First(first, ErrorOf(v)))
  }

  function Lookup<F>(env: Env<F>, path: string): (o: Outcome<F>)
    ensures o.res.Err? ==> o.first.Some?
  {
    match env
    case NoEnv => Outcome(Err(NoStore), Some(NoStore))
    case Env(get) =>
      match get(path)
      case None => Outcome(Err(MissingPath(path)), Some(MissingPath(path)))
      case Some(v) => Outcome(Val(v), None)
  }

  /** A tree means the same with and without parentheses. */
  lemma {:induction false} DenoteBare<F>(fl: FloatOps<F>, env: Env<F>, e: Expr)
    ensures Denote(fl, env, e) == Denote(fl, env, Bare(e))
    decreases e
  {
    match e
    case Group(x) => DenoteBare(fl, env, x);
    case Neg(x) => DenoteBare(fl, env, x);
    case Not(x) => DenoteBare(fl, env, x);
    case Bin(_, l, r) => DenoteBare(fl, env, l); DenoteBare(fl, env, r);
    case _ =>
  }

  /** The internal errors of the evaluator: a bad node index or operator. */
  predicate Internal(err: EvalError) {
    err.BadNodeIndex? || err.UnknownOperator?
  }

  predicate NotInternal<F>(o: Outcome<F>) {
    (o.res.Err? ==> !Internal(o.res.error)) && (o.first.Some? ==> !Internal(o.first.value))
  }

  lemma ConnectiveNotInternal<F>(fl: FloatOps<F>, env: Env<F>, op: OpSym, l: Expr, r: Expr)
    requires op == OrOr || op == AndAnd
    requires NotInternal(Denote(fl, env, l)) && NotInternal(Denote(fl, env, r))
    ensures NotInternal(Denote(fl, env, Bin(op, l, r)))
  {
  }

  lemma ApplyNotInternal<F>(fl: FloatOps<F>, op: OpSym, a: Value<F>, b: Value<F>)
    requires op != OrOr && op != AndAnd && op != Bang
    ensures var v := Apply(fl, BinaryOperator(op), a, b); v.Err? ==> !Internal(v.error)
  {
  }

  lemma OperatorNotInternal<F>(fl: FloatOps<F>, env: Env<F>, op: OpSym, l: Expr, r: Expr)
    requires op != OrOr && op != AndAnd && op != Bang
    requires NotInternal(Denote(fl, env, l)) && NotInternal(Denote(fl, env, r))
    ensures NotInternal(Denote(fl, env, Bin(op, l, r)))
  {
    var left, right := Denote(fl, env, l), Denote(fl, env, r);
    if left.res.Val? && right.res.Val? {
      ApplyNotInternal(fl, op, left.res.v, right.res.v);
    }
  }

  lemma {:induction false} NeverInternal<F>(fl: FloatOps<F>, env: Env<F>, e: Expr)
    requires WellFormed(e)
    ensures NotInternal(Denote(fl, env, e))
    decreases e
  {
    match e
    case Group(x) => NeverInternal(fl, env, x);
    case Neg(x) => NeverInternal(fl, env, x);
    case Not(x) => NeverInternal(fl, env, x);
    case Bin(op, l, r) =>
      NeverInternal(fl, env, l);
      NeverInternal(fl, env, r);
      if op == OrOr || op == AndAnd {
        ConnectiveNotInternal(fl, env, op, l, r);
      } else {
        OperatorNotInternal(fl, env, op, l, r);
      }
    case _ =>
  }

  // ---- the evaluator ----

  class EvalContext {
    var firstErr: Option<EvalError>

    constructor ()
      ensures firstErr == None
    {
      firstErr := None;
    }

    method RecordError(err: Option<EvalError>)
      modifies this
      ensures firstErr == First(old(firstErr), err)
    {
      if firstErr.None? {
        firstErr := err;
      }
    }

    method EffectiveBool<F>(r: Res<F>) returns (b: bool)
      modifies this
      ensures b == (r == Val(Bool(true)))
      ensures firstErr == First(old(firstErr),
                                if r.Err? then Some(r.error) else if r.v.Bool? then None else Some(NotBool))
    {
      match r
      case Err(err) =>
        RecordError(Some(err));
        b := false;
      case Val(Bool(v)) =>
        b := v;
      case Val(_) =>
        RecordError(Some(NotBool));
        b := false;
    }
  }

  /**
   * Evaluates node `index`. Whenever that node stands for a tree e, the value and the first
   * recorded error are those of e; a program whose children precede their parents always terminates.
   */
  method EvalNode<F>(fl: FloatOps<F>, env: Env<F>, nodes: seq<Node<F>>, index: int, ctx: EvalContext, ghost e: Expr)
    returns (r: Res<F>)
    requires Descending(nodes)
    modifies ctx
    ensures Represents(fl, nodes, index, e) ==>
              && r == Denote(fl, env, e).res
              && ctx.firstErr == First(old(ctx.firstErr), Denote(fl, env, e).first)
    ensures 0 <= index < |nodes| && nodes[index].Literal? ==>
              r == Val(nodes[index].value) && ctx.firstErr == old(ctx.firstErr)
    decreases index
  {
    ghost var t := Bare(e);
    RepresentsBare(fl, nodes, index, e);
    DenoteBare(fl, env, e);
    if index < 0 || index >= |nodes| {
      ctx.RecordError(Some(BadNodeIndex(index)));
      return Err(BadNodeIndex(index));
    }
    assert ChildrenBelow(nodes[index], index);
    match nodes[index]
    case Literal(v) =>
      r := Val(v);
    case PathRef(path) =>
      r := Lookup(env, path).res;
      ctx.RecordError(ErrorOf(r));
    case RuntimeError(err) =>
      ctx.RecordError(Some(err));
      r := Err(err);
    case Unary(op, left) =>
      r := EvalUnary(fl, env, nodes, index, ctx, t);
    case Binary(op, left, right) =>
      r := EvalBinary(fl, env, nodes, index, ctx, t);
  }

  method EvalUnary<F>(fl: FloatOps<F>, env: Env<F>, nodes: seq<Node<F>>, index: int, ctx: EvalContext, ghost t: Expr)
    returns (r: Res<F>)
    requires Descending(nodes) && 0 <= index < |nodes| && nodes[index].Unary? && !t.Group?
    modifies ctx
    ensures Represents(fl, nodes, index, t) ==>
              && r == Denote(fl, env, t).res
              && ctx.firstErr == First(old(ctx.firstErr), Denote(fl, env, t).first)
    decreases index, 0
  {
    var node := nodes[index];
    assert ChildrenBelow(node, index);
    ghost var arg := if t.Not? || t.Neg? then t.arg else t;
    var v := EvalNode(fl, env, nodes, node.left, ctx, arg);
    match node.op
    case OpNot =>
      var b := ctx.EffectiveBool(v);
      r := Val(Bool(!b));
    case OpNegate =>
      if v.Err? { return v; }
      r := Negate(fl, v.v);
      ctx.RecordError(ErrorOf(r));
    case _ =>
      ctx.RecordError(Some(UnknownOperator));
      r := Err(UnknownOperator);
  }

  method EvalBinary<F>(fl: FloatOps<F>, env: Env<F>, nodes: seq<Node<F>>, index: int, ctx: EvalContext, ghost t: Expr)
    returns (r: Res<F>)
    requires Descending(nodes) && 0 <= index < |nodes| && nodes[index].Binary? && !t.Group?
    modifies ctx
    ensures Represents(fl, nodes, index, t) ==>
              && r == Denote(fl, env, t).res
              && ctx.firstErr == First(old(ctx.firstErr), Denote(fl, env, t).first)
    decreases index, 0
  {
    var node := nodes[index];
    assert ChildrenBelow(node, index);
    ghost var l, rt := if t.Bin? then t.left else t, if t.Bin? then t.right else t;
    var left := EvalNode(fl, env, nodes, node.left, ctx, l);
    if node.op == OpOr || node.op == OpAnd {
      var a := ctx.EffectiveBool(left);
      if a == (node.op == OpOr) {
        return Val(Bool(a));
      }
      var right := EvalNode(fl, env, nodes, node.right, ctx, rt);
      var b := ctx.EffectiveBool(right);
      return Val(Bool(b));
    }
    if left.Err? { return left; }
    var right := EvalNode(fl, env, nodes, node.right, ctx, rt);
    if right.Err? { return right; }
    r := Apply(fl, node.op, left.v, right.v);
    ctx.RecordError(ErrorOf(r));
  }

  /** Runs a program: its truth value, and the error that gets logged if there was one. */
  method Eval<F>(fl: FloatOps<F>, env: Env<F>, p: Program<F>, ghost e: Expr) returns (b: bool, logged: Option<EvalError>)
    requires Descending(p.nodes)
    ensures Represents(fl, p.nodes, p.root, e) ==>
              && b == (Denote(fl, env, e).res == Val(Bool(true)))
              && logged == Denote(fl, env, e).first
    ensures 0 <= p.root < |p.nodes| && p.nodes[p.root].Literal? ==>
              b == (p.nodes[p.root].value == Bool(true)) && logged == None
  {
    var ctx := new EvalContext();
    var r := EvalNode(fl, env, p.nodes, p.root, ctx, e);
    ctx.RecordError(ErrorOf(r));
    b := r.Val? && r.v.Bool? && r.v.b;
    logged := ctx.firstErr;
  }
}
