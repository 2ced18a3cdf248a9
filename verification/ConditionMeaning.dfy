/**
 * What the operators of the condition language mean, in mathematical terms and from the operator symbol
 * on: integers are compared as integers, int64 arithmetic wraps, everything else is a float operation
 * or an error, and connectives read an erring operand as false.
 */
module ConditionMeaning {
  import opened Values
  import opened Tokenizer
  import opened Grammar
  import opened Program
  import opened Evaluator
  import opened Compiler

  // ---- operands ----

  predicate Int64Operand<F>(v: Value<F>, a: int) {
    IntValue(v) == Some(a) && IsInt64(a)
  }

  predicate IsInt64Value<F>(v: Value<F>) {
    IntValue(v).Some? && IsInt64(IntValue(v).value)
  }

  /** A number as a float. */
  function AsFloat<F>(fl: FloatOps<F>, v: Value<F>): Option<F> {
    match v
    case Signed(_, i) => Some(fl.ofInt(i))
    case Unsigned(_, u) => Some(fl.ofInt(u))
    case Float(f) => Some(f)
    case _ => None
  }

  /** The operands come to values x and y. */
  ghost predicate Operands<F>(fl: FloatOps<F>, env: Env<F>, l: Expr, r: Expr, x: Value<F>, y: Value<F>) {
    Denote(fl, env, l).res == Val(x) && Denote(fl, env, r).res == Val(y) && x.Valid() && y.Valid()
  }

  function Result<F>(fl: FloatOps<F>, env: Env<F>, op: OpSym, l: Expr, r: Expr): Res<F> {
    Denote(fl, env, Bin(op, l, r)).res
  }

  predicate Compares(op: OpSym) {
    op == EqEq || op == NotEq || op == Greater || op == GreaterEq || op == Less || op == LessEq
  }

  predicate Calculates(op: OpSym) {
    op == Plus || op == Minus || op == Star || op == Slash || op == Percent
  }

  // ---- comparisons ----

  predicate Holds(op: OpSym, a: int, b: int)
    requires Compares(op)
  {
    match op
    case EqEq => a == b
    case NotEq => a != b
    case Greater => a > b
    case GreaterEq => a >= b
    case Less => a < b
    case LessEq => a <= b
  }

  /** Integers of any signedness compare as the integers they are. */
  lemma IntegersCompare<F>(fl: FloatOps<F>, env: Env<F>, op: OpSym, l: Expr, r: Expr, x: Value<F>, y: Value<F>)
    requires Compares(op) && Operands(fl, env, l, r, x, y) && IntValue(x).Some? && IntValue(y).Some?
    ensures Result(fl, env, op, l, r) == Val(Bool(Holds(op, IntValue(x).value, IntValue(y).value)))
  {
    ResultOfValues(fl, env, op, l, r, x, y);
    CompareNumbersExact(fl, x, y);
  }

  lemma FloatValuesCompare<F>(fl: FloatOps<F>, op: OpSym, x: Value<F>, y: Value<F>)
    requires Compares(op) && AsFloat(fl, x).Some? && AsFloat(fl, y).Some? && (IntValue(x).None? || IntValue(y).None?)
    ensures var less := fl.less(AsFloat(fl, x).value, AsFloat(fl, y).value);
            var more := !less && fl.less(AsFloat(fl, y).value, AsFloat(fl, x).value);
            Apply(fl, BinaryOperator(op), x, y) == Val(Bool(
                match op
                case Less => less
                case LessEq => !more
                case Greater => more
                case GreaterEq => !less
                case EqEq => !less && !more
                case _ => less || more))
  {
  }

  /** With a float among them, numbers compare by the float order, left before right. */
  lemma FloatsCompare<F>(fl: FloatOps<F>, env: Env<F>, op: OpSym, l: Expr, r: Expr, x: Value<F>, y: Value<F>)
    requires Compares(op) && Operands(fl, env, l, r, x, y)
    requires AsFloat(fl, x).Some? && AsFloat(fl, y).Some? && (IntValue(x).None? || IntValue(y).None?)
    ensures var less := fl.less(AsFloat(fl, x).value, AsFloat(fl, y).value);
            var more := !less && fl.less(AsFloat(fl, y).value, AsFloat(fl, x).value);
            Result(fl, env, op, l, r) == Val(Bool(
                match op
                case Less => less
                case LessEq => !more
                case Greater => more
                case GreaterEq => !less
                case EqEq => !less && !more
                case _ => less || more))
  {
    ResultOfValues(fl, env, op, l, r, x, y);
    FloatValuesCompare(fl, op, x, y);
  }

  /** Texts and bools know equality only; other pairs of scalars do not compare, and what is no scalar never does. */
  lemma OthersCompare<F>(fl: FloatOps<F>, env: Env<F>, op: OpSym, l: Expr, r: Expr, x: Value<F>, y: Value<F>)
    requires Compares(op) && Operands(fl, env, l, r, x, y) && !(AsFloat(fl, x).Some? && AsFloat(fl, y).Some?)
    ensures var res := Result(fl, env, op, l, r);
            && (x.Opaque? || y.Opaque? ==> res == Err(NotScalar))
            && (!x.Opaque? && !y.Opaque? && op != EqEq && op != NotEq ==> res == Err(NotNumeric))
            && (x.Text? && y.Text? && op == EqEq ==> res == Val(Bool(x.s == y.s)))
            && (x.Text? && y.Text? && op == NotEq ==> res == Val(Bool(x.s != y.s)))
            && (x.Bool? && y.Bool? && op == EqEq ==> res == Val(Bool(x.b == y.b)))
            && (x.Bool? && y.Bool? && op == NotEq ==> res == Val(Bool(x.b != y.b)))
            && (!x.Opaque? && !y.Opaque? && (op == EqEq || op == NotEq) && !(x.Text? && y.Text?) && !(x.Bool? && y.Bool?) ==>
                  res == Err(TypeMismatch))
  {
    ResultOfValues(fl, env, op, l, r, x, y);
  }

  // ---- arithmetic ----

  /** An int64 that is n up to a multiple of 2^64; there is exactly one. */
  predicate WrapsTo<F>(v: Value<F>, n: int) {
    v.Signed? && v.width == W64 && IsInt64(v.i) && (v.i - n) % 0x1_0000_0000_0000_0000 == 0
  }

  /** q and r are quotient and remainder of a and b, rounded toward zero. */
  predicate Divides(a: int, b: int, q: int, r: int) {
    a == b * q + r && Abs(r) < Abs(b) && (r == 0 || (r < 0) == (a < 0))
  }

  lemma SignedProduct(b: int, k: int)
    ensures b * k == if b < 0 then -(Abs(b) * k) else Abs(b) * k
    ensures b * -k == -(b * k)
  {
  }

  lemma DividesBySigns(a: int, b: int, k: int, r: int, q: int)
    requires k >= 0 && r >= 0 && Abs(a) == Abs(b) * k + r && r < Abs(b) && q == if (a < 0) == (b < 0) then k else -k
    ensures Divides(a, b, q, a - b * q)
  {
    SignedProduct(b, k);
    assert b * q == if a < 0 then -(Abs(b) * k) else Abs(b) * k;
  }

  lemma QuotientAndRest(m: nat, n: nat)
    requires n > 0
    ensures m == n * (m / n) + m % n && 0 <= m % n < n && m / n >= 0
  {
  }

  lemma TruncDivides(a: int, b: int)
    requires b != 0
    ensures Divides(a, b, TruncDiv(a, b), TruncMod(a, b))
  {
    var m: nat, n: nat := Abs(a), Abs(b);
    QuotientAndRest(m, n);
    var k: int, q := m / n, TruncDiv(a, b);
    assert q == if (a < 0) == (b < 0) then k else -k;
    DividesBySigns(a, b, k, m % n, q);
  }

  /** An operator that is no connective works on its operands' values. */
  lemma ResultOfValues<F>(fl: FloatOps<F>, env: Env<F>, op: OpSym, l: Expr, r: Expr, x: Value<F>, y: Value<F>)
    requires (Compares(op) || Calculates(op)) && Operands(fl, env, l, r, x, y)
    ensures Result(fl, env, op, l, r) == Apply(fl, BinaryOperator(op), x, y)
  {
  }

  predicate IsWrapped<F>(r: Res<F>, n: int) {
    r.Val? && WrapsTo(r.v, n)
  }

  lemma WrappedWrapsTo<F>(r: Res<F>, n: int)
    requires r == Val(Signed(W64, Wrap64(n)))
    ensures IsWrapped(r, n)
  {
  }

  lemma IntegerValuesAdd<F>(fl: FloatOps<F>, x: Value<F>, y: Value<F>, a: int, b: int, res: Res<F>)
    requires Int64Operand(x, a) && Int64Operand(y, b) && res == Apply(fl, OpAdd, x, y)
    ensures IsWrapped(res, a + b)
  {
    WrappedWrapsTo(res, a + b);
  }

  lemma IntegerValuesSubtract<F>(fl: FloatOps<F>, x: Value<F>, y: Value<F>, a: int, b: int, res: Res<F>)
    requires Int64Operand(x, a) && Int64Operand(y, b) && res == Apply(fl, OpSubtract, x, y)
    ensures IsWrapped(res, a - b)
  {
    WrappedWrapsTo(res, a - b);
  }

  lemma IntegerValuesMultiply<F>(fl: FloatOps<F>, x: Value<F>, y: Value<F>, a: int, b: int, res: Res<F>)
    requires Int64Operand(x, a) && Int64Operand(y, b) && res == Apply(fl, OpMultiply, x, y)
    ensures IsWrapped(res, a * b)
  {
    WrappedWrapsTo(res, a * b);
  }

  lemma IntegerValuesDivide<F>(fl: FloatOps<F>, x: Value<F>, y: Value<F>, a: int, b: int)
    requires Int64Operand(x, a) && Int64Operand(y, b)
    ensures b != 0 ==> Apply(fl, OpDivide, x, y) == Val(Signed(W64, Wrap64(TruncDiv(a, b))))
    ensures b != 0 ==> Apply(fl, OpModulo, x, y) == Val(Signed(W64, Wrap64(TruncMod(a, b))))
    ensures b == 0 ==> Apply(fl, OpDivide, x, y) == Err(DivisionByZero) && Apply(fl, OpModulo, x, y) == Err(DivisionByZero)
  {
  }

  /** Sums, differences and products of int64 operands, left operand first, wrap. */
  lemma IntegersAdd<F>(fl: FloatOps<F>, env: Env<F>, l: Expr, r: Expr, x: Value<F>, y: Value<F>, a: int, b: int)
    requires Operands(fl, env, l, r, x, y) && Int64Operand(x, a) && Int64Operand(y, b)
    ensures IsWrapped(Result(fl, env, Plus, l, r), a + b)
  {
    ResultOfValues(fl, env, Plus, l, r, x, y);
    IntegerValuesAdd(fl, x, y, a, b, Result(fl, env, Plus, l, r));
  }

  lemma IntegersSubtract<F>(fl: FloatOps<F>, env: Env<F>, l: Expr, r: Expr, x: Value<F>, y: Value<F>, a: int, b: int)
    requires Operands(fl, env, l, r, x, y) && Int64Operand(x, a) && Int64Operand(y, b)
    ensures IsWrapped(Result(fl, env, Minus, l, r), a - b)
  {
    ResultOfValues(fl, env, Minus, l, r, x, y);
    IntegerValuesSubtract(fl, x, y, a, b, Result(fl, env, Minus, l, r));
  }

  lemma IntegersMultiply<F>(fl: FloatOps<F>, env: Env<F>, l: Expr, r: Expr, x: Value<F>, y: Value<F>, a: int, b: int)
    requires Operands(fl, env, l, r, x, y) && Int64Operand(x, a) && Int64Operand(y, b)
    ensures IsWrapped(Result(fl, env, Star, l, r), a * b)
  {
    ResultOfValues(fl, env, Star, l, r, x, y);
    IntegerValuesMultiply(fl, x, y, a, b, Result(fl, env, Star, l, r));
  }

  /** Quotient and remainder round toward zero; only the least integer by -1 wraps; dividing by zero is an error. */
  ghost predicate AreDivided<F>(quotient: Res<F>, remainder: Res<F>, a: int, b: int) {
    if b == 0 then quotient == Err(DivisionByZero) && remainder == Err(DivisionByZero)
    else exists q, rest :: Divides(a, b, q, rest) && remainder == Val(Signed(W64, rest))
                           && quotient == Val(Signed(W64, if a == MIN_INT64 && b == -1 then MIN_INT64 else q))
  }

  lemma TruncatedAreDivided<F>(quotient: Res<F>, remainder: Res<F>, a: int, b: int)
    requires IsInt64(a) && IsInt64(b) && b != 0
    requires quotient == Val(Signed(W64, Wrap64(TruncDiv(a, b)))) && remainder == Val(Signed(W64, Wrap64(TruncMod(a, b))))
    ensures AreDivided(quotient, remainder, a, b)
  {
    TruncDivides(a, b);
    var q, rest := TruncDiv(a, b), TruncMod(a, b);
    QuotientFits(a, b, q, rest);
    assert Divides(a, b, q, rest) && remainder == Val(Signed(W64, rest));
  }

  /** Quotient and remainder of int64 operands. */
  lemma IntegersDivide<F>(fl: FloatOps<F>, env: Env<F>, l: Expr, r: Expr, x: Value<F>, y: Value<F>, a: int, b: int)
    requires Operands(fl, env, l, r, x, y) && Int64Operand(x, a) && Int64Operand(y, b)
    ensures AreDivided(Result(fl, env, Slash, l, r), Result(fl, env, Percent, l, r), a, b)
  {
    ResultOfValues(fl, env, Slash, l, r, x, y);
    ResultOfValues(fl, env, Percent, l, r, x, y);
    IntegerValuesDivide(fl, x, y, a, b);
    if b != 0 {
      TruncatedAreDivided(Result(fl, env, Slash, l, r), Result(fl, env, Percent, l, r), a, b);
    }
  }

  lemma QuotientFits(a: int, b: int, q: int, r: int)
    requires b != 0 && IsInt64(a) && IsInt64(b) && Divides(a, b, q, r)
    ensures IsInt64(r)
    ensures if a == MIN_INT64 && b == -1 then Wrap64(q) == MIN_INT64 else IsInt64(q)
  {
    if b == -1 {
      assert r == 0 && q == -a;
    } else if b == 1 {
      assert r == 0 && q == a;
    } else {
      HalfAtMost(b, q);
    }
  }

  lemma HalfAtMost(b: int, q: int)
    requires Abs(b) >= 2
    ensures Abs(b * q) >= 2 * Abs(q)
  {
    if b >= 2 {
      if q >= 0 {
        assert b * q >= 2 * q;
      } else {
        assert b * -q >= 2 * -q;
        assert b * q == -(b * -q);
      }
    } else {
      if q >= 0 {
        assert -b * q >= 2 * q;
        assert b * q == -(-b * q);
      } else {
        assert -b * -q >= 2 * -q;
        assert b * q == -b * -q;
      }
    }
  }

  lemma FloatValuesCalculate<F>(fl: FloatOps<F>, x: Value<F>, y: Value<F>)
    requires x.Valid() && y.Valid() && AsFloat(fl, x).Some? && AsFloat(fl, y).Some? && !(IsInt64Value(x) && IsInt64Value(y))
    ensures var f, g := AsFloat(fl, x).value, AsFloat(fl, y).value;
            && Apply(fl, OpAdd, x, y) == Val(Float(fl.add(f, g)))
            && Apply(fl, OpSubtract, x, y) == Val(Float(fl.sub(f, g)))
            && Apply(fl, OpMultiply, x, y) == Val(Float(fl.mul(f, g)))
            && Apply(fl, OpDivide, x, y) == (if fl.isZero(g) then Err(DivisionByZero) else Val(Float(fl.div(f, g))))
            && Apply(fl, OpModulo, x, y) == Err(NotInteger)
  {
  }

  /** All other numbers, an integer beyond int64 among them, are divided, multiplied, added and subtracted as floats. */
  lemma FloatsCalculate<F>(fl: FloatOps<F>, env: Env<F>, op: OpSym, l: Expr, r: Expr, x: Value<F>, y: Value<F>)
    requires Calculates(op) && Operands(fl, env, l, r, x, y) && AsFloat(fl, x).Some? && AsFloat(fl, y).Some?
    requires !(IsInt64Value(x) && IsInt64Value(y))
    ensures var f, g := AsFloat(fl, x).value, AsFloat(fl, y).value;
            Result(fl, env, op, l, r) ==
            match op
            case Plus => Val(Float(fl.add(f, g)))
            case Minus => Val(Float(fl.sub(f, g)))
            case Star => Val(Float(fl.mul(f, g)))
            case Slash => if fl.isZero(g) then Err(DivisionByZero) else Val(Float(fl.div(f, g)))
            case _ => Err(NotInteger)
  {
    ResultOfValues(fl, env, op, l, r, x, y);
    FloatValuesCalculate(fl, x, y);
  }

  lemma OnlyNumbersCalculate<F>(fl: FloatOps<F>, env: Env<F>, op: OpSym, l: Expr, r: Expr, x: Value<F>, y: Value<F>)
    requires Calculates(op) && Operands(fl, env, l, r, x, y) && !(AsFloat(fl, x).Some? && AsFloat(fl, y).Some?)
    ensures Result(fl, env, op, l, r) == Err(NotNumeric)
  {
    ResultOfValues(fl, env, op, l, r, x, y);
  }

  /** Unary minus: int64 operands wrap, larger integers are out of range, floats negate. */
  lemma MinusMeans<F>(fl: FloatOps<F>, env: Env<F>, e: Expr, x: Value<F>)
    requires Denote(fl, env, e).res == Val(x) && x.Valid()
    ensures var res := Denote(fl, env, Neg(e)).res;
            match IntValue(x)
            case Some(a) => if IsInt64(a) then res.Val? && WrapsTo(res.v, -a) else res == Err(OutOfRange)
            case None => res == if x.Float? then Val(Float(fl.neg(x.f))) else Err(NotNumeric)
  {
  }

  // ---- connectives ----

  ghost predicate Yes<F>(fl: FloatOps<F>, env: Env<F>, e: Expr) {
    Denote(fl, env, e).res == Val(Bool(true))
  }

  /** The connectives always answer, by what their operands affirm; an error or a value that is no bool affirms nothing. */
  lemma ConnectivesMean<F>(fl: FloatOps<F>, env: Env<F>, l: Expr, r: Expr)
    ensures Result(fl, env, OrOr, l, r) == Val(Bool(Yes(fl, env, l) || Yes(fl, env, r)))
    ensures Result(fl, env, AndAnd, l, r) == Val(Bool(Yes(fl, env, l) && Yes(fl, env, r)))
    ensures Denote(fl, env, Not(l)).res == Val(Bool(!Yes(fl, env, l)))
  {
  }

  /** Any other operator fails with its first failing operand. */
  lemma ErrorsPass<F>(fl: FloatOps<F>, env: Env<F>, op: OpSym, l: Expr, r: Expr)
    requires Compares(op) || Calculates(op)
    ensures Denote(fl, env, l).res.Err? ==> Result(fl, env, op, l, r) == Denote(fl, env, l).res
    ensures Denote(fl, env, l).res.Val? && Denote(fl, env, r).res.Err? ==> Result(fl, env, op, l, r) == Denote(fl, env, r).res
    ensures Denote(fl, env, l).res.Err? ==> Denote(fl, env, Neg(l)).res == Denote(fl, env, l).res
  {
  }

  // ---- the first error ----

  /** A value used where a bool is needed. */
  function Misused<F>(o: Outcome<F>): seq<EvalError> {
    if o.res.Val? && !o.res.v.Bool? then [NotBool] else []
  }

  function Raised<F>(o: Outcome<F>): seq<EvalError> {
    if o.res.Err? then [o.res.error] else []
  }

  /** Every error met while evaluating, in the order of evaluation; operands that are not needed are not evaluated. */
  ghost function Errors<F>(fl: FloatOps<F>, env: Env<F>, e: Expr): seq<EvalError> {
    match e
    case Group(x) => Errors(fl, env, x)
    case Neg(x) => Errors(fl, env, x) + if Denote(fl, env, x).res.Err? then [] else Raised(Denote(fl, env, e))
    case Not(x) => Errors(fl, env, x) + Misused(Denote(fl, env, x))
    case Bin(op, l, r) =>
      var left, right := Errors(fl, env, l), Errors(fl, env, r);
      if op == OrOr then left + Misused(Denote(fl, env, l)) + if Yes(fl, env, l) then [] else right + Misused(Denote(fl, env, r))
      else if op == AndAnd then left + Misused(Denote(fl, env, l)) + if Yes(fl, env, l) then right + Misused(Denote(fl, env, r)) else []
      else if Denote(fl, env, l).res.Err? then left
      else left + right + if Denote(fl, env, r).res.Err? then [] else Raised(Denote(fl, env, e))
    case _ => Raised(Denote(fl, env, e))
  }

  ghost predicate RecordsFirst<F>(fl: FloatOps<F>, env: Env<F>, e: Expr) {
    Denote(fl, env, e).first == if Errors(fl, env, e) == [] then None else Some(Errors(fl, env, e)[0])
  }

  lemma ConnectiveRecordsFirst<F>(fl: FloatOps<F>, env: Env<F>, op: OpSym, l: Expr, r: Expr)
    requires RecordsFirst(fl, env, l) && RecordsFirst(fl, env, r) && (op == OrOr || op == AndAnd)
    ensures RecordsFirst(fl, env, Bin(op, l, r))
  {
  }

  lemma OperatorRecordsFirst<F>(fl: FloatOps<F>, env: Env<F>, op: OpSym, l: Expr, r: Expr)
    requires RecordsFirst(fl, env, l) && RecordsFirst(fl, env, r) && op != OrOr && op != AndAnd
    ensures RecordsFirst(fl, env, Bin(op, l, r))
  {
  }

  /** What evaluation records is the first error it meets. */
  lemma {:induction false} FirstErrorIsFirst<F>(fl: FloatOps<F>, env: Env<F>, e: Expr)
    ensures Denote(fl, env, e).first == if Errors(fl, env, e) == [] then None else Some(Errors(fl, env, e)[0])
    decreases e
  {
    match e
    case Group(x) => FirstErrorIsFirst(fl, env, x);
    case Neg(x) => FirstErrorIsFirst(fl, env, x);
    case Not(x) => FirstErrorIsFirst(fl, env, x);
    case Bin(op, l, r) =>
      FirstErrorIsFirst(fl, env, l);
      FirstErrorIsFirst(fl, env, r);
      if op == OrOr || op == AndAnd {
        ConnectiveRecordsFirst(fl, env, op, l, r);
      } else {
        OperatorRecordsFirst(fl, env, op, l, r);
      }
    case _ =>
  }
}
