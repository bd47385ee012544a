/**
 * The evaluator: `eval`, `eval_arith_expr` and `eval_bool_expr`. The source
 * relies on the trapping arithmetic of a Rust debug build; each panic it can
 * reach is an explicit EvalError here, propagated unchanged to the root.
 * Operands are evaluated left before right, and the first failure wins,
 * as the first panic would end the source's evaluation.
 */
module Evaluator {
  import opened Int64
  import opened Syntax
  import opened Reference

  /**
   * The panics of `+ - * /` on `i64`: division by zero, and overflow of the
   * named operator (for IntDivOp, only `i64::MIN / -1`).
   */
  datatype EvalError = DivisionByZero | Overflow(op: BinArithOp)

  datatype Result<+T> = Ok(value: T) | Err(error: EvalError) {
    predicate IsFailure() {
      Err?
    }

    function PropagateFailure<U>(): Result<U>
      requires Err?
    {
      Err(error)
    }

    function Extract(): T
      requires Ok?
    {
      value
    }
  }

  /** Keeps an exact result that fits in an `i64`; otherwise the operator overflows. */
  function Checked(op: BinArithOp, m: int): Result<I64> {
    if InRange(m) then Ok(m) else Err(Overflow(op))
  }

  /**
   * One arithmetic operator applied to two `i64` values with debug-build
   * checks: division by zero is reported first, otherwise the operator
   * succeeds exactly when its mathematical result fits, and then returns it.
   */
  function ApplyArith(op: BinArithOp, x: I64, y: I64): (r: Result<I64>)
    ensures r == Err(DivisionByZero) <==> op == IntDivOp && y == 0
    ensures (op != IntDivOp || y != 0) ==> (
      && (r.Ok? <==> InRange(MathOp(op, x, y)))
      && (r.Ok? ==> r.value == MathOp(op, x, y))
      && (r.Err? ==> r.error == Overflow(op)))
  {
    match op
    case AddOp => Checked(AddOp, x + y)
    case SubOp => Checked(SubOp, x - y)
    case MulOp => Checked(MulOp, x * y)
    case IntDivOp =>
      if y == 0 then Err(DivisionByZero)
      else if x == MIN && y == -1 then
        TruncDivInRange(x, y);
        Err(Overflow(IntDivOp))
      else
        TruncDivInRange(x, y);
        Ok(TruncDiv(x, y))
  }

  /**
   * `eval_arith_expr`: post-order, left operand first. It succeeds exactly
   * on the trees whose every intermediate value fits in an `i64`, and then
   * returns the exact mathematical value.
   */
  function EvalArith(e: ArithExpr): (res: Result<I64>)
    ensures res.Ok? <==> Fits(e)
    ensures res.Ok? ==> Denote(e) == Some(res.value as int)
  {
    match e
    case BinArithExpr(left, right, op) =>
      var x :- EvalArith(left);
      var y :- EvalArith(right);
      ApplyArith(op, x, y)
    case IntLit(num) => Ok(num)
  }

  /**
   * `eval_bool_expr`: post-order, left operand first, and no short-circuit:
   * both operands of every connective are evaluated. It succeeds exactly when
   * every comparison operand fits, and then returns the mathematical truth.
   */
  function EvalBool(e: BoolExpr): (res: Result<bool>)
    ensures res.Ok? <==> AllFit(e)
    ensures res.Ok? ==> res.value == Truth(e)
  {
    match e
    case ArithCmpExpr(left, right, op) =>
      var x :- EvalArith(left);
      var y :- EvalArith(right);
      Ok(match op
         case LtOp => x < y
         case LteOp => x <= y
         case GtOp => x > y
         case GteOp => x >= y
         case ArithEqOp => x == y
         case ArithNeqOp => x != y)
    case BinBoolExpr(left, right, op) =>
      var p :- EvalBool(left);
      var q :- EvalBool(right);
      Ok(match op
         case AndOp => p && q
         case OrOp => p || q
         case BoolEqOp => p == q
         case BoolNeqOp => p != q)
    case NotExpr(inner) =>
      var p :- EvalBool(inner);
      Ok(!p)
    case BoolLit(boolean) => Ok(boolean)
  }

  /**
   * `eval`: dispatches on the root's sort and wraps the scalar. The value's
   * tag always matches the root's sort, and its payload is the exact value
   * or truth of the tree.
   */
  function Eval(e: Expr): (res: Result<Value>)
    ensures res.Ok? ==> (res.value.IntValue? <==> e.ArithExpr?)
    ensures res.Ok? <==> (if e.ArithExpr? then Fits(e.arith) else AllFit(e.boolExpr))
    ensures res.Ok? && e.ArithExpr? ==> res.value == IntValue(Denote(e.arith).value)
    ensures res.Ok? && e.BoolExpr? ==> res.value == BoolValue(Truth(e.boolExpr))
  {
    match e
    case ArithExpr(a) =>
      var n :- EvalArith(a);
      Ok(IntValue(n))
    case BoolExpr(b) =>
      var p :- EvalBool(b);
      Ok(BoolValue(p))
  }
}
