/**
 * The mathematical meaning of an expression, over unbounded integers. It
 * knows nothing about the 64-bit range; the evaluator is proved to agree
 * with it exactly on the trees whose every intermediate value fits in an
 * `i64`, and to fail on all others.
 */
module Reference {
  import opened Int64
  import opened Syntax

  datatype Option<+T> = None | Some(value: T)

  /** The exact result of an arithmetic operator; division truncates toward zero. */
  function MathOp(op: BinArithOp, x: int, y: int): int
    requires op == IntDivOp ==> y != 0
  {
    match op
    case AddOp => x + y
    case SubOp => x - y
    case MulOp => x * y
    case IntDivOp => TruncDiv(x, y)
  }

  /** The exact value of an arithmetic tree, or None when it divides by zero. */
  function Denote(e: ArithExpr): Option<int> {
    match e
    case IntLit(n) => Some(n)
    case BinArithExpr(left, right, op) =>
      match (Denote(left), Denote(right))
      case (Some(x), Some(y)) =>
        if op == IntDivOp && y == 0 then None else Some(MathOp(op, x, y))
      case _ => None
  }

  /** Every subtree of `e`, `e` included, has an exact value that an `i64` can hold. */
  predicate Fits(e: ArithExpr) {
    && Denote(e).Some?
    && InRange(Denote(e).value)
    && (e.BinArithExpr? ==> Fits(e.left) && Fits(e.right))
  }

  /** The six comparisons as mathematical relations. */
  predicate Holds(op: ArithCmpOp, x: int, y: int) {
    match op
    case LtOp => x < y
    case LteOp => x <= y
    case GtOp => x > y
    case GteOp => x >= y
    case ArithEqOp => x == y
    case ArithNeqOp => x != y
  }

  /** The four connectives as truth functions. */
  predicate Connective(op: BinLogicOp, p: bool, q: bool) {
    match op
    case AndOp => p && q
    case OrOp => p || q
    case BoolEqOp => p == q
    case BoolNeqOp => p != q
  }

  /** The arithmetic operands of the comparisons in `e`, from left to right. */
  function CmpOperands(e: BoolExpr): seq<ArithExpr> {
    match e
    case ArithCmpExpr(left, right, _) => [left, right]
    case BinBoolExpr(left, right, _) => CmpOperands(left) + CmpOperands(right)
    case NotExpr(inner) => CmpOperands(inner)
    case BoolLit(_) => []
  }

  /** Every comparison operand in `e` fits. */
  predicate AllFit(e: BoolExpr) {
    forall a <- CmpOperands(e) :: Fits(a)
  }

  /** The truth of a boolean tree whose comparison operands all have exact values. */
  predicate Truth(e: BoolExpr)
    requires AllFit(e)
  {
    match e
    case ArithCmpExpr(left, right, op) =>
      assert left in CmpOperands(e) && right in CmpOperands(e);
      Holds(op, Denote(left).value, Denote(right).value)
    case BinBoolExpr(left, right, op) => Connective(op, Truth(left), Truth(right))
    case NotExpr(inner) => !Truth(inner)
    case BoolLit(b) => b
  }
}
