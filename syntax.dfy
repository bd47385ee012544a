/**
 * The abstract syntax of the two-sorted expression language and the value
 * an evaluation produces. Children are owned values, so every tree is
 * finite and acyclic, and an ill-sorted tree cannot be written down.
 */
module Syntax {
  import opened Int64

  datatype BinArithOp = AddOp | SubOp | MulOp | IntDivOp

  datatype ArithCmpOp = LtOp | LteOp | GtOp | GteOp | ArithEqOp | ArithNeqOp

  datatype BinLogicOp = AndOp | OrOp | BoolEqOp | BoolNeqOp

  /** Integer-valued expressions. */
  datatype ArithExpr =
    | BinArithExpr(left: ArithExpr, right: ArithExpr, op: BinArithOp)
    | IntLit(num: I64)

  /** Boolean-valued expressions; ArithCmpExpr is the only node with arithmetic children. */
  datatype BoolExpr =
    | ArithCmpExpr(cmpLeft: ArithExpr, cmpRight: ArithExpr, cmpOp: ArithCmpOp)
    | BinBoolExpr(left: BoolExpr, right: BoolExpr, logicOp: BinLogicOp)
    | NotExpr(inner: BoolExpr)
    | BoolLit(boolean: bool)

  /** The root of a tree: it fixes the sort of the whole expression. */
  datatype Expr = ArithExpr(arith: ArithExpr) | BoolExpr(boolExpr: BoolExpr)

  /** The result of a top-level evaluation. */
  datatype Value = BoolValue(b: bool) | IntValue(i: I64)
}
