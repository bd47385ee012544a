/**
 * Properties of the evaluator: the dispatch keeps the sort, literals are
 * values, operands are evaluated left to right with the first failure
 * winning, the checked arithmetic and truncating division rules, the
 * comparisons and connectives, the absence of short-circuiting, and where
 * failures of a boolean evaluation come from.
 */
module Properties {
  import opened Int64
  import opened Syntax
  import opened Reference
  import opened Evaluator

  // ---------------------------------------------------------------------
  // Dispatch and literals

  /** `eval` wraps the typed evaluator's result in the tag of the root's sort, errors unchanged. */
  lemma EvalPreservesSort(e: Expr)
    ensures e.ArithExpr? && EvalArith(e.arith).Ok? ==> Eval(e) == Ok(IntValue(EvalArith(e.arith).value))
    ensures e.ArithExpr? && EvalArith(e.arith).Err? ==> Eval(e) == Err(EvalArith(e.arith).error)
    ensures e.BoolExpr? && EvalBool(e.boolExpr).Ok? ==> Eval(e) == Ok(BoolValue(EvalBool(e.boolExpr).value))
    ensures e.BoolExpr? && EvalBool(e.boolExpr).Err? ==> Eval(e) == Err(EvalBool(e.boolExpr).error)
  {
  }

  /** Literals evaluate to themselves. */
  lemma LiteralsAreValues(n: I64, b: bool)
    ensures EvalArith(IntLit(n)) == Ok(n)
    ensures EvalBool(BoolLit(b)) == Ok(b)
    ensures Eval(ArithExpr(IntLit(n))) == Ok(IntValue(n))
    ensures Eval(BoolExpr(BoolLit(b))) == Ok(BoolValue(b))
  {
  }

  // ---------------------------------------------------------------------
  // Arithmetic

  /** The left operand is evaluated first: its failure wins over any failure on the right. */
  lemma ArithLeftFirst(l: ArithExpr, r: ArithExpr, op: BinArithOp)
    ensures EvalArith(l).Err? ==> EvalArith(BinArithExpr(l, r, op)) == Err(EvalArith(l).error)
    ensures EvalArith(l).Ok? && EvalArith(r).Err? ==> EvalArith(BinArithExpr(l, r, op)) == Err(EvalArith(r).error)
  {
  }

  /**
   * Addition, subtraction and multiplication of two evaluated operands give
   * the exact result when it fits in an `i64`, and an overflow of that
   * operator otherwise.
   */
  lemma CheckedArithmetic(l: ArithExpr, r: ArithExpr, op: BinArithOp, x: I64, y: I64)
    requires op != IntDivOp
    requires EvalArith(l) == Ok(x) && EvalArith(r) == Ok(y)
    ensures var exact := (match op case AddOp => x + y case SubOp => x - y case _ => x * y);
      var res := EvalArith(BinArithExpr(l, r, op));
      && (res.Ok? <==> MIN <= exact <= MAX)
      && (res.Ok? ==> res.value == exact)
      && (res.Err? ==> res.error == Overflow(op))
  {
  }

  /**
   * Division of two evaluated operands: a zero divisor fails, `i64::MIN / -1`
   * overflows, and otherwise the quotient rounds toward zero, which is to say
   * the remainder is smaller than the divisor and never of the opposite sign
   * to the dividend.
   */
  lemma DivisionRules(l: ArithExpr, r: ArithExpr, x: I64, y: I64)
    requires EvalArith(l) == Ok(x) && EvalArith(r) == Ok(y)
    ensures y == 0 ==> EvalArith(BinArithExpr(l, r, IntDivOp)) == Err(DivisionByZero)
    ensures x == MIN && y == -1 ==> EvalArith(BinArithExpr(l, r, IntDivOp)) == Err(Overflow(IntDivOp))
    ensures y != 0 && !(x == MIN && y == -1) ==>
      var res := EvalArith(BinArithExpr(l, r, IntDivOp));
      && res.Ok?
      && Abs(x - res.value * y) < Abs(y)
      && (x >= 0 ==> x - res.value * y >= 0)
      && (x <= 0 ==> x - res.value * y <= 0)
  {
    if y != 0 {
      TruncDivRemainder(x, y);
      TruncDivInRange(x, y);
    }
  }

  /** A division by zero anywhere is a mathematical division by zero: the tree has no exact value. */
  lemma {:induction false} DivisionByZeroIsExact(e: ArithExpr)
    ensures EvalArith(e) == Err(DivisionByZero) ==> Denote(e) == None
  {
    match e
    case IntLit(_) =>
    case BinArithExpr(left, right, op) =>
      DivisionByZeroIsExact(left);
      DivisionByZeroIsExact(right);
  }

  /** Worked divisions: truncation toward zero differs from Dafny's Euclidean `/` on -7 / 2. */
  lemma DivisionExamples()
    ensures EvalArith(BinArithExpr(IntLit(4), IntLit(2), IntDivOp)) == Ok(2)
    ensures EvalArith(BinArithExpr(IntLit(-7), IntLit(2), IntDivOp)) == Ok(-3)
    ensures EvalArith(BinArithExpr(IntLit(7), IntLit(-2), IntDivOp)) == Ok(-3)
    ensures EvalArith(BinArithExpr(IntLit(-7), IntLit(-2), IntDivOp)) == Ok(3)
    ensures EvalArith(BinArithExpr(IntLit(1), IntLit(0), IntDivOp)) == Err(DivisionByZero)
    ensures EvalArith(BinArithExpr(IntLit(MIN), IntLit(-1), IntDivOp)) == Err(Overflow(IntDivOp))
    ensures EvalArith(BinArithExpr(IntLit(MAX), IntLit(1), AddOp)) == Err(Overflow(AddOp))
  {
    assert -7 / 2 == -4;
  }

  // ---------------------------------------------------------------------
  // Comparisons

  /** A comparison of two evaluated operands is the mathematical relation on their values. */
  lemma ComparisonsAreExact(l: ArithExpr, r: ArithExpr, op: ArithCmpOp, x: I64, y: I64)
    requires EvalArith(l) == Ok(x) && EvalArith(r) == Ok(y)
    ensures op == LtOp ==> EvalBool(ArithCmpExpr(l, r, op)) == Ok(x < y)
    ensures op == LteOp ==> EvalBool(ArithCmpExpr(l, r, op)) == Ok(x <= y)
    ensures op == GtOp ==> EvalBool(ArithCmpExpr(l, r, op)) == Ok(x > y)
    ensures op == GteOp ==> EvalBool(ArithCmpExpr(l, r, op)) == Ok(x >= y)
    ensures op == ArithEqOp ==> EvalBool(ArithCmpExpr(l, r, op)) == Ok(x == y)
    ensures op == ArithNeqOp ==> EvalBool(ArithCmpExpr(l, r, op)) == Ok(x != y)
  {
  }

  /** A failing operand makes the comparison fail with its error, the left operand checked first. */
  lemma ComparisonErrors(l: ArithExpr, r: ArithExpr, op: ArithCmpOp)
    ensures EvalArith(l).Err? ==> EvalBool(ArithCmpExpr(l, r, op)) == Err(EvalArith(l).error)
    ensures EvalArith(l).Ok? && EvalArith(r).Err? ==> EvalBool(ArithCmpExpr(l, r, op)) == Err(EvalArith(r).error)
  {
  }

  /**
   * `>=` is the negation of `<`, and `r > l` agrees with `l < r` whenever
   * either succeeds (swapping the operands only changes which error is met first).
   */
  lemma ComparisonDuality(l: ArithExpr, r: ArithExpr)
    ensures EvalBool(ArithCmpExpr(l, r, GteOp)).Ok? == EvalBool(ArithCmpExpr(l, r, LtOp)).Ok?
    ensures EvalBool(ArithCmpExpr(l, r, GteOp)).Ok? ==>
      EvalBool(ArithCmpExpr(l, r, GteOp)).value == !EvalBool(ArithCmpExpr(l, r, LtOp)).value
    ensures EvalBool(ArithCmpExpr(r, l, GtOp)).Ok? == EvalBool(ArithCmpExpr(l, r, LtOp)).Ok?
    ensures EvalBool(ArithCmpExpr(r, l, GtOp)).Ok? ==>
      EvalBool(ArithCmpExpr(r, l, GtOp)).value == EvalBool(ArithCmpExpr(l, r, LtOp)).value
  {
  }

  // ---------------------------------------------------------------------
  // Connectives and negation

  /**
   * A connective succeeds exactly when both operands do, then applies its
   * truth function; a failure comes from the left operand first.
   */
  lemma ConnectivesAreStrict(l: BoolExpr, r: BoolExpr, op: BinLogicOp)
    ensures EvalBool(BinBoolExpr(l, r, op)).Ok? <==> EvalBool(l).Ok? && EvalBool(r).Ok?
    ensures EvalBool(l).Ok? && EvalBool(r).Ok? ==>
      EvalBool(BinBoolExpr(l, r, op)).value == Connective(op, EvalBool(l).value, EvalBool(r).value)
    ensures EvalBool(l).Err? ==> EvalBool(BinBoolExpr(l, r, op)) == Err(EvalBool(l).error)
    ensures EvalBool(l).Ok? && EvalBool(r).Err? ==> EvalBool(BinBoolExpr(l, r, op)) == Err(EvalBool(r).error)
  {
  }

  /**
   * No short-circuit: a failing right operand fails `and` even when the left
   * is false, and `or` even when the left is true.
   */
  lemma NoShortCircuit(l: BoolExpr, r: BoolExpr, err: EvalError)
    requires EvalBool(r) == Err(err)
    ensures EvalBool(l) == Ok(false) ==> EvalBool(BinBoolExpr(l, r, AndOp)) == Err(err)
    ensures EvalBool(l) == Ok(true) ==> EvalBool(BinBoolExpr(l, r, OrOp)) == Err(err)
  {
  }

  /** `false && (1 / 0 < 0)` fails, where a short-circuiting evaluator would give false. */
  lemma NoShortCircuitExample()
    ensures EvalBool(BinBoolExpr(
      BoolLit(false),
      ArithCmpExpr(BinArithExpr(IntLit(1), IntLit(0), IntDivOp), IntLit(0), LtOp),
      AndOp)) == Err(DivisionByZero)
  {
  }

  /** `not` negates a successful operand and passes its failure through. */
  lemma NotNegates(e: BoolExpr)
    ensures EvalBool(NotExpr(e)).Ok? == EvalBool(e).Ok?
    ensures EvalBool(e).Ok? ==> EvalBool(NotExpr(e)).value == !EvalBool(e).value
    ensures EvalBool(e).Err? ==> EvalBool(NotExpr(e)).error == EvalBool(e).error
  {
  }

  /** Double negation is the identity, failures included. */
  lemma DoubleNegation(e: BoolExpr)
    ensures EvalBool(NotExpr(NotExpr(e))) == EvalBool(e)
  {
  }

  // ---------------------------------------------------------------------
  // Where boolean failures come from

  /** The error of the first operand in `es` whose evaluation fails. */
  function FirstError(es: seq<ArithExpr>): Option<EvalError> {
    if es == [] then None
    else if EvalArith(es[0]).Err? then Some(EvalArith(es[0]).error)
    else FirstError(es[1..])
  }

  /** The first error of a concatenation is the first error of its left part, if any. */
  lemma {:induction false} FirstErrorAppend(s: seq<ArithExpr>, t: seq<ArithExpr>)
    ensures FirstError(s + t) == if FirstError(s).Some? then FirstError(s) else FirstError(t)
  {
    if s != [] {
      assert (s + t)[0] == s[0];
      assert (s + t)[1..] == s[1..] + t;
      FirstErrorAppend(s[1..], t);
    } else {
      assert s + t == t;
    }
  }

  /**
   * Boolean nodes introduce no failure of their own: a boolean evaluation
   * fails exactly when one of its comparison operands fails, and with the
   * error of the leftmost failing one.
   */
  lemma {:induction false} BoolErrorsComeFromComparisons(e: BoolExpr)
    ensures EvalBool(e).Err? <==> FirstError(CmpOperands(e)).Some?
    ensures EvalBool(e).Err? ==> FirstError(CmpOperands(e)) == Some(EvalBool(e).error)
  {
    match e
    case ArithCmpExpr(left, right, _) =>
      assert [left, right][1..] == [right];
      assert [right][1..] == [];
      assert FirstError([right]) == if EvalArith(right).Err? then Some(EvalArith(right).error) else None;
    case BinBoolExpr(left, right, _) =>
      BoolErrorsComeFromComparisons(left);
      BoolErrorsComeFromComparisons(right);
      FirstErrorAppend(CmpOperands(left), CmpOperands(right));
    case NotExpr(inner) =>
      BoolErrorsComeFromComparisons(inner);
    case BoolLit(_) =>
  }

  // ---------------------------------------------------------------------
  // The source's own test cases

  lemma SourceTestCases()
    // test_sample
    ensures Eval(BoolExpr(BoolLit(true))) == Ok(BoolValue(true))
    // test_1: (4 + 9) * (4 - 9)
    ensures Eval(ArithExpr(BinArithExpr(
      BinArithExpr(IntLit(4), IntLit(9), AddOp),
      BinArithExpr(IntLit(4), IntLit(9), SubOp),
      MulOp))) == Ok(IntValue(-65))
    // test_2: 4 / 2
    ensures Eval(ArithExpr(BinArithExpr(IntLit(4), IntLit(2), IntDivOp))) == Ok(IntValue(2))
    // test_3: (true && true) == (false || false)
    ensures Eval(BoolExpr(BinBoolExpr(
      BinBoolExpr(BoolLit(true), BoolLit(true), AndOp),
      BinBoolExpr(BoolLit(false), BoolLit(false), OrOp),
      BoolEqOp))) == Ok(BoolValue(false))
    // test_4: true != false
    ensures Eval(BoolExpr(BinBoolExpr(BoolLit(true), BoolLit(false), BoolNeqOp))) == Ok(BoolValue(true))
    // test_5: (4 < 3) == (4 <= 4)
    ensures Eval(BoolExpr(BinBoolExpr(
      ArithCmpExpr(IntLit(4), IntLit(3), LtOp),
      ArithCmpExpr(IntLit(4), IntLit(4), LteOp),
      BoolEqOp))) == Ok(BoolValue(false))
    // test_6: (4 != 3) == (4 == 4)
    ensures Eval(BoolExpr(BinBoolExpr(
      ArithCmpExpr(IntLit(4), IntLit(3), ArithNeqOp),
      ArithCmpExpr(IntLit(4), IntLit(4), ArithEqOp),
      BoolEqOp))) == Ok(BoolValue(true))
    // test_7: (4 > 3) == (4 >= 4)
    ensures Eval(BoolExpr(BinBoolExpr(
      ArithCmpExpr(IntLit(4), IntLit(3), GtOp),
      ArithCmpExpr(IntLit(4), IntLit(4), GteOp),
      BoolEqOp))) == Ok(BoolValue(true))
    // test_8: not true
    ensures EvalBool(NotExpr(BoolLit(true))) == Ok(false)
  {
  }
}
