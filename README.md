# Two-sorted expression evaluator, modelled in Dafny

The repository is a small evaluator written in Rust (`src/main.rs`). It has
arithmetic expressions (`i64` literals and the operators `+ - * /`) and
boolean expressions (literals, `not`, the six comparisons of two arithmetic
expressions, and the connectives `and`, `or`, `==`, `!=`). A root `Expr`
picks one of the two sorts, and `eval` returns an `IntValue` or a
`BoolValue`. There are no variables: every leaf is a literal.

The model has five modules:

- `Int64` (`int64.dfy`): the `i64` range as a subset type `I64` of `int`, and
  `TruncDiv`, the quotient that Rust's `/` rounds toward zero. Dafny's own
  `/` is Euclidean, so it is not used on signed values. The lemmas prove
  three things about `TruncDiv`. Its remainder is smaller than the divisor
  in magnitude and is never of the opposite sign to the dividend. That
  property determines
  the quotient uniquely. The quotient of an `i64` leaves the range only
  for `i64::MIN / -1`.
- `Syntax` (`syntax.dfy`): the enums `Expr`, `ArithExpr`, `BoolExpr`,
  `BinArithOp`, `ArithCmpOp`, `BinLogicOp` and `Value` as datatypes. They
  keep the source's constructor names. `Box` children become plain
  recursive fields.
- `Reference` (`reference.dfy`): an independent meaning over unbounded
  integers. `Denote` gives a tree's exact value, or `None` when the tree
  divides by zero. `Fits` says that every subtree has an exact value that
  fits in an `i64`. `Truth` is the exact truth value of a boolean tree.
- `Evaluator` (`evaluator.dfy`): `EvalArith`, `EvalBool` and `Eval`. They
  stand for `eval_arith_expr`, `eval_bool_expr` and `eval`, and have the
  same match arms and the same evaluation order: left operand, then right
  operand, then the operator. A default (debug) Rust build panics on
  overflow of `+ - *`, on division by zero, and on `i64::MIN / -1`. In
  the model each of these panics is an explicit `EvalError`: either
  `DivisionByZero` or `Overflow(op)`, where `op` names the operator that
  overflowed, as Rust's panic message does. The error passes unchanged up
  to the root. The first failure met in left-to-right post-order is the
  one reported, just as the first panic ends the Rust evaluation. The
  contracts tie the evaluator to `Reference`. `EvalArith` succeeds exactly
  when `Fits` holds, and it then returns the exact value. `EvalBool`
  succeeds exactly when every comparison operand fits, and it then returns
  `Truth`.
- `Properties` (`properties.dfy`): lemmas for the behaviour the source
  promises. These cover the operand order and which error wins, the
  checked arithmetic, the division rules, the comparisons and connectives,
  and the absence of short-circuiting. They also prove that boolean nodes
  introduce no failure of their own, and they restate the source's unit
  tests as lemmas.

A successful arithmetic result is an `I64`, so the type itself keeps every
result within `[-2^63, 2^63 - 1]`.

Besides overflow of `+ - *` and division by zero, `i64::MIN / -1` also
panics (src/main.rs:83). The model reports it as `Overflow(IntDivOp)`, and
`ApplyArith` with `Int64.TruncDivInRange` shows that this is exactly the
case where the true quotient does not fit.

## Model

| member | source | states |
|---|---|---|
| `Int64.TruncDivRemainder` | src/main.rs:83 | `/` truncates toward zero: the remainder `a - q*b` is smaller than `b` in magnitude and is never of the opposite sign to `a` |
| `Int64.TruncDivUnique` | src/main.rs:83 | any quotient whose remainder has those two properties is `TruncDiv(a, b)`, so the rounding rule determines the quotient |
| `Int64.TruncDivInRange` | src/main.rs:83 | for an `i64` dividend and a non-zero divisor, the quotient fits in `i64` if and only if the division is not `i64::MIN / -1` |
| `Evaluator.ApplyArith` | src/main.rs:79-84 | an operator fails with `DivisionByZero` exactly when it is `/` with a zero divisor; otherwise it succeeds exactly when its exact result (truncated quotient for `/`) fits in `i64`, returns that result, and else fails with an overflow of that operator |
| `Evaluator.EvalArith` | src/main.rs:74-88 | an arithmetic tree evaluates successfully if and only if every intermediate exact value fits in `i64`, and the result is then the tree's exact mathematical value |
| `Evaluator.EvalBool` | src/main.rs:91-122 | a boolean tree evaluates successfully if and only if every comparison operand fits, and the result is then the tree's mathematical truth value |
| `Evaluator.Eval` | src/main.rs:67-72 | a successful value is an `IntValue` exactly when the root is an `ArithExpr`; evaluation succeeds exactly when the root's typed tree does; the payload is then the arithmetic tree's exact value or the boolean tree's truth value |
| `Properties.EvalPreservesSort` | src/main.rs:67-72 | `eval` returns the typed evaluator's result wrapped in the tag of the root's sort, or that evaluator's error unchanged |
| `Properties.LiteralsAreValues` | src/main.rs:86-120 | `IntLit(n)` evaluates to `n` and `BoolLit(b)` to `b`, both directly and through `eval` |
| `Properties.ArithLeftFirst` | src/main.rs:76-78 | the left operand is evaluated first: its error wins over any error of the right operand, and a right error is reported when the left succeeds |
| `Properties.CheckedArithmetic` | src/main.rs:79-82 | `+ - *` on evaluated operands give the exact sum, difference or product when it is within `[MIN, MAX]` and fail with an overflow of that operator otherwise |
| `Properties.DivisionRules` | src/main.rs:83 | `/` fails with `DivisionByZero` on a zero divisor, fails with an overflow on `i64::MIN / -1`, and otherwise succeeds with a quotient whose remainder is below the divisor in magnitude and is never of the opposite sign to the dividend |
| `Properties.DivisionByZeroIsExact` | src/main.rs:74-88 | a `DivisionByZero` failure arises only from a tree that has no exact value, because one of its divisors is exactly zero |
| `Properties.DivisionExamples` | src/main.rs:155-161 | `4 / 2 = 2`; `-7 / 2 = -3`, `7 / -2 = -3` and `-7 / -2 = 3` (rounding toward zero); `1 / 0` fails with a division by zero; `MIN / -1` and `MAX + 1` overflow |
| `Properties.ComparisonsAreExact` | src/main.rs:95-104 | on evaluated operands, each of the six comparison operators yields the matching mathematical relation |
| `Properties.ComparisonErrors` | src/main.rs:93-96 | a comparison fails with its left operand's error first, and with the right operand's error when the left succeeds |
| `Properties.ComparisonDuality` | src/main.rs:97-104 | `>=` succeeds when `<` does and gives its negation; `r > l` succeeds when `l < r` does and gives the same answer |
| `Properties.ConnectivesAreStrict` | src/main.rs:107-116 | a connective succeeds exactly when both operands do and then applies its truth function; the left operand's error wins over the right's |
| `Properties.NoShortCircuit` | src/main.rs:109-112 | an error in the right operand fails `and` even when the left is false, and fails `or` even when the left is true |
| `Properties.NoShortCircuitExample` | src/main.rs:109-112 | `false && (1 / 0 < 0)` fails with a division by zero instead of yielding false |
| `Properties.NotNegates` | src/main.rs:119 | `not` succeeds exactly when its operand does, negates its value, and passes its error through |
| `Properties.DoubleNegation` | src/main.rs:119 | `not (not e)` evaluates exactly as `e`, failures included |
| `Properties.BoolErrorsComeFromComparisons` | src/main.rs:91-122 | a boolean tree fails if and only if some comparison operand fails, and then with the error of the leftmost failing operand, so boolean nodes introduce no failure of their own |
| `Properties.SourceTestCases` | src/main.rs:130-245 | the nine asserting unit tests: `true`; `(4+9)*(4-9) = -65`; `4/2 = 2`; `(true and true) == (false or false)` is false; `true != false`; `(4<3) == (4<=4)` is false; `(4!=3) == (4==4)` and `(4>3) == (4>=4)` are true; `not true` is false |

## Left out

- `fn main() {}` (src/main.rs:124) is an empty entry point, so there is nothing to model.
- The `println!` and `Debug` output in `test_others` (src/main.rs:247-250) is formatting and I/O only.
- A Rust panic ends the whole thread or process. The model returns it as an `EvalError` value, so no unwinding is modelled.
- Release builds wrap `+ - *` around instead of panicking. Only the default debug-build behaviour is modelled.
- `Box` ownership and moving the tree into the evaluator are not modelled. The trees are plain recursive datatype values.
- How many times each operand is evaluated is not modelled, because the model has no side effects to count. Non-short-circuiting shows up only through failure propagation: `NoShortCircuit` and `NoShortCircuitExample`.
- Idempotence (evaluating the same tree twice gives the same result) gets no lemma. It holds because the evaluators are mathematical functions.
