# Calculator evaluator in Dafny

A model of the evaluator of the calculator skill: `calculate` evaluates one
operation (an operator from the closed set `add`, `subtract`, `multiply`,
`divide` and a list of operands) by a left-to-right reduction, and
`runOperations` evaluates a batch of operations in order, pairing each value
with a text label, and fails as a whole when any operation fails.

- `calculator.dfy`, module `Calculator`: the data model (`Operator`,
  `Operation`, `CalculationResult`), the thrown errors as
  `Result.Err(InvalidOperandCount)` and `Result.Err(DivisionByZero)`, the
  reduction `Reduce` (JavaScript's `Array.prototype.reduce` over an operator's
  binary step `Apply`), `Calculate`, the label and `RunOperations`.
- `calculator_properties.dfy`, module `CalculatorProperties`: what the
  reductions compute, measured against independent reference definitions
  `Sum` and `Product`; that every operator reduces from the left; the
  division-by-zero cases; how `join` grows; and the batch's first error.

Numbers are Dafny `real`, so arithmetic is exact. A `reduce` call with a
seed is `Reduce(op, seed, operands)`; one without a seed is
`Reduce(op, operands[0], operands[1..])`, as JavaScript defines it. `Reduce`
over `Divide` may only run over a list without zeros, so Dafny checks that
no step of a successful division divides by zero.

How JavaScript writes a number as text is not modelled: the label's number
rendering is the parameter `render: real -> string` of `Label` and
`RunOperations`.

The `switch` at calculator.ts:24-36 has no default branch, so at run time an
operator outside the four makes `calculate` return `undefined` without
throwing. The type at calculator.ts:5 excludes such an operator, and so does
the closed `Operator` datatype.

## Model

| member | source | states |
|---|---|---|
| `Calculator.Apply` | skills/calculator/src/calculator.ts:26-35 | the arrow functions passed to `reduce`: the add step is undone by subtracting b, the subtract step by adding b back, the divide step (only for a non-zero b) by multiplying by b |
| `Calculator.Reduce` | skills/calculator/src/calculator.ts:26-35 | the four `operands.reduce(...)` calls as one left fold, which folds over divide only when no element is zero; what it computes is stated by the lemmas ReduceAddIsSum, ReduceSubtractIsDifference, ReduceMultiplyIsProduct, ReduceDivideIsQuotient and ReduceSnoc below |
| `Calculator.HasZeroDivisor` | skills/calculator/src/calculator.ts:32 | some operand at index 1 or later is zero exactly when there are two or more operands and `operands.slice(1)` contains 0 |
| `Calculator.Calculate` | skills/calculator/src/calculator.ts:17-37 | fewer than two operands fail with InvalidOperandCount for every operator; DivisionByZero is returned exactly when the operator is divide, there are at least two operands and some operand at index 1 or later is zero; no other failure exists |
| `Calculator.OperatorName` | skills/calculator/src/calculator.ts:41 | the `${op.operator}` part of the label: a non-empty name with no parentheses in it |
| `Calculator.Join` | skills/calculator/src/calculator.ts:41 | `join(', ')`: the parts with the separator between neighbours; the lemma JoinSnoc below states that it also grows from the back |
| `Calculator.Rendered` | skills/calculator/src/calculator.ts:41 | the label renders every operand, one text per operand, in order |
| `Calculator.Label` | skills/calculator/src/calculator.ts:41 | the template literal: the label starts with the operator's name and `(`, ends with `)`, and in between is exactly the rendered operands joined with `", "` |
| `Calculator.RunOperations` | skills/calculator/src/calculator.ts:39-44 | the batch succeeds exactly when every operation succeeds; then it has one result per operation, in order, result i being the label and the value of operation i |
| `CalculatorProperties.ReduceAddIsSum` | skills/calculator/src/calculator.ts:26 | folding `+` from an accumulator gives the accumulator plus the sum of the list |
| `CalculatorProperties.ReduceSubtractIsDifference` | skills/calculator/src/calculator.ts:28 | folding `-` from an accumulator gives the accumulator minus the sum of the list |
| `CalculatorProperties.ReduceMultiplyIsProduct` | skills/calculator/src/calculator.ts:30 | folding `*` from an accumulator gives the accumulator times the product of the list |
| `CalculatorProperties.ProductNonZero` | skills/calculator/src/calculator.ts:32-35 | a list of divisors without a zero has a non-zero product |
| `CalculatorProperties.ReduceDivideIsQuotient` | skills/calculator/src/calculator.ts:35 | folding `/` over a list without zeros gives the accumulator over the (non-zero) product of the list |
| `CalculatorProperties.ReduceSnoc` | skills/calculator/src/calculator.ts:26-35 | the reduction is a left fold: extending the list by one element applies one more step to the shorter list's value, and a zero-free longer list leaves a zero-free shorter one |
| `CalculatorProperties.CalculateAdd` | skills/calculator/src/calculator.ts:25-26 | add on two or more operands succeeds with the sum of all operands |
| `CalculatorProperties.CalculateSubtract` | skills/calculator/src/calculator.ts:27-28 | subtract on two or more operands succeeds with the first operand minus the sum of the rest |
| `CalculatorProperties.CalculateMultiply` | skills/calculator/src/calculator.ts:29-30 | multiply on two or more operands succeeds with the product of all operands |
| `CalculatorProperties.CalculateDivide` | skills/calculator/src/calculator.ts:31-35 | divide on two or more operands fails with DivisionByZero if and only if some divisor is zero (a zero first operand does not count); otherwise the product of the divisors is non-zero and the result is the first operand over it |
| `CalculatorProperties.CalculateAppend` | skills/calculator/src/calculator.ts:24-36 | for every operator, appending one operand (a non-zero one for divide, with no zero divisor before) applies one more binary step to the shorter operation's successful value: all four reduce from the left |
| `CalculatorProperties.CalculateThreeOperands` | skills/calculator/src/calculator.ts:27-35 | subtract of [a, b, c] is (a - b) - c; divide of [a, b, c] is (a / b) / c when b and c are non-zero and DivisionByZero otherwise |
| `CalculatorProperties.BasicScenarios` | skills/calculator/src/calculator.test.ts:5-51 | the basic-operation and negative-number tests: [2, 3] adds to 5, [10, 4] subtracts to 6, [6, 7] multiplies to 42, [20, 4] divides to 5, and the signed cases |
| `CalculatorProperties.ZeroScenarios` | skills/calculator/src/calculator.test.ts:53-77 | the zero-handling tests: [0, 5] divides to 0, while [10, 0] and [100, 2, 0] fail with DivisionByZero |
| `CalculatorProperties.ChainScenarios` | skills/calculator/src/calculator.test.ts:79-97 | the multi-operand tests: [1..5] adds to 15, [2, 3, 4] multiplies to 24, [100, 30, 20, 10] subtracts to 40, [100, 2, 5] divides to 10 |
| `CalculatorProperties.ScaleScenarios` | skills/calculator/src/calculator.test.ts:99-125 | the precision tests with exact expected values: 1e-6 + 2e-6, 1e-15 + 1e-15, 1 / 1e9 and 1e6 * 1e6 |
| `CalculatorProperties.JoinSnoc` | skills/calculator/src/calculator.ts:41 | a join of two or more parts is the join of all but the last, one separator, and the last part |
| `CalculatorProperties.LabelNamesOperator` | skills/calculator/src/calculator.ts:41 | beyond what the source promises, a consequence of the name prefix: two equal labels have the same operator, whatever the number rendering |
| `CalculatorProperties.RunOperationsFirstError` | skills/calculator/src/calculator.ts:39-44 | if operation k is the first one that fails, the batch fails with operation k's error |
| `CalculatorProperties.RunOperationsErrorIsFirst` | skills/calculator/src/calculator.ts:39-44 | a failing batch fails with the error of some failing operation all of whose predecessors succeed |

## Left out

- `skills/calculator/scripts/cli.ts`: argument reading, JSON parsing and printing, the invalid-JSON and not-an-array errors, messages on standard error and exit codes are input/output around the evaluator.
- IEEE-754 double arithmetic: rounding (0.1 + 0.2), overflow to Infinity (1e308 * 2), signed zero, NaN, and the approximate tests (1 / 3, 0.1 + 0.2) cannot be stated over `real`; the scenarios with exact expected values hold over `real` as well.
- JavaScript's strict equality in `n === 0` also holds for negative zero and never for NaN; neither value exists over `real`.
- The text of a number in the label is JavaScript's number-to-string conversion, taken as the parameter `render`; only the operator name, the parentheses and the `", "` separators are modelled.
- An operator outside the four, which at run time makes `calculate` return `undefined`, cannot be expressed: `Operator` is a closed datatype, as the TypeScript type is.
- Inputs whose fields have the wrong run-time type (operands that are not an array of numbers) cannot be expressed in the typed model.
- Idempotence of a batch holds because every member is a pure function; no lemma states it.
- Calculator.Apply: states no inverse for the multiply step, because undoing it needs a non-zero b and that clause makes the solver's nonlinear reasoning about every fold far more costly; the multiply step is pinned down by ReduceMultiplyIsProduct and CalculateAppend instead.
