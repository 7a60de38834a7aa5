/**
 * The calculator's evaluator: one operation is an operator applied to a list
 * of operands by a left-to-right reduction, and a batch of operations is
 * evaluated in order, all or nothing.
 *
 * Numbers are modelled as `real`, so arithmetic here is exact. Thrown errors
 * become the `Err` case of `Result`.
 */
module Calculator {

  /** The closed set of operators. */
  datatype Operator = Add | Subtract | Multiply | Divide

  /** One operation: an operator and its operand list, in order. */
  datatype Operation = Operation(operator: Operator, operands: seq<real>)

  /** One entry of a batch's output: a text label and the computed value. */
  datatype CalculationResult = CalculationResult(operation: string, result: real)

  /** The two ways an evaluation can fail. */
  datatype CalcError = InvalidOperandCount | DivisionByZero

  datatype Result<T> = Ok(value: T) | Err(error: CalcError)

  /*
   * Reference definitions: the mathematical sum and product of a list,
   * by recursion on the list and independent of the reductions below.
   */

  function Sum(s: seq<real>): real
  {
    if s == [] then 0.0 else s[0] + Sum(s[1..])
  }

  function Product(s: seq<real>): real
  {
    if s == [] then 1.0 else s[0] * Product(s[1..])
  }

  /**
   * Some divisor of an operand list, an operand at position 1 or later, is
   * zero: the same as `operands.slice(1).some(n => n === 0)`.
   */
  predicate HasZeroDivisor(operands: seq<real>)
    ensures HasZeroDivisor(operands) <==> |operands| >= 2 && 0.0 in operands[1..]
  {
    assert forall i :: 1 <= i < |operands| ==> operands[i] == operands[1..][i - 1];
    exists i :: 1 <= i < |operands| && operands[i] == 0.0
  }

  /*
   * The evaluator.
   */

  /**
   * The binary step of each operator's reduction, stated by the step that
   * undoes it.
   */
  function Apply(op: Operator, a: real, b: real): (r: real)
    requires op == Divide ==> b != 0.0
    ensures op == Add ==> r - b == a
    ensures op == Subtract ==> r + b == a
    ensures op == Divide ==> r * b == a
  {
    match op
    case Add => a + b
    case Subtract => a - b
    case Multiply => a * b
    case Divide => a / b
  }

  /**
   * Array.prototype.reduce: a left fold of `Apply(op, _, _)` over `s`,
   * starting from the accumulator `acc`. A division fold may only be run
   * over a list without zeros, so no step of it divides by zero.
   */
  function Reduce(op: Operator, acc: real, s: seq<real>): real
    requires op == Divide ==> 0.0 !in s
    decreases s
  {
    if s == [] then acc
    else
      assert s[0] in s;
      assert forall x :: x in s[1..] ==> x in s;
      Reduce(op, Apply(op, acc, s[0]), s[1..])
  }

  /**
   * Evaluates one operation. The operand count is checked first, for every
   * operator alike; `add` and `multiply` fold from 0 and 1, `subtract` and
   * `divide` fold from the first operand, and `divide` rejects the whole
   * operation before it divides anything if some divisor is zero.
   */
  function Calculate(operation: Operation): (r: Result<real>)
    ensures |operation.operands| < 2 ==> r == Err(InvalidOperandCount)
    ensures r == Err(DivisionByZero) <==>
              |operation.operands| >= 2 && operation.operator == Divide && HasZeroDivisor(operation.operands)
    ensures r.Err? <==>
              |operation.operands| < 2 || (operation.operator == Divide && HasZeroDivisor(operation.operands))
  {
    var operands := operation.operands;
    if |operands| < 2 then Err(InvalidOperandCount)
    else
      match operation.operator
      case Add => Ok(Reduce(Add, 0.0, operands))
      case Subtract => Ok(Reduce(Subtract, operands[0], operands[1..]))
      case Multiply => Ok(Reduce(Multiply, 1.0, operands))
      case Divide =>
        if 0.0 in operands[1..] then Err(DivisionByZero)
        else Ok(Reduce(Divide, operands[0], operands[1..]))
  }

  /*
   * The batch label `operator(op1, op2, ...)`. How a number is written as
   * text is JavaScript's own conversion; here it is the parameter `render`.
   */

  /** The operator as the source spells it: a name without parentheses. */
  function OperatorName(op: Operator): (r: string)
    ensures |r| > 0 && '(' !in r && ')' !in r
  {
    match op
    case Add => "add"
    case Subtract => "subtract"
    case Multiply => "multiply"
    case Divide => "divide"
  }

  /** Array.prototype.join: the parts with `sep` between neighbours. */
  function Join(parts: seq<string>, sep: string): string
  {
    if parts == [] then ""
    else if |parts| == 1 then parts[0]
    else parts[0] + sep + Join(parts[1..], sep)
  }

  /** Each operand written as text, in order. */
  function Rendered(operands: seq<real>, render: real -> string): (r: seq<string>)
    ensures |r| == |operands|
    ensures forall i :: 0 <= i < |operands| ==> r[i] == render(operands[i])
  {
    if operands == [] then [] else [render(operands[0])] + Rendered(operands[1..], render)
  }

  /**
   * The label `operator(op1, op2, ...)`: the operator's name, then the
   * rendered operands inside parentheses.
   */
  function Label(operation: Operation, render: real -> string): (r: string)
    ensures var name := OperatorName(operation.operator);
            |r| >= |name| + 2 && r[..|name| + 1] == name + "(" && r[|r| - 1] == ')'
    ensures var name := OperatorName(operation.operator);
            r[|name| + 1..|r| - 1] == Join(Rendered(operation.operands, render), ", ")
  {
    OperatorName(operation.operator) + "(" + Join(Rendered(operation.operands, render), ", ") + ")"
  }

  /*
   * The batch runner.
   */

  /**
   * Evaluates every operation in order and pairs each value with its label.
   * The first operation that fails makes the whole batch fail with its error.
   */
  function RunOperations(operations: seq<Operation>, render: real -> string): (r: Result<seq<CalculationResult>>)
    ensures r.Ok? <==> forall i :: 0 <= i < |operations| ==> Calculate(operations[i]).Ok?
    ensures r.Ok? ==> |r.value| == |operations|
    ensures r.Ok? ==> forall i :: 0 <= i < |operations| ==>
              r.value[i] == CalculationResult(Label(operations[i], render), Calculate(operations[i]).value)
  {
    if operations == [] then Ok([])
    else
      match Calculate(operations[0])
      case Err(e) => Err(e)
      case Ok(v) =>
        match RunOperations(operations[1..], render)
        case Err(e) => Err(e)
        case Ok(rest) =>
          Ok([CalculationResult(Label(operations[0], render), v)] + rest)
  }
}
