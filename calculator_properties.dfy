/**
 * What the evaluator and the batch runner promise: each reduction computes
 * the arithmetic it is named after, the reductions associate to the left,
 * a division never divides by zero, and a batch keeps order and length and
 * fails with the first failing operation's error.
 */
module CalculatorProperties {
  import opened Calculator

  /*
   * The reductions against the reference sum and product.
   */

  lemma {:induction false} ReduceAddIsSum(acc: real, s: seq<real>)
    decreases s
    ensures Reduce(Add, acc, s) == acc + Sum(s)
  {
    if s != [] {
      ReduceAddIsSum(acc + s[0], s[1..]);
    }
  }

  lemma {:induction false} ReduceSubtractIsDifference(acc: real, s: seq<real>)
    decreases s
    ensures Reduce(Subtract, acc, s) == acc - Sum(s)
  {
    if s != [] {
      ReduceSubtractIsDifference(acc - s[0], s[1..]);
    }
  }

  lemma {:induction false} ReduceMultiplyIsProduct(acc: real, s: seq<real>)
    decreases s
    ensures Reduce(Multiply, acc, s) == acc * Product(s)
  {
    if s != [] {
      ReduceMultiplyIsProduct(Apply(Multiply, acc, s[0]), s[1..]);
      assert Apply(Multiply, acc, s[0]) * Product(s[1..]) == acc * (s[0] * Product(s[1..]));
    }
  }

  /** A list without zeros has a product other than zero. */
  lemma {:induction false} ProductNonZero(s: seq<real>)
    requires 0.0 !in s
    ensures Product(s) != 0.0
  {
    if s != [] {
      assert s[0] in s;
      assert forall x :: x in s[1..] ==> x in s;
      ProductNonZero(s[1..]);
    }
  }

  lemma {:induction false} ReduceDivideIsQuotient(acc: real, s: seq<real>)
    requires 0.0 !in s
    decreases s
    ensures Product(s) != 0.0
    ensures Reduce(Divide, acc, s) == acc / Product(s)
  {
    ProductNonZero(s);
    if s != [] {
      var x, rest := s[0], Product(s[1..]);
      assert x in s;
      assert forall y :: y in s[1..] ==> y in s;
      ProductNonZero(s[1..]);
      calc {
        Reduce(Divide, acc, s);
        Reduce(Divide, acc / x, s[1..]);
        { ReduceDivideIsQuotient(acc / x, s[1..]); }
        (acc / x) / rest;
        { assert x * rest != 0.0 && (acc / x) / rest == acc / (x * rest); }
        acc / (x * rest);
        acc / Product(s);
      }
    }
  }

  /** A reduction over a longer list takes one more step from the shorter one's value. */
  lemma {:induction false} ReduceSnoc(op: Operator, acc: real, s: seq<real>, x: real)
    requires op == Divide ==> 0.0 !in s + [x]
    decreases s
    ensures op == Divide ==> 0.0 !in s && x != 0.0
    ensures Reduce(op, acc, s + [x]) == Apply(op, Reduce(op, acc, s), x)
  {
    assert forall y :: y in s ==> y in s + [x];
    assert x == (s + [x])[|s|];
    if s != [] {
      assert (s + [x])[0] == s[0];
      assert (s + [x])[1..] == s[1..] + [x];
      ReduceSnoc(op, Apply(op, acc, s[0]), s[1..], x);
    }
  }

  /*
   * Calculate, operator by operator.
   */

  /** `add` is the sum of all operands. */
  lemma CalculateAdd(operands: seq<real>)
    requires |operands| >= 2
    ensures Calculate(Operation(Add, operands)) == Ok(Sum(operands))
  {
    ReduceAddIsSum(0.0, operands);
  }

  /** `subtract` is the first operand minus the sum of the others. */
  lemma CalculateSubtract(operands: seq<real>)
    requires |operands| >= 2
    ensures Calculate(Operation(Subtract, operands)) == Ok(operands[0] - Sum(operands[1..]))
  {
    ReduceSubtractIsDifference(operands[0], operands[1..]);
  }

  /** `multiply` is the product of all operands. */
  lemma CalculateMultiply(operands: seq<real>)
    requires |operands| >= 2
    ensures Calculate(Operation(Multiply, operands)) == Ok(Product(operands))
  {
    ReduceMultiplyIsProduct(1.0, operands);
  }

  /**
   * `divide` fails with DivisionByZero exactly when some divisor is zero, a
   * zero first operand included or not; otherwise it is the first operand
   * over the product of the divisors, which is never zero.
   */
  lemma CalculateDivide(operands: seq<real>)
    requires |operands| >= 2
    ensures Calculate(Operation(Divide, operands)) == Err(DivisionByZero) <==> HasZeroDivisor(operands)
    ensures !HasZeroDivisor(operands) ==>
              Product(operands[1..]) != 0.0 &&
              Calculate(Operation(Divide, operands)) == Ok(operands[0] / Product(operands[1..]))
  {
    if !HasZeroDivisor(operands) {
      ReduceDivideIsQuotient(operands[0], operands[1..]);
    }
  }

  /**
   * Every operator reduces from the left: appending one more operand applies
   * one more step to the value of the shorter operation. For `divide` this
   * needs every divisor, the new one included, to be non-zero.
   */
  lemma CalculateAppend(op: Operator, operands: seq<real>, x: real)
    requires |operands| >= 2
    requires op == Divide ==> !HasZeroDivisor(operands) && x != 0.0
    ensures Calculate(Operation(op, operands)).Ok?
    ensures Calculate(Operation(op, operands + [x])) == Ok(Apply(op, Calculate(Operation(op, operands)).value, x))
  {
    var longer := operands + [x];
    assert longer[0] == operands[0];
    assert longer[1..] == operands[1..] + [x];
    if op == Divide {
      assert forall y :: y in operands[1..] + [x] ==> y in operands[1..] || y == x;
    }
    match op
    case Add => ReduceSnoc(Add, 0.0, operands, x);
    case Multiply => ReduceSnoc(Multiply, 1.0, operands, x);
    case Subtract => ReduceSnoc(Subtract, operands[0], operands[1..], x);
    case Divide => ReduceSnoc(Divide, operands[0], operands[1..], x);
  }

  /** Three operands: `subtract` is (a - b) - c and `divide` is (a / b) / c. */
  lemma CalculateThreeOperands(a: real, b: real, c: real)
    ensures Calculate(Operation(Subtract, [a, b, c])) == Ok((a - b) - c)
    ensures b != 0.0 && c != 0.0 ==> Calculate(Operation(Divide, [a, b, c])) == Ok((a / b) / c)
    ensures b == 0.0 || c == 0.0 ==> Calculate(Operation(Divide, [a, b, c])) == Err(DivisionByZero)
  {
    assert [a, b] + [c] == [a, b, c];
    assert [a, b][1..] == [b] && [b][1..] == [];
    assert Reduce(Subtract, a, [b]) == Reduce(Subtract, a - b, []);
    assert Calculate(Operation(Subtract, [a, b])) == Ok(a - b);
    CalculateAppend(Subtract, [a, b], c);
    if b != 0.0 && c != 0.0 {
      assert 0.0 !in [b];
      assert Reduce(Divide, a, [b]) == Reduce(Divide, a / b, []);
      assert Calculate(Operation(Divide, [a, b])) == Ok(a / b);
      CalculateAppend(Divide, [a, b], c);
    } else {
      assert [a, b, c][1] == 0.0 || [a, b, c][2] == 0.0;
    }
  }

  /*
   * The scenarios of the calculator's test suite whose expected value is
   * exact, one lemma per group of tests.
   */

  /** Basic operations and negative numbers. */
  lemma BasicScenarios()
    ensures Calculate(Operation(Add, [2.0, 3.0])) == Ok(5.0)
    ensures Calculate(Operation(Subtract, [10.0, 4.0])) == Ok(6.0)
    ensures Calculate(Operation(Multiply, [6.0, 7.0])) == Ok(42.0)
    ensures Calculate(Operation(Divide, [20.0, 4.0])) == Ok(5.0)
    ensures Calculate(Operation(Add, [-5.0, 10.0])) == Ok(5.0)
    ensures Calculate(Operation(Subtract, [5.0, 10.0])) == Ok(-5.0)
    ensures Calculate(Operation(Subtract, [-3.0, -7.0])) == Ok(4.0)
    ensures Calculate(Operation(Multiply, [-3.0, 4.0])) == Ok(-12.0)
    ensures Calculate(Operation(Multiply, [-3.0, -4.0])) == Ok(12.0)
    ensures Calculate(Operation(Divide, [-12.0, 4.0])) == Ok(-3.0)
    ensures Calculate(Operation(Divide, [-12.0, -4.0])) == Ok(3.0)
  {
  }

  /** Zero handling: a zero first operand divides, a zero divisor anywhere fails. */
  lemma ZeroScenarios()
    ensures Calculate(Operation(Add, [0.0, 0.0])) == Ok(0.0)
    ensures Calculate(Operation(Multiply, [0.0, 999999.0])) == Ok(0.0)
    ensures Calculate(Operation(Divide, [0.0, 5.0])) == Ok(0.0)
    ensures Calculate(Operation(Divide, [10.0, 0.0])) == Err(DivisionByZero)
    ensures Calculate(Operation(Divide, [100.0, 2.0, 0.0])) == Err(DivisionByZero)
  {
  }

  /** Multi-operand chains. */
  lemma ChainScenarios()
    ensures Calculate(Operation(Add, [1.0, 2.0, 3.0, 4.0, 5.0])) == Ok(15.0)
    ensures Calculate(Operation(Multiply, [2.0, 3.0, 4.0])) == Ok(24.0)
    ensures Calculate(Operation(Subtract, [100.0, 30.0, 20.0, 10.0])) == Ok(40.0)
    ensures Calculate(Operation(Divide, [100.0, 2.0, 5.0])) == Ok(10.0)
  {
  }

  /** Small and large magnitudes whose exact values are the expected ones. */
  lemma ScaleScenarios()
    ensures Calculate(Operation(Add, [0.000001, 0.000002])) == Ok(0.000003)
    ensures Calculate(Operation(Add, [0.000000000000001, 0.000000000000001])) == Ok(0.000000000000002)
    ensures Calculate(Operation(Divide, [1.0, 1000000000.0])) == Ok(0.000000001)
    ensures Calculate(Operation(Multiply, [1000000.0, 1000000.0])) == Ok(1000000000000.0)
  {
  }

  /*
   * The label.
   */

  /**
   * Join, built from the front, also grows from the back: the last part
   * follows the join of the others and one separator.
   */
  lemma {:induction false} JoinSnoc(parts: seq<string>, sep: string)
    requires |parts| >= 2
    decreases |parts|
    ensures Join(parts, sep) == Join(parts[..|parts| - 1], sep) + sep + parts[|parts| - 1]
  {
    var init, rest, last := parts[..|parts| - 1], parts[1..], parts[|parts| - 1];
    if |parts| == 2 {
      assert init == [parts[0]] && rest == [last];
    } else {
      JoinSnoc(rest, sep);
      assert rest[..|rest| - 1] == init[1..] && rest[|rest| - 1] == last;
      assert Join(init, sep) == parts[0] + sep + Join(init[1..], sep);
    }
  }

  /** A label names its operator: two labels that agree have the same operator. */
  lemma LabelNamesOperator(o1: Operation, o2: Operation, render1: real -> string, render2: real -> string)
    requires Label(o1, render1) == Label(o2, render2)
    ensures o1.operator == o2.operator
  {
    assert Label(o1, render1)[0] == OperatorName(o1.operator)[0];
    assert Label(o2, render2)[0] == OperatorName(o2.operator)[0];
  }

  /*
   * The batch runner.
   */

  /** The batch's error is the error of its first failing operation. */
  lemma {:induction false} RunOperationsFirstError(operations: seq<Operation>, render: real -> string, k: nat)
    requires k < |operations| && Calculate(operations[k]).Err?
    requires forall j :: 0 <= j < k ==> Calculate(operations[j]).Ok?
    decreases k
    ensures RunOperations(operations, render) == Err(Calculate(operations[k]).error)
  {
    if k > 0 {
      assert Calculate(operations[0]).Ok?;
      var rest := operations[1..];
      assert rest[k - 1] == operations[k];
      assert forall j :: 0 <= j < k - 1 ==> rest[j] == operations[j + 1];
      RunOperationsFirstError(rest, render, k - 1);
    }
  }

  /**
   * A failing batch fails with the error of an operation all of whose
   * predecessors succeed.
   */
  lemma {:induction false} RunOperationsErrorIsFirst(operations: seq<Operation>, render: real -> string)
    requires RunOperations(operations, render).Err?
    ensures exists k :: 0 <= k < |operations| &&
              Calculate(operations[k]) == Err(RunOperations(operations, render).error) &&
              forall j :: 0 <= j < k ==> Calculate(operations[j]).Ok?
  {
    if Calculate(operations[0]).Ok? {
      var rest := operations[1..];
      RunOperationsErrorIsFirst(rest, render);
      var k :| 0 <= k < |rest| && Calculate(rest[k]) == Err(RunOperations(rest, render).error) &&
               forall j :: 0 <= j < k ==> Calculate(rest[j]).Ok?;
      assert RunOperations(operations, render).error == RunOperations(rest, render).error;
      assert rest[k] == operations[k + 1];
      forall j | 0 <= j < k + 1 ensures Calculate(operations[j]).Ok? {
        if j > 0 { assert operations[j] == rest[j - 1]; }
      }
    }
  }
}
