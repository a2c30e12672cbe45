/** The data of the day-7 calibration puzzle: the closed operator alphabet
    and an equation (a target result and its operands). */
module Types {

  /** The three operators, in the order of their Go `iota` values
      (ADD = 0, MUL = 1, CONCAT = 2). */
  datatype Op = ADD | MUL | CONCAT

  /** The numeric value the Go enum gives an operator. */
  function Code(op: Op): (c: nat)
    ensures c < 3
    ensures op == OpOf(c)
  {
    match op
    case ADD => 0
    case MUL => 1
    case CONCAT => 2
  }

  /** The operator whose Go enum value is `c`. */
  function OpOf(c: nat): Op
    requires c < 3
  {
    if c == 0 then ADD else if c == 1 then MUL else CONCAT
  }

  /** An equation: the target `result` and the operands, in order. Operands
      are non-negative; the target is whatever integer the input gave. */
  datatype Equation = Equation(result: int, nums: seq<nat>)
}
