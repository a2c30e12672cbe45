/** Left-to-right evaluation of an equation under an operator sequence
    (`EvalEquation`): no precedence, the accumulator starts at the first
    operand and each operator combines it with the next operand. */
module Evaluation {
  import opened Types
  import opened Decimal

  /** One operator applied to the accumulator `a` and the next operand `b`;
      CONCAT goes through the decimal text, as the Go code does. */
  function Apply(op: Op, a: nat, b: nat): (r: nat)
    ensures op == ADD ==> r == a + b
    ensures op == MUL ==> r == a * b
    ensures op == CONCAT ==> Atoi(Itoa(a) + Itoa(b)) == Number(r)
  {
    match op
    case ADD => a + b
    case MUL => a * b
    case CONCAT => ConcatString(a, b)
  }

  /** The fold: `acc` combined with `rest[0]` by `ops[0]`, then the next,
      and so on. */
  function EvalFrom(acc: nat, ops: seq<Op>, rest: seq<nat>): nat
    requires |rest| >= |ops|
    decreases |ops|
  {
    if |ops| == 0 then acc else EvalFrom(Apply(ops[0], acc, rest[0]), ops[1..], rest[1..])
  }

  /** The value of `nums` under `ops`; the Go code indexes `nums[i + 1]`
      for every operator, so there must be one more operand than operators. */
  function Eval(ops: seq<Op>, nums: seq<nat>): nat
    requires |nums| >= |ops| + 1
  {
    EvalFrom(nums[0], ops, nums[1..])
  }

  lemma {:induction false} EvalFromSnoc(acc: nat, ops: seq<Op>, op: Op, rest: seq<nat>)
    requires |rest| >= |ops| + 1
    ensures EvalFrom(acc, ops + [op], rest) == Apply(op, EvalFrom(acc, ops, rest), rest[|ops|])
    decreases |ops|
  {
    if |ops| > 0 {
      assert (ops + [op])[1..] == ops[1..] + [op];
      EvalFromSnoc(Apply(ops[0], acc, rest[0]), ops[1..], op, rest[1..]);
    }
  }

  /** The fold, one step at a time: no operator leaves the first operand,
      and appending an operator applies it to the value so far and the
      operand after the last one used. */
  lemma EvalSteps(ops: seq<Op>, op: Op, nums: seq<nat>)
    requires |nums| >= |ops| + 1
    ensures Eval([], nums) == nums[0]
    ensures |nums| >= |ops| + 2 ==>
      Eval(ops + [op], nums) == Apply(op, Eval(ops, nums), nums[|ops| + 1])
  {
    if |nums| >= |ops| + 2 {
      EvalFromSnoc(nums[0], ops, op, nums[1..]);
    }
  }

  lemma {:induction false} EvalFromPrefix(acc: nat, ops: seq<Op>, rest: seq<nat>)
    requires |rest| >= |ops|
    ensures EvalFrom(acc, ops, rest) == EvalFrom(acc, ops, rest[..|ops|])
    decreases |ops|
  {
    if |ops| > 0 {
      assert rest[..|ops|][1..] == rest[1..][..|ops| - 1];
      EvalFromPrefix(Apply(ops[0], acc, rest[0]), ops[1..], rest[1..]);
    }
  }

  /** Operands beyond the last one an operator reaches do not matter. */
  lemma EvalIgnoresExtraOperands(ops: seq<Op>, nums: seq<nat>)
    requires |nums| >= |ops| + 1
    ensures Eval(ops, nums) == Eval(ops, nums[..|ops| + 1])
  {
    EvalFromPrefix(nums[0], ops, nums[1..]);
    assert nums[..|ops| + 1][1..] == nums[1..][..|ops|];
    EvalFromPrefix(nums[0], ops, nums[..|ops| + 1][1..]);
  }

  /** `EvalEquation`: the loop over the operators, with CONCAT computed by
      writing both values in decimal, joining the texts and parsing back. */
  method EvalEquation(ops: seq<Op>, nums: seq<nat>) returns (res: nat)
    requires |nums| >= |ops| + 1
    ensures res == Eval(ops, nums)
  {
    res := nums[0];
    for i := 0 to |ops|
      invariant res == Eval(ops[..i], nums)
    {
      var next := nums[i + 1];
      match ops[i] {
        case ADD =>
          res := res + next;
        case MUL =>
          res := res * next;
        case CONCAT =>
          var resStr := Itoa(res) + Itoa(next);
          ConcatRoutesAgree(res, next);
          res := Atoi(resStr).value;
      }
      assert ops[..i + 1] == ops[..i] + [ops[i]];
      EvalSteps(ops[..i], ops[i], nums);
    }
    assert ops[..|ops|] == ops;
  }

  /** The worked examples: 12 || 34, 1 || 0, 2 + 3, 2 * 3, and the operands
      1, 2, 3 under MUL, ADD and under ADD, MUL. */
  lemma EvalExamples()
    ensures Eval([CONCAT], [12, 34]) == 1234
    ensures Eval([CONCAT], [1, 0]) == 10
    ensures Eval([ADD], [2, 3]) == 5
    ensures Eval([MUL], [2, 3]) == 6
    ensures Eval([MUL, ADD], [1, 2, 3]) == 5
    ensures Eval([ADD, MUL], [1, 2, 3]) == 9
  {
  }
}
