/** `TotalValidEquations`: for every equation, try the generated operator
    sequences in order and add the target once, at the first sequence that
    evaluates to it. */
module Aggregation {
  import opened Types
  import opened Enumeration
  import opened Evaluation

  /** A valid equation: some operator sequence, one operator between each
      pair of adjacent operands, evaluates to the target. With a single
      operand the empty sequence is the only one, and the equation is valid
      when that operand equals the target. */
  ghost predicate Valid(e: Equation) {
    |e.nums| >= 1 &&
    exists ops: seq<Op> :: |ops| == |e.nums| - 1 && Eval(ops, e.nums) == e.result
  }

  /** The equations `TotalValidEquations` counts: valid ones with at least
      two operands, because the generator yields no sequence of length
      zero. */
  ghost predicate Satisfiable(e: Equation) {
    |e.nums| >= 2 && Valid(e)
  }

  /** What one equation adds to the total. */
  ghost function Contribution(e: Equation): int {
    if Satisfiable(e) then e.result else 0
  }

  /** The reference total: the target of every satisfiable equation, once. */
  ghost function TotalOf(eqs: seq<Equation>): int {
    if |eqs| == 0 then 0 else TotalOf(eqs[..|eqs| - 1]) + Contribution(eqs[|eqs| - 1])
  }

  /** The operator sequences the Go code tries for `e`, in order. */
  function Candidates(e: Equation): seq<seq<Op>> {
    Permutations(|e.nums| - 1)
  }

  /** Every candidate has one operator fewer than `e` has operands. */
  lemma CandidatesFit(e: Equation)
    ensures |Candidates(e)| == if |e.nums| <= 1 then 0 else Pow3(|e.nums| - 1)
    ensures forall j :: 0 <= j < |Candidates(e)| ==> |Candidates(e)[j]| == |e.nums| - 1
  {
    PermutationsShape(|e.nums| - 1);
  }

  /** A satisfiable equation has a candidate that evaluates to its target. */
  lemma ValidHasMatch(e: Equation) returns (j: nat)
    requires Satisfiable(e)
    ensures j < |Candidates(e)| && |Candidates(e)[j]| == |e.nums| - 1
    ensures Eval(Candidates(e)[j], e.nums) == e.result
  {
    var ops: seq<Op> :| |ops| == |e.nums| - 1 && Eval(ops, e.nums) == e.result;
    j := CandidateOf(e, ops);
  }

  /** A candidate that evaluates to the target makes the equation satisfiable. */
  lemma MatchIsValid(e: Equation, j: nat)
    requires j < |Candidates(e)| && |Candidates(e)[j]| == |e.nums| - 1
    requires Eval(Candidates(e)[j], e.nums) == e.result
    ensures Satisfiable(e)
  {
    CandidatesFit(e);
    var ops := Candidates(e)[j];
    assert Eval(ops, e.nums) == e.result;
  }

  /** Searching the generated candidates finds a match exactly when the
      equation is satisfiable. */
  lemma SearchFindsValid(e: Equation)
    ensures forall j :: 0 <= j < |Candidates(e)| ==> |Candidates(e)[j]| == |e.nums| - 1
    ensures Satisfiable(e) <==>
      exists j :: 0 <= j < |Candidates(e)| && Eval(Candidates(e)[j], e.nums) == e.result
  {
    CandidatesFit(e);
    if Satisfiable(e) {
      var j := ValidHasMatch(e);
    } else {
      forall j | 0 <= j < |Candidates(e)|
        ensures Eval(Candidates(e)[j], e.nums) != e.result
      {
        if Eval(Candidates(e)[j], e.nums) == e.result {
          MatchIsValid(e, j);
        }
      }
    }
  }

  /** Every operator sequence that fits `e` is among its candidates. */
  lemma CandidateOf(e: Equation, ops: seq<Op>) returns (j: nat)
    requires |e.nums| >= 2 && |ops| == |e.nums| - 1
    ensures j < |Candidates(e)| && Candidates(e)[j] == ops
  {
    PermutationsComplete(|e.nums| - 1, ops);
    j := IndexOf(ops);
  }

  /** An equation with fewer than two operands adds nothing, even when it
      has one operand, equal to the target, and so is valid. */
  lemma FewOperandsAddNothing(e: Equation)
    requires |e.nums| < 2
    ensures |e.nums| == 1 ==> (Valid(e) <==> e.nums[0] == e.result)
    ensures TotalOf([e]) == 0
  {
    assert [e][..0] == [];
    if |e.nums| == 1 {
      EvalSteps([], ADD, e.nums);
      if e.nums[0] == e.result {
        var none: seq<Op> := [];
        assert |none| == |e.nums| - 1 && Eval(none, e.nums) == e.result;
      }
      if Valid(e) {
        var ops: seq<Op> :| |ops| == |e.nums| - 1 && Eval(ops, e.nums) == e.result;
        assert ops == [];
      }
    }
  }

  /** The single-operand quirk on a concrete equation: `5 = 5` is valid,
      yet it adds nothing to the total. */
  lemma SingleOperandIgnored()
    ensures Valid(Equation(5, [5]))
    ensures TotalOf([Equation(5, [5])]) == 0
  {
    FewOperandsAddNothing(Equation(5, [5]));
  }

  /** An equation adds its target when satisfiable and nothing otherwise. */
  lemma SingleTotal(e: Equation)
    ensures TotalOf([e]) == if Satisfiable(e) then e.result else 0
  {
    assert [e][..0] == [];
  }

  /** The total of a concatenation is the sum of the totals. */
  lemma {:induction false} TotalAppend(xs: seq<Equation>, ys: seq<Equation>)
    ensures TotalOf(xs + ys) == TotalOf(xs) + TotalOf(ys)
    decreases |ys|
  {
    if |ys| == 0 {
      assert xs + ys == xs;
    } else {
      var ys' := ys[..|ys| - 1];
      assert (xs + ys)[..|xs + ys| - 1] == xs + ys';
      TotalAppend(xs, ys');
    }
  }

  /** When no candidate evaluates to the target, the equation is not satisfiable. */
  lemma NoMatchIsInvalid(e: Equation)
    requires forall t :: 0 <= t < |Candidates(e)| ==> |Candidates(e)[t]| == |e.nums| - 1
    requires forall t :: 0 <= t < |Candidates(e)| ==> Eval(Candidates(e)[t], e.nums) != e.result
    ensures !Satisfiable(e)
  {
    if Satisfiable(e) {
      var j := ValidHasMatch(e);
    }
  }

  lemma TotalStep(eqs: seq<Equation>, i: nat)
    requires i < |eqs|
    ensures TotalOf(eqs[..i + 1]) == TotalOf(eqs[..i]) + Contribution(eqs[i])
  {
    assert eqs[..i + 1][..i] == eqs[..i];
  }

  /** The inner loop of `TotalValidEquations`: try the sequences in order
      and stop at the first one that evaluates to the target. */
  method SearchCandidates(e: Equation, opsPermutations: seq<seq<Op>>) returns (found: bool)
    requires forall t :: 0 <= t < |opsPermutations| ==> |opsPermutations[t]| == |e.nums| - 1
    ensures found <==>
      exists j :: 0 <= j < |opsPermutations| && Eval(opsPermutations[j], e.nums) == e.result
  {
    var j := 0;
    while j < |opsPermutations|
      invariant 0 <= j <= |opsPermutations|
      invariant forall t :: 0 <= t < j ==> Eval(opsPermutations[t], e.nums) != e.result
    {
      var value := EvalEquation(opsPermutations[j], e.nums);
      if value == e.result {
        return true;
      }
      j := j + 1;
    }
    return false;
  }

  /** The search over the generated candidates adds exactly what the
      equation contributes. */
  lemma SearchIsContribution(e: Equation, opsPermutations: seq<seq<Op>>, found: bool)
    requires opsPermutations == Candidates(e)
    requires forall t :: 0 <= t < |opsPermutations| ==> |opsPermutations[t]| == |e.nums| - 1
    requires found <==>
      exists j :: 0 <= j < |opsPermutations| && Eval(opsPermutations[j], e.nums) == e.result
    ensures Contribution(e) == if found then e.result else 0
  {
    SearchFindsValid(e);
  }

  /** `TotalValidEquations`: the sum of the targets of the satisfiable equations,
      each counted once. */
  method TotalValidEquations(eqs: seq<Equation>) returns (totalSum: int)
    ensures totalSum == TotalOf(eqs)
  {
    totalSum := 0;
    for i := 0 to |eqs|
      invariant totalSum == TotalOf(eqs[..i])
    {
      var e := eqs[i];
      var opsPermutations := GenPermutationOps(|e.nums| - 1);
      CandidatesFit(e);
      var found := SearchCandidates(e, opsPermutations);
      SearchIsContribution(e, opsPermutations, found);
      TotalStep(eqs, i);
      if found {
        totalSum := totalSum + e.result;
      }
    }
    assert eqs[..|eqs|] == eqs;
  }

  /** The worked end-to-end examples: 190 = 10 * 19 and
      3267 = (81 + 40) * 27 are found; 83 from 17 and 5 is not. */
  lemma TotalExamples()
    ensures TotalOf([Equation(190, [10, 19])]) == 190
    ensures TotalOf([Equation(3267, [81, 40, 27])]) == 3267
    ensures TotalOf([Equation(83, [17, 5])]) == 0
  {
    SingleTotal(Equation(190, [10, 19]));
    assert Eval([MUL], [10, 19]) == 190;
    SingleTotal(Equation(3267, [81, 40, 27]));
    assert Eval([ADD, MUL], [81, 40, 27]) == 3267;
    SingleTotal(Equation(83, [17, 5]));
    NoOperatorGives83();
  }

  /** No single operator combines 17 and 5 into 83: they give 22, 85 and
      175. */
  lemma NoOperatorGives83()
    ensures forall ops: seq<Op> :: |ops| == 1 ==> Eval(ops, [17, 5]) != 83
  {
    forall ops: seq<Op> | |ops| == 1
      ensures Eval(ops, [17, 5]) != 83
    {
      assert ops == [ops[0]];
      match ops[0]
      case ADD =>
        assert Eval([ADD], [17, 5]) == 22;
      case MUL =>
        assert Eval([MUL], [17, 5]) == 85;
      case CONCAT =>
        assert Eval([CONCAT], [17, 5]) == 175;
    }
  }
}
