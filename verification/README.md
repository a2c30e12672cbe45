# Day 7 bridge-repair calibration, modelled in Dafny

The Go package `day7` decides which calibration equations can be made true and
sums their targets. An equation has a target `result` and a list of operands
`nums`. It is valid when some sequence of operators from `{ADD, MUL, CONCAT}`,
placed between the operands and evaluated strictly left to right with no
precedence, produces the target. The model has three parts:

- **Enumeration** (`GenPermutationOps`, `CloneOps`). This builds every operator
  sequence of length `n`, one length per round. Each sequence held so far is
  extended by ADD. A deep copy of each is extended by MUL, and another copy by
  CONCAT. The three blocks are appended in that order, so the result is base-3
  counting order with the first position varying fastest.
- **Evaluation** (`EvalEquation`). This is a left fold that starts from
  `nums[0]`. CONCAT writes both values in decimal, joins the texts and parses
  the result back (`strconv.Itoa` / `strconv.Atoi`). The model proves that this
  equals the closed form `a * 10^digits(b) + b`.
- **Aggregation** (`TotalValidEquations`, with its inner loop as
  `SearchCandidates`). For each equation, the candidates of
  length `len(nums) - 1` are tried in order. At the first match the target is
  added once and the search stops.

Files:

- `types.dfy`: the operator enum and the equation record.
- `decimal.dfy`: decimal text, `Itoa`/`Atoi` and the two CONCAT routes.
- `enumeration.dfy`: the generator, its functional counterpart `Permutations`
  and the base-3 characterisation.
- `evaluation.dfy`: the fold and `EvalEquation`.
- `aggregation.dfy`: plain validity (`Valid`: some operator sequence
  evaluates to the target), the equations the code counts (`Satisfiable`:
  valid with at least two operands), the reference total (`TotalOf`) and
  `TotalValidEquations`.

Where the code and a plain reading of the problem differ, the model follows
the code. `GenPermutationOps(0)` returns an empty list, not a list holding
the one empty sequence, because the loop body never runs. As a result, an
equation with a single operand is never counted, even when that operand
equals the target. An equation with no operands asks for length `-1`, gets
no candidates and also contributes nothing, without indexing `nums`.

## Model

| member | source | states |
|---|---|---|
| Types.Code | 2024/day7/day7.go:9-15 | each operator has enum value 0, 1 or 2 (ADD, MUL, CONCAT, in `iota` order), and `OpOf` maps the value back to the operator |
| Decimal.Itoa | 2024/day7/day7.go:77 | the decimal text of a non-negative value has `NumDigits` characters, all digits, with no leading zero |
| Decimal.NumDigitsBounds | 2024/day7/day7.go:77 | the digit count of `n` is the least `k >= 1` with `n < 10^k`, so zero has one digit |
| Decimal.Atoi | 2024/day7/day7.go:78-81 | parsing succeeds (the error is nil) exactly on non-empty all-digit text; on canonical text (no leading zero) writing the parsed value with `Itoa` gives the text back, so with `AtoiItoa` the two are inverse on canonical decimal text |
| Decimal.ItoaDigitsValue | 2024/day7/day7.go:77-78 | every non-empty digit string without a leading zero is exactly the text `Itoa` writes for its value |
| Decimal.AtoiItoa | 2024/day7/day7.go:77-78 | parsing the text `Itoa` writes gives the number back |
| Decimal.DigitsValueAppend | 2024/day7/day7.go:77-78 | joined digit strings are digits, and their value is the left value shifted by the right length plus the right value |
| Decimal.ConcatRoutesAgree | 2024/day7/day7.go:75-82 | for non-negative `a`, `b`, parsing `Itoa(a) + Itoa(b)` always succeeds and yields `a * 10^digits(b) + b`; the `log.Fatalf` branch is unreachable in the unbounded model, and in Go it is reached only through the 64-bit range error of `Atoi` |
| Decimal.ConcatString | 2024/day7/day7.go:75-82 | CONCAT computed through text equals the closed form `ConcatArith` |
| Decimal.ConcatExamples | 2024/day7/day7.go:75-82 | 12 CONCAT 34 is 1234 and 1 CONCAT 0 is 10 |
| Enumeration.CloneOps | 2024/day7/day7.go:116-124 | the copy has as many sequences as the input, each equal to the input's at the same index |
| Enumeration.AppendToEach | 2024/day7/day7.go:100-108 | every sequence is extended by the one operator, in place and in order, and the length of the list is unchanged |
| Enumeration.NextRound | 2024/day7/day7.go:97-110 | the ADD-extended list, then the MUL-extended copy, then the CONCAT-extended copy, make up the next round's list |
| Enumeration.GenPermutationOps | 2024/day7/day7.go:91-114 | the loop returns `3^n` sequences for `n >= 1` and none for `n <= 0`, each of length `n`, equal to the round-by-round list `Permutations(n)` |
| Enumeration.GeneratedBlocks | 2024/day7/day7.go:97-110 | in each round, entry `k` of the previous list reappears extended by ADD at `k`, by MUL at `k + len`, and by CONCAT at `k + 2*len` |
| Enumeration.GeneratedIsBaseThree | 2024/day7/day7.go:88-113 | after `n` rounds the list has `3^n` entries, and entry `j` is the base-3 decoding of `j`, least significant digit first |
| Enumeration.BaseThreeAt | 2024/day7/day7.go:88-90 | position `p` of the decoding of `j` holds the operator coded `(j / 3^p) % 3` |
| Enumeration.PermutationsShape | 2024/day7/day7.go:91-113 | the result has `3^n` sequences (none for `n <= 0`), each of length `n` |
| Enumeration.PermutationsIndex | 2024/day7/day7.go:88-113 | the sequence at index `j` reads back, in base 3, as `j` |
| Enumeration.PermutationsLength | 2024/day7/day7.go:95-108 | every returned sequence has exactly `n` operators |
| Enumeration.PermutationsOrder | 2024/day7/day7.go:88-110 | the sequence at index `j` has operator `(j / 3^p) % 3` at position `p`, so the first position varies fastest |
| Enumeration.PermutationsDistinct | 2024/day7/day7.go:93-113 | no two indices hold the same sequence |
| Enumeration.PermutationsComplete | 2024/day7/day7.go:93-113 | a sequence is returned exactly when `n >= 1` and it has length `n`; it sits at the index its base-3 reading gives |
| Enumeration.BaseThreeIndexOf | 2024/day7/day7.go:88-90 | decoding the base-3 reading of a sequence gives the sequence back |
| Enumeration.IndexOfBaseThree | 2024/day7/day7.go:88-90 | below `3^n`, reading the decoding of `j` gives `j` back, so distinct indices give distinct sequences |
| Evaluation.Apply | 2024/day7/day7.go:70-83 | one `switch` step: ADD adds the next operand, MUL multiplies by it, and for CONCAT parsing the joined decimal texts succeeds and yields the step's value |
| Evaluation.EvalSteps | 2024/day7/day7.go:67-74 | with no operators the value is `nums[0]`, for any non-empty `nums`; when there is an operand for it, appending an operator applies it to the value so far and operand `len(ops) + 1` |
| Evaluation.EvalIgnoresExtraOperands | 2024/day7/day7.go:67-74 | only the first `len(ops) + 1` operands affect the value |
| Evaluation.EvalEquation | 2024/day7/day7.go:67-86 | the loop, with CONCAT through `Itoa`/`Atoi`, returns the left fold `Eval(ops, nums)`; it needs one more operand than operators, as the code indexes `nums[i+1]` |
| Evaluation.EvalExamples | 2024/day7/day7.go:67-86 | 12 CONCAT 34 = 1234, 1 CONCAT 0 = 10, 2 ADD 3 = 5, 2 MUL 3 = 6, (1 MUL 2) ADD 3 = 5, (1 ADD 2) MUL 3 = 9 |
| Aggregation.CandidatesFit | 2024/day7/day7.go:54 | an equation with `k >= 2` operands gets `3^(k-1)` candidates, each with one operator per gap; with fewer operands it gets none |
| Aggregation.CandidateOf | 2024/day7/day7.go:53-55 | every operator sequence that fits an equation with at least two operands is one of its candidates |
| Aggregation.ValidHasMatch | 2024/day7/day7.go:53-56 | a satisfiable equation (valid, with at least two operands) has a candidate that evaluates to its target |
| Aggregation.SearchFindsValid | 2024/day7/day7.go:53-61 | the candidates have length `len(nums) - 1`, and one of them evaluates to the target exactly when the equation is satisfiable (both directions) |
| Aggregation.MatchIsValid | 2024/day7/day7.go:56-59 | a candidate that evaluates to the target makes the equation satisfiable |
| Aggregation.NoMatchIsInvalid | 2024/day7/day7.go:55-61 | when no candidate evaluates to the target, the equation is not satisfiable |
| Aggregation.FewOperandsAddNothing | 2024/day7/day7.go:53-55 | an equation with fewer than two operands contributes 0; with one operand it is valid exactly when that operand equals the target, so a valid equation can add nothing |
| Aggregation.SingleOperandIgnored | 2024/day7/day7.go:53-55 | the equation `5 = 5` is valid, yet its total is 0 |
| Aggregation.SingleTotal | 2024/day7/day7.go:55-60 | one equation adds its target when satisfiable and 0 otherwise, never more than once |
| Aggregation.TotalStep | 2024/day7/day7.go:52-62 | each equation adds its own contribution to the running total |
| Aggregation.TotalAppend | 2024/day7/day7.go:51-63 | the total over `xs + ys` is the total over `xs` plus the total over `ys` |
| Aggregation.SearchCandidates | 2024/day7/day7.go:55-61 | the inner loop with `break` reports a match exactly when some sequence in the list evaluates to the target |
| Aggregation.SearchIsContribution | 2024/day7/day7.go:53-61 | the search over the generated candidates adds the target exactly when the equation is satisfiable, and nothing otherwise |
| Aggregation.TotalValidEquations | 2024/day7/day7.go:50-64 | the nested loops with `break` return the sum of the targets of the satisfiable equations, each counted once |
| Aggregation.TotalExamples | 2024/day7/day7.go:50-64 | 190 from 10, 19 and 3267 from 81, 40, 27 are counted; 83 from 17, 5 is not |

## Left out

- `Parse` (2024/day7/day7.go:22-49) is not modelled. It splits text and calls `strconv.Atoi`, and it ends the process through `log.Fatalf` on bad input.
- Go's 64-bit `int` is not modelled. Operands and values are unbounded naturals, so the silent wrap-around of ADD and MUL is absent. So is the `Atoi` range error that a large CONCAT would raise and `log.Fatalf` would turn into process exit.
- Negative operands are excluded by the `nat` type. With them, `Itoa` would emit a sign, and CONCAT of a negative right operand would fail to parse.
- Decimal.Atoi: accepts only unsigned digit strings. The leading `+`/`-` sign and the range check of `strconv.Atoi` are not modelled. In the unbounded model there is no wrap-around (see the `int` line), so CONCAT only ever parses two joined unsigned texts. In Go a wrapped negative accumulator yields signed text, such as `-25` after `9223372036854775807 + 9223372036854775807` wraps to `-2` and is concatenated with `5`, and `Atoi` accepts that text.
- The `log.Fatalf` branch of CONCAT is not modelled as process termination. `ConcatRoutesAgree` proves it unreachable in the unbounded model. In Go it is reached only through the 64-bit range error of `Atoi` (see the `int` line above): for example `9223372036854775807` CONCAT `0` gives text that does not fit in an `int`.
- Operator values outside the enum, which the `switch` ignores, cannot occur with the closed `Op` datatype.
- Slice capacity and aliasing of `append` and `copy` are not modelled. Lists are immutable values, so `CloneOps` yields a value equal to its input.
- The commented-out logging is left out.
- Enumeration.GenPermutationOps: the ordering, distinctness and completeness of its result are stated about `Permutations(n)` by the `Permutations*` lemmas, not in the method's own contract; the method's contract ties its result to `Permutations(n)`.
