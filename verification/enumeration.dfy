/** Enumeration of operator sequences: `GenPermutationOps` builds every
    sequence over {ADD, MUL, CONCAT} of a given length, one length at a time,
    by extending each sequence held so far with ADD, a copy of each with MUL
    and another copy with CONCAT, in that block order. The result is the
    base-3 counting order with the first position varying fastest. */
module Enumeration {
  import opened Types

  function Pow3(k: nat): (r: nat)
    ensures r >= 1
  {
    if k == 0 then 1 else 3 * Pow3(k - 1)
  }

  /** Every sequence of `ops`, with `op` appended. */
  function Extend(ops: seq<seq<Op>>, op: Op): (r: seq<seq<Op>>)
    ensures |r| == |ops|
    ensures forall i :: 0 <= i < |ops| ==> r[i] == ops[i] + [op]
  {
    if |ops| == 0 then [] else [ops[0] + [op]] + Extend(ops[1..], op)
  }

  /** The list the generator holds after `n >= 1` rounds: the three
      one-operator sequences, then three blocks per further round. */
  function Generated(n: nat): seq<seq<Op>>
    requires n >= 1
  {
    if n == 1 then [[ADD], [MUL], [CONCAT]]
    else
      var prev := Generated(n - 1);
      Extend(prev, ADD) + Extend(prev, MUL) + Extend(prev, CONCAT)
  }

  /** What `GenPermutationOps(n)` returns: nothing at all when `n <= 0`,
      because the loop body never runs. */
  function Permutations(n: int): seq<seq<Op>> {
    if n <= 0 then [] else Generated(n)
  }

  /** The length-`n` sequence whose position `p` is the operator coded by
      the base-3 digit of weight `3^p` of `j`. */
  function BaseThree(j: nat, n: nat): (s: seq<Op>)
    ensures |s| == n
  {
    if n == 0 then [] else [OpOf(j % 3)] + BaseThree(j / 3, n - 1)
  }

  /** The number whose base-3 digits, least significant first, are the
      codes of `s`. */
  function IndexOf(s: seq<Op>): nat {
    if |s| == 0 then 0 else Code(s[0]) + 3 * IndexOf(s[1..])
  }

  lemma {:induction false} IndexOfBound(s: seq<Op>)
    ensures IndexOf(s) < Pow3(|s|)
  {
    if |s| > 0 {
      IndexOfBound(s[1..]);
    }
  }

  /** Decoding the index of a sequence gives the sequence back. */
  lemma {:induction false} BaseThreeIndexOf(s: seq<Op>)
    ensures BaseThree(IndexOf(s), |s|) == s
  {
    if |s| > 0 {
      var j := IndexOf(s);
      assert j % 3 == Code(s[0]) && j / 3 == IndexOf(s[1..]);
      BaseThreeIndexOf(s[1..]);
    }
  }

  /** Decoding is injective below `3^n`: the index of the decoded sequence
      is the number decoded. */
  lemma {:induction false} IndexOfBaseThree(j: nat, n: nat)
    requires j < Pow3(n)
    ensures IndexOf(BaseThree(j, n)) == j
  {
    if n > 0 {
      var s := BaseThree(j, n);
      assert s[1..] == BaseThree(j / 3, n - 1);
      IndexOfBaseThree(j / 3, n - 1);
    }
  }

  /** Position `p` of the decoded sequence holds digit `p` of `j`. */
  lemma {:induction false} BaseThreeAt(j: nat, n: nat, p: nat)
    requires p < n
    ensures BaseThree(j, n)[p] == OpOf((j / Pow3(p)) % 3)
  {
    if p > 0 {
      BaseThreeAt(j / 3, n - 1, p - 1);
      DivDiv(j, Pow3(p - 1));
    }
  }

  lemma DivDiv(j: nat, q: nat)
    requires q >= 1
    ensures j / 3 / q == j / (3 * q)
  {
    var a := j / 3;
    var c := a / q;
    assert j == 3 * a + j % 3;
    assert a == q * c + a % q;
    assert j == (3 * q) * c + (3 * (a % q) + j % 3);
    DivUnique(j, 3 * q, c, 3 * (a % q) + j % 3);
  }

  /** Euclidean division has exactly one quotient. */
  lemma DivUnique(j: int, d: int, c: int, r: int)
    requires d > 0 && 0 <= r < d && j == d * c + r
    ensures j / d == c
  {
    var q := j / d;
    assert j == d * q + j % d;
    if q > c {
      assert d * q >= d * (c + 1) by { MulMonotone(d, c + 1, q); }
    } else if q < c {
      assert d * c >= d * (q + 1) by { MulMonotone(d, q + 1, c); }
    }
  }

  lemma MulMonotone(d: int, x: int, y: int)
    requires d > 0 && x <= y
    ensures d * x <= d * y
  {
  }

  /** Putting the block number `b` above the digits of `k` appends the
      operator coded by `b` to the decoded sequence. */
  lemma {:induction false} BaseThreeSnoc(j: nat, k: nat, b: nat, n: nat)
    requires k < Pow3(n) && b < 3
    requires j == k + (if b == 0 then 0 else if b == 1 then Pow3(n) else 2 * Pow3(n))
    ensures BaseThree(j, n + 1) == BaseThree(k, n) + [OpOf(b)]
  {
    if n == 0 {
      assert j == b;
    } else {
      var p := Pow3(n - 1);
      var j' := k / 3 + (if b == 0 then 0 else if b == 1 then p else 2 * p);
      assert j == 3 * j' + k % 3;
      assert j % 3 == k % 3 && j / 3 == j';
      BaseThreeSnoc(j', k / 3, b, n - 1);
    }
  }

  /** The generator's list is the base-3 counting order. */
  lemma GeneratedIsBaseThree(n: nat)
    requires n >= 1
    ensures |Generated(n)| == Pow3(n)
    ensures forall j :: 0 <= j < Pow3(n) ==> Generated(n)[j] == BaseThree(j, n)
  {
    GeneratedLength(n);
    forall j | 0 <= j < Pow3(n)
      ensures Generated(n)[j] == BaseThree(j, n)
    {
      GeneratedEntry(n, j);
    }
  }

  lemma {:induction false} GeneratedLength(n: nat)
    requires n >= 1
    ensures |Generated(n)| == Pow3(n)
  {
    if n > 1 {
      GeneratedLength(n - 1);
    }
  }

  /** Entry `j` of round `n` is the decoding of `j`, by induction on the
      rounds. */
  lemma {:induction false} GeneratedEntry(n: nat, j: nat)
    requires n >= 1 && j < Pow3(n)
    ensures |Generated(n)| == Pow3(n)
    ensures Generated(n)[j] == BaseThree(j, n)
  {
    GeneratedLength(n);
    if n == 1 {
      assert BaseThree(j, 1) == [OpOf(j)];
    } else {
      var b, k := BlockOf(Pow3(n - 1), j);
      GeneratedLength(n - 1);
      GeneratedEntry(n - 1, k);
      GeneratedInBlock(n, j, b, k);
    }
  }

  /** Index `j` of a list made of three blocks of length `p` lies in block
      `b` at offset `k`. */
  lemma BlockOf(p: nat, j: nat) returns (b: nat, k: nat)
    requires j < 3 * p
    ensures b < 3 && k < p
    ensures j == k + (if b == 0 then 0 else if b == 1 then p else 2 * p)
  {
    if j < p {
      b, k := 0, j;
    } else if j < 2 * p {
      b, k := 1, j - p;
    } else {
      b, k := 2, j - 2 * p;
    }
  }

  lemma GeneratedInBlock(n: nat, j: nat, b: nat, k: nat)
    requires n >= 2 && b < 3 && k < Pow3(n - 1)
    requires j == k + (if b == 0 then 0 else if b == 1 then Pow3(n - 1) else 2 * Pow3(n - 1))
    requires |Generated(n - 1)| == Pow3(n - 1)
    requires Generated(n - 1)[k] == BaseThree(k, n - 1)
    ensures j < |Generated(n)| && Generated(n)[j] == BaseThree(j, n)
  {
    GeneratedBlocks(n, k);
    BaseThreeSnoc(j, k, b, n - 1);
  }

  /** One round of the generator: entry `k` of the previous round, extended
      by ADD, by MUL and by CONCAT, lands at `k` in the first, second and
      third block. */
  lemma GeneratedBlocks(n: nat, k: nat)
    requires n >= 2 && k < |Generated(n - 1)|
    ensures |Generated(n)| == 3 * |Generated(n - 1)|
    ensures Generated(n)[k] == Generated(n - 1)[k] + [ADD]
    ensures Generated(n)[|Generated(n - 1)| + k] == Generated(n - 1)[k] + [MUL]
    ensures Generated(n)[2 * |Generated(n - 1)| + k] == Generated(n - 1)[k] + [CONCAT]
  {
    var prev := Generated(n - 1);
    var a, m, c := Extend(prev, ADD), Extend(prev, MUL), Extend(prev, CONCAT);
    assert Generated(n) == a + m + c;
  }

  /** The size of the generator's result: `3^n` sequences for `n >= 1` and
      none for `n <= 0`, each of length `n`. */
  lemma PermutationsShape(n: int)
    ensures |Permutations(n)| == if n <= 0 then 0 else Pow3(n)
    ensures forall j :: 0 <= j < |Permutations(n)| ==> |Permutations(n)[j]| == n
  {
    if n >= 1 {
      GeneratedLength(n);
      forall j | 0 <= j < |Permutations(n)|
        ensures |Permutations(n)[j]| == n
      {
        GeneratedEntry(n, j);
      }
    }
  }

  /** The sequence at index `j` reads back as `j` in base 3. */
  lemma PermutationsIndex(n: int)
    ensures forall j :: 0 <= j < |Permutations(n)| ==> IndexOf(Permutations(n)[j]) == j
  {
    if n >= 1 {
      GeneratedLength(n);
      forall j | 0 <= j < |Permutations(n)|
        ensures IndexOf(Permutations(n)[j]) == j
      {
        GeneratedEntry(n, j);
        IndexOfBaseThree(j, n);
      }
    }
  }

  /** Every generated sequence has exactly `n` operators. */
  lemma PermutationsLength(n: int)
    ensures forall s :: s in Permutations(n) ==> |s| == n
  {
    if n > 0 {
      GeneratedIsBaseThree(n);
    }
  }

  /** The sequence at index `j` has the operator coded `(j / 3^p) % 3` at
      position `p`: the first position varies fastest. */
  lemma PermutationsOrder(n: int)
    ensures forall j, p :: 0 <= j < |Permutations(n)| && 0 <= p < n ==>
      |Permutations(n)[j]| == n && Permutations(n)[j][p] == OpOf((j / Pow3(p)) % 3)
  {
    if n > 0 {
      GeneratedIsBaseThree(n);
      forall j, p | 0 <= j < |Permutations(n)| && 0 <= p < n
        ensures Permutations(n)[j][p] == OpOf((j / Pow3(p)) % 3)
      {
        BaseThreeAt(j, n, p);
      }
    }
  }

  /** No sequence is generated twice. */
  lemma PermutationsDistinct(n: int)
    ensures forall i, j :: 0 <= i < j < |Permutations(n)| ==> Permutations(n)[i] != Permutations(n)[j]
  {
    if n > 0 {
      GeneratedIsBaseThree(n);
      forall i, j | 0 <= i < j < |Permutations(n)|
        ensures Permutations(n)[i] != Permutations(n)[j]
      {
        IndexOfBaseThree(i, n);
        IndexOfBaseThree(j, n);
      }
    }
  }

  /** Every sequence of length `n >= 1` is generated, at the index its base-3
      reading gives, and nothing else is generated. */
  lemma PermutationsComplete(n: int, s: seq<Op>)
    ensures s in Permutations(n) <==> n >= 1 && |s| == n
    ensures n >= 1 && |s| == n ==> IndexOf(s) < |Permutations(n)| && Permutations(n)[IndexOf(s)] == s
  {
    PermutationsLength(n);
    if n >= 1 && |s| == n {
      GeneratedIsBaseThree(n);
      IndexOfBound(s);
      BaseThreeIndexOf(s);
    }
  }

  /** `CloneOps`: a deep copy, each inner sequence copied element by element
      into a fresh one of the same length. */
  method CloneOps(ops: seq<seq<Op>>) returns (cloned: seq<seq<Op>>)
    ensures |cloned| == |ops|
    ensures forall i :: 0 <= i < |ops| ==> cloned[i] == ops[i]
  {
    cloned := ops;
    for i := 0 to |ops|
      invariant |cloned| == |ops|
      invariant forall t :: 0 <= t < |ops| ==> cloned[t] == ops[t]
    {
      var row: seq<Op> := [];
      for k := 0 to |ops[i]|
        invariant row == ops[i][..k]
      {
        row := row + [ops[i][k]];
      }
      cloned := cloned[i := row];
    }
  }

  /** Appends `op` to every sequence of `ops`, in place. */
  method AppendToEach(ops: seq<seq<Op>>, op: Op) returns (r: seq<seq<Op>>)
    ensures |r| == |ops|
    ensures forall i :: 0 <= i < |ops| ==> r[i] == ops[i] + [op]
  {
    r := ops;
    for i := 0 to |ops|
      invariant |r| == |ops|
      invariant forall t :: 0 <= t < i ==> r[t] == ops[t] + [op]
      invariant forall t :: i <= t < |ops| ==> r[t] == ops[t]
    {
      r := r[i := r[i] + [op]];
    }
  }

  /** `GenPermutationOps(n)`: every operator sequence of length `n`, in
      base-3 counting order, and the empty list when `n <= 0`. */
  method GenPermutationOps(n: int) returns (ops: seq<seq<Op>>)
    ensures |ops| == if n <= 0 then 0 else Pow3(n)
    ensures forall j :: 0 <= j < |ops| ==> |ops[j]| == n
    ensures ops == Permutations(n)
  {
    ops := [];
    var i := 0;
    while i < n
      invariant 0 <= i && (i <= n || i == 0)
      invariant ops == Permutations(i)
    {
      if i == 0 {
        ops := [[ADD], [MUL], [CONCAT]];
      } else {
        var cloned := CloneOps(ops);
        var cloned2 := CloneOps(ops);
        ops := AppendToEach(ops, ADD);
        cloned := AppendToEach(cloned, MUL);
        cloned2 := AppendToEach(cloned2, CONCAT);
        NextRound(i, ops, cloned, cloned2);
        ops := ops + cloned + cloned2;
      }
      i := i + 1;
    }
    PermutationsShape(n);
  }

  /** Three lists holding the sequences of round `i`, extended by ADD, MUL
      and CONCAT respectively, make up round `i + 1` when appended. */
  lemma NextRound(i: nat, a: seq<seq<Op>>, m: seq<seq<Op>>, c: seq<seq<Op>>)
    requires i >= 1
    requires |a| == |m| == |c| == |Generated(i)|
    requires forall t :: 0 <= t < |a| ==> a[t] == Generated(i)[t] + [ADD]
    requires forall t :: 0 <= t < |m| ==> m[t] == Generated(i)[t] + [MUL]
    requires forall t :: 0 <= t < |c| ==> c[t] == Generated(i)[t] + [CONCAT]
    ensures a + m + c == Generated(i + 1)
  {
    var prev := Generated(i);
    assert a == Extend(prev, ADD);
    assert m == Extend(prev, MUL);
    assert c == Extend(prev, CONCAT);
  }
}
