/** Decimal text of non-negative integers, and the two ways of computing the
    CONCAT operator: through the text (what `EvalEquation` does with
    `strconv.Itoa` and `strconv.Atoi`) and through the closed form
    `a * 10^digits(b) + b`. */
module Decimal {

  function Pow10(k: nat): (r: nat)
    ensures r >= 1
  {
    if k == 0 then 1 else 10 * Pow10(k - 1)
  }

  predicate IsDigit(c: char) {
    '0' <= c <= '9'
  }

  predicate AllDigits(s: string) {
    forall i :: 0 <= i < |s| ==> IsDigit(s[i])
  }

  function DigitValue(c: char): (d: nat)
    requires IsDigit(c)
    ensures d < 10
  {
    c as int - '0' as int
  }

  function DigitChar(d: nat): (c: char)
    requires d < 10
    ensures IsDigit(c) && DigitValue(c) == d
  {
    ('0' as int + d) as char
  }

  /** The number of decimal digits of `n`; zero is written with one digit. */
  function NumDigits(n: nat): (k: nat)
    ensures k >= 1
  {
    if n < 10 then 1 else 1 + NumDigits(n / 10)
  }

  /** `NumDigits(n)` is the least `k >= 1` with `n < 10^k`. */
  lemma {:induction false} NumDigitsBounds(n: nat)
    ensures n < Pow10(NumDigits(n))
    ensures NumDigits(n) > 1 ==> Pow10(NumDigits(n) - 1) <= n
  {
    if n >= 10 {
      NumDigitsBounds(n / 10);
    }
  }

  /** `strconv.Itoa` on a non-negative value: the shortest decimal text,
      with no sign and no leading zero. */
  function Itoa(n: nat): (s: string)
    ensures |s| == NumDigits(n)
    ensures AllDigits(s)
    ensures |s| > 1 ==> s[0] != '0'
  {
    if n < 10 then [DigitChar(n)] else Itoa(n / 10) + [DigitChar(n % 10)]
  }

  /** The value of a string of decimal digits, most significant first. */
  function DigitsValue(s: string): nat
    requires AllDigits(s)
  {
    if |s| == 0 then 0 else 10 * DigitsValue(s[..|s| - 1]) + DigitValue(s[|s| - 1])
  }

  /** The outcome of `strconv.Atoi`: the parsed value, or the non-nil
      error the Go code tests for. */
  datatype Parsed = Number(value: nat) | ParseError

  /** `strconv.Atoi` on unsigned decimal text: the value of a non-empty
      string of digits, and no value (Go's error result) for anything else. */
  function Atoi(s: string): (r: Parsed)
    ensures r.Number? <==> |s| > 0 && AllDigits(s)
    ensures r.Number? ==> r.value == DigitsValue(s)
    ensures Canonical(s) ==> r.Number? && Itoa(r.value) == s
  {
    ItoaDigitsValue(s);
    if |s| > 0 && AllDigits(s) then Number(DigitsValue(s)) else ParseError
  }

  /** Text `Itoa` can write: non-empty digits with no leading zero. */
  predicate Canonical(s: string) {
    |s| > 0 && AllDigits(s) && (|s| == 1 || s[0] != '0')
  }

  /** Writing out the value of canonical text gives the text back. */
  lemma {:induction false} ItoaDigitsValue(s: string)
    ensures Canonical(s) ==> Itoa(DigitsValue(s)) == s
    decreases |s|
  {
    if Canonical(s) {
      var c := s[|s| - 1];
      var d := DigitValue(c);
      assert DigitChar(d) == c;
      if |s| == 1 {
        assert s == [c];
      } else {
        var prefix := s[..|s| - 1];
        assert prefix[0] == s[0];
        ItoaDigitsValue(prefix);
        var v := DigitsValue(prefix);
        assert v != 0 by {
          assert Itoa(0) == "0";
        }
        assert DigitsValue(s) == 10 * v + d;
        assert DigitsValue(s) / 10 == v && DigitsValue(s) % 10 == d;
        assert s == prefix + [c];
      }
    }
  }

  /** Reading back what `Itoa` wrote gives the number. */
  lemma {:induction false} AtoiItoa(n: nat)
    ensures Atoi(Itoa(n)) == Number(n)
  {
    DigitsValueItoa(n);
  }

  lemma {:induction false} DigitsValueItoa(n: nat)
    ensures DigitsValue(Itoa(n)) == n
  {
    if n >= 10 {
      var s := Itoa(n);
      assert s[..|s| - 1] == Itoa(n / 10);
      DigitsValueItoa(n / 10);
    }
  }

  /** The value of joined digit strings: the left part shifted by the
      length of the right part. */
  lemma {:induction false} DigitsValueAppend(s: string, t: string)
    requires AllDigits(s) && AllDigits(t)
    ensures AllDigits(s + t)
    ensures DigitsValue(s + t) == DigitsValue(s) * Pow10(|t|) + DigitsValue(t)
  {
    if |t| == 0 {
      assert s + t == s;
    } else {
      var t', c := t[..|t| - 1], t[|t| - 1];
      SplitLast(s, t);
      DigitsValueAppend(s, t');
      DigitsValueSnoc(s + t', c);
      DigitsValueSnoc(t', c);
      var v, p, w, d := DigitsValue(s), Pow10(|t'|), DigitsValue(t'), DigitValue(c);
      ShiftByDigit(v, p, w, d);
    }
  }

  lemma SplitLast(s: string, t: string)
    requires |t| > 0
    ensures t == t[..|t| - 1] + [t[|t| - 1]]
    ensures s + t == (s + t[..|t| - 1]) + [t[|t| - 1]]
  {
  }

  /** Appending one digit shifts the value by one place. */
  lemma DigitsValueSnoc(s: string, c: char)
    requires AllDigits(s) && IsDigit(c)
    ensures AllDigits(s + [c])
    ensures DigitsValue(s + [c]) == 10 * DigitsValue(s) + DigitValue(c)
  {
    assert (s + [c])[..|s|] == s;
  }

  lemma ShiftByDigit(v: nat, p: nat, w: nat, d: nat)
    ensures 10 * (v * p + w) + d == v * (10 * p) + (10 * w + d)
  {
  }

  /** CONCAT in closed form: `b` written after the digits of `a`. */
  function ConcatArith(a: nat, b: nat): nat {
    a * Pow10(NumDigits(b)) + b
  }

  /** Joining the decimal texts of `a` and `b` always parses, and the value
      read is `a * 10^digits(b) + b`. The error branch of the Go code is
      therefore unreachable with unbounded integers; in Go it is reached
      only when the joined value overflows 64 bits. */
  lemma {:induction false} ConcatRoutesAgree(a: nat, b: nat)
    ensures Atoi(Itoa(a) + Itoa(b)) == Number(a * Pow10(NumDigits(b)) + b)
  {
    DigitsValueAppend(Itoa(a), Itoa(b));
    DigitsValueItoa(a);
    DigitsValueItoa(b);
  }

  /** CONCAT as the Go code computes it: `Atoi(Itoa(a) + Itoa(b))`. */
  function ConcatString(a: nat, b: nat): (r: nat)
    ensures r == ConcatArith(a, b)
  {
    ConcatRoutesAgree(a, b);
    Atoi(Itoa(a) + Itoa(b)).value
  }

  /** The two worked examples of CONCAT: 12 || 34 = 1234 and 1 || 0 = 10. */
  lemma ConcatExamples()
    ensures ConcatString(12, 34) == 1234
    ensures ConcatString(1, 0) == 10
  {
  }
}
