/**
 * The check-digit arithmetic of the redaction policy: Luhn sums for card numbers
 * (Annex B of ISO/IEC 7812-1), and the modulo 11 pairs of CPF and CNPJ numbers.
 */
module CheckDigits {
  import opened Text

  predicate AllEqual(s: string) { forall i :: 0 <= i < |s| ==> s[i] == s[0] }

  // ----- Luhn

  function Share(d: int, doubled: bool): int {
    if !doubled then d else if 2 * d > 9 then 2 * d - 9 else 2 * d
  }

  /** Counted from the right, every second digit is doubled. */
  predicate Doubled(s: string, i: int) { (|s| - 1 - i) % 2 == 1 }

  /** The shares of the digits from position i on. */
  function LuhnSum(s: string, i: nat): int
    requires i <= |s|
    decreases |s| - i
  {
    if i == |s| then 0 else Share(Digit(s[i]), Doubled(s, i)) + LuhnSum(s, i + 1)
  }

  predicate IsPan(s: string) { AllDigits(s) && 13 <= |s| <= 19 && !AllEqual(s) && LuhnSum(s, 0) % 10 == 0 }

  method LuhnValid(digits: string) returns (valid: bool)
    ensures valid == IsPan(digits)
  {
    if !(AllDigits(digits) && 13 <= |digits| <= 19) || AllEqual(digits) { return false; }
    var sum, double := 0, false;
    var i := |digits| - 1;
    while i >= 0
      invariant -1 <= i < |digits|
      invariant sum == LuhnSum(digits, i + 1)
      invariant double == Doubled(digits, i)
    {
      var d := Digit(digits[i]);
      if double {
        d := d * 2;
        if d > 9 { d := d - 9; }
      }
      sum := sum + d;
      double := !double;
      i := i - 1;
    }
    return sum % 10 == 0;
  }

  /** Changing one digit changes the sum by the difference of the two shares. */
  lemma {:induction false} SumOfChange(s: string, k: nat, c: char, i: nat)
    requires i <= |s| && k < |s|
    ensures LuhnSum(s[k := c], i)
            == LuhnSum(s, i) + (if i <= k then Share(Digit(c), Doubled(s, k)) - Share(Digit(s[k]), Doubled(s, k)) else 0)
    decreases |s| - i
  {
    if i < |s| { SumOfChange(s, k, c, i + 1); }
  }

  lemma ShareInjective(a: int, b: int, doubled: bool)
    requires 0 <= a < 10 && 0 <= b < 10
    ensures 0 <= Share(a, doubled) < 10
    ensures a != b ==> Share(a, doubled) != Share(b, doubled)
  {}

  lemma DistinctMod10(x: int, a: int, b: int)
    requires 0 <= a < 10 && 0 <= b < 10 && a != b && x % 10 == 0
    ensures (x + a - b) % 10 != 0
  {}

  // Every change of a single digit of a card number is caught.
  lemma SingleChangeCaught(s: string, k: nat, c: char)
    requires IsPan(s) && k < |s| && c != s[k]
    ensures !IsPan(s[k := c])
  {
    if '0' <= c <= '9' {
      SumOfChange(s, k, c, 0);
      ShareInjective(Digit(c), Digit(s[k]), Doubled(s, k));
      DistinctMod10(LuhnSum(s, 0), Share(Digit(c), Doubled(s, k)), Share(Digit(s[k]), Doubled(s, k)));
    } else {
      assert s[k := c][k] == c;
    }
  }

  function Swapped(s: string, k: nat): string
    requires k + 1 < |s|
  {
    s[k := s[k + 1]][k + 1 := s[k]]
  }

  lemma SwapShift(a: int, b: int, p: bool)
    requires 0 <= a < 10 && 0 <= b < 10
    ensures var shift := Shift(a, b, p);
            -10 < shift < 10 && (shift == 0 <==> a == b || (a == 0 && b == 9) || (a == 9 && b == 0))
  {}

  lemma SmallShift(x: int, shift: int)
    requires -10 < shift < 10
    ensures (x + shift) % 10 == x % 10 <==> shift == 0
  {}

  function Shift(a: int, b: int, p: bool): int { Share(b, p) + Share(a, !p) - Share(a, p) - Share(b, !p) }

  lemma SumOfSwap(s: string, k: nat)
    requires k + 1 < |s|
    ensures LuhnSum(Swapped(s, k), 0) == LuhnSum(s, 0) + Shift(Digit(s[k]), Digit(s[k + 1]), Doubled(s, k))
  {
    var t := s[k := s[k + 1]];
    var a, b, p, q := Digit(s[k]), Digit(s[k + 1]), Doubled(s, k), Doubled(t, k + 1);
    SumOfChange(s, k, s[k + 1], 0);
    assert LuhnSum(t, 0) == LuhnSum(s, 0) + Share(b, p) - Share(a, p);
    SumOfChange(t, k + 1, s[k], 0);
    assert LuhnSum(Swapped(s, k), 0) == LuhnSum(t, 0) + Share(a, q) - Share(b, q);
    Alternates(s, t, k);
  }

  lemma Alternates(s: string, t: string, k: nat)
    requires |s| == |t|
    ensures Doubled(t, k + 1) == !Doubled(s, k)
  {}

  // Swapping two neighbours is caught, with exactly one exception: 0 with 9.
  lemma SwapCaughtExactly(s: string, k: nat)
    requires IsPan(s) && k + 1 < |s|
    ensures IsPan(Swapped(s, k)) <==> s[k] == s[k + 1] || (s[k] == '0' && s[k + 1] == '9') || (s[k] == '9' && s[k + 1] == '0')
  {
    var a, b, p := Digit(s[k]), Digit(s[k + 1]), Doubled(s, k);
    SumOfSwap(s, k);
    SwapShift(a, b, p);
    SmallShift(LuhnSum(s, 0), Shift(a, b, p));
    SwapKeepsShape(s, k);
  }

  lemma SwapKeepsShape(s: string, k: nat)
    requires k + 1 < |s| && AllDigits(s)
    ensures AllDigits(Swapped(s, k)) && |Swapped(s, k)| == |s|
    ensures AllEqual(Swapped(s, k)) ==> AllEqual(s)
  {
    var t := Swapped(s, k);
    assert s[k] == t[k + 1] && s[k + 1] == t[k] && forall i :: 0 <= i < |s| && i != k && i != k + 1 ==> t[i] == s[i];
  }

  // ----- modulo 11

  /** The weighted sum of the first n digits. */
  function Weighted(s: string, weights: seq<int>, n: nat): int
    requires n <= |s| && n <= |weights|
  {
    if n == 0 then 0 else Weighted(s, weights, n - 1) + Digit(s[n - 1]) * weights[n - 1]
  }

  const CPF1: seq<int> := [10, 9, 8, 7, 6, 5, 4, 3, 2]
  const CPF2: seq<int> := [11, 10, 9, 8, 7, 6, 5, 4, 3, 2]
  const CNPJ1: seq<int> := [5, 4, 3, 2, 9, 8, 7, 6, 5, 4, 3, 2]
  const CNPJ2: seq<int> := [6, 5, 4, 3, 2, 9, 8, 7, 6, 5, 4, 3, 2]

  /** The check digit of a weighted sum. */
  function CheckDigit(sum: int): int { if sum % 11 < 2 then 0 else 11 - sum % 11 }

  // The two ways in which the code computes it agree.
  lemma CpfFormIsCnpjForm(sum: int)
    ensures (if sum * 10 % 11 == 10 then 0 else sum * 10 % 11) == CheckDigit(sum)
    ensures 0 <= CheckDigit(sum) < 10
  {
    var q, r := sum / 11, sum % 11;
    if r == 0 { Remainder(sum * 10, 10 * q, 0); } else { Remainder(sum * 10, 10 * q + r - 1, 11 - r); }
  }

  lemma Remainder(x: int, q: int, r: int)
    requires x == 11 * q + r && 0 <= r < 11
    ensures x % 11 == r
  {}

  predicate Checks(s: string, w1: seq<int>, w2: seq<int>)
    requires |s| == |w1| + 2 && |w2| == |w1| + 1
  {
    && Digit(s[|w1|]) == CheckDigit(Weighted(s, w1, |w1|))
    && Digit(s[|w1| + 1]) == CheckDigit(Weighted(s, w2, |w2|))
  }

  predicate IsCpf(s: string) { AllDigits(s) && |s| == 11 && !AllEqual(s) && Checks(s, CPF1, CPF2) }

  predicate IsCnpj(s: string) { AllDigits(s) && |s| == 14 && !AllEqual(s) && Checks(s, CNPJ1, CNPJ2) }

  method CpfValid(digits: string) returns (valid: bool)
    ensures valid == IsCpf(digits)
  {
    if !(AllDigits(digits) && |digits| == 11) || AllEqual(digits) { return false; }
    var sum := 0;
    for i := 0 to 9
      invariant sum == Weighted(digits, CPF1, i)
    {
      assert CPF1[i] == 10 - i;
      sum := sum + Digit(digits[i]) * (10 - i);
    }
    CpfFormIsCnpjForm(sum);
    var rest := sum * 10 % 11;
    if rest == 10 { rest := 0; }
    if rest != Digit(digits[9]) { return false; }
    sum := 0;
    for i := 0 to 10
      invariant sum == Weighted(digits, CPF2, i)
    {
      assert CPF2[i] == 11 - i;
      sum := sum + Digit(digits[i]) * (11 - i);
    }
    CpfFormIsCnpjForm(sum);
    rest := sum * 10 % 11;
    if rest == 10 { rest := 0; }
    return rest == Digit(digits[10]);
  }

  method CnpjValid(digits: string) returns (valid: bool)
    ensures valid == IsCnpj(digits)
  {
    if !(AllDigits(digits) && |digits| == 14) || AllEqual(digits) { return false; }
    var sum := 0;
    for i := 0 to 12
      invariant sum == Weighted(digits, CNPJ1, i)
    {
      sum := sum + Digit(digits[i]) * CNPJ1[i];
    }
    var rest := sum % 11;
    var dv1 := if rest < 2 then 0 else 11 - rest;
    if dv1 != Digit(digits[12]) { return false; }
    sum := 0;
    for i := 0 to 13
      invariant sum == Weighted(digits, CNPJ2, i)
    {
      sum := sum + Digit(digits[i]) * CNPJ2[i];
    }
    rest := sum % 11;
    var dv2 := if rest < 2 then 0 else 11 - rest;
    return dv2 == Digit(digits[13]);
  }

  // ----- one check pair per base

  lemma {:induction false} WeightedPrefix(s: string, t: string, weights: seq<int>, n: nat)
    requires n <= |s| && n <= |t| && n <= |weights| && s[..n] == t[..n]
    ensures Weighted(s, weights, n) == Weighted(t, weights, n)
  {
    if n > 0 {
      assert s[..n - 1] == s[..n][..n - 1] && t[..n - 1] == t[..n][..n - 1];
      assert s[..n][n - 1] == t[..n][n - 1];
      WeightedPrefix(s, t, weights, n - 1);
    }
  }

  /** A base with the only pair of check digits that fits it. */
  function Completed(base: string, w1: seq<int>, w2: seq<int>): string
    requires |base| == |w1| && |w2| == |w1| + 1
  {
    CpfFormIsCnpjForm(Weighted(base, w1, |w1|));
    var one := base + [Char(CheckDigit(Weighted(base, w1, |w1|)))];
    CpfFormIsCnpjForm(Weighted(one, w2, |w2|));
    one + [Char(CheckDigit(Weighted(one, w2, |w2|)))]
  }

  lemma OnePairFits(base: string, s: string, w1: seq<int>, w2: seq<int>)
    requires |base| == |w1| && |w2| == |w1| + 1 && |s| == |w1| + 2 && s[..|w1|] == base
    ensures Checks(s, w1, w2) <==> s == Completed(base, w1, w2)
  {
    var n := |w1|;
    var c := Completed(base, w1, w2);
    var one := base + [Char(CheckDigit(Weighted(base, w1, n)))];
    assert base[..n] == base;
    WeightedPrefix(s, base, w1, n);
    if Digit(s[n]) == CheckDigit(Weighted(base, w1, n)) {
      assert s[n] == Char(Digit(s[n]));
      assert s[..n + 1] == one == one[..n + 1];
      WeightedPrefix(s, one, w2, n + 1);
      assert s == s[..n + 1] + [s[n + 1]];
      if Digit(s[n + 1]) == CheckDigit(Weighted(one, w2, n + 1)) { assert s[n + 1] == Char(Digit(s[n + 1])); }
    }
    if s == c {
      assert s[n] == Char(CheckDigit(Weighted(base, w1, n)));
    }
  }

  lemma {:induction false} WeightedEqual(s: string, weights: seq<int>, n: nat)
    requires n <= |s| && n <= |weights| && AllEqual(s) && |s| > 0
    ensures Weighted(s, weights, n) == Digit(s[0]) * Total(weights, n)
  {
    if n > 0 {
      WeightedEqual(s, weights, n - 1);
      assert Digit(s[0]) * Total(weights, n) == Digit(s[0]) * Total(weights, n - 1) + Digit(s[0]) * weights[n - 1];
    }
  }

  function Total(weights: seq<int>, n: nat): int
    requires n <= |weights|
  {
    if n == 0 then 0 else Total(weights, n - 1) + weights[n - 1]
  }

  lemma TotalPrefix(weights: seq<int>, tail: seq<int>, n: nat)
    requires n <= |weights|
    ensures Total(weights + tail, n) == Total(weights, n)
  {
    if n > 0 { TotalPrefix(weights, tail, n - 1); }
  }

  lemma Totals()
    ensures Total(CPF1, 9) == 54 && Total(CPF2, 10) == 65 && Total(CNPJ1, 12) == 58 && Total(CNPJ2, 13) == 64
  {
    assert Total(CPF1, 3) == 27 && Total(CPF1, 6) == 45 && Total(CPF1, 9) == 54;
    assert Total(CPF2, 3) == 30 && Total(CPF2, 6) == 51 && Total(CPF2, 9) == 63;
    assert Total(CNPJ1, 3) == 12 && Total(CNPJ1, 6) == 31 && Total(CNPJ1, 9) == 49 && Total(CNPJ1, 12) == 58;
    assert Total(CNPJ2, 3) == 15 && Total(CNPJ2, 6) == 29 && Total(CNPJ2, 9) == 50 && Total(CNPJ2, 12) == 62;
  }

  lemma EqualCpf(base: string)
    requires |base| == 9 && AllDigits(base) && AllEqual(base)
    ensures AllEqual(Completed(base, CPF1, CPF2))
  {
    var d := Digit(base[0]);
    Totals();
    WeightedEqual(base, CPF1, 9);
    assert CheckDigit(d * 54) == d;
    var one := base + [Char(d)];
    assert AllEqual(one);
    WeightedEqual(one, CPF2, 10);
    assert CheckDigit(d * 65) == d;
  }

  // Each CPF base has exactly one valid completion, unless its digits are all equal;
  // then it has none.
  lemma OneCpfPerBase(base: string, s: string)
    requires |base| == 9 && AllDigits(base) && |s| == 11 && s[..9] == base
    ensures IsCpf(s) <==> s == Completed(base, CPF1, CPF2) && !AllEqual(base)
  {
    OnePairFits(base, s, CPF1, CPF2);
    CompletedDigits(base, CPF1, CPF2);
    if AllEqual(base) { EqualCpf(base); }
    assert AllEqual(s) ==> AllEqual(base) by {
      assert forall i :: 0 <= i < 9 ==> base[i] == s[i];
    }
  }

  lemma CompletedDigits(base: string, w1: seq<int>, w2: seq<int>)
    requires |base| == |w1| && |w2| == |w1| + 1 && AllDigits(base)
    ensures AllDigits(Completed(base, w1, w2)) && |Completed(base, w1, w2)| == |base| + 2
    ensures Completed(base, w1, w2)[..|base|] == base
  {
    CpfFormIsCnpjForm(Weighted(base, w1, |w1|));
  }

  lemma EqualCnpj(base: string)
    requires |base| == 12 && AllDigits(base) && AllEqual(base)
    ensures var c := Completed(base, CNPJ1, CNPJ2);
            c[12] == base[0] && c[13] == base[0] <==> base[0] == '0'
  {
    var d := Digit(base[0]);
    Totals();
    WeightedEqual(base, CNPJ1, 12);
    assert CheckDigit(d * 58) == d <==> d == 0;
    var c := Completed(base, CNPJ1, CNPJ2);
    assert c[12] == Char(CheckDigit(d * 58));
    if d == 0 {
      var one := base + [Char(0)];
      assert AllEqual(one);
      WeightedEqual(one, CNPJ2, 13);
      assert c == one + [Char(0)];
    }
  }

  lemma EqualTail(s: string, base: string)
    requires |s| == |base| + 2 && s[..|base|] == base && |base| > 0
    ensures AllEqual(s) <==> AllEqual(base) && s[|base|] == base[0] && s[|base| + 1] == base[0]
  {
    assert forall i :: 0 <= i < |base| ==> base[i] == s[i];
  }

  // Each CNPJ base has exactly one valid completion, unless it is all zeros; then it
  // has none. Other bases of equal digits do complete to valid numbers.
  lemma OneCnpjPerBase(base: string, s: string)
    requires |base| == 12 && AllDigits(base) && |s| == 14 && s[..12] == base
    ensures IsCnpj(s) <==> s == Completed(base, CNPJ1, CNPJ2) && !(AllEqual(base) && base[0] == '0')
  {
    OnePairFits(base, s, CNPJ1, CNPJ2);
    CompletedDigits(base, CNPJ1, CNPJ2);
    EqualTail(s, base);
    if AllEqual(base) { EqualCnpj(base); }
  }
}
