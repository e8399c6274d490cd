/** Decimal digit strings, the numbers they denote, and the canonical numeral of a number. */
module Digits {

  predicate IsDigit(c: char) {
    '0' <= c <= '9'
  }

  predicate AllDigits(s: string) {
    forall i :: 0 <= i < |s| ==> IsDigit(s[i])
  }

  function DigitValue(c: char): int {
    c as int - '0' as int
  }

  /** The number a digit string denotes, most significant digit first; 0 for the empty string. */
  function NatVal(s: string): int {
    if s == "" then 0 else 10 * NatVal(s[..|s| - 1]) + DigitValue(s[|s| - 1])
  }

  function Pow10(n: nat): (r: nat)
    ensures r >= 1
  {
    if n == 0 then 1 else 10 * Pow10(n - 1)
  }

  /** A number with k zeros behind it. */
  function ScaleUp(n: int, k: nat): (r: int)
    ensures n >= 0 ==> r >= n
  {
    if k == 0 then n else 10 * ScaleUp(n, k - 1)
  }

  /** A number without its last k digits. */
  function ScaleDown(n: nat, k: nat): nat {
    if k == 0 then n else ScaleDown(n / 10, k - 1)
  }

  function Zeros(n: nat): (s: string)
    ensures |s| == n && AllDigits(s) && forall i :: 0 <= i < n ==> s[i] == '0'
  {
    seq(n, i => '0')
  }

  /** A digit string without its leading zeros. */
  function StripLeading(s: string): string {
    if s != "" && s[0] == '0' then StripLeading(s[1..]) else s
  }

  /** The canonical base-10 numeral of a number: no leading zeros, nothing at all for 0. */
  function Numeral(n: nat): string {
    if n == 0 then "" else Numeral(n / 10) + [(n % 10) as char + '0']
  }

  lemma {:induction false} NatValBounds(s: string)
    requires AllDigits(s)
    ensures 0 <= NatVal(s) < Pow10(|s|)
  {
    if s != "" {
      NatValBounds(s[..|s| - 1]);
    }
  }

  lemma {:induction false} Pow10Sum(a: nat, b: nat)
    ensures Pow10(a + b) == Pow10(a) * Pow10(b)
  {
    if b > 0 {
      Pow10Sum(a, b - 1);
      assert 10 * (Pow10(a) * Pow10(b - 1)) == Pow10(a) * (10 * Pow10(b - 1));
    }
  }

  lemma {:induction false} ScaleUpZero(k: nat)
    ensures ScaleUp(0, k) == 0
  {
    if k > 0 {
      ScaleUpZero(k - 1);
    }
  }

  lemma {:induction false} ScaleUpSum(n: int, a: nat, b: nat)
    ensures ScaleUp(ScaleUp(n, a), b) == ScaleUp(n, a + b)
  {
    if b > 0 {
      ScaleUpSum(n, a, b - 1);
    }
  }

  lemma {:induction false} ScaleUpAdd(m: int, n: int, k: nat)
    ensures ScaleUp(m + n, k) == ScaleUp(m, k) + ScaleUp(n, k)
  {
    if k > 0 {
      ScaleUpAdd(m, n, k - 1);
    }
  }

  /** Scaling up is multiplication by a power of ten. */
  lemma {:induction false} ScaleUpIsTimes(n: int, k: nat)
    ensures ScaleUp(n, k) == n * Pow10(k)
  {
    if k > 0 {
      ScaleUpIsTimes(n, k - 1);
    }
  }

  /** Scaling down takes off the last k digits. */
  lemma {:induction false} ScaleDownIs(n: nat, q: nat, k: nat, r: nat)
    requires n == ScaleUp(q, k) + r && r < Pow10(k)
    ensures ScaleDown(n, k) == q
  {
    if k > 0 {
      ScaleDownIs(n / 10, q, k - 1, r / 10);
    }
  }

  /** The digits taken off by scaling down are fewer than k. */
  lemma {:induction false} ScaleDownRest(n: nat, k: nat)
    ensures ScaleUp(ScaleDown(n, k), k) <= n < ScaleUp(ScaleDown(n, k), k) + Pow10(k)
  {
    if k > 0 {
      ScaleDownRest(n / 10, k - 1);
    }
  }

  lemma {:induction false} ScaleUpLess(m: int, n: int, k: nat)
    requires m < n
    ensures ScaleUp(m, k) + Pow10(k) <= ScaleUp(n, k)
  {
    if k > 0 {
      ScaleUpLess(m, n, k - 1);
    }
  }

  lemma {:induction false} NatValConcat(a: string, b: string)
    ensures NatVal(a + b) == ScaleUp(NatVal(a), |b|) + NatVal(b)
  {
    if b == "" {
      assert a + b == a;
    } else {
      var init := b[..|b| - 1];
      NatValConcat(a, init);
      assert (a + b)[..|a + b| - 1] == a + init;
    }
  }

  lemma {:induction false} NatValNext(a: string, c: char)
    ensures NatVal(a + [c]) == 10 * NatVal(a) + DigitValue(c)
  {
    assert (a + [c])[..|a|] == a;
  }

  lemma {:induction false} NatValZeros(s: string)
    requires forall i :: 0 <= i < |s| ==> s[i] == '0'
    ensures NatVal(s) == 0
  {
    if s != "" {
      NatValZeros(s[..|s| - 1]);
    }
  }

  lemma {:induction false} NatValInjective(a: string, b: string)
    requires AllDigits(a) && AllDigits(b) && |a| == |b|
    requires NatVal(a) == NatVal(b)
    ensures a == b
  {
    if a != "" {
      NatValInjective(a[..|a| - 1], b[..|b| - 1]);
      assert a == a[..|a| - 1] + [a[|a| - 1]] && b == b[..|b| - 1] + [b[|b| - 1]];
    }
  }

  lemma {:induction false} StripSnoc(s: string, c: char)
    ensures StripLeading(s + [c]) ==
            if StripLeading(s) == "" && c == '0' then "" else StripLeading(s) + [c]
  {
    if s != "" && s[0] == '0' {
      StripSnoc(s[1..], c);
      assert (s + [c])[1..] == s[1..] + [c];
    } else if s == "" {
      assert s + [c] == [c];
      assert [c][1..] == "";
    }
  }

  /** Stripping the leading zeros of a digit string leaves the canonical numeral of its number. */
  lemma {:induction false} StripIsNumeral(s: string)
    requires AllDigits(s)
    ensures NatVal(s) >= 0 && StripLeading(s) == Numeral(NatVal(s))
  {
    if s != "" {
      var init, c := s[..|s| - 1], s[|s| - 1];
      assert s == init + [c] && IsDigit(c);
      StripIsNumeral(init);
      StripSnoc(init, c);
      NatValBounds(s);
      var n := NatVal(init);
      assert NatVal(s) == 10 * n + DigitValue(c);
      assert (10 * n + DigitValue(c)) / 10 == n && (10 * n + DigitValue(c)) % 10 == DigitValue(c);
      NumeralEmpty(n);
    }
  }

  lemma {:induction false} NumeralEmpty(n: nat)
    ensures Numeral(n) == "" <==> n == 0
  {
  }

  lemma {:induction false} NatValZeroIff(s: string)
    requires AllDigits(s)
    ensures NatVal(s) == 0 <==> forall i :: 0 <= i < |s| ==> s[i] == '0'
  {
    if NatVal(s) == 0 {
      NatValZeros(Zeros(|s|));
      NatValInjective(s, Zeros(|s|));
    } else if forall i :: 0 <= i < |s| ==> s[i] == '0' {
      NatValZeros(s);
    }
  }
}
