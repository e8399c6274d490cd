/** Exactly which tokens lose their value on the way into the book. */
module WrapLaws {
  import opened Digits
  import opened View
  import opened Parser
  import opened ParserLaws
  import opened Printer

  function Pow2(n: nat): (r: nat)
    ensures r >= 1
  {
    if n == 0 then 1 else 2 * Pow2(n - 1)
  }

  /** 5 has no factor 2: what a power of two divides 5 times, it divides once. */
  lemma {:induction false} FiveIsOdd(x: nat, c: nat, j: nat) returns (d: nat)
    requires 5 * x == c * Pow2(j)
    ensures x == d * Pow2(j)
  {
    if j == 0 {
      d := x;
    } else {
      assert c * Pow2(j) == 2 * (c * Pow2(j - 1));
      var y := x / 2;
      assert x == 2 * y;
      d := FiveIsOdd(y, c, j - 1);
      assert d * Pow2(j) == 2 * (d * Pow2(j - 1));
    }
  }

  /** Each decimal zero behind m takes one factor 2 away from what must divide m. */
  lemma {:induction false} PowerOfTwoLeft(m: nat, k: nat, c: nat, e: nat) returns (d: nat)
    requires k <= e && ScaleUp(m, k) == c * Pow2(e)
    ensures m == d * Pow2(e - k)
  {
    if k == 0 {
      d := c;
    } else {
      var x := ScaleUp(m, k - 1);
      assert c * Pow2(e) == 2 * (c * Pow2(e - 1));
      d := FiveIsOdd(x, c, e - 1);
      d := PowerOfTwoLeft(m, k - 1, d, e - 1);
    }
  }

  lemma {:induction false} Pow2Grows(a: nat, b: nat)
    requires a <= b
    ensures Pow2(a) <= Pow2(b)
  {
    if a < b {
      Pow2Grows(a, b - 1);
    }
  }

  lemma {:induction false} Pow2Sum(a: nat, b: nat)
    ensures Pow2(a + b) == Pow2(a) * Pow2(b)
  {
    if b > 0 {
      Pow2Sum(a, b - 1);
      assert 2 * (Pow2(a) * Pow2(b - 1)) == Pow2(a) * (2 * Pow2(b - 1));
    }
  }

  lemma {:induction false} U64IsPow2()
    ensures U64 == Pow2(64)
  {
    assert Pow2(8) == 256;
    Pow2Sum(8, 8);
    Pow2Sum(16, 16);
    Pow2Sum(32, 32);
  }

  lemma {:induction false} TwoToTheNineteenth()
    ensures Pow2(19) == 0x80000
  {
    assert Pow2(8) == 256 && Pow2(3) == 8;
    Pow2Sum(8, 8);
    Pow2Sum(16, 3);
  }

  /** A number below 2^19 with up to 45 zeros behind it is never a multiple of 2^64, unless it is 0. */
  lemma {:induction false} FewDigitsNeverWrap(m: nat, k: nat)
    requires 0 < m < 0x80000 && k <= 45
    ensures ScaleUp(m, k) % U64 != 0
  {
    if ScaleUp(m, k) % U64 == 0 {
      U64IsPow2();
      var c := ScaleUp(m, k) / U64;
      var d := PowerOfTwoLeft(m, k, c, 64);
      Pow2Grows(19, 64 - k);
      TwoToTheNineteenth();
      if d > 0 {
        MulSpread(d, Pow2(64 - k));
      }
    }
  }

  /** Numerals of up to 19 digits stay below 2^64. */
  lemma {:induction false} LongerThanNineteen(a: string)
    requires AllDigits(a) && NatVal(a) % U64 == 0 && NatVal(a) != 0
    ensures |a| > 19 && NatVal(a) >= U64
  {
    NatValBounds(a);
    if |a| <= 19 {
      NineteenDigits(a);
    }
  }

  /** The first digit of a fraction that wraps is not all of it. */
  lemma {:induction false} FirstDigitIsNotAll(f: string, n: nat)
    requires AllDigits(f) && 1 < |f| <= 46 && |f| <= n && NatVal(f) % U64 == 0 && NatVal(f) != 0
    ensures NatVal(Fit(f[..1], n)) != NatVal(Fit(f, n))
  {
    if NatVal(Fit(f[..1], n)) == NatVal(Fit(f, n)) {
      NatValInjective(Fit(f[..1], n), Fit(f, n));
      assert f == Fit(f, n)[..|f|];
      assert f == f[..1] + Zeros(|f| - 1);
      NatValConcat(f[..1], Zeros(|f| - 1));
      NatValZeros(Zeros(|f| - 1));
      ScaleUpZero(|f| - 1);
      assert f[..1] == [f[0]] && [f[0]][..0] == "" && NatVal("") == 0;
      assert NatVal(f[..1]) == DigitValue(f[0]);
      FewDigitsNeverWrap(DigitValue(f[0]), |f| - 1);
    }
  }

  lemma {:induction false} CopyOfWrapped(t: Text)
    requires Wraps(t)
    ensures BookText(t).Some? && Num(BookText(t).value) != Num(t)
  {
    var v := CopyReadsFront(t);
    var a, f := KeepOne(IntPart(t)), FracPart(t);
    KeepOneValue(IntPart(t));
    NumByDigits(t);
    NumByDigits(v);
    if NatVal(IntPart(t)) != 0 {
      LongerThanNineteen(a);
      FrontOfInteger(t, v);
    } else {
      NonZeroFraction(t);
      NatValBounds(f);
      LongerThanNineteen(f);
      FrontOfFraction(t, v);
      FirstDigitIsNotAll(f, MAX_CHARS);
    }
  }

  lemma {:induction false} CopyReadsFront(t: Text) returns (v: Text)
    requires LooksZero(t)
    ensures BookText(t) == Some(v) && IsNumeral(Scanned(t)) && |Scanned(t)| <= |t|
    ensures v == (Scanned(t) + Zeros(MAX_CHARS - |Scanned(t)|))[..3]
  {
    ScanText(t);
    ParseShape(t);
    v := BookText(t).value;
  }

  lemma {:induction false} FrontOfInteger(t: Text, v: Text)
    requires |KeepOne(IntPart(t))| > 19 && |Scanned(t)| <= |t|
    requires v == (Scanned(t) + Zeros(MAX_CHARS - |Scanned(t)|))[..3]
    ensures 0 <= NatVal(IntPart(v)) < U64
  {
    KeepOneValue(IntPart(t));
    assert v == KeepOne(IntPart(t))[..3];
    NineteenDigits(IntPart(v));
  }

  lemma {:induction false} FrontOfFraction(t: Text, v: Text)
    requires KeepOne(IntPart(t)) == "0" && |FracPart(t)| > 19
    requires |Scanned(t)| <= |t| && v == (Scanned(t) + Zeros(MAX_CHARS - |Scanned(t)|))[..3]
    ensures FracPart(v) == FracPart(t)[..1] && |FracPart(t)| <= 46
  {
    var f := FracPart(t);
    JoinParts(t);
    assert Scanned(t) == "0" + "." + f;
    assert v == "0" + "." + f[..1];
    SplitPoint("0", f[..1]);
  }

  lemma {:induction false} NonZeroFraction(t: Text)
    requires Num(t) != 0 && NatVal(IntPart(t)) == 0
    ensures NatVal(FracPart(t)) != 0
  {
    if NatVal(FracPart(t)) == 0 {
      ZeroPartsValue(t);
    }
  }

  /** The decimals of the book keep the value of their token exactly when it does not wrap. */
  lemma {:induction false} BookTextKeepsValueIff(t: Text)
    ensures BookText(t).Some?
    ensures Num(BookText(t).value) == Num(t) <==> !Wraps(t)
  {
    if Wraps(t) {
      CopyOfWrapped(t);
    } else {
      BookTextValue(t);
    }
  }

  lemma {:induction false} NumeralValue(n: nat, k: nat)
    requires n < Pow10(k)
    ensures AllDigits(Numeral(n)) && NatVal(Numeral(n)) == n && |Numeral(n)| <= k
  {
    if n > 0 {
      NumeralValue(n / 10, k - 1);
      assert Numeral(n)[..|Numeral(n)| - 1] == Numeral(n / 10);
    }
  }

  // ---- One such token ----

  /** The digits of 2^64. */
  const WRAPPED_FRACTION := "1844" + "6744" + "0737" + "0955" + "1616"
  const WRAPPED := "0" + "." + WRAPPED_FRACTION

  lemma {:induction false} FourDigits(s: string)
    requires |s| == 4
    ensures NatVal(s) == 1000 * DigitValue(s[0]) + 100 * DigitValue(s[1]) + 10 * DigitValue(s[2]) + DigitValue(s[3])
  {
    var a, b := [s[0]] + [s[1]], [s[0]] + [s[1]] + [s[2]];
    NatValNext("", s[0]);
    assert "" + [s[0]] == [s[0]];
    NatValNext([s[0]], s[1]);
    NatValNext(a, s[2]);
    NatValNext(b, s[3]);
    assert s == b + [s[3]];
  }

  lemma {:induction false} FourMore(a: string, b: string)
    requires |b| == 4
    ensures NatVal(a + b) == 10000 * NatVal(a) + NatVal(b)
  {
    NatValConcat(a, b);
    ScaleUpIsTimes(NatVal(a), 4);
    assert Pow10(4) == 10000;
  }

  lemma {:induction false} FractionIsU64()
    ensures NatVal(WRAPPED_FRACTION) == U64
  {
    FourDigits("1844");
    FourDigits("6744");
    FourDigits("0737");
    FourDigits("0955");
    FourDigits("1616");
    FourMore("1844", "6744");
    FourMore("1844" + "6744", "0737");
    FourMore("1844" + "6744" + "0737", "0955");
    FourMore("1844" + "6744" + "0737" + "0955", "1616");
  }

  /** There are such tokens: 0.18446744073709551616, whose fraction digits read 2^64, parses as 0. */
  lemma {:induction false} SomeFractionWraps()
    ensures IsNumeral(WRAPPED) && |WRAPPED| == 22 && IntPart(WRAPPED) == "0" && FracPart(WRAPPED) == WRAPPED_FRACTION
    ensures Wraps(WRAPPED) && Scanned(WRAPPED) == WRAPPED
    ensures Parse(WRAPPED).Ok? && Parse(WRAPPED).value.Text() == ZeroText()
  {
    FractionIsU64();
    SplitPoint("0", WRAPPED_FRACTION);
    NatValZeros("0");
    KeepOneValue("0");
    JoinParts(WRAPPED);
    if Num(WRAPPED) == 0 {
      ZeroParts(WRAPPED);
    }
    ParseValue(WRAPPED);
  }
}
