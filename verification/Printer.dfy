/** Printing a decimal at a precision, the digits its checksum is taken over, and reading it back. */
module Printer {
  import opened Digits
  import opened View
  import opened Parser
  import opened ParserLaws

  /** The allocating printer: the view, with its fraction padded or cut to p digits. */
  function Str(v: string, p: nat): string {
    var point := FindPoint(v);
    if point == |v| then v + "." + Zeros(p)
    else
      var after := |v| - (point + 1);
      if p > after then v + Zeros(p - after) else v[..point + 1 + p]
  }

  lemma {:induction false} StrParts(v: Text, p: nat)
    ensures Str(v, p) == IntPart(v) + "." + Fit(FracPart(v), p)
    ensures IsNumeral(Str(v, p)) && |Str(v, p)| == |IntPart(v)| + 1 + p
    ensures IntPart(Str(v, p)) == IntPart(v) && FracPart(Str(v, p)) == Fit(FracPart(v), p)
  {
    SplitPoint(IntPart(v), Fit(FracPart(v), p));
    JoinParts(v);
    if FindPoint(v) == |v| {
      assert Fit("", p) == Zeros(p);
    }
  }

  /** The digits of a text in order, without its points. */
  function DigitsOf(s: string): (r: string)
    ensures AllDigits(r)
  {
    if s == "" then ""
    else
      var c := s[|s| - 1];
      if IsDigit(c) then DigitsOf(s[..|s| - 1]) + [c] else DigitsOf(s[..|s| - 1])
  }

  lemma {:induction false} DigitsOfDigits(s: string, t: string)
    requires AllDigits(t)
    ensures DigitsOf(s + t) == DigitsOf(s) + t
  {
    if t == "" {
      assert s + t == s;
    } else {
      DigitsOfDigits(s, t[..|t| - 1]);
      assert (s + t)[..|s + t| - 1] == s + t[..|t| - 1];
    }
  }

  /** The digits of a printed decimal, leading zeros dropped, are the numeral of floor(v * 10^p). */
  lemma {:induction false} DigitStream(v: Text, p: nat)
    ensures StripLeading(DigitsOf(Str(v, p))) == Numeral(FloorAt(Num(v), p))
  {
    StrParts(v, p);
    var a, f := IntPart(v), Fit(FracPart(v), p);
    assert a + "." + f == (a + ".") + f;
    DigitsOfDigits(a + ".", f);
    DigitsOfDigits("", a);
    assert "" + a == a;
    assert DigitsOf(a + ".") == DigitsOf(a) by { assert (a + ".")[..|a|] == a; }
    CutIsFloor(v, p);
    StripIsNumeral(a + f);
  }

  /** The printed text denotes the value rounded down to p fraction digits. */
  lemma {:induction false} PrintedValue(v: Text, p: nat)
    requires |Str(v, p)| <= MAX_CHARS
    ensures IsNumeral(Str(v, p)) && p <= MAX_CHARS
    ensures Num(Str(v, p)) == ScaleUp(FloorAt(Num(v), p), MAX_CHARS - p)
  {
    StrParts(v, p);
    CutIsFloor(v, p);
    var a, f := IntPart(v), Fit(FracPart(v), p);
    NatValConcat(a, f);
    ScaleUpSum(NatVal(a), p, MAX_CHARS - p);
    ScaleUpAdd(ScaleUp(NatVal(a), p), NatVal(f), MAX_CHARS - p);
  }

  /** No fraction digits behind the p-th. */
  predicate ExactAt(n: nat, p: nat) {
    p <= MAX_CHARS ==> n % Pow10(MAX_CHARS - p) == 0
  }

  lemma {:induction false} RoundedDown(n: nat, k: nat)
    ensures ScaleUp(ScaleDown(n, k), k) == n <==> n % Pow10(k) == 0
  {
    ScaleDownRest(n, k);
    ScaleUpIsTimes(ScaleDown(n, k), k);
    RemainderIs(n, ScaleDown(n, k), Pow10(k));
  }

  lemma {:induction false} RemainderIs(n: nat, q: nat, d: nat)
    requires d > 0 && q * d <= n < q * d + d
    ensures n % d == n - q * d
  {
    var q', r' := n / d, n % d;
    assert n == q' * d + r';
    assert (q - q') * d == r' - (n - q * d);
    MulSpread(q - q', d);
  }

  lemma {:induction false} MulSpread(x: int, d: int)
    requires d > 0
    ensures x >= 1 ==> x * d >= d
    ensures x <= -1 ==> x * d <= -d
  {
  }

  /** Reading back what was printed gives the value rounded down to p fraction digits, and gives the
      printed decimal's own value exactly when it has no more digits than that. */
  lemma {:induction false} PrintThenParse(v: Text, p: nat)
    requires |Str(v, p)| <= MAX_CHARS && IsNumeral(Str(v, p)) && !Wraps(Str(v, p))
    ensures BookText(Str(v, p)).Some? && p <= MAX_CHARS
    ensures Num(BookText(Str(v, p)).value) == ScaleUp(FloorAt(Num(v), p), MAX_CHARS - p)
    ensures Num(BookText(Str(v, p)).value) == Num(v) <==> ExactAt(Num(v), p)
  {
    PrintedValue(v, p);
    BookTextValue(Str(v, p));
    FloorKeepsIff(Num(v), p);
  }

  lemma {:induction false} FloorKeepsIff(n: nat, p: nat)
    requires p <= MAX_CHARS
    ensures ScaleUp(FloorAt(n, p), MAX_CHARS - p) == n <==> ExactAt(n, p)
  {
    RoundedDown(n, MAX_CHARS - p);
  }

  /** At most p fraction digits are enough for exactness. */
  lemma {:induction false} FewDigitsExact(v: Text, p: nat)
    requires |FracPart(v)| <= p
    ensures ExactAt(Num(v), p)
  {
    if p <= MAX_CHARS {
      NumAsWhole(v);
      var m := NatVal(IntPart(v) + FracPart(v));
      ScaleUpSum(m, p - |FracPart(v)|, MAX_CHARS - p);
      MultipleHasNoRest(ScaleUp(m, p - |FracPart(v)|), MAX_CHARS - p);
    }
  }

  /** A number is the number its digits make without the point, scaled up. */
  lemma {:induction false} NumAsWhole(v: Text)
    ensures NatVal(IntPart(v) + FracPart(v)) >= 0
    ensures Num(v) == ScaleUp(NatVal(IntPart(v) + FracPart(v)), MAX_CHARS - |FracPart(v)|)
  {
    var a, f := IntPart(v), FracPart(v);
    NatValConcat(a, f);
    NatValBounds(a);
    NatValBounds(f);
    ScaleUpSum(NatVal(a), |f|, MAX_CHARS - |f|);
    ScaleUpAdd(ScaleUp(NatVal(a), |f|), NatVal(f), MAX_CHARS - |f|);
  }

  lemma {:induction false} MultipleHasNoRest(m: nat, k: nat)
    ensures ScaleUp(m, k) % Pow10(k) == 0
  {
    ScaleUpIsTimes(m, k);
    RemainderIs(ScaleUp(m, k), m, Pow10(k));
  }

  /** Parts of at most 19 digits never wrap. */
  lemma {:induction false} ShortPartsDoNotWrap(t: Text)
    requires |IntPart(t)| <= 19 && |FracPart(t)| <= 19
    ensures !Wraps(t)
  {
    NineteenDigits(IntPart(t));
    NineteenDigits(FracPart(t));
    if NatVal(IntPart(t)) == 0 && NatVal(FracPart(t)) == 0 {
      ZeroPartsValue(t);
    }
  }

  lemma {:induction false} NineteenDigits(a: string)
    requires AllDigits(a) && |a| <= 19
    ensures 0 <= NatVal(a) < U64
  {
    NatValBounds(a);
    Pow10Monotone(|a|, 19);
    TenToTheNineteenth();
  }

  lemma {:induction false} TenToTheNineteenth()
    ensures Pow10(19) < U64
  {
    assert Pow10(9) == 1_000_000_000;
    assert Pow10(10) == 10_000_000_000;
    Pow10Sum(9, 10);
  }

  lemma {:induction false} Pow10Monotone(a: nat, b: nat)
    requires a <= b
    ensures Pow10(a) <= Pow10(b)
  {
    if a < b {
      Pow10Monotone(a, b - 1);
    }
  }
}
