/** The text of a decimal: a plain numeral of at most 48 characters, and the number it denotes. */
module View {
  import opened Digits

  /** Size of the character buffer of a decimal (one cache line less a string view). */
  const MAX_CHARS: nat := 48

  /** Position of the first '.', or the length of the string when there is none. */
  function FindPoint(s: string): (i: nat)
    ensures i <= |s|
    ensures forall k :: 0 <= k < i ==> s[k] != '.'
    ensures i < |s| ==> s[i] == '.'
  {
    if s == "" || s[0] == '.' then 0 else 1 + FindPoint(s[1..])
  }

  function IntPart(s: string): string {
    s[..FindPoint(s)]
  }

  function FracPart(s: string): string {
    if FindPoint(s) == |s| then "" else s[FindPoint(s) + 1..]
  }

  /** Digits, then optionally a point and more digits: no sign, no exponent. */
  predicate IsNumeral(s: string) {
    IntPart(s) != "" && AllDigits(IntPart(s)) && AllDigits(FracPart(s))
  }

  type Text = s: string | IsNumeral(s) && |s| <= MAX_CHARS witness ZeroText()

  /** What the shared constant for zero reads. */
  function ZeroText(): (s: string)
    ensures IsNumeral(s) && |s| <= MAX_CHARS && IntPart(s) == "0" && FracPart(s) == "0"
  {
    SplitPoint("0", "0");
    "0" + "." + "0"
  }

  /** The value of a numeral, times 10^48: every decimal that fits the buffer is then an integer. */
  function Num(v: Text): (n: nat) {
    NatValBounds(IntPart(v)); NatValBounds(FracPart(v));
    ScaleUp(NatVal(IntPart(v)), MAX_CHARS) + ScaleUp(NatVal(FracPart(v)), MAX_CHARS - |FracPart(v)|)
  }

  /** floor(value * 10^p), from the value times 10^48. */
  function FloorAt(n: nat, p: nat): nat {
    if p <= MAX_CHARS then ScaleDown(n, MAX_CHARS - p) else ScaleUp(n, p - MAX_CHARS)
  }

  /** A fraction cut or zero-padded to n digits. */
  function Fit(f: string, n: nat): (r: string)
    ensures |r| == n
    ensures AllDigits(f) ==> AllDigits(r)
  {
    if |f| >= n then f[..n] else f + Zeros(n - |f|)
  }

  lemma {:induction false} SplitPoint(a: string, b: string)
    requires forall k :: 0 <= k < |a| ==> a[k] != '.'
    ensures IntPart(a + "." + b) == a && FracPart(a + "." + b) == b
    ensures FindPoint(a + "." + b) == |a|
  {
    var s := a + "." + b;
    assert s[|a|] == '.';
    assert forall k :: 0 <= k < |a| ==> s[k] == a[k];
  }

  lemma {:induction false} NoPoint(a: string)
    requires forall k :: 0 <= k < |a| ==> a[k] != '.'
    ensures IntPart(a) == a && FracPart(a) == "" && FindPoint(a) == |a|
  {
    assert a[..|a|] == a;
  }

  lemma {:induction false} JoinParts(s: string)
    ensures s == IntPart(s) + if FindPoint(s) == |s| then "" else "." + FracPart(s)
  {
  }

  /** A number is its integer digits followed by 48 fraction digits. */
  lemma {:induction false} NumByDigits(v: Text)
    ensures AllDigits(IntPart(v) + Fit(FracPart(v), MAX_CHARS))
    ensures Num(v) == NatVal(IntPart(v) + Fit(FracPart(v), MAX_CHARS))
    ensures NatVal(IntPart(v)) >= 0 && 0 <= NatVal(Fit(FracPart(v), MAX_CHARS)) < Pow10(MAX_CHARS)
    ensures Num(v) == ScaleUp(NatVal(IntPart(v)), MAX_CHARS) + NatVal(Fit(FracPart(v), MAX_CHARS))
    ensures ScaleDown(Num(v), MAX_CHARS) == NatVal(IntPart(v))
  {
    var a, f := IntPart(v), FracPart(v);
    var pad := Zeros(MAX_CHARS - |f|);
    NatValConcat(a, Fit(f, MAX_CHARS));
    NatValConcat(f, pad);
    NatValZeros(pad);
    assert Fit(f, MAX_CHARS) == f + pad;
    NatValBounds(a);
    NatValBounds(Fit(f, MAX_CHARS));
    ScaleDownIs(Num(v), NatVal(a), MAX_CHARS, NatVal(Fit(f, MAX_CHARS)));
  }

  /** Cutting or padding the fraction to p digits reads floor(value * 10^p). */
  lemma {:induction false} CutIsFloor(v: Text, p: nat)
    ensures AllDigits(IntPart(v) + Fit(FracPart(v), p))
    ensures NatVal(IntPart(v) + Fit(FracPart(v), p)) == FloorAt(Num(v), p)
  {
    NumByDigits(v);
    if p <= MAX_CHARS {
      CutDigits(IntPart(v), Fit(FracPart(v), MAX_CHARS), Fit(FracPart(v), p));
    } else {
      var pad := Zeros(p - MAX_CHARS);
      assert IntPart(v) + Fit(FracPart(v), p) == IntPart(v) + Fit(FracPart(v), MAX_CHARS) + pad;
      NatValConcat(IntPart(v) + Fit(FracPart(v), MAX_CHARS), pad);
      NatValZeros(pad);
    }
  }

  lemma {:induction false} CutDigits(a: string, full: string, head: string)
    requires AllDigits(a + full) && head <= full
    ensures NatVal(a + full) >= 0 && NatVal(a + head) == ScaleDown(NatVal(a + full), |full| - |head|)
  {
    var rest := full[|head|..];
    assert AllDigits(a + head) by { assert a + head <= a + full; }
    assert a + full == (a + head) + rest;
    assert forall i :: 0 <= i < |rest| ==> rest[i] == (a + full)[|a| + |head| + i];
    NatValConcat(a + head, rest);
    NatValBounds(a + head);
    NatValBounds(a + full);
    NatValBounds(rest);
    ScaleDownIs(NatVal(a + full), NatVal(a + head), |rest|, NatVal(rest));
  }

  /** Equal values have equal fractions at the full length. */
  lemma {:induction false} SameFraction(f: string, g: string)
    requires AllDigits(f) && AllDigits(g) && |f| <= MAX_CHARS && |g| <= MAX_CHARS
    requires NatVal(Fit(f, MAX_CHARS)) == NatVal(Fit(g, MAX_CHARS))
    ensures Fit(f, MAX_CHARS) == Fit(g, MAX_CHARS)
  {
    NatValInjective(Fit(f, MAX_CHARS), Fit(g, MAX_CHARS));
  }
}
