/** The order of decimals: numeric, but for integer parts that do not fit 64 bits. */
module Order {
  import opened Digits
  import opened View
  import opened Parser

  datatype Ordering = Less | Equal | Greater

  function Compare(a: int, b: int): Ordering {
    if a < b then Less else if a > b then Greater else Equal
  }

  /** What is compared: the value with its integer part reduced to 64 bits. */
  function Key(v: Text): (k: nat) {
    WrapInt(Num(v))
  }

  function WrapInt(n: nat): nat {
    var i := ScaleDown(n, MAX_CHARS);
    ScaleDownRest(n, MAX_CHARS);
    ScaleUp(i % U64, MAX_CHARS) + (n - ScaleUp(i, MAX_CHARS))
  }

  lemma {:induction false} WrapIntSmall(n: nat)
    requires ScaleDown(n, MAX_CHARS) < U64
    ensures WrapInt(n) == n
  {
  }

  /** A value is compared as it is exactly when its integer part fits 64 bits. */
  lemma {:induction false} KeyIsValueIff(v: Text)
    ensures NatVal(IntPart(v)) >= 0
    ensures Key(v) == Num(v) <==> NatVal(IntPart(v)) < U64
  {
    NumByDigits(v);
    var i := NatVal(IntPart(v));
    if i < U64 {
      WrapIntSmall(Num(v));
    } else {
      ScaleUpLess(i % U64, i, MAX_CHARS);
    }
  }

  /** The order is the numeric one for integer parts below 2^64, in particular of up to 19 digits. */
  lemma {:induction false} NumericOrder(v: Text, w: Text)
    requires NatVal(IntPart(v)) < U64 && NatVal(IntPart(w)) < U64
    ensures Compare(Key(v), Key(w)) == Compare(Num(v), Num(w))
    ensures Compare(Key(v), Key(w)) == Less <==> Num(v) < Num(w)
    ensures Compare(Key(v), Key(w)) == Greater <==> Num(v) > Num(w)
  {
    NumByDigits(v);
    NumByDigits(w);
    WrapIntSmall(Num(v));
    WrapIntSmall(Num(w));
  }

  lemma {:induction false} KeyByParts(v: Text)
    ensures NatVal(IntPart(v)) >= 0
    ensures Key(v) == ScaleUp(NatVal(IntPart(v)) % U64, MAX_CHARS) + NatVal(Fit(FracPart(v), MAX_CHARS))
    ensures 0 <= NatVal(Fit(FracPart(v), MAX_CHARS)) < Pow10(MAX_CHARS)
  {
    NumByDigits(v);
  }

  /** The integer parts decide when they differ. */
  lemma {:induction false} IntPartDecides(v: Text, w: Text)
    requires NatVal(IntPart(v)) % U64 < NatVal(IntPart(w)) % U64
    ensures Key(v) < Key(w)
  {
    KeyByParts(v);
    KeyByParts(w);
    ScaleUpLess(NatVal(IntPart(v)) % U64, NatVal(IntPart(w)) % U64, MAX_CHARS);
  }

  /** The first differing digit decides between digit strings of one length. */
  lemma {:induction false} FirstDifferenceDecides(f: string, g: string, i: nat)
    requires |f| == |g| && AllDigits(f) && AllDigits(g)
    requires i < |f| && f[..i] == g[..i] && f[i] < g[i]
    ensures NatVal(f) < NatVal(g)
  {
    SplitAtDigit(f, i);
    SplitAtDigit(g, i);
    ScaleUpLess(10 * NatVal(f[..i]) + DigitValue(f[i]), 10 * NatVal(g[..i]) + DigitValue(g[i]), |f| - i - 1);
  }

  lemma {:induction false} SplitAtDigit(f: string, i: nat)
    requires AllDigits(f) && i < |f|
    ensures var high := ScaleUp(10 * NatVal(f[..i]) + DigitValue(f[i]), |f| - i - 1);
            high <= NatVal(f) < high + Pow10(|f| - i - 1)
  {
    var head, rest := f[..i] + [f[i]], f[i + 1..];
    assert f == head + rest;
    NatValConcat(head, rest);
    NatValNext(f[..i], f[i]);
    NatValBounds(rest);
  }

  /** Equal integer parts leave the decision to the fractions, padded to one length. */
  lemma {:induction false} FractionDecides(v: Text, w: Text, i: nat)
    requires NatVal(IntPart(v)) % U64 == NatVal(IntPart(w)) % U64
    requires i < MAX_CHARS && Fit(FracPart(v), MAX_CHARS)[..i] == Fit(FracPart(w), MAX_CHARS)[..i]
    requires Fit(FracPart(v), MAX_CHARS)[i] < Fit(FracPart(w), MAX_CHARS)[i]
    ensures Key(v) < Key(w)
  {
    KeyByParts(v);
    KeyByParts(w);
    FirstDifferenceDecides(Fit(FracPart(v), MAX_CHARS), Fit(FracPart(w), MAX_CHARS), i);
  }

  lemma {:induction false} EqualParts(v: Text, w: Text)
    requires NatVal(IntPart(v)) % U64 == NatVal(IntPart(w)) % U64
    requires Fit(FracPart(v), MAX_CHARS) == Fit(FracPart(w), MAX_CHARS)
    ensures Key(v) == Key(w)
  {
    KeyByParts(v);
    KeyByParts(w);
  }

  /** One digit more in the 64-bit accumulator. */
  lemma {:induction false} AccumulateDigit(n: int, d: int)
    ensures (n % U64 * 10 % U64 + d) % U64 == (10 * n + d) % U64
  {
  }
}
