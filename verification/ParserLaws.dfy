/** What parsing a token means for the value of the decimal. */
module ParserLaws {
  import opened Digits
  import opened View
  import opened Parser

  /** A token that is not 0 although both its parts vanish in 64 bits. */
  predicate Wraps(t: Text) {
    LooksZero(t) && Num(t) != 0
  }

  /** The characters the scanner writes for a plain numeral. */
  function Scanned(t: Text): string {
    KeepOne(IntPart(t)) + t[FindPoint(t)..]
  }

  lemma {:induction false} ScanText(t: Text)
    ensures Scan(t, BeforeDigit) == Some(Scanned(t))
    ensures IsNumeral(Scanned(t)) && |Scanned(t)| <= |t|
    ensures IntPart(Scanned(t)) == KeepOne(IntPart(t)) && FracPart(Scanned(t)) == FracPart(t)
    ensures TrimFraction(Scanned(t)) == Canonical(t)
    ensures LooksZero(Scanned(t)) <==> LooksZero(t)
  {
    var a, f := IntPart(t), FracPart(t);
    var rest := t[FindPoint(t)..];
    assert a + rest == t;
    ScanNumeral(a, rest);
    KeepOneValue(a);
    if rest == "" {
      assert Scanned(t) == KeepOne(a);
      NoPoint(KeepOne(a));
    } else {
      assert rest == "." + f && Scanned(t) == KeepOne(a) + "." + f;
      SplitPoint(KeepOne(a), f);
      TrimPoint(KeepOne(a), f);
    }
  }

  /** Whatever the token, a parse that succeeds leaves a numeral in view, and so does its copy. */
  lemma {:induction false} ParseShape(s: string)
    requires Parse(s).Ok?
    ensures IsNumeral(Parse(s).value.Text()) && IsNumeral(Parse(s).value.Copy().Text())
  {
    ScanShape(s, BeforeDigit);
    ViewIsNumeral(Scan(s, BeforeDigit).value);
  }

  lemma {:induction false} ViewIsNumeral(out: string)
    requires (out == "" || IsNumeral(out)) && |out| <= MAX_CHARS
    ensures var len := if LooksZero(out) then 3 else |TrimFraction(out)|;
            len <= MAX_CHARS && IsNumeral((out + Zeros(MAX_CHARS - |out|))[..len])
  {
    if !LooksZero(out) {
      TrimIsPrefix(out);
    }
    PrefixNumeral(out, Zeros(MAX_CHARS - |out|), if LooksZero(out) then 3 else |TrimFraction(out)|);
  }

  lemma {:induction false} TrimIsPrefix(out: string)
    requires out == "" || IsNumeral(out)
    requires !LooksZero(out)
    ensures TrimFraction(out) <= out && TrimFraction(out) != ""
  {
    assert out != "" by { NoPoint(""); assert NatVal("") == 0; }
    JoinParts(out);
    if FindPoint(out) < |out| {
      TrimPoint(IntPart(out), FracPart(out));
      assert out == IntPart(out) + "." + FracPart(out);
    }
  }

  lemma {:induction false} ZeroPartsValue(t: Text)
    requires NatVal(IntPart(t)) == 0 && NatVal(FracPart(t)) == 0
    ensures Num(t) == 0
  {
    ScaleUpZero(MAX_CHARS);
    ScaleUpZero(MAX_CHARS - |FracPart(t)|);
  }

  lemma {:induction false} ZeroTextValue()
    ensures Num(ZeroText()) == 0
  {
    NatValZeros("0");
    ZeroPartsValue(ZeroText());
  }

  /** Parsing a plain numeral keeps its value exactly when the zero test is not fooled by 64-bit
      wrap-around; what is kept is spelled canonically, with the buffer padded. */
  lemma {:induction false} ParseValue(t: Text)
    ensures Parse(t).Ok? && IsNumeral(Parse(t).value.Text())
    ensures Num(Parse(t).value.Text()) == Num(t) <==> !Wraps(t)
    ensures Parse(t).value.shared <==> LooksZero(t)
    ensures Num(t) != 0 && !Wraps(t) ==> Parse(t).value.Text() == Canonical(t) && Parse(t).value.Padded()
  {
    ScanText(t);
    ParseShape(t);
    ZeroTextValue();
    CanonicalValue(t);
    if Num(t) == 0 {
      ZeroParts(t);
    } else if !LooksZero(t) {
      NonZeroPadded(t);
    }
  }

  lemma {:induction false} ZeroParts(t: Text)
    requires Num(t) == 0
    ensures NatVal(IntPart(t)) == 0 && NatVal(FracPart(t)) == 0 && LooksZero(t)
  {
    NatValBounds(IntPart(t));
    NatValBounds(FracPart(t));
  }

  /** What trimming cuts off is zeros, behind a point when the whole fraction goes. */
  lemma {:induction false} TrimTail(out: string)
    requires IsNumeral(out)
    ensures TrimFraction(out) <= out
    ensures forall i :: |TrimFraction(out)| <= i < |out| ==>
              out[i] == '0' || (i == |TrimFraction(out)| && out[i] == '.'
                                && FindPoint(TrimFraction(out)) == |TrimFraction(out)|)
  {
    JoinParts(out);
    if FindPoint(out) < |out| {
      assert out == IntPart(out) + "." + FracPart(out);
      TrimTailAt(IntPart(out), FracPart(out));
    }
  }

  lemma {:induction false} TrimTailAt(a: string, f: string)
    requires AllDigits(a) && AllDigits(f)
    ensures var s := a + "." + f; var p := TrimFraction(s);
            && p <= s
            && forall i :: |p| <= i < |s| ==>
                 s[i] == '0' || (i == |p| && s[i] == '.' && FindPoint(p) == |p|)
  {
    TrimPoint(a, f);
    NoPoint(a);
    TailAt(a, f, TrimTrailing(f));
  }

  lemma {:induction false} TailAt(a: string, f: string, g: string)
    requires g <= f && forall i :: |g| <= i < |f| ==> f[i] == '0'
    ensures var s := a + "." + f;
            && a <= s && s[|a|] == '.'
            && a + "." + g <= s
            && forall i :: |a| + 1 + |g| <= i < |s| ==> s[i] == '0'
  {
    var s := a + "." + f;
    assert f == g + f[|g|..];
    assert s == (a + "." + g) + f[|g|..];
    assert forall i :: |a| < i < |s| ==> s[i] == f[i - |a| - 1];
  }

  lemma {:induction false} NonZeroPadded(t: Text)
    requires !LooksZero(t)
    ensures Parse(t).Ok?
    ensures Parse(t).value.Text() == Canonical(t) && Parse(t).value.Padded()
  {
    ScanText(t);
    CanonicalParts(t);
    TrimTail(Scanned(t));
    ParsedFrom(t, Scanned(t));
  }

  lemma {:induction false} ParsedFrom(s: string, out: string)
    requires Scan(s, BeforeDigit) == Some(out) && |s| <= MAX_CHARS && !LooksZero(out)
    requires IsNumeral(TrimFraction(out)) && TrimFraction(out) <= out
    requires forall i :: |TrimFraction(out)| <= i < |out| ==>
               out[i] == '0' || (i == |TrimFraction(out)| && out[i] == '.'
                                 && FindPoint(TrimFraction(out)) == |TrimFraction(out)|)
    ensures Parse(s).Ok? && Parse(s).value.Padded() && Parse(s).value.Text() == TrimFraction(out)
  {
    PaddedAfter(out + Zeros(MAX_CHARS - |out|), TrimFraction(out), |out|);
  }

  lemma {:induction false} PaddedAfter(chars: string, view: string, n: nat)
    requires |chars| == MAX_CHARS && |view| <= n <= MAX_CHARS && view <= chars && IsNumeral(view)
    requires forall i :: |view| <= i < n ==>
               chars[i] == '0' || (i == |view| && chars[i] == '.' && FindPoint(view) == |view|)
    requires forall i :: n <= i < MAX_CHARS ==> chars[i] == '0'
    ensures Dec(chars, |view|, false).Padded() && Dec(chars, |view|, false).Text() == view
  {
    assert chars[..|view|] == view;
  }

  lemma {:induction false} ZeroChars(out: string)
    requires IsNumeral(out) && |out| <= MAX_CHARS
    requires IntPart(out) == "0" && forall i :: 0 <= i < |FracPart(out)| ==> FracPart(out)[i] == '0'
    ensures var chars := out + Zeros(MAX_CHARS - |out|);
            && (chars[..3] == "000" || chars[..3] == "0" + "." + "0")
            && forall i :: 3 <= i < MAX_CHARS ==> chars[i] == '0'
  {
    JoinParts(out);
  }

  lemma {:induction false} ZeroSpellings()
    ensures IsNumeral("000") && Num("000") == 0 && FindPoint("000") == 3
    ensures IsNumeral("0" + "." + "0") && Num("0" + "." + "0") == 0
  {
    NoPoint("000");
    NatValZeros("000");
    NatValZeros("");
    SplitPoint("0", "0");
    NatValZeros("0");
    ZeroPartsValue("000");
    ZeroPartsValue("0" + "." + "0");
  }

  /** A copy of a parsed zero reads the first three characters of its own buffer. */
  lemma {:induction false} CopyOfZero(t: Text)
    requires Num(t) == 0
    ensures Parse(t).Ok? && Parse(t).value.Copy().Padded()
    ensures IsNumeral(Parse(t).value.Copy().Text()) && Num(Parse(t).value.Copy().Text()) == 0
  {
    ScanText(t);
    ZeroParts(t);
    KeepOneValue(IntPart(t));
    NatValZeroIff(FracPart(t));
    ZeroChars(Scanned(t));
    ZeroSpellings();
  }

  /** The decimals of the book are copies of parsed ones. */
  function BookText(s: string): Option<Text> {
    match Parse(s)
    case Err(_) => None
    case Ok(d) => ParseShape(s); Some(d.Copy().Text())
  }

  /** A copy keeps the value and the padding of every token that does not wrap. */
  lemma {:induction false} BookTextValue(t: Text)
    requires !Wraps(t)
    ensures BookText(t).Some? && Num(BookText(t).value) == Num(t)
    ensures Parse(t).Ok? && Parse(t).value.Copy().Padded()
  {
    ParseValue(t);
    if Num(t) == 0 {
      CopyOfZero(t);
    }
  }

  /** Two tokens of equal value, however they are spelled, give decimals of one value, and read
      alike until they are copied. */
  lemma {:induction false} SpellingIndependent(s: Text, t: Text)
    requires Num(s) == Num(t) && !Wraps(s) && !Wraps(t)
    ensures BookText(s).Some? && BookText(t).Some?
    ensures Num(BookText(s).value) == Num(BookText(t).value)
    ensures Parse(s).Ok? && Parse(t).Ok? && Parse(s).value.Text() == Parse(t).value.Text()
  {
    BookTextValue(s);
    BookTextValue(t);
    FreshText(s);
    FreshText(t);
    CanonicalUnique(s, t);
  }

  lemma {:induction false} FreshText(t: Text)
    requires !Wraps(t)
    ensures Parse(t).Ok?
    ensures Parse(t).value.Text() == if Num(t) == 0 then ZeroText() else Canonical(t)
  {
    ParseValue(t);
    if Num(t) == 0 {
      ZeroParts(t);
    }
  }

  /** Freshly parsed decimals have the same value exactly when their views are the same string. */
  lemma {:induction false} FreshEquality(s: Text, t: Text)
    requires !Wraps(s) && !Wraps(t)
    ensures Parse(s).Ok? && Parse(t).Ok?
    ensures Num(s) == Num(t) <==> Parse(s).value.Text() == Parse(t).value.Text()
  {
    ParseValue(s);
    ParseValue(t);
    if Num(s) == Num(t) {
      SpellingIndependent(s, t);
    }
  }
}
