/** Which tokens get a padded buffer, and what is printed from the others. */
module BufferLaws {
  import opened Digits
  import opened View
  import opened Parser
  import opened ParserLaws
  import opened Printer
  import opened WrapLaws
  import opened Buffers

  /** The characters of a token's number. */
  function ScannedToken(s: string): (out: string)
    requires Parse(s).Ok?
    ensures out == "" || IsNumeral(out)
    ensures |out| <= MAX_CHARS
  {
    ScanShape(s, BeforeDigit);
    Scan(s, BeforeDigit).value
  }

  /** A token whose number is not 0 although both its parts vanish in 64 bits. */
  predicate TokenWraps(s: string)
    requires Parse(s).Ok?
  {
    ScannedToken(s) != "" && Wraps(ScannedToken(s))
  }

  lemma {:induction false} SameParts(v: Text, w: Text)
    requires NatVal(IntPart(v)) == NatVal(IntPart(w)) && FracPart(v) == FracPart(w)
    ensures Num(v) == Num(w) && (Wraps(v) <==> Wraps(w))
  {
  }

  /** A plain numeral is such a token when its own parts vanish. */
  lemma {:induction false} NumeralTokenWraps(t: Text)
    ensures Parse(t).Ok? && (TokenWraps(t) <==> Wraps(t))
  {
    ScanText(t);
    KeepOneValue(IntPart(t));
    SameParts(t, Scanned(t));
  }

  /** A number starts with a non-zero digit, but for a lone zero before the point. */
  lemma {:induction false} ScanStart(s: string)
    requires Scan(s, BeforeDigit).Some?
    ensures var out := Scan(s, BeforeDigit).value; out == "" || out[0] != '0' || IntPart(out) == "0"
  {
    if s != "" {
      var out := Scan(s, BeforeDigit).value;
      if !IsDigit(s[0]) || (s[0] == '0' && |s| > 1 && s[1] != '.') {
        ScanStart(s[1..]);
      } else if s[0] == '0' && |s| > 1 {
        assert s[1..][0] == '.';
        var rest := Scan(s[1..][1..], AfterPoint).value;
        assert out == "0" + ("." + rest);
        assert out == "0" + "." + rest;
        SplitPoint("0", rest);
      } else if s[0] == '0' {
        assert s[1..] == "" && out == "0";
        NoPoint("0");
      }
    }
  }

  lemma {:induction false} StartDecides(out: Text)
    requires out[0] != '0' || IntPart(out) == "0"
    ensures NatVal(IntPart(out)) == 0 <==> IntPart(out) == "0"
  {
    NatValZeroIff(IntPart(out));
    assert IntPart(out)[0] == out[0];
  }

  /** Every token that does not wrap is padded, once copied if it is a zero. */
  lemma {:induction false} PaddedUnlessWrapped(s: string)
    requires Parse(s).Ok? && !TokenWraps(s)
    ensures Parse(s).value.shared || Parse(s).value.Padded()
    ensures Parse(s).value.Copy().Padded()
  {
    var out := ScannedToken(s);
    ScanStart(s);
    ViewIsNumeral(out);
    if !LooksZero(out) {
      TrimIsPrefix(out);
      TrimTail(out);
      assert (out + Zeros(MAX_CHARS - |out|))[..|TrimFraction(out)|] == TrimFraction(out);
      ParsedFrom(s, out);
    } else {
      ZeroSpellings();
      if out == "" {
        NoPoint("0");
        ZeroChars("0");
        assert "" + Zeros(MAX_CHARS) == "0" + Zeros(MAX_CHARS - 1);
      } else {
        ZeroParts(out);
        StartDecides(out);
        NatValZeroIff(FracPart(out));
        ZeroChars(out);
      }
    }
  }

  /** How many characters the copy of a token shows before its point: those of its integer part without
      leading zeros, or the three of a zero that is written without a point. */
  function Width(t: Text): nat {
    if Num(t) == 0 && FindPoint(t) == |t| then 3 else |KeepOne(IntPart(t))|
  }

  lemma {:induction false} CopyOfZeroWidth(t: Text)
    requires Num(t) == 0
    ensures BookDecimal(t).Some? && FindPoint(TextOf(BookDecimal(t).value)) <= Width(t)
  {
    ScanText(t);
    ZeroParts(t);
    KeepOneValue(IntPart(t));
    var chars := Scanned(t) + Zeros(MAX_CHARS - |Scanned(t)|);
    assert BookDecimal(t) == Some(Dec(chars, 3, false));
    if FindPoint(t) < |t| {
      assert chars[..3][1] == '.';
    }
  }

  /** A token that does not wrap keeps its value, and its copy is padded and prints inside the buffer as far as
      its width allows. */
  lemma {:induction false} TokenIsSound(t: Text, p: nat)
    requires !Wraps(t) && Width(t) + 1 + p <= MAX_CHARS
    ensures BookDecimal(t).Some?
    ensures var d := BookDecimal(t).value;
            d.Padded() && d.Fits(p) && FindPoint(TextOf(d)) <= Width(t) && Num(TextOf(d)) == Num(t)
  {
    BookTextValue(t);
    if Num(t) == 0 {
      CopyOfZeroWidth(t);
    } else {
      NonZeroPadded(t);
      CanonicalParts(t);
    }
  }

  // ---- What a wrapped token prints ----

  lemma {:induction false} NumeralInjective(m: nat, n: nat)
    requires Numeral(m) == Numeral(n)
    ensures m == n
  {
    PowerAbove(m);
    PowerAbove(n);
    NumeralValue(m, m);
    NumeralValue(n, n);
  }

  lemma {:induction false} PowerAbove(n: nat)
    ensures n < Pow10(n)
  {
    if n > 0 {
      PowerAbove(n - 1);
    }
  }

  lemma {:induction false} DigitsOfLength(s: string)
    ensures |DigitsOf(s)| <= |s|
    ensures |DigitsOf(s)| == |s| ==> DigitsOf(s) == s
  {
    if s != "" {
      var init, c := s[..|s| - 1], s[|s| - 1];
      DigitsOfLength(init);
      assert s == init + [c];
      assert DigitsOf(s) == if IsDigit(c) then DigitsOf(init) + [c] else DigitsOf(init);
    }
  }

  lemma {:induction false} DigitsOfConcat(s: string, t: string)
    ensures DigitsOf(s + t) == DigitsOf(s) + DigitsOf(t)
  {
    if t == "" {
      assert s + t == s;
    } else {
      DigitsOfConcat(s, t[..|t| - 1]);
      assert (s + t)[..|s + t| - 1] == s + t[..|t| - 1];
    }
  }

  lemma {:induction false} DigitsOfAll(f: string)
    requires AllDigits(f)
    ensures DigitsOf(f) == f
  {
    DigitsOfDigits("", f);
    assert "" + f == f;
  }

  lemma {:induction false} DigitsOfSplit(a: string, f: string)
    requires AllDigits(a)
    ensures DigitsOf(a + "." + f) == a + DigitsOf(f)
  {
    DigitsOfConcat(a + ".", f);
    DigitsOfAll(a);
    assert (a + ".")[..|a|] == a;
  }

  /** The copy of a token whose parts vanish views the first three characters. */
  function FrontOf(out: string): (d: Dec)
    requires |out| <= MAX_CHARS
    ensures d.Sized()
  {
    Dec(out + Zeros(MAX_CHARS - |out|), 3, false)
  }

  lemma {:induction false} CopyIsFront(s: string)
    requires Parse(s).Ok? && TokenWraps(s)
    ensures BookDecimal(s) == Some(FrontOf(ScannedToken(s)))
  {
    var out := ScannedToken(s);
    assert Parse(s) == Ok(Dec(out + Zeros(MAX_CHARS - |out|), 3, true));
  }

  /** A fraction that vanishes in 64 bits has more digits than the one in view. */
  lemma {:induction false} WrappedFraction(out: Text)
    requires Wraps(out) && IntPart(out) == "0"
    ensures var d, p := FrontOf(out), MAX_CHARS - 2;
            && d.Owned() && FindPoint(TextOf(d)) == 1 && d.Fits(p)
            && Fed(d, p) != StripLeading(DigitsOf(Str(TextOf(d), p)))
  {
    var d, p, f := FrontOf(out), MAX_CHARS - 2, FracPart(out);
    NatValZeros("0");
    NonZeroFraction(out);
    LongerThanNineteen(f);
    JoinParts(out);
    assert out == "0" + "." + f;
    FrontOfZero(f);
    StrParts(TextOf(d), p);
    DigitsBehindZero(Fit(f, p));
    DigitsBehindZero(Fit(f[..1], p));
    FractionNumerals(f, p);
  }

  lemma {:induction false} FrontOfZero(f: string)
    requires AllDigits(f) && 1 <= |f| <= MAX_CHARS - 2
    ensures var d, p := FrontOf("0" + "." + f), MAX_CHARS - 2;
            && d.Owned() && TextOf(d) == "0" + "." + f[..1]
            && IntPart(TextOf(d)) == "0" && FracPart(TextOf(d)) == f[..1] && FindPoint(TextOf(d)) == 1
            && d.Fits(p) && d.Reads(p) == "0" + "." + Fit(f, p)
  {
    var d := FrontOf("0" + "." + f);
    SplitPoint("0", f[..1]);
    assert d.chars[..3] == "0" + "." + f[..1];
    assert d.chars == "0" + "." + Fit(f, MAX_CHARS - 2);
  }

  lemma {:induction false} DigitsBehindZero(f: string)
    requires AllDigits(f)
    ensures DigitsOf("0" + "." + f) == "0" + f
  {
    DigitsOfSplit("0", f);
    DigitsOfAll(f);
  }

  lemma {:induction false} FractionNumerals(f: string, p: nat)
    requires AllDigits(f) && 1 < |f| <= 46 && |f| <= p && NatVal(f) % U64 == 0 && NatVal(f) != 0
    ensures StripLeading("0" + Fit(f, p)) != StripLeading("0" + Fit(f[..1], p))
  {
    FirstDigitIsNotAll(f, p);
    StripIsNumeral("0" + Fit(f, p));
    StripIsNumeral("0" + Fit(f[..1], p));
    NatValConcat("0", Fit(f, p));
    NatValConcat("0", Fit(f[..1], p));
    if StripLeading("0" + Fit(f, p)) == StripLeading("0" + Fit(f[..1], p)) {
      NumeralInjective(NatVal("0" + Fit(f, p)), NatVal("0" + Fit(f[..1], p)));
    }
  }

  /** An integer part that vanishes in 64 bits has more non-zero digits than the three in view. */
  lemma {:induction false} WrappedInteger(out: Text)
    requires Wraps(out) && out[0] != '0'
    ensures var d, p := FrontOf(out), MAX_CHARS - 4;
            && d.Owned() && FindPoint(TextOf(d)) == 3 && d.Fits(p)
            && Fed(d, p) != StripLeading(DigitsOf(Str(TextOf(d), p)))
  {
    var d, p, a := FrontOf(out), MAX_CHARS - 4, IntPart(out);
    NatValZeroIff(a);
    assert a[0] == out[0];
    LongerThanNineteen(a);
    var head, tail := a[..3], d.chars[4..];
    assert d.chars[..3] == head;
    NoPoint(head);
    assert d.Reads(p) == head + "." + tail;
    NothingBehindFour(out);
    var i :| 4 <= i < |out| && out[i] != '0';
    assert tail[i - 4] == out[i];
    if Fed(d, p) == StripLeading(DigitsOf(Str(head, p))) {
      DigitsBehindHead(head, tail);
    }
  }

  lemma {:induction false} DigitsBehindHead(head: string, tail: string)
    requires head != "" && AllDigits(head) && head[0] != '0' && |head + tail| < MAX_CHARS
    requires StripLeading(DigitsOf(head + "." + tail)) == StripLeading(DigitsOf(Str(head, |tail|)))
    ensures forall i :: 0 <= i < |tail| ==> tail[i] == '0'
  {
    var zeros := Zeros(|tail|);
    NoPoint(head);
    DigitsOfSplit(head, tail);
    DigitsOfSplit(head, zeros);
    DigitsOfAll(zeros);
    assert head + DigitsOf(tail) == head + zeros;
    assert DigitsOf(tail) == (head + DigitsOf(tail))[|head|..] == zeros;
    DigitsOfLength(tail);
  }

  lemma {:induction false} NothingBehindFour(out: Text)
    requires Wraps(out) && |IntPart(out)| > 19 && NatVal(IntPart(out)) != 0
    ensures exists i :: 4 <= i < |out| && out[i] != '0'
  {
    var a := IntPart(out);
    var rest := a[4..];
    if forall i :: 0 <= i < |rest| ==> rest[i] == '0' {
      assert a == a[..4] + rest;
      NatValConcat(a[..4], rest);
      NatValZeros(rest);
      NatValBounds(a[..4]);
      assert Pow10(4) == 10000;
      ScaleUpZero(|rest|);
      FewDigitsNeverWrap(NatVal(a[..4]), |rest|);
    } else {
      var i :| 0 <= i < |rest| && rest[i] != '0';
      assert out[i + 4] == rest[i];
    }
  }

  /** Some print of a wrapped token that fits the buffer is not that of its view, nor are its digits. */
  lemma {:induction false} WrappedPrintsOther(s: string) returns (p: nat)
    requires Parse(s).Ok? && TokenWraps(s)
    ensures var d := BookDecimal(s).value;
            && d.Fits(p) && d.Reads(p) != Str(TextOf(d), p)
            && Fed(d, p) != Numeral(FloorAt(Num(TextOf(d)), p))
  {
    var out, d := ScannedToken(s), BookDecimal(s).value;
    ScanStart(s);
    CopyIsFront(s);
    if out[0] != '0' {
      WrappedInteger(out);
      p := MAX_CHARS - 4;
    } else {
      WrappedFraction(out);
      p := MAX_CHARS - 2;
    }
    DigitStream(TextOf(d), p);
  }

  /** In-place printing and the digit stream are those of the value in view, at every precision that fits,
      exactly for the tokens that do not wrap; and exactly those leave the buffer padded. */
  lemma {:induction false} InPlaceExactIff(s: string)
    requires Parse(s).Ok?
    ensures var d := BookDecimal(s).value;
            && (d.Padded() <==> !TokenWraps(s))
            && ((forall p: nat :: d.Fits(p) ==> d.Reads(p) == Str(TextOf(d), p)) <==> !TokenWraps(s))
            && ((forall p: nat :: d.Fits(p) ==> Fed(d, p) == Numeral(FloorAt(Num(TextOf(d)), p))) <==> !TokenWraps(s))
  {
    var d := BookDecimal(s).value;
    if TokenWraps(s) {
      var p := WrappedPrintsOther(s);
      if d.Padded() {
        PaddedReads(d, p);
      }
    } else {
      PaddedUnlessWrapped(s);
      forall p: nat | d.Fits(p)
        ensures d.Reads(p) == Str(TextOf(d), p) && Fed(d, p) == Numeral(FloorAt(Num(TextOf(d)), p))
      {
        PaddedReads(d, p);
        PaddedFeeds(d, p);
      }
    }
  }

  // ---- One such token ----

  const TENTH := "0" + "." + "1"

  lemma {:induction false} TenthIsCanonical()
    ensures IsNumeral(TENTH) && IntPart(TENTH) == "0" && FracPart(TENTH) == "1" && FindPoint(TENTH) == 1
    ensures Canonical(TENTH) == TENTH
  {
    SplitPoint("0", "1");
    KeepOneValue("0");
    NatValZeros("0");
    assert TrimTrailing("1") == "1";
  }

  lemma {:induction false} TenthLooksNonZero()
    ensures IsNumeral(TENTH) && !LooksZero(TENTH)
  {
    SplitPoint("0", "1");
    NatValNext("", '1');
    assert "" + ['1'] == "1" && NatVal("") == 0;
  }

  lemma {:induction false} CopyOfTenth()
    ensures BookDecimal(TENTH).Some? && TextOf(BookDecimal(TENTH).value) == TENTH
    ensures BookDecimal(TENTH).value.Padded()
  {
    TenthIsCanonical();
    TenthLooksNonZero();
    NonZeroPadded(TENTH);
  }

  lemma {:induction false} TenthAtEight()
    ensures IsNumeral(TENTH) && Str(TENTH, 8) == "0.10000000"
    ensures StripLeading(DigitsOf("0.10000000")) == "10000000"
    ensures StripLeading(DigitsOf("0.18446744")) == "18446744"
  {
    SplitPoint("0", "1");
    StrParts(TENTH, 8);
    assert "0.10000000" == "0" + "." + Fit("1", 8);
    LeadingZero("10000000");
    LeadingZero("18446744");
    assert "0.18446744" == "0" + "." + "18446744";
  }

  lemma {:induction false} LeadingZero(f: string)
    requires AllDigits(f) && f != "" && f[0] != '0'
    ensures StripLeading(DigitsOf("0" + "." + f)) == f
  {
    DigitsBehindZero(f);
    StripZero(f);
  }

  lemma {:induction false} StripZero(f: string)
    requires f != "" && f[0] != '0'
    ensures StripLeading("0" + f) == f
  {
    assert ("0" + f)[1..] == f;
  }

  lemma {:induction false} CopyOfWrappedToken()
    ensures BookDecimal(WRAPPED) == Some(FrontOf(WRAPPED))
    ensures TextOf(BookDecimal(WRAPPED).value) == TENTH
  {
    SomeFractionWraps();
    ScanText(WRAPPED);
    assert FrontOf(WRAPPED).chars[..3] == TENTH;
  }

  lemma {:induction false} WrappedReadsEight()
    ensures FrontOf(WRAPPED).Fits(8) && FrontOf(WRAPPED).Reads(8) == "0.18446744"
  {
    var d := FrontOf(WRAPPED);
    assert d.chars[..3] == TENTH;
    SplitPoint("0", "1");
    assert d.chars[..10] == "0.18446744";
  }

  lemma {:induction false} TenthReadsEight()
    ensures BookDecimal(TENTH).Some? && BookDecimal(TENTH).value.Fits(8)
    ensures BookDecimal(TENTH).value.Reads(8) == Str(TENTH, 8) == "0.10000000"
  {
    CopyOfTenth();
    TenthAtEight();
    SplitPoint("0", "1");
    PaddedReads(BookDecimal(TENTH).value, 8);
  }

  lemma {:induction false} WrappedIsNotPadded()
    ensures !FrontOf(WRAPPED).Padded()
  {
    assert FrontOf(WRAPPED).chars[3] == '8';
  }

  /** Once copied, 0.18446744073709551616 has the value of 0.1 and prints as it does, but the checksum is
      fed other digits. */
  lemma {:induction false} WrappedFeedsOther()
    ensures BookDecimal(WRAPPED).Some? && BookDecimal(TENTH).Some?
    ensures var d, tenth := BookDecimal(WRAPPED).value, BookDecimal(TENTH).value;
            && TextOf(d) == TextOf(tenth) == TENTH && d.Fits(8) && tenth.Fits(8)
            && tenth.Reads(8) == Str(TENTH, 8) == "0.10000000" && d.Reads(8) == "0.18446744"
            && Fed(tenth, 8) == "10000000" && Fed(d, 8) == "18446744"
            && !d.Padded() && tenth.Padded()
  {
    CopyOfWrappedToken();
    WrappedReadsEight();
    WrappedIsNotPadded();
    CopyOfTenth();
    TenthReadsEight();
    TenthAtEight();
  }
}
