/** What parsing a token leaves in the buffer of a decimal, as a function of the token. */
module Parser {
  import opened Digits
  import opened View

  datatype Option<+T> = None | Some(value: T)

  datatype ParseError = TooLong | InvalidState

  datatype Result<+T> = Ok(value: T) | Err(error: ParseError)

  datatype ScanState = BeforeDigit | BeforePoint | AfterPoint | AfterValue

  /** Integers are accumulated in 64 unsigned bits. */
  const U64: nat := 0x1_0000_0000_0000_0000

  /** The characters the scanner writes for the rest of a token, None when it throws. */
  function Scan(s: string, state: ScanState): (out: Option<string>)
    ensures out.Some? ==> |out.value| <= |s|
  {
    if s == "" then Some("") else
    match state
    case BeforeDigit =>
      if !IsDigit(s[0]) then Scan(s[1..], BeforeDigit)
      else if s[0] != '0' then Emit(s[0], Scan(s[1..], BeforePoint))
      else if |s| == 1 then Emit(s[0], Scan(s[1..], AfterValue))
      else if s[1] == '.' then Emit(s[0], Scan(s[1..], BeforePoint))
      else Scan(s[1..], BeforeDigit)
    case BeforePoint =>
      if IsDigit(s[0]) then Emit(s[0], Scan(s[1..], BeforePoint))
      else if s[0] == '.' then Emit(s[0], Scan(s[1..], AfterPoint))
      else None
    case AfterPoint =>
      if IsDigit(s[0]) then Emit(s[0], Scan(s[1..], AfterPoint)) else Scan(s[1..], AfterValue)
    case AfterValue =>
      Scan(s[1..], AfterValue)
  }

  function Emit(c: char, rest: Option<string>): Option<string> {
    match rest case None => None case Some(r) => Some([c] + r)
  }

  /** The zero test: both parts are 0 as 64-bit accumulators. */
  predicate LooksZero(s: string) {
    NatVal(IntPart(s)) % U64 == 0 && NatVal(FracPart(s)) % U64 == 0
  }

  function TrimTrailing(s: string): (t: string)
    ensures t <= s
    ensures forall i :: |t| <= i < |s| ==> s[i] == '0'
    ensures t != "" ==> t[|t| - 1] != '0'
  {
    if s != "" && s[|s| - 1] == '0' then TrimTrailing(s[..|s| - 1]) else s
  }

  /** Drops the trailing zeros of a fraction, and the point when no fraction remains. */
  function TrimFraction(s: string): string {
    if FindPoint(s) == |s| then s
    else
      var t := TrimTrailing(s);
      if t != "" && t[|t| - 1] == '.' then t[..|t| - 1] else t
  }

  /** The state of a decimal: its 48 characters, the length of its view, and whether the view
      is of the shared constant for zero rather than of the buffer. */
  datatype Dec = Dec(chars: string, len: nat, shared: bool) {

    predicate Sized() {
      |chars| == MAX_CHARS && len <= MAX_CHARS && (shared ==> len == 3)
    }

    function Text(): string
      requires Sized()
    {
      if shared then ZeroText() else chars[..len]
    }

    /** Copying rebases the view onto the new buffer, also when the original's view was shared. */
    function Copy(): Dec {
      this.(shared := false)
    }

    /** In its own buffer, with a numeral in view: what every parsed decimal is once it is copied. */
    predicate Owned() {
      Sized() && !shared && IsNumeral(chars[..len])
    }

    /** Everything behind the view is '0', but for one point directly behind a view without one. */
    predicate Padded() {
      && Owned()
      && forall i :: len <= i < MAX_CHARS ==>
           chars[i] == '0' || (i == len && chars[i] == '.' && FindPoint(chars[..len]) == len)
    }

    /** Printing p fraction digits in place reads nothing behind the buffer, or behind the shared constant. */
    predicate Fits(p: nat)
      requires Sized()
    {
      if shared then p <= 1 else FindPoint(Text()) + 1 + p <= MAX_CHARS
    }

    /** What the in-place printer writes: a point behind a view that has none. */
    function Dotted(): (d: Dec)
      requires Sized()
      ensures d.Sized() && d.len == len && d.shared == shared
    {
      if !shared && FindPoint(Text()) == len < MAX_CHARS then this.(chars := chars[len := '.']) else this
    }

    /** What it returns: the characters up to the p-th behind the point. */
    function Reads(p: nat): string
      requires Sized() && Fits(p)
    {
      if shared then ZeroText()[..2 + p] else Dotted().chars[..FindPoint(Text()) + 1 + p]
    }
  }

  function Parse(s: string): (r: Result<Dec>)
    ensures r.Ok? ==> r.value.Sized()
  {
    if |s| > MAX_CHARS then Err(TooLong)
    else match Scan(s, BeforeDigit)
      case None => Err(InvalidState)
      case Some(out) =>
        var chars := out + Zeros(MAX_CHARS - |out|);
        if LooksZero(out) then Ok(Dec(chars, 3, true)) else Ok(Dec(chars, |TrimFraction(out)|, false))
  }

  // ---- What the scanner writes ----

  predicate ScannedShape(out: string, state: ScanState) {
    match state
    case BeforeDigit => out == "" || IsNumeral(out)
    case BeforePoint => AllDigits(IntPart(out)) && AllDigits(FracPart(out))
    case AfterPoint => AllDigits(out)
    case AfterValue => out == ""
  }

  lemma {:induction false} ScanShape(s: string, state: ScanState)
    requires Scan(s, state).Some?
    ensures ScannedShape(Scan(s, state).value, state)
  {
    if s != "" {
      var next := if state.BeforeDigit? then
                    if IsDigit(s[0]) && (s[0] != '0' || (|s| > 1 && s[1] == '.')) then BeforePoint
                    else if IsDigit(s[0]) && |s| == 1 then AfterValue else BeforeDigit
                  else if state.BeforePoint? then if s[0] == '.' then AfterPoint else BeforePoint
                  else if state.AfterPoint? && IsDigit(s[0]) then AfterPoint
                  else AfterValue;
      ScanShape(s[1..], next);
      var rest := Scan(s[1..], next).value;
      if Scan(s, state).value == [s[0]] + rest {
        PrependShape(s[0], rest, next);
      }
    }
  }

  lemma {:induction false} PrependShape(c: char, rest: string, state: ScanState)
    requires ScannedShape(rest, state)
    ensures state.BeforePoint? && IsDigit(c) ==> IsNumeral([c] + rest)
    ensures state.AfterPoint? && c == '.' ==> ScannedShape([c] + rest, BeforePoint)
    ensures state.AfterValue? && IsDigit(c) ==> IsNumeral([c] + rest)
  {
    if state.BeforePoint? && IsDigit(c) {
      var s := [c] + rest;
      assert s[1..] == rest;
      assert FindPoint(s) == 1 + FindPoint(rest);
      assert IntPart(s) == [c] + IntPart(rest);
      assert FracPart(s) == FracPart(rest);
    } else if state.AfterPoint? && c == '.' {
      SplitPoint("", rest);
      assert "" + "." + rest == [c] + rest;
    } else if state.AfterValue? && IsDigit(c) {
      assert [c] + rest == [c];
      NoPoint([c]);
    }
  }

  /** A prefix of a numeral, extended with zeros, is a numeral. */
  lemma {:induction false} PrefixNumeral(out: string, pad: string, k: nat)
    requires out == "" || IsNumeral(out)
    requires forall i :: 0 <= i < |pad| ==> pad[i] == '0'
    requires 1 <= k <= |out + pad|
    ensures IsNumeral((out + pad)[..k])
  {
    var p := (out + pad)[..k];
    var d := FindPoint(out);
    JoinParts(out);
    if d < |out| && d < k {
      assert p == out[..d] + "." + p[d + 1..];
      SplitPoint(out[..d], p[d + 1..]);
    } else {
      assert forall i :: 0 <= i < k ==> IsDigit(p[i]);
      NoPoint(p);
    }
  }

  // ---- Plain numerals ----

  /** Leading zeros dropped, but one digit kept. */
  function KeepOne(a: string): string {
    if StripLeading(a) == "" then "0" else StripLeading(a)
  }

  lemma {:induction false} ScanDigits(a: string, rest: string)
    requires AllDigits(a)
    requires rest == "" || (rest[0] == '.' && AllDigits(rest[1..]))
    ensures Scan(a + rest, BeforePoint) == Some(a + rest)
  {
    var s := a + rest;
    if a != "" {
      ScanDigits(a[1..], rest);
      assert s[0] == a[0] && IsDigit(a[0]);
      assert s[1..] == a[1..] + rest;
      assert s == [s[0]] + s[1..];
    } else if rest != "" {
      assert s == rest;
      ScanFraction(s[1..]);
      assert s == [s[0]] + s[1..];
      assert !IsDigit(s[0]);
    } else {
      assert s == "";
    }
  }

  lemma {:induction false} ScanFraction(f: string)
    requires AllDigits(f)
    ensures Scan(f, AfterPoint) == Some(f)
  {
    if f != "" {
      ScanFraction(f[1..]);
      assert f == [f[0]] + f[1..];
    }
  }

  /** The scanner never throws on a plain numeral; it drops the leading zeros and keeps the rest. */
  lemma {:induction false} ScanNumeral(a: string, rest: string)
    requires a != "" && AllDigits(a)
    requires rest == "" || (rest[0] == '.' && AllDigits(rest[1..]))
    ensures Scan(a + rest, BeforeDigit) == Some(KeepOne(a) + rest)
  {
    var s := a + rest;
    assert s[0] == a[0] && s[1..] == a[1..] + rest && IsDigit(a[0]);
    if a[0] != '0' || (|a| == 1 && rest != "") {
      ScanDigits(a[1..], rest);
      assert a == [a[0]] + a[1..];
      assert a + rest == [a[0]] + (a[1..] + rest);
      if a[0] == '0' {
        assert a[1..] == "" && a == "0";
        assert StripLeading(a[1..]) == "";
        assert KeepOne(a) + rest == a + rest;
      }
    } else if |a| > 1 {
      ScanNumeral(a[1..], rest);
      assert s[1] == a[1];
    } else {
      assert s == a && a == "0" && s[1..] == "" && a[1..] == "";
      assert StripLeading(a[1..]) == "";
      assert KeepOne(a) + rest == "0";
    }
  }

  lemma {:induction false} KeepOneValue(a: string)
    requires a != "" && AllDigits(a)
    ensures KeepOne(a) != "" && AllDigits(KeepOne(a)) && |KeepOne(a)| <= |a|
    ensures NatVal(KeepOne(a)) == NatVal(a)
    ensures NatVal(a) >= 0 && KeepOne(a) == if NatVal(a) == 0 then "0" else Numeral(NatVal(a))
  {
    StripIsNumeral(a);
    NumeralEmpty(NatVal(a));
    StripValue(a);
    assert NatVal("0") == 0;
  }

  lemma {:induction false} StripValue(a: string)
    requires AllDigits(a)
    ensures NatVal(StripLeading(a)) == NatVal(a) && AllDigits(StripLeading(a)) && |StripLeading(a)| <= |a|
  {
    if a != "" && a[0] == '0' {
      StripValue(a[1..]);
      assert a == "0" + a[1..];
      NatValConcat("0", a[1..]);
      NatValZeros("0");
      ScaleUpZero(|a| - 1);
    }
  }

  lemma {:induction false} TrimValue(f: string, n: nat)
    requires AllDigits(f) && |f| <= n
    ensures Fit(TrimTrailing(f), n) == Fit(f, n)
  {
    var t := TrimTrailing(f);
    var cut, pad := f[|t|..], Zeros(n - |f|);
    assert f == t + cut;
    assert Zeros(n - |t|) == cut + pad;
    assert t + (cut + pad) == f + pad;
  }

  /** The one spelling of a value: no leading zeros but a lone "0", no trailing fraction zeros, and a
      point only before a fraction. */
  function Canonical(t: Text): string {
    Join(KeepOne(IntPart(t)), TrimTrailing(FracPart(t)))
  }

  function Join(a: string, f: string): string {
    if f == "" then a else a + "." + f
  }

  lemma {:induction false} JoinIsNumeral(a: string, f: string)
    requires a != "" && AllDigits(a) && AllDigits(f)
    ensures IntPart(Join(a, f)) == a && FracPart(Join(a, f)) == f && IsNumeral(Join(a, f))
  {
    if f == "" {
      NoPoint(a);
    } else {
      SplitPoint(a, f);
    }
  }

  lemma {:induction false} CanonicalParts(t: Text)
    ensures IsNumeral(Canonical(t)) && |Canonical(t)| <= |t|
    ensures IntPart(Canonical(t)) == KeepOne(IntPart(t))
    ensures FracPart(Canonical(t)) == TrimTrailing(FracPart(t))
  {
    KeepOneValue(IntPart(t));
    JoinIsNumeral(KeepOne(IntPart(t)), TrimTrailing(FracPart(t)));
    JoinParts(t);
  }

  lemma {:induction false} CanonicalValue(t: Text)
    ensures IsNumeral(Canonical(t)) && |Canonical(t)| <= MAX_CHARS
    ensures Num(Canonical(t)) == Num(t)
  {
    CanonicalParts(t);
    KeepOneValue(IntPart(t));
    TrimValue(FracPart(t), MAX_CHARS);
    NumByDigits(t);
    NumByDigits(Canonical(t));
    NatValConcat(IntPart(t), Fit(FracPart(t), MAX_CHARS));
    NatValConcat(KeepOne(IntPart(t)), Fit(FracPart(t), MAX_CHARS));
  }

  /** Equal values have one canonical spelling. */
  lemma {:induction false} CanonicalUnique(s: Text, t: Text)
    requires Num(s) == Num(t)
    ensures Canonical(s) == Canonical(t)
  {
    NumByDigits(s);
    NumByDigits(t);
    KeepOneValue(IntPart(s));
    KeepOneValue(IntPart(t));
    SameFraction(FracPart(s), FracPart(t));
    TrimExtends(FracPart(s), MAX_CHARS);
    TrimExtends(FracPart(t), MAX_CHARS);
  }

  lemma {:induction false} TrimExtends(f: string, n: nat)
    requires |f| <= n
    ensures TrimTrailing(Fit(f, n)) == TrimTrailing(f)
    decreases n - |f|
  {
    if |f| == n {
      assert Fit(f, n) == f;
    } else {
      TrimExtends(f, n - 1);
      assert Fit(f, n)[..n - 1] == Fit(f, n - 1);
    }
  }

  lemma {:induction false} TrimPoint(a: string, f: string)
    requires AllDigits(a) && AllDigits(f)
    ensures TrimFraction(a + "." + f) == if TrimTrailing(f) == "" then a else a + "." + TrimTrailing(f)
  {
    SplitPoint(a, f);
    TrimAfter(a + ".", f);
    if TrimTrailing(f) == "" {
      assert TrimTrailing(a + ".") == a + ".";
      assert (a + ".")[..|a|] == a;
    }
  }

  lemma {:induction false} TrimAfter(a: string, f: string)
    ensures TrimTrailing(a + f) == if TrimTrailing(f) == "" then TrimTrailing(a) else a + TrimTrailing(f)
  {
    if f == "" {
      assert a + f == a;
    } else if f[|f| - 1] == '0' {
      TrimAfter(a, f[..|f| - 1]);
      assert (a + f)[..|a + f| - 1] == a + f[..|f| - 1];
    }
  }
}
