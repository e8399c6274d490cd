/** The in-place decimal: a 48-character buffer with a view of its first characters, or of the
    shared constant for zero. */
module Decimals {
  import opened Digits
  import opened View
  import opened Parser
  import opened ParserLaws
  import opened Printer
  import opened Order
  import opened Buffers
  import Crc32

  class Decimal {
    const chars: array<char>
    var len: nat
    var shared: bool

    ghost predicate Valid()
      reads this, chars
    {
      chars.Length == MAX_CHARS && State().Sized()
    }

    function State(): Dec
      reads this, chars
    {
      Dec(chars[..], len, shared)
    }

    /** The characters in view. */
    function Text(): (s: string)
      requires Valid()
      reads this, chars
      ensures s == State().Text()
    {
      if shared then ZeroText() else chars[..len]
    }

    /** The default value views the shared zero; its buffer is not initialised. */
    constructor ()
      ensures Valid() && fresh(chars) && Text() == ZeroText()
    {
      chars := new char[MAX_CHARS];
      len := 3;
      shared := true;
    }

    constructor Copy(rhs: Decimal)
      requires rhs.Valid()
      ensures Valid() && fresh(chars) && State() == rhs.State().Copy()
    {
      chars := new char[MAX_CHARS](i requires 0 <= i < MAX_CHARS reads rhs, rhs.chars
                                     requires rhs.Valid() => rhs.chars[i]);
      len := rhs.len;
      shared := false;
    }

    /** A decimal in a given state, such as the copy that a map of levels holds. */
    constructor Of(state: Dec)
      requires state.Sized()
      ensures Valid() && fresh(chars) && State() == state
    {
      chars := new char[MAX_CHARS](i requires 0 <= i < MAX_CHARS && state.Sized() => state.chars[i]);
      len := state.len;
      shared := state.shared;
    }

    method Assign(rhs: Decimal)
      requires Valid() && rhs.Valid()
      modifies this, chars
      ensures Valid() && State() == old(rhs.State()).Copy()
    {
      forall i | 0 <= i < MAX_CHARS {
        chars[i] := rhs.chars[i];
      }
      len := rhs.len;
      shared := false;
    }

    /** Parses a token into a new decimal. */
    static method FromToken(token: string) returns (r: Result<Decimal>)
      ensures r.Ok? <==> Parse(token).Ok?
      ensures r.Err? ==> r.error == Parse(token).error
      ensures r.Ok? ==> fresh(r.value) && fresh(r.value.chars) && r.value.Valid()
                        && r.value.State() == Parse(token).value
    {
      if |token| > MAX_CHARS {
        return Err(TooLong);
      }
      var d := new Decimal();
      forall i | 0 <= i < MAX_CHARS {
        d.chars[i] := '0';
      }
      var written, ok := d.ScanToken(token);
      if !ok {
        return Err(InvalidState);
      }
      ghost var out := Scan(token, BeforeDigit).value;
      assert d.chars[..] == out + Zeros(MAX_CHARS - |out|);
      d.len := written;
      d.shared := false;
      ScanShape(token, BeforeDigit);
      d.Settle(out);
      return Ok(d);
    }

    /** The end of the constructor: a zero views the shared constant, anything else is trimmed. */
    method Settle(ghost out: string)
      requires Valid() && !shared && Text() == out && (out == "" || IsNumeral(out))
      modifies this`len, this`shared
      ensures Valid() && shared == LooksZero(out)
      ensures len == if LooksZero(out) then 3 else |TrimFraction(out)|
    {
      var zero := IsZero();
      if zero {
        len := 3;
        shared := true;
      } else {
        TrimIsPrefix(out);
        Trim();
      }
    }

    /** The scanning loop: writes the characters of the token's number to the front of the buffer. */
    method ScanToken(token: string) returns (written: nat, ok: bool)
      requires Valid() && |token| <= MAX_CHARS
      requires forall i :: 0 <= i < MAX_CHARS ==> chars[i] == '0'
      modifies chars
      ensures ok <==> Scan(token, BeforeDigit).Some?
      ensures ok ==> written <= |token| && chars[..written] == Scan(token, BeforeDigit).value
      ensures ok ==> forall i :: written <= i < MAX_CHARS ==> chars[i] == '0'
    {
      written, ok := 0, true;
      var state := BeforeDigit;
      var idx := 0;
      StartContinues(token);
      assert chars[..0] == "";
      while idx < |token|
        invariant written <= idx <= |token|
        invariant ContinuesTo(Scan(token, BeforeDigit), chars[..written], Scan(token[idx..], state))
        invariant forall i :: written <= i < MAX_CHARS ==> chars[i] == '0'
      {
        var ch := token[idx];
        ghost var rest := token[idx..];
        ghost var before := chars[..written];
        assert rest[0] == ch && rest[1..] == token[idx + 1..];
        var emit := false;
        var next := state;
        match state {
          case BeforeDigit =>
            if IsDigit(ch) {
              if ch == '0' {
                if |token| - idx > 1 {
                  if token[idx + 1] == '.' {
                    emit, next := true, BeforePoint;
                  }
                } else {
                  emit, next := true, AfterValue;
                }
              } else {
                emit, next := true, BeforePoint;
              }
            }
          case BeforePoint =>
            if IsDigit(ch) {
              emit := true;
            } else if ch == '.' {
              emit, next := true, AfterPoint;
            } else {
              ok := false;
              return;
            }
          case AfterPoint =>
            if IsDigit(ch) {
              emit := true;
            } else {
              next := AfterValue;
            }
          case AfterValue =>
        }
        assert Scan(rest, state) ==
               if emit then Emit(ch, Scan(rest[1..], next)) else Scan(rest[1..], next);
        if emit {
          chars[written] := ch;
          written := written + 1;
          assert chars[..written] == before + [ch];
          EmitContinues(Scan(token, BeforeDigit), before, ch, Scan(rest[1..], next));
        }
        state := next;
        idx := idx + 1;
      }
      assert token[idx..] == "";
    }

    /** Shortens the view past a fraction's trailing zeros, and past its point if nothing is left. */
    method Trim()
      requires Valid() && !shared && IsNumeral(Text())
      modifies this`len
      ensures Valid() && len <= old(len)
      ensures Text() == TrimFraction(old(Text()))
    {
      len := TrimmedLength(Text());
    }

    static method TrimmedLength(view: string) returns (n: nat)
      requires IsNumeral(view)
      ensures n <= |view| && view[..n] == TrimFraction(view)
    {
      var idx := FindPoint(view);
      n := |view|;
      assert view[..n] == view;
      if idx != |view| {
        var end := LastNonZero(view, idx);
        TrimPointLast(view, end + 1);
        if view[end] == '.' {
          end := end - 1;
        }
        n := end + 1;
      }
    }

    /** The trimming loop: back over zeros, at most to the point. */
    static method LastNonZero(view: string, idx: nat) returns (end: nat)
      requires idx < |view| && view[idx] == '.'
      ensures idx <= end < |view| && TrimTrailing(view) == view[..end + 1]
    {
      end := |view| - 1;
      assert view[..end + 1] == view;
      while view[end] == '0' && end >= idx
        invariant idx <= end < |view|
        invariant TrimTrailing(view) == TrimTrailing(view[..end + 1])
      {
        TrimNext(view, end);
        end := end - 1;
      }
      TrimNext(view, end);
    }

    static lemma {:induction false} TrimNext(view: string, end: nat)
      requires end < |view|
      ensures TrimTrailing(view[..end + 1]) == if view[end] == '0' then TrimTrailing(view[..end]) else view[..end + 1]
    {
      assert view[..end + 1][..end] == view[..end];
    }

    static lemma {:induction false} TrimPointLast(view: string, n: nat)
      requires FindPoint(view) < |view| && 0 < n <= |view| && TrimTrailing(view) == view[..n]
      ensures TrimFraction(view) == if view[n - 1] == '.' then view[..n - 1] else view[..n]
    {
      assert view[..n][..n - 1] == view[..n - 1];
    }

    /** The 64-bit accumulator of a digit string. */
    static method ToInt(view: string) returns (r: nat)
      ensures r == NatVal(view) % U64
    {
      r := 0;
      var i := 0;
      assert view[..0] == "";
      while i < |view|
        invariant 0 <= i <= |view|
        invariant r == NatVal(view[..i]) % U64
      {
        AccumulateDigit(NatVal(view[..i]), DigitValue(view[i]));
        assert view[..i + 1][..i] == view[..i];
        r := r * 10 % U64;
        r := (r + DigitValue(view[i])) % U64;
        i := i + 1;
      }
      assert view[..i] == view;
    }

    method IsZero() returns (zero: bool)
      requires Valid()
      ensures zero == LooksZero(Text())
    {
      var intView := IntPart(Text());
      assert NatVal("") == 0;
      if |intView| > 0 {
        var intValue := ToInt(intView);
        if intValue != 0 {
          return false;
        }
      }
      var fracView := FracPart(Text());
      if |fracView| > 0 {
        var fracValue := ToInt(fracView);
        if fracValue != 0 {
          return false;
        }
      }
      return true;
    }

    /** The three-way comparison: integer parts first, then the fractions digit by digit. */
    method CompareTo(rhs: Decimal) returns (r: Ordering)
      requires Valid() && IsNumeral(Text()) && rhs.Valid() && IsNumeral(rhs.Text())
      ensures r == Compare(Key(Text()), Key(rhs.Text()))
      ensures r == Less <==> Key(Text()) < Key(rhs.Text())
      ensures r == Greater <==> Key(Text()) > Key(rhs.Text())
    {
      r := CompareTexts(Text(), rhs.Text());
    }

    static method CompareTexts(v: Text, w: Text) returns (r: Ordering)
      ensures r == Compare(Key(v), Key(w))
    {
      var lhsInt := ToInt(IntPart(v));
      var rhsInt := ToInt(IntPart(w));
      if lhsInt < rhsInt {
        IntPartDecides(v, w);
        return Less;
      } else if lhsInt > rhsInt {
        IntPartDecides(w, v);
        return Greater;
      }
      var idx;
      idx, r := CompareFractions(FracPart(v), FracPart(w));
      if r == Less {
        FractionDecides(v, w, idx);
      } else if r == Greater {
        FractionDecides(w, v, idx);
      } else {
        EqualParts(v, w);
      }
    }

    /** The digit loop: where the zero-padded fractions first differ, and which way. */
    static method CompareFractions(lhs: string, rhs: string) returns (idx: nat, r: Ordering)
      requires AllDigits(lhs) && AllDigits(rhs) && |lhs| <= MAX_CHARS && |rhs| <= MAX_CHARS
      ensures r == Equal ==> Fit(lhs, MAX_CHARS) == Fit(rhs, MAX_CHARS)
      ensures r != Equal ==> idx < MAX_CHARS && Fit(lhs, MAX_CHARS)[..idx] == Fit(rhs, MAX_CHARS)[..idx]
      ensures r == Less ==> Fit(lhs, MAX_CHARS)[idx] < Fit(rhs, MAX_CHARS)[idx]
      ensures r == Greater ==> Fit(lhs, MAX_CHARS)[idx] > Fit(rhs, MAX_CHARS)[idx]
    {
      ghost var f, g := Fit(lhs, MAX_CHARS), Fit(rhs, MAX_CHARS);
      var size := if |lhs| > |rhs| then |lhs| else |rhs|;
      idx := 0;
      while idx < size
        invariant idx <= size <= MAX_CHARS
        invariant f[..idx] == g[..idx]
      {
        var lhsDigit := if idx < |lhs| then DigitValue(lhs[idx]) else 0;
        var rhsDigit := if idx < |rhs| then DigitValue(rhs[idx]) else 0;
        assert lhsDigit == DigitValue(f[idx]) && rhsDigit == DigitValue(g[idx]);
        if lhsDigit < rhsDigit {
          return idx, Less;
        } else if lhsDigit > rhsDigit {
          return idx, Greater;
        }
        assert f[..idx + 1] == f[..idx] + [f[idx]] && g[..idx + 1] == g[..idx] + [g[idx]];
        idx := idx + 1;
      }
      assert f == f[..size] + Zeros(MAX_CHARS - size) && g == g[..size] + Zeros(MAX_CHARS - size);
      return idx, Equal;
    }

    /** The in-place printer: the characters in the buffer up to the p-th behind the point, after writing
        that point where the view has none. From a padded buffer these are the characters of the allocating
        printer, and the padding is ready for the next call. */
    method StrView(p: nat) returns (r: string)
      requires Valid() && State().Fits(p)
      modifies chars
      ensures Valid() && State() == old(State()).Dotted() && Text() == old(Text())
      ensures r == old(State()).Reads(p)
      ensures old(State()).Padded() ==> State().Padded() && r == Str(Text(), p)
    {
      ghost var before := State();
      if before.Padded() {
        PaddedReads(before, p);
        DotNeverShows(before, p);
      }
      var point := FindPoint(Text());
      if point == len {
        chars[len] := '.';
        r := chars[..len + p + 1];
        assert chars[..] == before.chars[len := '.'];
        assert chars[..len] == before.chars[..len];
        return;
      }
      var after := len - (point + 1);
      if p > after {
        r := chars[..len + (p - after)];
      } else {
        r := Text()[..point + 1 + p];
      }
    }

    /** Feeds the checksum the printed digits from the first non-zero one on; from a padded buffer, the
        numeral of floor(value * 10^p). */
    method Process(crc: Crc32.Register, p: nat) returns (r: Crc32.Register)
      requires Valid() && State().Fits(p)
      modifies chars
      ensures Valid() && State() == old(State()).Dotted() && Text() == old(Text())
      ensures r == Crc32.Process(crc, StripLeading(DigitsOf(old(State()).Reads(p))))
      ensures old(State()).Padded() ==> State().Padded() && r == Crc32.Process(crc, Numeral(FloorAt(Num(Text()), p)))
    {
      ghost var before := State();
      var view := StrView(p);
      ReadsShape(before, p);
      r := FeedDigits(crc, view, FindPoint(before.Text()), p);
      if before.Padded() {
        PaddedFeeds(before, p);
      }
    }

    /** The loop over the printed characters. The source returns from it once the trailing digits
        reach the precision; that never cuts a digit. */
    static method FeedDigits(crc: Crc32.Register, view: string, ghost point: nat, p: nat)
      returns (r: Crc32.Register)
      requires |view| == point + 1 + p && view[point] == '.'
      requires forall i :: 0 <= i < point ==> view[i] != '.'
      ensures r == Crc32.Process(crc, StripLeading(DigitsOf(view)))
    {
      var inLeadingZeros, inTrailingDigits, numTrailingDigits := true, false, 0;
      ghost var fed := "";
      r := crc;
      var i := 0;
      assert view[..0] == "";
      while i < |view| && !(inTrailingDigits && numTrailingDigits >= p)
        invariant 0 <= i <= |view| == point + 1 + p
        invariant r == Crc32.Process(crc, fed)
        invariant fed == StripLeading(DigitsOf(view[..i]))
        invariant inLeadingZeros <==> fed == ""
        invariant inTrailingDigits <==> i > point
        invariant numTrailingDigits == 0 || numTrailingDigits <= i - point - 1
      {
        var ch := view[i];
        assert view[..i + 1][..i] == view[..i];
        if IsDigit(ch) {
          StripSnoc(DigitsOf(view[..i]), ch);
          if !inLeadingZeros {
            r := Crc32.ProcessByte(r, ch);
            Crc32.ProcessNext(crc, fed, ch);
            fed := fed + [ch];
            if inTrailingDigits {
              numTrailingDigits := numTrailingDigits + 1;
            }
          } else if ch != '0' {
            inLeadingZeros := false;
            r := Crc32.ProcessByte(r, ch);
            Crc32.ProcessNext(crc, fed, ch);
            fed := fed + [ch];
          }
        }
        if ch == '.' {
          inTrailingDigits := true;
        }
        i := i + 1;
      }
      assert i == |view|;
      assert view[..i] == view;
    }
  }

  /** What the scanner has to produce is what it has written, then what it writes for the rest. */
  ghost predicate ContinuesTo(whole: Option<string>, written: string, rest: Option<string>) {
    whole == match rest case None => None case Some(s) => Some(written + s)
  }

  lemma {:induction false} StartContinues(token: string)
    ensures ContinuesTo(Scan(token, BeforeDigit), "", Scan(token[0..], BeforeDigit))
  {
    assert token[0..] == token;
    if Scan(token, BeforeDigit).Some? {
      assert "" + Scan(token, BeforeDigit).value == Scan(token, BeforeDigit).value;
    }
  }

  lemma {:induction false} EmitContinues(whole: Option<string>, written: string, ch: char, rest: Option<string>)
    requires ContinuesTo(whole, written, Emit(ch, rest))
    ensures ContinuesTo(whole, written + [ch], rest)
  {
    if rest.Some? {
      assert written + [ch] + rest.value == written + ([ch] + rest.value);
    }
  }
}
