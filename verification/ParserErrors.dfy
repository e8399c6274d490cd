/** Which tokens the parser throws on. */
module ParserErrors {
  import opened Digits
  import opened View
  import opened Parser

  /** A number starts at a non-zero digit, or at a zero directly before a point. */
  predicate StartsNumber(s: string, i: nat)
    requires i < |s|
  {
    IsDigit(s[i]) && (s[i] != '0' || (i + 1 < |s| && s[i + 1] == '.'))
  }

  /** Where the first number starts, or the length of the token. */
  function NumberStart(s: string): (i: nat)
    ensures i <= |s|
    ensures forall k :: 0 <= k < i ==> !StartsNumber(s, k)
    ensures i < |s| ==> StartsNumber(s, i)
  {
    if s == "" || StartsNumber(s, 0) then 0
    else
      var n := NumberStart(s[1..]);
      assert forall k :: 0 < k < |s| ==> StartsNumber(s, k) == StartsNumber(s[1..], k - 1);
      1 + n
  }

  /** Where the digits at the front of a text end. */
  function DigitsEnd(s: string): (j: nat)
    ensures j <= |s|
    ensures forall k :: 0 <= k < j ==> IsDigit(s[k])
    ensures j < |s| ==> !IsDigit(s[j])
  {
    if s == "" || !IsDigit(s[0]) then 0 else 1 + DigitsEnd(s[1..])
  }

  /** The integer digits of the first number run into something other than a point. */
  predicate RunsIntoOther(s: string) {
    var i := NumberStart(s);
    var j := i + DigitsEnd(s[i..]);
    j < |s| && i < |s| && s[j] != '.'
  }

  lemma {:induction false} NeverThrowsLater(s: string, state: ScanState)
    requires state.AfterPoint? || state.AfterValue?
    ensures Scan(s, state).Some?
  {
    if s != "" {
      NeverThrowsLater(s[1..], if state.AfterPoint? && IsDigit(s[0]) then AfterPoint else AfterValue);
    }
  }

  lemma {:induction false} ThrowsInInteger(s: string)
    ensures Scan(s, BeforePoint).None? <==> DigitsEnd(s) < |s| && s[DigitsEnd(s)] != '.'
  {
    if s != "" {
      if IsDigit(s[0]) {
        ThrowsInInteger(s[1..]);
      } else if s[0] == '.' {
        NeverThrowsLater(s[1..], AfterPoint);
      }
    }
  }

  lemma {:induction false} ScanThrowsIff(s: string)
    ensures Scan(s, BeforeDigit).None? <==> RunsIntoOther(s)
  {
    if s == "" {
    } else if StartsNumber(s, 0) {
      assert s[0..] == s;
      ThrowsInInteger(s[1..]);
    } else {
      if IsDigit(s[0]) && |s| == 1 {
        NeverThrowsLater(s[1..], AfterValue);
        assert NumberStart(s[1..]) == 0;
      } else {
        ScanThrowsIff(s[1..]);
        assert s[1..][NumberStart(s[1..])..] == s[NumberStart(s)..];
      }
    }
  }

  /** A token is rejected exactly when it is longer than the buffer, or when the integer digits of its
      first number are followed by something other than a point; what comes before that number, and what
      comes behind a point, is never an error. */
  lemma {:induction false} ParseFailsIff(s: string)
    ensures Parse(s).Err? <==> |s| > 48 || RunsIntoOther(s)
    ensures Parse(s) == Err(TooLong) <==> |s| > 48
  {
    ScanThrowsIff(s);
  }

  // ---- What is read from a token ----

  /** The first number of a token: its integer digits, and with a point the digits directly behind it. Without one,
      a zero at the very end counts. */
  function FirstNumber(s: string): string {
    var i := NumberStart(s);
    if i == |s| then if s != "" && s[|s| - 1] == '0' then "0" else ""
    else IntegerAndFraction(s[i..])
  }

  function IntegerAndFraction(s: string): string {
    var j := DigitsEnd(s);
    if j < |s| && s[j] == '.' then s[..j + 1 + DigitsEnd(s[j + 1..])] else s[..j]
  }

  lemma {:induction false} ReadsFraction(s: string)
    ensures Scan(s, AfterPoint) == Some(s[..DigitsEnd(s)])
  {
    if s != "" {
      if IsDigit(s[0]) {
        ReadsFraction(s[1..]);
        assert s[..DigitsEnd(s)] == [s[0]] + s[1..][..DigitsEnd(s[1..])];
      } else {
        ReadsNothing(s[1..]);
      }
    }
  }

  lemma {:induction false} ReadsNothing(s: string)
    ensures Scan(s, AfterValue) == Some("")
  {
    if s != "" {
      ReadsNothing(s[1..]);
    }
  }

  lemma {:induction false} ReadsInteger(s: string)
    requires Scan(s, BeforePoint).Some?
    ensures Scan(s, BeforePoint).value == IntegerAndFraction(s)
  {
    if s != "" {
      if IsDigit(s[0]) {
        ReadsInteger(s[1..]);
        IntegerStep(s);
      } else {
        ReadsFraction(s[1..]);
        var k := DigitsEnd(s[1..]);
        assert s[..1 + k] == [s[0]] + s[1..][..k];
      }
    }
  }

  lemma {:induction false} IntegerStep(s: string)
    requires s != "" && IsDigit(s[0])
    ensures IntegerAndFraction(s) == [s[0]] + IntegerAndFraction(s[1..])
  {
    var t, j := s[1..], DigitsEnd(s[1..]);
    assert DigitsEnd(s) == 1 + j;
    if j < |t| && t[j] == '.' {
      assert s[j + 2..] == t[j + 1..];
      var k := DigitsEnd(t[j + 1..]);
      assert s[..j + 2 + k] == [s[0]] + t[..j + 1 + k];
    } else {
      assert s[..1 + j] == [s[0]] + t[..j];
    }
  }

  lemma {:induction false} SkipFirst(s: string)
    requires |s| > 1 && !StartsNumber(s, 0)
    ensures FirstNumber(s) == FirstNumber(s[1..])
  {
    var i := NumberStart(s[1..]);
    assert NumberStart(s) == 1 + i;
    assert s[1..][i..] == s[1 + i..];
  }

  /** Whatever the token, what is read from it is its first number. */
  lemma {:induction false} ReadsFirstNumber(s: string)
    requires Scan(s, BeforeDigit).Some?
    ensures Scan(s, BeforeDigit).value == FirstNumber(s)
  {
    if s == "" {
    } else if StartsNumber(s, 0) {
      assert s[0..] == s;
      ReadsInteger(s[1..]);
      IntegerStep(s);
    } else if |s| > 1 {
      ReadsFirstNumber(s[1..]);
      SkipFirst(s);
    } else {
      assert s[1..] == "";
      ReadsNothing(s[1..]);
      assert NumberStart(s[1..]) == 0;
    }
  }
}
