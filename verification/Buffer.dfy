/** The decimals that books hold: copies of parsed ones, each with what lies behind its view, which is
    what the in-place printer reads. */
module Buffers {
  import opened Digits
  import opened View
  import opened Parser
  import opened ParserLaws
  import opened Printer

  type Held = d: Dec | d.Owned() witness HeldZero()

  function HeldZero(): (d: Dec)
    ensures d.Owned()
  {
    PrefixNumeral("", Zeros(MAX_CHARS), 3);
    assert "" + Zeros(MAX_CHARS) == Zeros(MAX_CHARS);
    Dec(Zeros(MAX_CHARS), 3, false)
  }

  function TextOf(d: Held): Text {
    d.chars[..d.len]
  }

  /** What a token becomes on its way into a book: it is parsed, and the result is copied. */
  function BookDecimal(s: string): (r: Option<Held>)
    ensures r.Some? <==> Parse(s).Ok?
    ensures r.Some? ==> BookText(s) == Some(TextOf(r.value))
  {
    match Parse(s)
    case Err(_) => None
    case Ok(d) => ParseShape(s); Some(d.Copy())
  }

  /** The digits the checksum is fed: those the in-place printer returns, from the first non-zero one on. */
  function Fed(d: Held, p: nat): string
    requires d.Fits(p)
  {
    StripLeading(DigitsOf(d.Reads(p)))
  }

  // ---- Allocating prints ----

  /** What a print of p fraction digits has to be: the integer digits in view, a point, and p more digits, which
      together read floor(value * 10^p). */
  predicate PrintsAs(text: string, d: Held, p: nat) {
    && IsNumeral(text) && IntPart(text) == IntPart(TextOf(d))
    && FindPoint(text) < |text| && |FracPart(text)| == p
    && NatVal(IntPart(text) + FracPart(text)) == FloorAt(Num(TextOf(d)), p)
  }

  lemma {:induction false} StrPrintsAs(d: Held, p: nat)
    ensures PrintsAs(Str(TextOf(d), p), d, p)
  {
    StrParts(TextOf(d), p);
    CutIsFloor(TextOf(d), p);
  }

  // ---- Padded buffers ----

  lemma {:induction false} FitsIsLength(d: Held, p: nat)
    ensures d.Fits(p) <==> |Str(TextOf(d), p)| <= MAX_CHARS
  {
    StrParts(TextOf(d), p);
  }

  /** What is printed in place has exactly one point before the last p characters. */
  lemma {:induction false} ReadsShape(d: Dec, p: nat)
    requires d.Sized() && d.Fits(p)
    ensures var point := FindPoint(d.Text());
            && |d.Reads(p)| == point + 1 + p && d.Reads(p)[point] == '.'
            && forall i :: 0 <= i < point ==> d.Reads(p)[i] != '.'
  {
  }

  /** A buffer that continues its view with zeros starts with the view and as many zeros as wanted. */
  lemma {:induction false} ViewAndZeros(chars: string, view: string, n: nat)
    requires view <= chars && |view| <= n <= |chars|
    requires forall i :: |view| <= i < n ==> chars[i] == '0'
    ensures chars[..n] == view + Zeros(n - |view|)
  {
  }

  /** From a padded buffer the in-place printer returns what the allocating one does. */
  lemma {:induction false} PaddedReads(d: Held, p: nat)
    requires d.Padded() && d.Fits(p)
    ensures d.Reads(p) == Str(TextOf(d), p)
  {
    var v, point := TextOf(d), FindPoint(TextOf(d));
    var n := point + 1 + p;
    if point == d.len {
      var dotted := d.chars[d.len := '.'];
      assert dotted[..d.len] == v;
      ViewAndZeros(dotted, v + ".", n);
    } else if n > d.len {
      ViewAndZeros(d.chars, v, n);
    } else {
      assert d.chars[..n] == v[..n];
    }
  }

  /** And the checksum is fed the numeral of floor(value * 10^p). */
  lemma {:induction false} PaddedFeeds(d: Held, p: nat)
    requires d.Padded() && d.Fits(p)
    ensures Fed(d, p) == Numeral(FloorAt(Num(TextOf(d)), p))
  {
    PaddedReads(d, p);
    DigitStream(TextOf(d), p);
  }

  /** The point that the in-place printer writes never shows: view, prints and padding stay as they are,
      whatever lies in the buffer. */
  lemma {:induction false} DotNeverShows(d: Held, p: nat)
    ensures d.Dotted().Owned() && TextOf(d.Dotted()) == TextOf(d)
    ensures d.Dotted().Fits(p) <==> d.Fits(p)
    ensures d.Fits(p) ==> d.Dotted().Reads(p) == d.Reads(p)
    ensures d.Padded() ==> d.Dotted().Padded()
    ensures d.Dotted().Dotted() == d.Dotted() == d.Dotted().Copy()
  {
    assert d.Dotted().chars[..d.len] == d.chars[..d.len];
  }
}
