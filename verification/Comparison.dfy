/** Comparing parsed decimals. */
module ComparisonLaws {
  import opened Digits
  import opened View
  import opened Parser
  import opened ParserLaws
  import opened Order

  lemma {:induction false} ParsedIntPart(t: Text)
    requires NatVal(IntPart(t)) < U64
    ensures Parse(t).Ok? && NatVal(IntPart(Parse(t).value.Text())) < U64
  {
    ParseValue(t);
    if LooksZero(t) {
      NatValZeros("0");
    } else {
      NonZeroPadded(t);
      CanonicalParts(t);
      KeepOneValue(IntPart(t));
    }
  }

  /** Parsed decimals whose tokens neither wrap nor have an integer part of 2^64 or more compare as the
      numbers the tokens spell, and are equal exactly when their views are the same string. */
  lemma {:induction false} ParsedCompareAsNumbers(s: Text, t: Text)
    requires !Wraps(s) && !Wraps(t) && NatVal(IntPart(s)) < U64 && NatVal(IntPart(t)) < U64
    ensures Parse(s).Ok? && Parse(t).Ok?
    ensures var v, w := Parse(s).value.Text(), Parse(t).value.Text();
            && IsNumeral(v) && |v| <= MAX_CHARS && IsNumeral(w) && |w| <= MAX_CHARS
            && (Compare(Key(v), Key(w)) == Less <==> Num(s) < Num(t))
            && (Compare(Key(v), Key(w)) == Greater <==> Num(s) > Num(t))
            && (Compare(Key(v), Key(w)) == Equal <==> v == w)
  {
    ParseValue(s);
    ParseValue(t);
    ParsedIntPart(s);
    ParsedIntPart(t);
    NumericOrder(Parse(s).value.Text(), Parse(t).value.Text());
    FreshEquality(s, t);
  }
}
