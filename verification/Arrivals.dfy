/** Messages whose decimals are still tokens. */
module ArrivalLaws {
  import opened View
  import opened Parser
  import opened ParserLaws
  import opened BufferLaws
  import opened SidesModel
  import opened SidesLaws
  import opened LevelBookModel
  import opened RefdataModel
  import opened BookSinkModel
  import opened SpellingLaws
  import opened ReplayModel
  import opened ReplayLaws

  /** Two numerals of one value that do not wrap and whose copies print inside the buffer. */
  predicate SameValue(s: string, t: string, p: nat) {
    && IsNumeral(s) && |s| <= MAX_CHARS && IsNumeral(t) && |t| <= MAX_CHARS && Num(s) == Num(t)
    && !Wraps(s) && Width(s) + 1 + p <= MAX_CHARS && !Wraps(t) && Width(t) + 1 + p <= MAX_CHARS
  }

  predicate SameTokens(a: Printed, b: Printed, limit: Precision) {
    SameValue(a.price, b.price, limit.price) && SameValue(a.qty, b.qty, limit.qty)
  }

  predicate SameLists(a: seq<Printed>, b: seq<Printed>, limit: Precision) {
    |a| == |b| && forall i :: 0 <= i < |a| ==> SameTokens(a[i], b[i], limit)
  }

  lemma {:induction false} QuoteSpelling(a: Printed, b: Printed, limit: Precision)
    requires SameTokens(a, b, limit)
    ensures ReadQuote()(a).Some? && SameQuote(ReadQuote()(a).value, ReadQuote()(a), limit)
    ensures SameQuote(ReadQuote()(a).value, ReadQuote()(b), limit)
  {
    TokenIsSound(a.price, limit.price);
    TokenIsSound(a.qty, limit.qty);
    TokenIsSound(b.price, limit.price);
    TokenIsSound(b.qty, limit.qty);
  }

  /** Lists of tokens of equal values, with whatever leading and trailing zeros, parse to sound quotes of equal
      values. */
  lemma {:induction false} TokensOfEqualValue(a: seq<Printed>, b: seq<Printed>, limit: Precision)
    requires SameLists(a, b, limit)
    ensures ReadQuotes(a).Some? && ReadQuotes(b).Some?
    ensures NumSide(ReadQuotes(a).value) == NumSide(ReadQuotes(b).value)
    ensures SoundSide(ReadQuotes(a).value, limit.price, limit.qty)
    ensures SoundSide(ReadQuotes(b).value, limit.price, limit.qty)
  {
    forall i | 0 <= i < |a|
      ensures ReadQuote()(a[i]).Some? && SameQuote(ReadQuote()(a[i]).value, ReadQuote()(a[i]), limit)
      ensures SameQuote(ReadQuote()(a[i]).value, ReadQuote()(b[i]), limit)
    {
      QuoteSpelling(a[i], b[i], limit);
    }
    CollectAll(ReadQuote(), a);
    SameQuotes(ReadQuotes(a).value, a, limit);
    SameQuotes(ReadQuotes(a).value, b, limit);
  }

  /** A message before its decimals are parsed. */
  datatype Arrival = PairArrival(pair: Pair) | BookArrival(tokens: BookRow)

  /** A message with its decimals parsed; None when one of them does not parse. */
  function ReadArrival(): Arrival -> Option<Message> {
    (arrival: Arrival) =>
      match arrival
      case PairArrival(pair) => Some(OnPair(pair))
      case BookArrival(tokens) =>
        match ReadBook(tokens) case None => None case Some(book) => Some(OnBook(book))
  }

  /** The same pair, or books whose tokens differ in leading and trailing zeros only. */
  predicate SameArrival(a: Arrival, b: Arrival, limits: Limits) {
    match (a, b)
    case (PairArrival(p), PairArrival(q)) => p == q && WithinLimits(p, limits)
    case (BookArrival(s), BookArrival(t)) =>
      && s.kind == t.kind && s.symbol == t.symbol && s.crc32 == t.crc32
      && SameLists(s.bids, t.bids, limits(s.symbol)) && SameLists(s.asks, t.asks, limits(s.symbol))
    case _ => false
  }

  lemma {:induction false} ArrivalsAlike(a: Arrival, b: Arrival, limits: Limits)
    requires SameArrival(a, b, limits)
    ensures ReadArrival()(a).Some? && ReadArrival()(b).Some?
    ensures SpelledAlike(ReadArrival()(a).value, ReadArrival()(b).value, limits)
  {
    match a
    case PairArrival(pair) =>
    case BookArrival(tokens) =>
      TokensOfEqualValue(tokens.bids, b.tokens.bids, limits(tokens.symbol));
      TokensOfEqualValue(tokens.asks, b.tokens.asks, limits(tokens.symbol));
  }

  /** From the start, runs of messages whose tokens differ in spelling only are accepted alike, and leave books of
      the same values and checksums. */
  lemma {:induction false} SpellingOfTokensDoesNotMatter(depth: nat, a: seq<Arrival>, b: seq<Arrival>, limits: Limits)
    requires |a| == |b| && forall i :: 0 <= i < |a| ==> SameArrival(a[i], b[i], limits)
    ensures Collect(ReadArrival(), a).Some? && Collect(ReadArrival(), b).Some?
    ensures var xs, ys := Collect(ReadArrival(), a).value, Collect(ReadArrival(), b).value;
            var x, y := RunMessages(map[], depth, xs), RunMessages(map[], depth, ys);
            && x.Some? == y.Some?
            && (x.Some? ==>
                  && SameBooks(x.value, y.value)
                  && forall s :: s in x.value ==> ChecksumOf(x.value[s]) == ChecksumOf(y.value[s]))
  {
    forall i | 0 <= i < |a|
      ensures ReadArrival()(a[i]).Some? && ReadArrival()(b[i]).Some?
      ensures SpelledAlike(ReadArrival()(a[i]).value, ReadArrival()(b[i]).value, limits)
    {
      ArrivalsAlike(a[i], b[i], limits);
    }
    CollectAll(ReadArrival(), a);
    CollectAll(ReadArrival(), b);
    SpellingOfRunDoesNotMatter(depth, map[], map[], Collect(ReadArrival(), a).value, Collect(ReadArrival(), b).value,
                               limits);
  }

  // ---- Ordinary tokens ----

  predicate Ordinary(t: string, p: nat) {
    IsNumeral(t) && |t| <= MAX_CHARS && |IntPart(t)| <= 19 && |FracPart(t)| <= p <= 19
  }

  predicate OrdinaryList(list: seq<Printed>, precision: Precision) {
    forall i :: 0 <= i < |list| ==> Ordinary(list[i].price, precision.price) && Ordinary(list[i].qty, precision.qty)
  }

  lemma {:induction false} OrdinaryListIsRecordable(list: seq<Printed>, precision: Precision)
    requires OrdinaryList(list, precision)
    ensures ReadQuotes(list).Some? && RecordableQuotes(ReadQuotes(list).value, precision)
  {
    forall i | 0 <= i < |list|
      ensures ReadQuote()(list[i]).Some?
      ensures Recordable(ReadQuote()(list[i]).value.key, precision.price)
      ensures Recordable(ReadQuote()(list[i]).value.value, precision.qty)
    {
      OrdinaryIsRecordable(list[i].price, precision.price);
      OrdinaryIsRecordable(list[i].qty, precision.qty);
    }
    CollectAll(ReadQuote(), list);
  }

  /** A message of ordinary tokens, of at most 19 digits before the point and no more behind it than their
      precision of at most 19, parses to one that can be recorded and replayed. */
  lemma {:induction false} OrdinaryMessageIsRecordable(tokens: BookRow, precision: Precision)
    requires OrdinaryList(tokens.bids, precision) && OrdinaryList(tokens.asks, precision)
    ensures ReadBook(tokens).Some? && RecordableBook(ReadBook(tokens).value, precision)
  {
    OrdinaryListIsRecordable(tokens.bids, precision);
    OrdinaryListIsRecordable(tokens.asks, precision);
  }
}
