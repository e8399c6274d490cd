/** What book messages keep true of the two sides of a symbol, and what the checksum depends on. */
module SidesLaws {
  import opened Digits
  import opened View
  import opened Order
  import opened Buffers
  import opened BufferLaws
  import opened WrapLaws
  import opened ChecksumExample
  import opened OrderedMap
  import opened SidesModel
  import opened Truncation

  lemma {:induction false} UpdateSorted<K, V>(rules: Rules<K, V>, side: seq<Entry<K, V>>, quotes: seq<Entry<K, V>>,
      depth: nat)
    requires Sorted(rules, side)
    ensures Sorted(rules, Update(rules, side, quotes, depth))
  {
    ApplyAllLookup(rules, side, quotes, 0);
    TakeSorted(rules, ApplyAll(rules, side, quotes), depth);
  }

  lemma {:induction false} SnapshotSidesValid(st: SidesState, book: Book)
    ensures ValidSides(AfterSnapshot(st, book))
  {
    InsertAllSorted(BidRules(), book.bids);
    InsertAllSorted(AskRules(), book.asks);
  }

  lemma {:induction false} UpdateSidesValid(st: SidesState, book: Book)
    requires ValidSides(st)
    ensures ValidSides(AfterUpdate(st, book))
  {
    UpdateSorted(BidRules(), st.bids, book.bids, st.depth);
    UpdateSorted(AskRules(), st.asks, book.asks, st.depth);
  }

  /** Every message leaves both sides sorted without duplicate prices; updates leave at most `depth` levels. */
  lemma {:induction false} MessagesKeepSidesValid(st: SidesState, book: Book)
    ensures ValidSides(AfterSnapshot(st, book))
    ensures ValidSides(st) ==> ValidSides(AfterUpdate(st, book))
    ensures |AfterUpdate(st, book).bids| <= st.depth && |AfterUpdate(st, book).asks| <= st.depth
  {
    SnapshotSidesValid(st, book);
    if ValidSides(st) {
      UpdateSidesValid(st, book);
    }
  }

  /** The checksum reads the ten best levels of each side and nothing behind them. */
  lemma {:induction false} ChecksumOfBest(s: SidesState, t: SidesState)
    requires s.pricePrecision == t.pricePrecision && s.qtyPrecision == t.qtyPrecision
    requires Agree(s.bids, t.bids, CRC_DEPTH) && Agree(s.asks, t.asks, CRC_DEPTH)
    ensures ChecksumOf(s) == ChecksumOf(t)
  {
  }

  // ---- Truncation ----

  function AfterUpdates(st: SidesState, books: seq<Book>): SidesState {
    if books == [] then st else AfterUpdate(AfterUpdates(st, books[..|books| - 1]), books[|books| - 1])
  }

  /** The same updates on a book of unlimited depth. */
  function AfterUpdatesUncut(st: SidesState, books: seq<Book>): SidesState {
    if books == [] then st
    else
      var before, book := AfterUpdatesUncut(st, books[..|books| - 1]), books[|books| - 1];
      before.(bids := ApplyAll(BidRules(), before.bids, book.bids),
              asks := ApplyAll(AskRules(), before.asks, book.asks))
  }

  function BidBatches(books: seq<Book>): Batches<Held, Held> {
    seq(|books|, i requires 0 <= i < |books| => books[i].bids)
  }

  function AskBatches(books: seq<Book>): Batches<Held, Held> {
    seq(|books|, i requires 0 <= i < |books| => books[i].asks)
  }

  lemma {:induction false} BatchesInit(books: seq<Book>)
    requires books != []
    ensures BidBatches(books)[..|books| - 1] == BidBatches(books[..|books| - 1])
    ensures AskBatches(books)[..|books| - 1] == AskBatches(books[..|books| - 1])
  {
  }

  lemma {:induction false} SidesRunApart(st: SidesState, books: seq<Book>)
    ensures AfterUpdates(st, books) ==
            st.(bids := Run(BidRules(), st.bids, BidBatches(books), st.depth),
                asks := Run(AskRules(), st.asks, AskBatches(books), st.depth))
    ensures AfterUpdatesUncut(st, books) ==
            st.(bids := RunUncut(BidRules(), st.bids, BidBatches(books)),
                asks := RunUncut(AskRules(), st.asks, AskBatches(books)))
  {
    if books != [] {
      SidesRunApart(st, books[..|books| - 1]);
      BatchesInit(books);
    }
  }

  /** The checksum is that of a book of unlimited depth while each side's margin is ten levels. */
  lemma {:induction false} ChecksumWithinMargin(st: SidesState, books: seq<Book>)
    requires ValidSides(st)
    requires MarginRun(BidRules(), st.bids, BidBatches(books), st.depth) >= CRC_DEPTH
    requires MarginRun(AskRules(), st.asks, AskBatches(books), st.depth) >= CRC_DEPTH
    ensures ChecksumOf(AfterUpdates(st, books)) == ChecksumOf(AfterUpdatesUncut(st, books))
  {
    SidesRunApart(st, books);
    var s, t := AfterUpdates(st, books), AfterUpdatesUncut(st, books);
    RunAgrees(BidRules(), st.bids, BidBatches(books), st.depth);
    RunAgrees(AskRules(), st.asks, AskBatches(books), st.depth);
    AgreeLess(s.bids, t.bids, MarginRun(BidRules(), st.bids, BidBatches(books), st.depth), CRC_DEPTH);
    AgreeLess(s.asks, t.asks, MarginRun(AskRules(), st.asks, AskBatches(books), st.depth), CRC_DEPTH);
    ChecksumOfBest(s, t);
  }

  /** In particular while neither side was sent more than depth - 10 quotes of zero quantity. */
  lemma {:induction false} TruncationKeepsChecksum(st: SidesState, books: seq<Book>)
    requires ValidSides(st)
    requires ZeroQuotesInRun(BidRules(), BidBatches(books)) + CRC_DEPTH <= st.depth
    requires ZeroQuotesInRun(AskRules(), AskBatches(books)) + CRC_DEPTH <= st.depth
    ensures ChecksumOf(AfterUpdates(st, books)) == ChecksumOf(AfterUpdatesUncut(st, books))
  {
    MarginBound(BidRules(), st.bids, BidBatches(books), st.depth);
    MarginBound(AskRules(), st.asks, AskBatches(books), st.depth);
    ChecksumWithinMargin(st, books);
  }

  // ---- The book in numbers ----

  type NumQuote = Entry<nat, nat>

  datatype NumState = NumState(depth: nat, pricePrecision: nat, qtyPrecision: nat, bids: seq<NumQuote>,
      asks: seq<NumQuote>)

  function Value(): Held -> nat {
    (d: Held) => Num(TextOf(d))
  }

  function NumSide(side: Side): seq<NumQuote> {
    Image(Value(), Value(), side)
  }

  /** The book with every price and quantity replaced by its value. */
  function NumOf(st: SidesState): NumState {
    NumState(st.depth, st.pricePrecision, st.qtyPrecision, NumSide(st.bids), NumSide(st.asks))
  }

  function NumAskRules(): Rules<nat, nat> {
    Rules((n: nat) => WrapInt(n), (n: nat) => WrapInt(n) == 0)
  }

  function NumBidRules(): Rules<nat, nat> {
    Rules((n: nat) => -(WrapInt(n) as int), (n: nat) => WrapInt(n) == 0)
  }

  lemma {:induction false} RulesFactor()
    ensures Factors(AskRules(), Value(), Value(), NumAskRules())
    ensures Factors(BidRules(), Value(), Value(), NumBidRules())
  {
  }

  predicate SameNumbers(a: Book, b: Book) {
    NumSide(a.bids) == NumSide(b.bids) && NumSide(a.asks) == NumSide(b.asks)
  }

  /** Messages that differ in spelling only leave books that differ in spelling only. */
  lemma {:induction false} SpellingKeepsNumbers(s: SidesState, t: SidesState, a: Book, b: Book)
    requires NumOf(s) == NumOf(t) && SameNumbers(a, b)
    ensures NumOf(AfterSnapshot(s, a)) == NumOf(AfterSnapshot(t, b))
    ensures NumOf(AfterUpdate(s, a)) == NumOf(AfterUpdate(t, b))
  {
    RulesFactor();
    InsertAllImage(BidRules(), Value(), Value(), NumBidRules(), a.bids);
    InsertAllImage(BidRules(), Value(), Value(), NumBidRules(), b.bids);
    InsertAllImage(AskRules(), Value(), Value(), NumAskRules(), a.asks);
    InsertAllImage(AskRules(), Value(), Value(), NumAskRules(), b.asks);
    UpdateImage(BidRules(), Value(), Value(), NumBidRules(), s.bids, a.bids, s.depth);
    UpdateImage(BidRules(), Value(), Value(), NumBidRules(), t.bids, b.bids, t.depth);
    UpdateImage(AskRules(), Value(), Value(), NumAskRules(), s.asks, a.asks, s.depth);
    UpdateImage(AskRules(), Value(), Value(), NumAskRules(), t.asks, b.asks, t.depth);
  }

  lemma {:induction false} ConcatSame<T>(text: T -> string, s: seq<T>, t: seq<T>)
    requires |s| == |t| && forall i :: 0 <= i < |s| ==> text(s[i]) == text(t[i])
    ensures Concat(text, s) == Concat(text, t)
  {
    if s != [] {
      ConcatSame(text, s[..|s| - 1], t[..|t| - 1]);
    }
  }

  /** A decimal whose buffer is padded and whose print of p fraction digits stays inside it. */
  predicate Sound(d: Held, p: nat) {
    d.Padded() && d.Fits(p)
  }

  function SoundAt(p: nat): Held -> bool {
    (d: Held) => Sound(d, p)
  }

  predicate SoundSide(side: Side, pp: nat, qp: nat) {
    AllEntries(SoundAt(pp), SoundAt(qp), side)
  }

  /** Every decimal the checksum is taken of is sound. */
  predicate SoundBest(st: SidesState) {
    && SoundSide(Take(st.asks, CRC_DEPTH), st.pricePrecision, st.qtyPrecision)
    && SoundSide(Take(st.bids, CRC_DEPTH), st.pricePrecision, st.qtyPrecision)
  }

  /** A sound decimal feeds the numeral of floor(value * 10^p). */
  lemma {:induction false} SoundDigits(d: Held, p: nat)
    requires Sound(d, p)
    ensures DigitsAt(d, p) == Numeral(FloorAt(Num(TextOf(d)), p))
  {
    PaddedFeeds(d, p);
  }

  lemma {:induction false} DigitsOfNumbers(s: Side, t: Side, pp: nat, qp: nat)
    requires NumSide(s) == NumSide(t) && SoundSide(s, pp, qp) && SoundSide(t, pp, qp)
    ensures SideDigits(s, pp, qp) == SideDigits(t, pp, qp)
  {
    assert |s| == |NumSide(s)| == |t|;
    var digits := LevelDigits(pp, qp);
    forall i | 0 <= i < |s|
      ensures digits(s[i]) == digits(t[i])
    {
      assert NumSide(s)[i] == NumSide(t)[i];
      SoundDigits(s[i].key, pp);
      SoundDigits(t[i].key, pp);
      SoundDigits(s[i].value, qp);
      SoundDigits(t[i].value, qp);
    }
    ConcatSame(digits, s, t);
  }

  lemma {:induction false} BestOfNumbers(s: Side, t: Side, pp: nat, qp: nat)
    requires NumSide(s) == NumSide(t)
    requires SoundSide(Take(s, CRC_DEPTH), pp, qp) && SoundSide(Take(t, CRC_DEPTH), pp, qp)
    ensures SideFits(Take(s, CRC_DEPTH), pp, qp) && SideFits(Take(t, CRC_DEPTH), pp, qp)
    ensures SideDigits(Take(s, CRC_DEPTH), pp, qp) == SideDigits(Take(t, CRC_DEPTH), pp, qp)
  {
    assert NumSide(Take(s, CRC_DEPTH)) == Take(NumSide(s), CRC_DEPTH);
    assert NumSide(Take(t, CRC_DEPTH)) == Take(NumSide(t), CRC_DEPTH);
    DigitsOfNumbers(Take(s, CRC_DEPTH), Take(t, CRC_DEPTH), pp, qp);
  }

  /** Between sound decimals the checksum depends on the values only, not on how they are spelled. */
  lemma {:induction false} ChecksumOfNumbers(s: SidesState, t: SidesState)
    requires NumOf(s) == NumOf(t) && SoundBest(s) && SoundBest(t)
    ensures ChecksumOf(s).Some? && ChecksumOf(s) == ChecksumOf(t)
  {
    BestOfNumbers(s.asks, t.asks, s.pricePrecision, s.qtyPrecision);
    BestOfNumbers(s.bids, t.bids, s.pricePrecision, s.qtyPrecision);
  }

  lemma {:induction false} OneLevelText<T>(text: T -> string, item: T)
    ensures Concat(text, [item]) == text(item) && Concat(text, []) == ""
  {
    assert [item][..0] == [];
    assert "" + text(item) == text(item);
  }

  function OneAsk(st: SidesState, price: Held, qty: Held): SidesState {
    st.(bids := [], asks := [Entry(price, qty)])
  }

  lemma {:induction false} OneAskText(st: SidesState, price: Held, qty: Held)
    requires price.Fits(st.pricePrecision) && qty.Fits(st.qtyPrecision)
    ensures Readable(OneAsk(st, price, qty))
    ensures ChecksumText(OneAsk(st, price, qty)) == Fed(price, st.pricePrecision) + DigitsAt(qty, st.qtyPrecision)
  {
    OneLevelText(LevelDigits(st.pricePrecision, st.qtyPrecision), Entry(price, qty));
  }

  /** Sound decimals are needed: with a copy of 0.18446744073709551616 in the place of one of 0.1, a book has
      the same values, and another checksum. */
  lemma {:induction false} PaddingIsNeeded(st: SidesState, qty: Held)
    requires st.pricePrecision == 8 && qty.Fits(st.qtyPrecision)
    ensures BookDecimal(WRAPPED).Some? && BookDecimal(TENTH).Some?
    ensures var s := OneAsk(st, BookDecimal(WRAPPED).value, qty);
            var t := OneAsk(st, BookDecimal(TENTH).value, qty);
            NumOf(s) == NumOf(t) && ChecksumOf(s).Some? && ChecksumOf(t).Some? && ChecksumOf(s) != ChecksumOf(t)
  {
    WrappedFeedsOther();
    OneAskText(st, BookDecimal(WRAPPED).value, qty);
    OneAskText(st, BookDecimal(TENTH).value, qty);
    WrappedDigitsDiffer(DigitsAt(qty, st.qtyPrecision));
  }

  // ---- Sound books stay sound ----

  predicate SoundSides(st: SidesState, pp: nat, qp: nat) {
    SoundSide(st.bids, pp, qp) && SoundSide(st.asks, pp, qp)
  }

  predicate SoundBook(book: Book, pp: nat, qp: nat) {
    SoundSide(book.bids, pp, qp) && SoundSide(book.asks, pp, qp)
  }

  /** Messages of sound decimals leave sides of sound decimals. */
  lemma {:induction false} MessagesKeepSound(st: SidesState, book: Book, pp: nat, qp: nat)
    requires SoundSides(st, pp, qp) && SoundBook(book, pp, qp)
    ensures SoundSides(AfterSnapshot(st, book), pp, qp) && SoundSides(AfterUpdate(st, book), pp, qp)
  {
    UpdateKeeps(BidRules(), SoundAt(pp), SoundAt(qp), st.bids, book.bids, st.depth);
    UpdateKeeps(AskRules(), SoundAt(pp), SoundAt(qp), st.asks, book.asks, st.depth);
  }

  /** What is sound at some precisions is sound at lower ones. */
  lemma {:induction false} SoundBelow(st: SidesState, pp: nat, qp: nat)
    requires SoundSides(st, pp, qp) && st.pricePrecision <= pp && st.qtyPrecision <= qp
    ensures SoundBest(st)
  {
  }

  /** A level more among the best asks makes the text longer. */
  lemma {:induction false} LevelShowsInText(s: SidesState, t: SidesState, level: Quote)
    requires s.pricePrecision == t.pricePrecision && s.qtyPrecision == t.qtyPrecision
    requires Take(t.asks, CRC_DEPTH) == Take(s.asks, CRC_DEPTH) + [level] && Agree(s.bids, t.bids, CRC_DEPTH)
    requires LevelDigits(s.pricePrecision, s.qtyPrecision)(level) != ""
    ensures ChecksumText(s) != ChecksumText(t)
  {
    var digits, best := LevelDigits(s.pricePrecision, s.qtyPrecision), Take(s.asks, CRC_DEPTH);
    assert (best + [level])[..|best|] == best;
    assert Concat(digits, best + [level]) == Concat(digits, best) + digits(level);
    assert |ChecksumText(t)| == |ChecksumText(s)| + |digits(level)|;
  }

  /** An update without quotes, then one that removes the best depth - 9 asks. */
  function EmptyingUpdates(st: SidesState, v: Held, message: Book): (books: seq<Book>)
    requires |st.asks| > st.depth >= CRC_DEPTH
    ensures AskBatches(books) == [[], QuotesFor(st.asks[..st.depth - 9], v)] && BidBatches(books) == [[], []]
  {
    var quotes := QuotesFor(st.asks[..st.depth - 9], v);
    var books := [message.(bids := [], asks := []), message.(bids := [], asks := quotes)];
    assert AskBatches(books) == [[], quotes];
    assert BidBatches(books) == [[], []];
    books
  }

  /** The bound on the quotes of zero quantity cannot be improved: on a side of more than depth asks, depth - 9
      of them leave a text without the digits of the tenth level. */
  lemma {:induction false} BoundShowsInText(st: SidesState, v: Held, message: Book)
    requires Sorted(AskRules(), st.asks) && |st.asks| > st.depth >= CRC_DEPTH && AskRules().zero(v)
    requires LevelDigits(st.pricePrecision, st.qtyPrecision)(st.asks[st.depth]) != ""
    ensures var books := EmptyingUpdates(st, v, message);
            && ZeroQuotesInRun(AskRules(), AskBatches(books)) == st.depth - CRC_DEPTH + 1
            && ZeroQuotesInRun(BidRules(), BidBatches(books)) == 0
            && ChecksumText(AfterUpdates(st, books)) != ChecksumText(AfterUpdatesUncut(st, books))
  {
    var books := EmptyingUpdates(st, v, message);
    SidesRunApart(st, books);
    TruncationBoundIsTight(AskRules(), st.asks, v, st.depth);
    QuietSide(BidRules(), st.bids, st.depth);
    NineLeft(st.asks, st.depth);
    LevelShowsInText(AfterUpdates(st, books), AfterUpdatesUncut(st, books), st.asks[st.depth]);
  }

  lemma {:induction false} NineLeft<T>(s: seq<T>, depth: nat)
    requires |s| > depth >= CRC_DEPTH
    ensures Take(s[depth - 9..], CRC_DEPTH) == Take(s[depth - 9..depth], CRC_DEPTH) + [s[depth]]
  {
  }

  /** Updates without quotes for a side only cut it. */
  lemma {:induction false} QuietSide<K, V>(rules: Rules<K, V>, side: seq<Entry<K, V>>, depth: nat)
    requires depth >= CRC_DEPTH
    ensures var batches: Batches<K, V> := [[], []];
            && ZeroQuotesInRun(rules, batches) == 0
            && Take(Run(rules, side, batches, depth), CRC_DEPTH) == Take(RunUncut(rules, side, batches), CRC_DEPTH)
  {
    var batches: Batches<K, V> := [[], []];
    assert batches[..1] == [[]] && batches[..1][..0] == [];
    assert Run(rules, side, batches[..1], depth) == Take(side, depth);
    assert RunUncut(rules, side, batches[..1]) == side;
    assert ZeroQuotesInRun(rules, batches[..1]) == 0;
  }
}
