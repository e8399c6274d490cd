/** What each message means for the books, level by level and number by number. */
module MessageLaws {
  import opened Digits
  import opened View
  import opened Parser
  import opened Order
  import opened Buffers
  import opened OrderedMap
  import opened SidesModel
  import opened LevelBookModel

  // ---- The order of the sides ----

  /** The value of a price or quantity. */
  function ValueOf(d: Held): nat {
    Num(TextOf(d))
  }

  predicate FitsInteger(d: Held) {
    NatVal(IntPart(TextOf(d))) < U64
  }

  /** Asks are in ascending order of value and bids in descending order, and a quantity removes a level exactly when
      its value is zero, for integer parts below 2^64. */
  lemma {:induction false} RulesAreNumeric(a: Held, b: Held)
    requires FitsInteger(a) && FitsInteger(b)
    ensures AskRules().rank(a) < AskRules().rank(b) <==> ValueOf(a) < ValueOf(b)
    ensures BidRules().rank(a) < BidRules().rank(b) <==> ValueOf(a) > ValueOf(b)
    ensures AskRules().zero(a) <==> ValueOf(a) == 0
    ensures BidRules().zero(a) <==> ValueOf(a) == 0
  {
    KeyIsValueIff(TextOf(a));
    KeyIsValueIff(TextOf(b));
  }

  /** So the best ask is the lowest and the best bid the highest. */
  lemma {:induction false} SidesAreOrdered(st: SidesState, i: nat, j: nat)
    requires ValidSides(st) && i < j
    ensures j < |st.asks| && FitsInteger(st.asks[i].key) && FitsInteger(st.asks[j].key) ==>
              ValueOf(st.asks[i].key) < ValueOf(st.asks[j].key)
    ensures j < |st.bids| && FitsInteger(st.bids[i].key) && FitsInteger(st.bids[j].key) ==>
              ValueOf(st.bids[i].key) > ValueOf(st.bids[j].key)
  {
    if j < |st.asks| && FitsInteger(st.asks[i].key) && FitsInteger(st.asks[j].key) {
      RulesAreNumeric(st.asks[i].key, st.asks[j].key);
    }
    if j < |st.bids| && FitsInteger(st.bids[i].key) && FitsInteger(st.bids[j].key) {
      RulesAreNumeric(st.bids[i].key, st.bids[j].key);
    }
  }

  // ---- Book messages ----

  predicate SameScale(s: SidesState, t: SidesState) {
    s.depth == t.depth && s.pricePrecision == t.pricePrecision && s.qtyPrecision == t.qtyPrecision
  }

  /** An update changes, on each side, what the quotes of that side say, level by level, and leaves both sides sorted
      and no deeper than the depth. */
  lemma {:induction false} UpdateMeans(books: Books, book: Book, k: int)
    requires book.symbol in books && ValidSides(books[book.symbol]) && book.kind == "update"
    ensures AfterBook(books, book).Keys == books.Keys
    ensures var before, after := books[book.symbol], AfterBook(books, book)[book.symbol];
            && SameScale(before, after) && ValidSides(after)
            && |after.bids| <= before.depth && |after.asks| <= before.depth
            && UpdatedAt(BidRules(), before.bids, book.bids, after.bids, before.depth, k)
            && UpdatedAt(AskRules(), before.asks, book.asks, after.asks, before.depth, k)
  {
    var before := books[book.symbol];
    UpdateAt(BidRules(), before.bids, book.bids, before.depth, k);
    UpdateAt(AskRules(), before.asks, book.asks, before.depth, k);
  }

  /** A snapshot leaves, on each side, the first quote of every price it names for that side, and nothing else. */
  lemma {:induction false} SnapshotMeans(books: Books, book: Book, k: int)
    requires book.symbol in books && book.kind == "snapshot"
    ensures AfterBook(books, book).Keys == books.Keys
    ensures var before, after := books[book.symbol], AfterBook(books, book)[book.symbol];
            && SameScale(before, after) && ValidSides(after)
            && Lookup(BidRules(), after.bids, k) == FirstOf(BidRules(), book.bids, k)
            && Lookup(AskRules(), after.asks, k) == FirstOf(AskRules(), book.asks, k)
  {
    InsertAllLookup(BidRules(), book.bids, k);
    InsertAllLookup(AskRules(), book.asks, k);
  }

  /** A message is accepted exactly if its symbol is known, its kind is one of the two, and its checksum is that
      of the book it leaves; each other outcome has its own reason, and only the first two leave all books alone. */
  lemma {:induction false} OutcomeMeans(books: Books, book: Book)
    ensures var outcome, after := BookOutcome(books, book), AfterBook(books, book);
            && (book.symbol !in books ==> outcome == Rejected(UnknownSymbol) && after == books)
            && (book.symbol in books && book.kind != "snapshot" && book.kind != "update" ==>
                  outcome == Rejected(BogusType) && after == books)
            && (book.symbol in books && (book.kind == "snapshot" || book.kind == "update") ==>
                  && (outcome == Accepted <==> ChecksumOf(after[book.symbol]) == Some(book.crc32))
                  && (outcome == Rejected(Overrun) <==> ChecksumOf(after[book.symbol]) == None)
                  && (outcome.Rejected? && outcome.why.BadChecksum? ==>
                        && outcome.why.expected == book.crc32
                        && Some(outcome.why.actual) == ChecksumOf(after[book.symbol])))
  {
    if book.symbol in books && book.kind != "snapshot" && book.kind != "update" {
      assert AfterBook(books, book) == books;
    }
  }

  // ---- Pair messages ----

  /** A pair gives a new symbol an empty book, and a known one its precisions, with all its levels kept. */
  lemma {:induction false} PairMeans(books: Books, depth: nat, pair: Pair)
    ensures pair.symbol in AfterPair(books, depth, pair)
    ensures var after := AfterPair(books, depth, pair)[pair.symbol];
            && after.pricePrecision == pair.pricePrecision && after.qtyPrecision == pair.qtyPrecision
            && (pair.symbol !in books ==> after.bids == [] && after.asks == [] && after.depth == depth)
            && (pair.symbol in books ==>
                  && after.bids == books[pair.symbol].bids && after.asks == books[pair.symbol].asks
                  && (after.depth == books[pair.symbol].depth || after.depth == depth))
  {
  }
}
