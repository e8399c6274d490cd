/** The books of all symbols: created and re-scaled by pair messages, updated by book messages. */
module LevelBookModel {
  import opened Parser
  import opened SidesModel
  import opened SidesLaws

  /** A tradable pair; its fields other than symbol and precisions are kept as one. */
  datatype Pair = Pair(symbol: string, pricePrecision: nat, qtyPrecision: nat, details: int)

  type Books = map<string, SidesState>

  const SNAPSHOT := "snapshot"
  const UPDATE := "update"

  predicate SamePrecisions(st: SidesState, pair: Pair) {
    st.pricePrecision == pair.pricePrecision && st.qtyPrecision == pair.qtyPrecision
  }

  /** A pair message creates an empty book, or replaces the precisions of a known one. */
  function AfterPair(books: Books, depth: nat, pair: Pair): Books {
    if pair.symbol !in books then
      books[pair.symbol := SidesState(depth, pair.pricePrecision, pair.qtyPrecision, [], [])]
    else if !SamePrecisions(books[pair.symbol], pair) then
      books[pair.symbol := SidesState(depth, pair.pricePrecision, pair.qtyPrecision,
                                      books[pair.symbol].bids, books[pair.symbol].asks)]
    else books
  }

  predicate KnownKind(book: Book) {
    book.kind == SNAPSHOT || book.kind == UPDATE
  }

  /** The sides after a message of either kind. */
  function Received(st: SidesState, book: Book): SidesState {
    if book.kind == SNAPSHOT then AfterSnapshot(st, book)
    else if book.kind == UPDATE then AfterUpdate(st, book)
    else st
  }

  function AfterBook(books: Books, book: Book): Books {
    if book.symbol !in books then books
    else books[book.symbol := Received(books[book.symbol], book)]
  }

  function BookOutcome(books: Books, book: Book): Outcome {
    if book.symbol !in books then Rejected(UnknownSymbol)
    else if KnownKind(book) then Verify(Received(books[book.symbol], book), book.crc32)
    else Rejected(BogusType)
  }

  class LevelBook {
    const bookDepth: nat
    var sides: map<string, Sides>

    ghost predicate Valid()
      reads this
    {
      forall s, t :: s in sides && t in sides && s != t ==> sides[s] != sides[t]
    }

    ghost function Contents(): Books
      reads this, sides.Values
    {
      map s | s in sides :: sides[s].State()
    }

    constructor (bookDepth: nat)
      ensures Valid() && this.bookDepth == bookDepth && Contents() == map[] && sides.Values == {}
    {
      this.bookDepth := bookDepth;
      sides := map[];
    }

    method AcceptPair(pair: Pair)
      requires Valid()
      modifies this
      ensures Valid() && fresh(sides.Values - old(sides.Values))
      ensures Contents() == AfterPair(old(Contents()), bookDepth, pair)
    {
      if pair.symbol !in sides {
        var created := new Sides(bookDepth, pair.pricePrecision, pair.qtyPrecision, [], []);
        sides := sides[pair.symbol := created];
      } else {
        var existing := sides[pair.symbol];
        if pair.pricePrecision != existing.pricePrecision || pair.qtyPrecision != existing.qtyPrecision {
          var replacement := new Sides(bookDepth, pair.pricePrecision, pair.qtyPrecision, existing.bids, existing.asks);
          sides := sides[pair.symbol := replacement];
        }
      }
    }

    /** A failing checksum is reported after the book has changed. */
    method AcceptBook(book: Book) returns (outcome: Outcome)
      requires Valid()
      modifies sides.Values
      ensures Valid() && sides == old(sides)
      ensures Contents() == AfterBook(old(Contents()), book)
      ensures outcome == BookOutcome(old(Contents()), book)
    {
      if book.symbol !in sides {
        return Rejected(UnknownSymbol);
      }
      outcome := AcceptKnown(book);
    }

    method AcceptKnown(book: Book) returns (outcome: Outcome)
      requires Valid() && book.symbol in sides
      modifies sides.Values
      ensures Valid() && sides == old(sides)
      ensures Contents() == old(Contents())[book.symbol := Received(old(Contents())[book.symbol], book)]
      ensures outcome == if KnownKind(book) then Verify(Contents()[book.symbol], book.crc32) else Rejected(BogusType)
    {
      ghost var before := Contents();
      var it := sides[book.symbol];
      outcome := Dispatch(it, book);
      forall s | s in sides && s != book.symbol
        ensures sides[s].State() == before[s]
      {
        assert sides[s] != it;
      }
    }

    static method Dispatch(it: Sides, book: Book) returns (outcome: Outcome)
      modifies it
      ensures it.State() == Received(old(it.State()), book)
      ensures outcome == if KnownKind(book) then Verify(it.State(), book.crc32) else Rejected(BogusType)
    {
      if book.kind == SNAPSHOT {
        outcome := it.AcceptSnapshot(book);
      } else if book.kind == UPDATE {
        outcome := it.AcceptUpdate(book);
      } else {
        outcome := Rejected(BogusType);
      }
    }

    method Crc(symbol: string) returns (checksum: Option<bv64>)
      ensures checksum == if symbol in Contents() then ChecksumOf(Contents()[symbol]) else None
    {
      if symbol !in sides {
        return None;
      }
      checksum := sides[symbol].Crc();
    }
  }

  // ---- Runs ----

  datatype Message = OnPair(pair: Pair) | OnBook(book: Book)

  /** The books after some messages, None once one was rejected. */
  function RunMessages(books: Books, depth: nat, messages: seq<Message>): Option<Books> {
    if messages == [] then Some(books)
    else
      match RunMessages(books, depth, messages[..|messages| - 1])
      case None => None
      case Some(before) =>
        match messages[|messages| - 1]
        case OnPair(pair) => Some(AfterPair(before, depth, pair))
        case OnBook(book) => if BookOutcome(before, book).Accepted? then Some(AfterBook(before, book)) else None
  }

  /** The latest pair message for a symbol. */
  function LatestPair(messages: seq<Message>, symbol: string): Option<Pair> {
    if messages == [] then None
    else match messages[|messages| - 1]
      case OnPair(pair) => if pair.symbol == symbol then Some(pair) else LatestPair(messages[..|messages| - 1], symbol)
      case OnBook(_) => LatestPair(messages[..|messages| - 1], symbol)
  }

  /** The checksum last confirmed for a symbol, unless its precisions have changed since. */
  function Confirmed(messages: seq<Message>, symbol: string): Option<bv64> {
    if messages == [] then None
    else
      var before := messages[..|messages| - 1];
      match messages[|messages| - 1]
      case OnBook(book) => if book.symbol == symbol then Some(book.crc32) else Confirmed(before, symbol)
      case OnPair(pair) =>
        if pair.symbol == symbol && Rescales(LatestPair(before, symbol), pair) then None else Confirmed(before, symbol)
  }

  /** What is known of a symbol: it has a book exactly when a pair message named it, with the latest
      precisions; its sides are sorted; and its checksum is the last confirmed one. */
  predicate Current(books: Books, depth: nat, symbol: string, latest: Option<Pair>, confirmed: Option<bv64>) {
    && (symbol in books <==> latest.Some?)
    && (symbol in books ==> ValidSides(books[symbol]) && books[symbol].depth == depth
                            && SamePrecisions(books[symbol], latest.value))
    && (confirmed.Some? ==> symbol in books && ChecksumOf(books[symbol]) == confirmed)
  }

  lemma {:induction false} BookKeepsCurrent(books: Books, depth: nat, symbol: string, latest: Option<Pair>,
      confirmed: Option<bv64>, book: Book)
    requires Current(books, depth, symbol, latest, confirmed) && BookOutcome(books, book).Accepted?
    ensures Current(AfterBook(books, book), depth, symbol, latest,
                    if book.symbol == symbol then Some(book.crc32) else confirmed)
  {
    if book.symbol == symbol {
      MessagesKeepSidesValid(books[symbol], book);
    }
  }

  lemma {:induction false} PairKeepsCurrent(books: Books, depth: nat, symbol: string, latest: Option<Pair>,
      confirmed: Option<bv64>, pair: Pair)
    requires Current(books, depth, symbol, latest, confirmed)
    ensures Current(AfterPair(books, depth, pair), depth, symbol,
                    if pair.symbol == symbol then Some(pair) else latest,
                    if pair.symbol == symbol && Rescales(latest, pair) then None else confirmed)
  {
  }

  predicate Rescales(known: Option<Pair>, pair: Pair) {
    known.None? || known.value.pricePrecision != pair.pricePrecision || known.value.qtyPrecision != pair.qtyPrecision
  }

  /** After any run without rejection, starting from no books, every symbol is current. */
  lemma {:induction false} RunIsCurrent(depth: nat, messages: seq<Message>, symbol: string)
    requires RunMessages(map[], depth, messages).Some?
    ensures Current(RunMessages(map[], depth, messages).value, depth, symbol,
                    LatestPair(messages, symbol), Confirmed(messages, symbol))
  {
    if messages != [] {
      var init := messages[..|messages| - 1];
      RunIsCurrent(depth, init, symbol);
      var before := RunMessages(map[], depth, init).value;
      match messages[|messages| - 1]
      case OnPair(pair) =>
        PairKeepsCurrent(before, depth, symbol, LatestPair(init, symbol), Confirmed(init, symbol), pair);
      case OnBook(book) =>
        BookKeepsCurrent(before, depth, symbol, LatestPair(init, symbol), Confirmed(init, symbol), book);
    }
  }

  /** A message changes its own symbol only, and no message drops a symbol. */
  lemma {:induction false} MessagesAreLocal(books: Books, depth: nat, pair: Pair, book: Book, symbol: string)
    requires symbol in books
    ensures symbol in AfterPair(books, depth, pair) && symbol in AfterBook(books, book)
    ensures pair.symbol != symbol ==> AfterPair(books, depth, pair)[symbol] == books[symbol]
    ensures book.symbol != symbol ==> AfterBook(books, book)[symbol] == books[symbol]
  {
  }
}
