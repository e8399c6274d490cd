/** What a recording process does with each message: reference data, level book and sinks together. */
module RecorderModel {
  import opened SidesModel
  import opened LevelBookModel
  import opened RefdataModel
  import BS = BookSinkModel
  import TS = TradeSinkModel

  /** Everything a recorder holds: the rows of its four files, the reference data, and the books. */
  datatype RecState = RecState(depth: nat, assetRows: seq<Asset>, pairRows: seq<Pair>,
                               assets: map<string, Asset>, pairs: Pairs, books: Books,
                               bookRows: seq<BS.BookRow>, tradeRows: seq<TS.TradeRow>)

  function AfterInstrument(st: RecState, instrument: Instrument): RecState {
    st.(assetRows := st.assetRows + instrument.assets, pairRows := st.pairRows + instrument.pairs,
        assets := AfterAssets(st.assets, instrument.assets), pairs := AfterPairs(st.pairs, instrument.pairs),
        books := BooksAfterPairs(st.books, st.depth, instrument.pairs))
  }

  /** A book message is recorded first; the level book may still reject it then. */
  function AfterBookMessage(st: RecState, book: Book): RecState {
    match PrecisionOf(st.pairs, book.symbol)
    case None => st
    case Some(precision) =>
      st.(bookRows := st.bookRows + [BS.PrintBook(book, precision)], books := AfterBook(st.books, book))
  }

  predicate BookAccepted(st: RecState, book: Book) {
    PrecisionOf(st.pairs, book.symbol).Some? && BookOutcome(st.books, book).Accepted?
  }

  function AfterTrades(st: RecState, message: TS.Trades): RecState {
    st.(tradeRows := st.tradeRows + TS.PrintTrades(st.pairs, message))
  }

  predicate TradesAccepted(st: RecState, message: TS.Trades) {
    TS.KnownTrades(st.pairs, message.trades) == |message.trades|
  }

  class Recorder {
    const levelBook: LevelBook
    const refdata: Refdata
    const bookSink: BS.BookSink
    const tradeSink: TS.TradeSink
    var assetRows: seq<Asset>
    var pairRows: seq<Pair>

    ghost function Repr(): set<object>
      reads this, levelBook
    {
      {this, levelBook, refdata, bookSink, tradeSink} + levelBook.sides.Values
    }

    ghost predicate Valid()
      reads Repr()
    {
      levelBook.Valid() && bookSink.Valid() && tradeSink.Valid()
    }

    ghost function State(): RecState
      requires Valid()
      reads Repr()
    {
      RecState(levelBook.bookDepth, assetRows, pairRows, refdata.assets, refdata.pairs, levelBook.Contents(),
               bookSink.Recorded(), tradeSink.Recorded())
    }

    constructor (depth: nat)
      ensures Valid() && fresh(Repr())
      ensures State() == RecState(depth, [], [], map[], map[], map[], [], [])
    {
      levelBook := new LevelBook(depth);
      refdata := new Refdata();
      bookSink := new BS.BookSink();
      tradeSink := new TS.TradeSink();
      assetRows, pairRows := [], [];
    }

    method AcceptInstrument(instrument: Instrument)
      requires Valid()
      modifies this, refdata, levelBook
      ensures Valid() && fresh(Repr() - old(Repr()))
      ensures State() == AfterInstrument(old(State()), instrument)
    {
      RecordInstrument(instrument);
      AcceptPairs(levelBook, instrument.pairs);
    }

    method RecordInstrument(instrument: Instrument)
      modifies `assetRows, `pairRows, refdata
      ensures assetRows == old(assetRows) + instrument.assets && pairRows == old(pairRows) + instrument.pairs
      ensures refdata.assets == AfterAssets(old(refdata.assets), instrument.assets)
      ensures refdata.pairs == AfterPairs(old(refdata.pairs), instrument.pairs)
    {
      assetRows := assetRows + instrument.assets;
      pairRows := pairRows + instrument.pairs;
      refdata.Accept(instrument);
    }

    static method AcceptPairs(levelBook: LevelBook, pairs: seq<Pair>)
      requires levelBook.Valid()
      modifies levelBook
      ensures levelBook.Valid() && fresh(levelBook.sides.Values - old(levelBook.sides.Values))
      ensures levelBook.Contents() == BooksAfterPairs(old(levelBook.Contents()), levelBook.bookDepth, pairs)
    {
      var i := 0;
      assert pairs[..0] == [];
      while i < |pairs|
        invariant 0 <= i <= |pairs|
        invariant levelBook.Valid() && fresh(levelBook.sides.Values - old(levelBook.sides.Values))
        invariant levelBook.Contents() == BooksAfterPairs(old(levelBook.Contents()), levelBook.bookDepth, pairs[..i])
      {
        assert pairs[..i + 1][..i] == pairs[..i];
        levelBook.AcceptPair(pairs[i]);
        i := i + 1;
      }
      assert pairs[..i] == pairs;
    }

    /** Records the message, then applies it; throws when either step does, with the row recorded even
        if the level book rejects the message. */
    method AcceptBook(book: Book) returns (ok: bool)
      requires Valid()
      modifies bookSink, levelBook.sides.Values
      ensures Valid()
      ensures State() == AfterBookMessage(old(State()), book)
      ensures ok <==> BookAccepted(old(State()), book)
    {
      ok := bookSink.Accept(book, refdata);
      if !ok {
        return;
      }
      var outcome := levelBook.AcceptBook(book);
      ok := outcome.Accepted?;
    }

    method AcceptTrades(message: TS.Trades) returns (ok: bool)
      requires Valid()
      modifies tradeSink
      ensures Valid()
      ensures State() == AfterTrades(old(State()), message)
      ensures ok <==> TradesAccepted(old(State()), message)
    {
      ok := tradeSink.Accept(message, refdata);
    }
  }
}
