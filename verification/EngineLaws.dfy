/** The deferred engine leads to what handling every message on arrival leads to. */
module EngineLaws {
  import opened Parser
  import opened SidesModel
  import opened LevelBookModel
  import opened RefdataModel
  import opened RecorderModel
  import opened EngineModel
  import opened Queueing
  import opened Printer
  import opened Buffers
  import BS = BookSinkModel

  /** No pair of the list changes the precisions of a symbol of the table. */
  predicate KeepsPrecisions(table: Pairs, pairs: seq<Pair>) {
    forall i :: 0 <= i < |pairs| && pairs[i].symbol in table ==>
      table[pairs[i].symbol].pricePrecision == pairs[i].pricePrecision
      && table[pairs[i].symbol].qtyPrecision == pairs[i].qtyPrecision
  }

  predicate KeepsScales(books: Books, pairs: seq<Pair>) {
    forall i :: 0 <= i < |pairs| && pairs[i].symbol in books ==> SamePrecisions(books[pairs[i].symbol], pairs[i])
  }

  lemma {:induction false} PrecisionKept(table: Pairs, pairs: seq<Pair>, symbol: string)
    requires KeepsPrecisions(table, pairs) && symbol in table
    ensures PrecisionOf(AfterPairs(table, pairs), symbol) == PrecisionOf(table, symbol)
  {
    if pairs != [] {
      PrecisionKept(table, pairs[..|pairs| - 1], symbol);
    }
  }

  /** Pair messages leave the books of known symbols alone, whatever state those are in. */
  lemma {:induction false} PairsPassBy(books: Books, depth: nat, pairs: seq<Pair>, symbol: string, after: SidesState)
    requires symbol in books && KeepsScales(books, pairs)
    requires after.pricePrecision == books[symbol].pricePrecision && after.qtyPrecision == books[symbol].qtyPrecision
    ensures symbol in BooksAfterPairs(books, depth, pairs)
    ensures BooksAfterPairs(books, depth, pairs)[symbol] == books[symbol]
    ensures BooksAfterPairs(books[symbol := after], depth, pairs) ==
            BooksAfterPairs(books, depth, pairs)[symbol := after]
  {
    if pairs != [] {
      var init := pairs[..|pairs| - 1];
      PairsPassBy(books, depth, init, symbol, after);
      var p := pairs[|pairs| - 1];
      if p.symbol in books && p.symbol != symbol {
        PairsPassBy(books, depth, init, p.symbol, books[p.symbol]);
      }
      PairPassesBy(BooksAfterPairs(books, depth, init), depth, p, symbol, after);
    } else {
      assert books[symbol := after] == BooksAfterPairs(books[symbol := after], depth, pairs);
    }
  }

  lemma {:induction false} PairPassesBy(books: Books, depth: nat, pair: Pair, symbol: string, after: SidesState)
    requires symbol in books && (pair.symbol == symbol ==> SamePrecisions(books[symbol], pair))
    requires after.pricePrecision == books[symbol].pricePrecision && after.qtyPrecision == books[symbol].qtyPrecision
    ensures symbol in AfterPair(books, depth, pair) && AfterPair(books, depth, pair)[symbol] == books[symbol]
    ensures AfterPair(books[symbol := after], depth, pair) == AfterPair(books, depth, pair)[symbol := after]
  {
  }

  lemma {:induction false} ReceivedKeepsScale(st: SidesState, book: Book)
    ensures Received(st, book).pricePrecision == st.pricePrecision
    ensures Received(st, book).qtyPrecision == st.qtyPrecision && Received(st, book).depth == st.depth
  {
  }

  // ---- The recorder's messages commute ----

  function Consistent(): RecState -> bool {
    (st: RecState) => Agree(st.pairs, st.books)
  }

  /** An immediate message that changes no known precision. */
  function Stable(): (RecState, Immediate) -> bool {
    (st: RecState, message: Immediate) =>
      message.InstrumentMessage? ==> KeepsPrecisions(st.pairs, message.instrument.pairs)
  }

  lemma {:induction false} InstrumentPassesBook(st: RecState, book: Book, instrument: Instrument)
    requires Agree(st.pairs, st.books) && BookAccepted(st, book) && KeepsPrecisions(st.pairs, instrument.pairs)
    ensures BookAccepted(AfterInstrument(st, instrument), book)
    ensures AfterBookMessage(AfterInstrument(st, instrument), book) ==
            AfterInstrument(AfterBookMessage(st, book), instrument)
  {
    var after := Received(st.books[book.symbol], book);
    ReceivedKeepsScale(st.books[book.symbol], book);
    PrecisionKept(st.pairs, instrument.pairs, book.symbol);
    assert KeepsScales(st.books, instrument.pairs);
    PairsPassBy(st.books, st.depth, instrument.pairs, book.symbol, after);
  }

  lemma {:induction false} BookKeepsTable(st: RecState, book: Book)
    requires Agree(st.pairs, st.books)
    ensures AfterBookMessage(st, book).pairs == st.pairs
    ensures Agree(AfterBookMessage(st, book).pairs, AfterBookMessage(st, book).books)
  {
    BooksKeepAgreement(st.pairs, st.books, book);
  }

  lemma {:induction false} RecorderCommutes()
    ensures Commuting(RecorderMachine(), Consistent(), Stable())
  {
    var m, inv, stable := RecorderMachine(), Consistent(), Stable();
    forall st: RecState, book: Book, message: Immediate |
      inv(st) && m.accepts(st, book) && m.handles(st, message) && stable(st, message)
      ensures m.accepts(m.handle(st, message), book)
      ensures m.deliver(m.handle(st, message), book) == m.handle(m.deliver(st, book), message)
    {
      if message.InstrumentMessage? {
        InstrumentPassesBook(st, book, message.instrument);
      }
    }
    forall st: RecState, book: Book | inv(st) && m.accepts(st, book)
      ensures inv(m.deliver(st, book))
    {
      BookKeepsTable(st, book);
    }
    forall st: RecState, book: Book, message: Immediate | inv(st) && m.accepts(st, book)
      ensures m.handles(m.deliver(st, book), message) == m.handles(st, message)
      ensures stable(m.deliver(st, book), message) == stable(st, message)
    {
      BookKeepsTable(st, book);
    }
    forall st: RecState, message: Immediate | inv(st) && m.handles(st, message) && stable(st, message)
      ensures inv(m.handle(st, message))
    {
      if message.InstrumentMessage? {
        PairsKeepAgreement(st.pairs, st.books, st.depth, message.instrument.pairs);
      }
    }
  }

  /** No instrument message changes a precision that is known when it arrives. */
  predicate StablePrecisions(depth: nat, events: seq<EngineEvent>) {
    StableRun(RecorderMachine(), Stable(), Fresh(depth), events)
  }

  /** If handling every message on arrival fails nowhere and known precisions do not change, the engine
      fails nowhere either; delivering what is queued at the end, which is nothing once enough ticks have
      passed, leaves the same books, reference data and rows of every file. */
  lemma {:induction false} DeferredRefinesSynchronous(depth: nat, events: seq<EngineEvent>)
    requires RunSync(RecorderMachine(), Fresh(depth), events).Some? && StablePrecisions(depth, events)
    ensures Run(RecorderMachine(), Queued(Fresh(depth), []), events).Some?
    ensures var q := Run(RecorderMachine(), Queued(Fresh(depth), []), events).value;
            var rec := RunSync(RecorderMachine(), Fresh(depth), events).value;
            && Agree(q.state.pairs, q.state.books)
            && Deliver(RecorderMachine(), q.state, q.queue) == Delivery(rec, |q.queue|, true)
            && (q.queue == [] ==> q.state == rec)
  {
    RecorderCommutes();
    assert Consistent()(Fresh(depth));
    QueueRefinesSync(RecorderMachine(), Consistent(), Stable(), Fresh(depth), events);
  }

  /** The row of a message with quotes tells both precisions it was printed at. */
  lemma {:induction false} RowTellsPrecisions(book: Book, p: Precision, q: Precision)
    requires book.bids != [] || book.asks != []
    requires BS.PrintBook(book, p) == BS.PrintBook(book, q)
    ensures p == q
  {
    var quotes := if book.bids != [] then book.bids else book.asks;
    assert BS.PrintAll(BS.PrintAt(p), quotes) == BS.PrintAll(BS.PrintAt(q), quotes);
    assert BS.PrintAt(p)(quotes[0]) == BS.PrintAll(BS.PrintAt(p), quotes)[0] == BS.PrintAt(q)(quotes[0]);
    StrParts(TextOf(quotes[0].key), p.price);
    StrParts(TextOf(quotes[0].key), q.price);
    StrParts(TextOf(quotes[0].value), p.qty);
    StrParts(TextOf(quotes[0].value), q.qty);
  }

  /** Stable precisions are needed: a message with quotes that is delivered behind a change of its
      symbol's precisions is recorded differently than on arrival. */
  lemma {:induction false} PrecisionChangeShows(st: RecState, book: Book, instrument: Instrument)
    requires PrecisionOf(st.pairs, book.symbol).Some? && (book.bids != [] || book.asks != [])
    requires PrecisionOf(AfterPairs(st.pairs, instrument.pairs), book.symbol) != PrecisionOf(st.pairs, book.symbol)
    ensures AfterBookMessage(AfterInstrument(st, instrument), book).bookRows !=
            AfterInstrument(AfterBookMessage(st, book), instrument).bookRows
  {
    PairsStay(st.pairs, instrument.pairs, book.symbol);
    var p, q := PrecisionOf(st.pairs, book.symbol).value,
                PrecisionOf(AfterPairs(st.pairs, instrument.pairs), book.symbol).value;
    var deferred := AfterBookMessage(AfterInstrument(st, instrument), book).bookRows;
    var onArrival := AfterInstrument(AfterBookMessage(st, book), instrument).bookRows;
    assert deferred[|st.bookRows|] == BS.PrintBook(book, q) && onArrival[|st.bookRows|] == BS.PrintBook(book, p);
    if BS.PrintBook(book, p) == BS.PrintBook(book, q) {
      RowTellsPrecisions(book, p, q);
    }
  }

  lemma {:induction false} PairsStay(table: Pairs, pairs: seq<Pair>, symbol: string)
    requires symbol in table
    ensures symbol in AfterPairs(table, pairs)
  {
    if pairs != [] {
      PairsStay(table, pairs[..|pairs| - 1], symbol);
    }
  }

  // ---- Two copies of the precisions ----

  /** After any events that fail nowhere, whatever the precisions did, reference data and books know the same
      symbols at the same precisions, so the file takes a book message exactly if its symbol has a book. */
  lemma {:induction false} RunKeepsAgreement(depth: nat, events: seq<EngineEvent>, symbol: string)
    requires Run(RecorderMachine(), Queued(Fresh(depth), []), events).Some?
    ensures var rec := Run(RecorderMachine(), Queued(Fresh(depth), []), events).value.state;
            Agree(rec.pairs, rec.books) && (PrecisionOf(rec.pairs, symbol).Some? <==> symbol in rec.books)
  {
    var m, inv := RecorderMachine(), Consistent();
    forall st: RecState, book: Book | inv(st) && m.accepts(st, book)
      ensures inv(m.deliver(st, book))
    {
      BookKeepsTable(st, book);
    }
    forall st: RecState, message: Immediate | inv(st) && m.handles(st, message)
      ensures inv(m.handle(st, message))
    {
      if message.InstrumentMessage? {
        PairsKeepAgreement(st.pairs, st.books, st.depth, message.instrument.pairs);
      }
    }
    RunIsEffective(m, Fresh(depth), events);
    RunKeeps(m, inv, Fresh(depth), Effective([], events).0);
  }

  // ---- What is recorded ----

  /** The precisions of a symbol after some events: those of its last pair in any instrument message. */
  function LatestPrecision(events: seq<EngineEvent>, symbol: string): Option<Precision> {
    if events == [] then None
    else
      var before, last := LatestPrecision(events[..|events| - 1], symbol), events[|events| - 1];
      if last.Now? && last.immediate.InstrumentMessage? then
        var pairs := last.immediate.instrument.pairs;
        var i := LastPair(pairs, symbol);
        if i >= 0 then Some(Precision(pairs[i].pricePrecision, pairs[i].qtyPrecision)) else before
      else before
  }

  /** The rows of the books among some events, each printed at the precisions its symbol had just then. */
  function RowsFor(events: seq<EngineEvent>): seq<BS.BookRow> {
    if events == [] then []
    else
      var init, last := events[..|events| - 1], events[|events| - 1];
      if last.Later? && LatestPrecision(init, last.book.symbol).Some? then
        RowsFor(init) + [BS.PrintBook(last.book, LatestPrecision(init, last.book.symbol).value)]
      else RowsFor(init)
  }

  lemma {:induction false} TableIsLatest(depth: nat, events: seq<EngineEvent>, symbol: string)
    requires RunSync(RecorderMachine(), Fresh(depth), events).Some?
    ensures PrecisionOf(RunSync(RecorderMachine(), Fresh(depth), events).value.pairs, symbol) ==
            LatestPrecision(events, symbol)
  {
    if events != [] {
      var init, last := events[..|events| - 1], events[|events| - 1];
      TableIsLatest(depth, init, symbol);
      if last.Now? && last.immediate.InstrumentMessage? {
        var before := RunSync(RecorderMachine(), Fresh(depth), init).value;
        LookupIsLatest(before.pairs, last.immediate.instrument.pairs, symbol);
      }
    }
  }

  /** Every book that is handled is recorded, in order, as the precisions in force print it. */
  lemma {:induction false} HandledBooksAreRecorded(depth: nat, events: seq<EngineEvent>)
    requires RunSync(RecorderMachine(), Fresh(depth), events).Some?
    ensures RunSync(RecorderMachine(), Fresh(depth), events).value.bookRows == RowsFor(events)
    ensures |RowsFor(events)| == |Arrived(events)|
  {
    if events != [] {
      var init, last := events[..|events| - 1], events[|events| - 1];
      HandledBooksAreRecorded(depth, init);
      if last.Later? {
        TableIsLatest(depth, init, last.book.symbol);
      }
    }
  }

  /** Whenever the engine is stopped, the books recorded are those that arrived first, in order, and the
      rest are still queued; each row is its book, printed at the precisions in force when it was delivered. */
  lemma {:induction false} PrefixIsRecorded(depth: nat, events: seq<EngineEvent>)
    requires Run(RecorderMachine(), Queued(Fresh(depth), []), events).Some?
    ensures var q := Run(RecorderMachine(), Queued(Fresh(depth), []), events).value;
            var n, done := |q.state.bookRows|, Effective([], events).0;
            && n + |q.queue| == |Arrived(events)| && q.queue == Arrived(events)[n..]
            && Arrived(done) == Arrived(events)[..n] && q.state.bookRows == RowsFor(done)
  {
    RunIsEffective(RecorderMachine(), Fresh(depth), events);
    var (done, left) := Effective([], events);
    HandledBooksAreRecorded(depth, done);
    DeliveredThenQueued([], events);
    assert Arrived(events) == Arrived(done) + left;
  }

  /** The rows of the books that arrived, all at the precisions of one table. */
  predicate RowsAt(table: Pairs, rows: seq<BS.BookRow>, books: seq<Book>) {
    && |rows| == |books|
    && forall i :: 0 <= i < |rows| ==>
         books[i].symbol in table && rows[i] == BS.PrintBook(books[i], PrecisionOf(table, books[i].symbol).value)
  }

  lemma {:induction false} RowsAtStay(table: Pairs, pairs: seq<Pair>, rows: seq<BS.BookRow>, books: seq<Book>)
    requires RowsAt(table, rows, books) && KeepsPrecisions(table, pairs)
    ensures RowsAt(AfterPairs(table, pairs), rows, books)
  {
    forall i | 0 <= i < |rows|
      ensures books[i].symbol in AfterPairs(table, pairs)
      ensures rows[i] == BS.PrintBook(books[i], PrecisionOf(AfterPairs(table, pairs), books[i].symbol).value)
    {
      PairsStay(table, pairs, books[i].symbol);
      PrecisionKept(table, pairs, books[i].symbol);
    }
  }

  lemma {:induction false} StableRows(depth: nat, events: seq<EngineEvent>)
    requires RunSync(RecorderMachine(), Fresh(depth), events).Some? && StablePrecisions(depth, events)
    ensures var rec := RunSync(RecorderMachine(), Fresh(depth), events).value;
            RowsAt(rec.pairs, rec.bookRows, Arrived(events))
  {
    if events != [] {
      var init, last := events[..|events| - 1], events[|events| - 1];
      StableRows(depth, init);
      var before := RunSync(RecorderMachine(), Fresh(depth), init).value;
      if last.Now? && last.immediate.InstrumentMessage? {
        RowsAtStay(before.pairs, last.immediate.instrument.pairs, before.bookRows, Arrived(init));
      }
    }
  }

  /** If known precisions did not change, all of them are the ones known at the end. */
  lemma {:induction false} StablePrefixIsRecorded(depth: nat, events: seq<EngineEvent>)
    requires Run(RecorderMachine(), Queued(Fresh(depth), []), events).Some?
    requires StablePrecisions(depth, Effective([], events).0)
    ensures var rec := Run(RecorderMachine(), Queued(Fresh(depth), []), events).value.state;
            && |rec.bookRows| <= |Arrived(events)|
            && RowsAt(rec.pairs, rec.bookRows, Arrived(events)[..|rec.bookRows|])
  {
    RunIsEffective(RecorderMachine(), Fresh(depth), events);
    PrefixIsRecorded(depth, events);
    StableRows(depth, Effective([], events).0);
  }
}
