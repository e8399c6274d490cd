/** What a recorder has recorded and knows after its messages, field by field. */
module RecordLaws {
  import opened Parser
  import opened SidesModel
  import opened LevelBookModel
  import opened RefdataModel
  import opened RecorderModel
  import opened Queueing
  import opened EngineModel
  import opened EngineLaws
  import BS = BookSinkModel
  import TS = TradeSinkModel

  // ---- One message ----

  /** An instrument message adds its assets and pairs to their files, in order; the last asset of each id and the last
      pair of each symbol are what is known then; no other file changes. */
  lemma {:induction false} InstrumentMeans(st: RecState, instrument: Instrument, id: string, symbol: string)
    ensures var after := AfterInstrument(st, instrument);
            var a, p := LastAsset(instrument.assets, id), LastPair(instrument.pairs, symbol);
            && after.assetRows == st.assetRows + instrument.assets && after.pairRows == st.pairRows + instrument.pairs
            && (a >= 0 ==> id in after.assets && after.assets[id] == instrument.assets[a])
            && (a < 0 ==> (id in after.assets <==> id in st.assets)
                          && (id in st.assets ==> after.assets[id] == st.assets[id]))
            && (p >= 0 ==> PrecisionOf(after.pairs, symbol) ==
                           Some(Precision(instrument.pairs[p].pricePrecision, instrument.pairs[p].qtyPrecision)))
            && (p < 0 ==> PrecisionOf(after.pairs, symbol) == PrecisionOf(st.pairs, symbol))
            && after.bookRows == st.bookRows && after.tradeRows == st.tradeRows && after.depth == st.depth
  {
    LatestAssetIsKept(st.assets, instrument.assets, id);
    LookupIsLatest(st.pairs, instrument.pairs, symbol);
  }

  /** A book message of a known symbol adds its row, also when the level book then rejects it; one of an unknown symbol
      changes nothing; only the books and their file change. */
  lemma {:induction false} BookMeans(st: RecState, book: Book)
    ensures var after := AfterBookMessage(st, book);
            && after == st.(bookRows := after.bookRows, books := after.books)
            && (book.symbol !in st.pairs ==> after == st)
            && (book.symbol in st.pairs ==>
                  var pair := st.pairs[book.symbol];
                  && |after.bookRows| == |st.bookRows| + 1 && st.bookRows <= after.bookRows
                  && BS.RowIsOf(after.bookRows[|st.bookRows|], book, Precision(pair.pricePrecision, pair.qtyPrecision))
                  && after.books == AfterBook(st.books, book))
  {
    if book.symbol in st.pairs {
      BS.PrintBookMeans(book, Precision(st.pairs[book.symbol].pricePrecision, st.pairs[book.symbol].qtyPrecision));
    }
  }

  /** A trade message adds the rows of its trades before the first of an unknown symbol, and changes nothing else. */
  lemma {:induction false} TradesMean(st: RecState, message: TS.Trades)
    ensures var after := AfterTrades(st, message);
            && after == st.(tradeRows := after.tradeRows) && st.tradeRows <= after.tradeRows
            && TS.RowsAreOf(after.tradeRows[|st.tradeRows|..], st.pairs, message)
  {
    TS.PrintTradesMean(st.pairs, message);
    var rows := TS.PrintTrades(st.pairs, message);
    assert (st.tradeRows + rows)[|st.tradeRows|..] == rows;
  }

  // ---- Runs ----

  /** A trade, with its message's time and the precisions its symbol had when it arrived. */
  datatype ArrivedTrade = ArrivedTrade(recvTm: int, trade: TS.Trade, precision: Option<Precision>)

  function WithPrecisions(events: seq<EngineEvent>, message: TS.Trades): (trades: seq<ArrivedTrade>)
    ensures |trades| == |message.trades|
  {
    seq(|message.trades|, i requires 0 <= i < |message.trades| =>
      ArrivedTrade(message.recvTm, message.trades[i], LatestPrecision(events, message.trades[i].symbol)))
  }

  function ArrivedTrades(events: seq<EngineEvent>): seq<ArrivedTrade> {
    if events == [] then []
    else
      var init, last := events[..|events| - 1], events[|events| - 1];
      if last.Now? && last.immediate.TradesMessage? then
        ArrivedTrades(init) + WithPrecisions(init, last.immediate.trades)
      else ArrivedTrades(init)
  }

  predicate TradeRowsAreOf(rows: seq<TS.TradeRow>, trades: seq<ArrivedTrade>) {
    && |rows| == |trades|
    && forall i :: 0 <= i < |rows| ==>
         trades[i].precision.Some?
         && TS.RowIsOf(rows[i], trades[i].recvTm, trades[i].trade, trades[i].precision.value)
  }

  function TradePart(): RecState -> (Pairs, seq<TS.TradeRow>) {
    (st: RecState) => (st.pairs, st.tradeRows)
  }

  /** Ticks change neither the known precisions nor the trades. */
  lemma {:induction false} TickKeepsTrades(st: RecState, queue: seq<Book>)
    requires Deliver(RecorderMachine(), st, queue).ok
    ensures TradePart()(Deliver(RecorderMachine(), st, queue).state) == TradePart()(st)
  {
    DeliverKeeps(RecorderMachine(), TradePart(), st, queue);
  }

  lemma {:induction false} TableIsLatestOnArrival(depth: nat, events: seq<EngineEvent>, symbol: string)
    requires Run(RecorderMachine(), Queued(Fresh(depth), []), events).Some?
    ensures PrecisionOf(Run(RecorderMachine(), Queued(Fresh(depth), []), events).value.state.pairs, symbol) ==
            LatestPrecision(events, symbol)
  {
    if events != [] {
      var init, last := events[..|events| - 1], events[|events| - 1];
      TableIsLatestOnArrival(depth, init, symbol);
      var q := Run(RecorderMachine(), Queued(Fresh(depth), []), init).value;
      if last.Tick? {
        TickKeepsTrades(q.state, q.queue[..BatchOf(q.queue)]);
      } else if last.Now? && last.immediate.InstrumentMessage? {
        LookupIsLatest(q.state.pairs, last.immediate.instrument.pairs, symbol);
      }
    }
  }

  lemma {:induction false} TradeRowsConcat(a: seq<TS.TradeRow>, b: seq<TS.TradeRow>, x: seq<ArrivedTrade>,
      y: seq<ArrivedTrade>)
    requires TradeRowsAreOf(a, x) && TradeRowsAreOf(b, y)
    ensures TradeRowsAreOf(a + b, x + y)
  {
  }

  lemma {:induction false} MessageTradeRows(table: Pairs, events: seq<EngineEvent>, message: TS.Trades)
    requires TS.KnownTrades(table, message.trades) == |message.trades|
    requires forall i :: 0 <= i < |message.trades| ==>
               PrecisionOf(table, message.trades[i].symbol) == LatestPrecision(events, message.trades[i].symbol)
    ensures TradeRowsAreOf(TS.PrintTrades(table, message), WithPrecisions(events, message))
  {
    var rows, trades := TS.PrintTrades(table, message), WithPrecisions(events, message);
    TS.PrintTradesMean(table, message);
    forall i | 0 <= i < |rows|
      ensures trades[i].precision.Some?
      ensures TS.RowIsOf(rows[i], trades[i].recvTm, trades[i].trade, trades[i].precision.value)
    {
      assert trades[i].precision == PrecisionOf(table, message.trades[i].symbol);
    }
  }

  /** After any events that fail nowhere, the trade file holds exactly the trades that arrived, in order, each
      printed at the precisions its symbol had then, whatever the queue of books did meanwhile. */
  lemma {:induction false} ArrivedTradesAreRecorded(depth: nat, events: seq<EngineEvent>)
    requires Run(RecorderMachine(), Queued(Fresh(depth), []), events).Some?
    ensures TradeRowsAreOf(Run(RecorderMachine(), Queued(Fresh(depth), []), events).value.state.tradeRows,
                           ArrivedTrades(events))
  {
    if events != [] {
      var init, last := events[..|events| - 1], events[|events| - 1];
      ArrivedTradesAreRecorded(depth, init);
      var q := Run(RecorderMachine(), Queued(Fresh(depth), []), init).value;
      if last.Tick? {
        TickKeepsTrades(q.state, q.queue[..BatchOf(q.queue)]);
      } else if last.Now? && last.immediate.TradesMessage? {
        var message := last.immediate.trades;
        forall i | 0 <= i < |message.trades|
          ensures PrecisionOf(q.state.pairs, message.trades[i].symbol) ==
                  LatestPrecision(init, message.trades[i].symbol)
        {
          TableIsLatestOnArrival(depth, init, message.trades[i].symbol);
        }
        MessageTradeRows(q.state.pairs, init, message);
        TradeRowsConcat(q.state.tradeRows, TS.PrintTrades(q.state.pairs, message), ArrivedTrades(init),
                        WithPrecisions(init, message));
      }
    }
  }

  /** The books among some events, with the precisions their symbols had just then. */
  function HandledBooks(events: seq<EngineEvent>): (books: seq<(Book, Option<Precision>)>) {
    if events == [] then []
    else
      var init, last := events[..|events| - 1], events[|events| - 1];
      if last.Later? then HandledBooks(init) + [(last.book, LatestPrecision(init, last.book.symbol))]
      else HandledBooks(init)
  }

  predicate BookRowsAreOf(rows: seq<BS.BookRow>, books: seq<(Book, Option<Precision>)>) {
    && |rows| == |books|
    && forall i :: 0 <= i < |rows| ==> books[i].1.Some? && BS.RowIsOf(rows[i], books[i].0, books[i].1.value)
  }

  /** Every book that is handled has its row, with all its fields, at the precisions in force. */
  lemma {:induction false} BookRowsMean(depth: nat, events: seq<EngineEvent>)
    requires RunSync(RecorderMachine(), Fresh(depth), events).Some?
    ensures BookRowsAreOf(RunSync(RecorderMachine(), Fresh(depth), events).value.bookRows, HandledBooks(events))
  {
    if events != [] {
      var init, last := events[..|events| - 1], events[|events| - 1];
      BookRowsMean(depth, init);
      if last.Later? {
        TableIsLatest(depth, init, last.book.symbol);
        BS.PrintBookMeans(last.book, LatestPrecision(init, last.book.symbol).value);
      }
    }
  }

  /** The same of the engine, for the books it has delivered. */
  lemma {:induction false} DeliveredRowsMean(depth: nat, events: seq<EngineEvent>)
    requires Run(RecorderMachine(), Queued(Fresh(depth), []), events).Some?
    ensures BookRowsAreOf(Run(RecorderMachine(), Queued(Fresh(depth), []), events).value.state.bookRows,
                          HandledBooks(Effective([], events).0))
  {
    RunIsEffective(RecorderMachine(), Fresh(depth), events);
    BookRowsMean(depth, Effective([], events).0);
  }
}
