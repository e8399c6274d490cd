/** A recording replays to the book that was live when it was made. */
module ReplayLaws {
  import opened View
  import opened Parser
  import opened ParserLaws
  import opened Printer
  import opened Buffers
  import opened BufferLaws
  import opened SidesModel
  import opened SidesLaws
  import opened LevelBookModel
  import opened SpellingLaws
  import opened RefdataModel
  import opened RecorderModel
  import opened EngineModel
  import opened Queueing
  import opened EngineLaws
  import opened BookSinkModel
  import opened ReplayModel

  // ---- Printing and reading a message ----

  /** A sound decimal whose print at a precision drops no digit and does not wrap. */
  predicate Recordable(d: Held, p: nat) {
    var printed := Str(TextOf(d), p);
    && Sound(d, p) && ExactAt(Num(TextOf(d)), p)
    && IsNumeral(printed) && |printed| <= MAX_CHARS && !Wraps(printed)
  }

  lemma {:induction false} PrintFits(d: Held, p: nat)
    requires d.Fits(p)
    ensures IsNumeral(Str(TextOf(d), p)) && |Str(TextOf(d), p)| <= MAX_CHARS
    ensures IntPart(Str(TextOf(d), p)) == IntPart(TextOf(d))
    ensures FindPoint(Str(TextOf(d), p)) < |Str(TextOf(d), p)|
  {
    StrParts(TextOf(d), p);
  }

  /** In particular the copy of a token of at most 19 integer digits and as many fraction digits as a precision of
      at most 19 allows. */
  lemma {:induction false} OrdinaryIsRecordable(t: Text, p: nat)
    requires |IntPart(t)| <= 19 && |FracPart(t)| <= p <= 19
    ensures BookDecimal(t).Some? && Recordable(BookDecimal(t).value, p)
  {
    ShortPartsDoNotWrap(t);
    KeepOneValue(IntPart(t));
    TokenIsSound(t, p);
    FewDigitsExact(t, p);
    var d := BookDecimal(t).value;
    PrintFits(d, p);
    StrParts(TextOf(d), p);
    ShortPartsDoNotWrap(Str(TextOf(d), p));
  }

  /** What is read back from the print of a recordable decimal is sound and has its value. */
  lemma {:induction false} ReadsBack(d: Held, p: nat)
    requires Recordable(d, p)
    ensures var r := BookDecimal(Str(TextOf(d), p));
            r.Some? && Num(TextOf(r.value)) == Num(TextOf(d)) && Sound(r.value, p)
  {
    PrintFits(d, p);
    PrintThenParse(TextOf(d), p);
    KeepOneValue(IntPart(TextOf(d)));
    TokenIsSound(Str(TextOf(d), p), p);
  }

  predicate RecordableQuotes(quotes: seq<Quote>, precision: Precision) {
    forall i :: 0 <= i < |quotes| ==>
      Recordable(quotes[i].key, precision.price) && Recordable(quotes[i].value, precision.qty)
  }

  predicate RecordableBook(book: Book, precision: Precision) {
    RecordableQuotes(book.bids, precision) && RecordableQuotes(book.asks, precision)
  }

  lemma {:induction false} CollectAll<A, B>(read: A -> Option<B>, items: seq<A>)
    requires forall i :: 0 <= i < |items| ==> read(items[i]).Some?
    ensures Collect(read, items).Some?
    ensures forall i :: 0 <= i < |items| ==> Collect(read, items).value[i] == read(items[i]).value
  {
    if items != [] {
      CollectAll(read, items[..|items| - 1]);
    }
  }

  /** What one quote is read back as. */
  predicate SameQuote(q: Quote, r: Option<Quote>, precision: Precision) {
    && r.Some? && Sound(r.value.key, precision.price) && Sound(r.value.value, precision.qty)
    && Num(TextOf(r.value.key)) == Num(TextOf(q.key)) && Num(TextOf(r.value.value)) == Num(TextOf(q.value))
  }

  lemma {:induction false} QuoteReadsBack(q: Quote, precision: Precision)
    requires Recordable(q.key, precision.price) && Recordable(q.value, precision.qty)
    ensures SameQuote(q, ReadQuote()(PrintAt(precision)(q)), precision)
  {
    ReadsBack(q.key, precision.price);
    ReadsBack(q.value, precision.qty);
  }

  lemma {:induction false} SameQuotes(quotes: seq<Quote>, list: seq<Printed>, precision: Precision)
    requires |list| == |quotes|
    requires forall i :: 0 <= i < |quotes| ==> SameQuote(quotes[i], ReadQuote()(list[i]), precision)
    ensures ReadQuotes(list).Some? && NumSide(ReadQuotes(list).value) == NumSide(quotes)
    ensures SoundSide(ReadQuotes(list).value, precision.price, precision.qty)
  {
    forall i | 0 <= i < |list|
      ensures ReadQuote()(list[i]).Some?
    {
      assert SameQuote(quotes[i], ReadQuote()(list[i]), precision);
    }
    CollectAll(ReadQuote(), list);
    var read := ReadQuotes(list).value;
    forall i | 0 <= i < |list|
      ensures SoundAt(precision.price)(read[i].key) && SoundAt(precision.qty)(read[i].value)
      ensures NumSide(read)[i] == NumSide(quotes)[i]
    {
      assert SameQuote(quotes[i], ReadQuote()(list[i]), precision);
    }
  }

  lemma {:induction false} QuotesReadBack(quotes: seq<Quote>, precision: Precision)
    requires RecordableQuotes(quotes, precision)
    ensures var list := PrintAll(PrintAt(precision), quotes);
            && ReadQuotes(list).Some? && NumSide(ReadQuotes(list).value) == NumSide(quotes)
            && SoundSide(ReadQuotes(list).value, precision.price, precision.qty)
  {
    var list := PrintAll(PrintAt(precision), quotes);
    forall i | 0 <= i < |quotes|
      ensures SameQuote(quotes[i], ReadQuote()(list[i]), precision)
    {
      QuoteReadsBack(quotes[i], precision);
    }
    SameQuotes(quotes, list, precision);
  }

  lemma {:induction false} RecordableIsSound(book: Book, precision: Precision)
    requires RecordableBook(book, precision)
    ensures SoundBook(book, precision.price, precision.qty)
  {
  }

  lemma {:induction false} ReadParts(row: BookRow)
    requires ReadQuotes(row.bids).Some? && ReadQuotes(row.asks).Some?
    ensures ReadBook(row) == Some(Book(row.recvTm, row.kind, ReadQuotes(row.bids).value, ReadQuotes(row.asks).value,
                                       row.crc32, row.symbol, row.timestamp))
  {
  }

  /** A recordable message reads back from its row up to spelling, in sound decimals. */
  lemma {:induction false} BookReadsBack(book: Book, precision: Precision)
    requires RecordableBook(book, precision)
    ensures ReadBook(PrintBook(book, precision)).Some?
    ensures SameMessage(book, ReadBook(PrintBook(book, precision)).value)
    ensures SoundBook(ReadBook(PrintBook(book, precision)).value, precision.price, precision.qty)
  {
    QuotesReadBack(book.bids, precision);
    QuotesReadBack(book.asks, precision);
    ReadParts(PrintBook(book, precision));
  }

  // ---- Replaying what was delivered ----

  predicate RecordableIn(table: Pairs, book: Book) {
    book.symbol in table ==> RecordableBook(book, PrecisionOf(table, book.symbol).value)
  }

  predicate AllRecordable(table: Pairs, books: seq<Book>) {
    forall i :: 0 <= i < |books| ==> RecordableIn(table, books[i])
  }

  /** The recorded rows replay, onto some books, to the live books. */
  predicate Replays(base: Books, st: RecState) {
    var replayed := ReplayRows(base, st.bookRows);
    replayed.Some? && SameBooks(st.books, replayed.value)
  }

  /** The precisions of a table. */
  function LimitsOf(table: Pairs): Limits {
    (symbol: string) => if symbol in table then PrecisionOf(table, symbol).value else Precision(0, 0)
  }

  /** They do, and both hold sound decimals only. */
  predicate ReplaysSoundly(base: Books, st: RecState) {
    var replayed := ReplayRows(base, st.bookRows);
    replayed.Some? && AlikeBooks(st.books, replayed.value, LimitsOf(st.pairs))
  }

  /** They still do when one more message has been recorded and accepted. */
  lemma {:induction false} AcceptedRowReplays(base: Books, st: RecState, book: Book)
    requires ReplaysSoundly(base, st) && BookAccepted(st, book) && RecordableIn(st.pairs, book)
    ensures ReplaysSoundly(base, AfterBookMessage(st, book))
  {
    var precision := PrecisionOf(st.pairs, book.symbol).value;
    var row, replayed := PrintBook(book, precision), ReplayRows(base, st.bookRows).value;
    RecordableIsSound(book, precision);
    BookReadsBack(book, precision);
    AlikeStep(st.books, replayed, book, ReadBook(row).value, LimitsOf(st.pairs));
    ReplayConcat(base, st.bookRows, [row]);
    OneRow(replayed, row);
  }

  lemma {:induction false} OneRow(books: Books, row: BookRow)
    ensures ReplayRows(books, [row]) == if RowAccepted(books, row) then Some(AfterRow(books, row)) else None
  {
    assert [row][1..] == [];
  }

  /** So do the rows of any delivered messages. */
  lemma {:induction false} DeliveredReplays(base: Books, st: RecState, queue: seq<Book>)
    requires Deliver(RecorderMachine(), st, queue).ok
    requires ReplaysSoundly(base, st) && AllRecordable(st.pairs, queue)
    ensures ReplaysSoundly(base, Deliver(RecorderMachine(), st, queue).state)
  {
    var table := st.pairs;
    var inv := (s: RecState) => s.pairs == table && ReplaysSoundly(base, s);
    var good := (book: Book) => RecordableIn(table, book);
    forall s: RecState, book: Book | inv(s) && good(book) && RecorderMachine().accepts(s, book)
      ensures inv(RecorderMachine().deliver(s, book))
    {
      AcceptedRowReplays(base, s, book);
    }
    DeliverInvariant(RecorderMachine(), inv, good, st, queue);
  }

  /** Books that nothing was delivered to hold no decimal. */
  lemma {:induction false} NewBooksAreSound(depth: nat, pairs: seq<Pair>, symbol: string)
    ensures var books := BooksAfterPairs(map[], depth, pairs);
            symbol in books ==> books[symbol].bids == [] && books[symbol].asks == []
  {
    if pairs != [] {
      NewBooksAreSound(depth, pairs[..|pairs| - 1], symbol);
    }
  }

  lemma {:induction false} NewBooksReplay(depth: nat, st: RecState)
    requires st.books == BooksAfterPairs(map[], depth, st.pairRows) && st.bookRows == [] && Agree(st.pairs, st.books)
    ensures ReplaysSoundly(st.books, st)
  {
    forall s | s in st.books
      ensures Alike(st.books[s], st.books[s], LimitsOf(st.pairs)(s))
    {
      NewBooksAreSound(depth, st.pairRows, s);
    }
  }

  // ---- Instruments first, books afterwards ----

  function WithoutTicks(events: seq<EngineEvent>): seq<EngineEvent> {
    if events == [] then []
    else
      var before, last := WithoutTicks(events[..|events| - 1]), events[|events| - 1];
      if last.Tick? then before else before + [last]
  }

  /** Handling on arrival ignores ticks. */
  lemma {:induction false} TicksDoNotCount(depth: nat, events: seq<EngineEvent>)
    ensures RunSync(RecorderMachine(), Fresh(depth), WithoutTicks(events)) ==
            RunSync(RecorderMachine(), Fresh(depth), events)
    ensures StablePrecisions(depth, events) ==> StablePrecisions(depth, WithoutTicks(events))
    ensures Arrived(WithoutTicks(events)) == Arrived(events)
  {
    if events != [] {
      var init, last := events[..|events| - 1], events[|events| - 1];
      TicksDoNotCount(depth, init);
      if !last.Tick? {
        assert WithoutTicks(events)[..|WithoutTicks(init)|] == WithoutTicks(init);
      }
    }
  }

  lemma {:induction false} PairsConcat(books: Books, depth: nat, a: seq<Pair>, b: seq<Pair>)
    ensures BooksAfterPairs(books, depth, a + b) == BooksAfterPairs(BooksAfterPairs(books, depth, a), depth, b)
  {
    if b == [] {
      assert a + b == a;
    } else {
      PairsConcat(books, depth, a, b[..|b| - 1]);
      assert (a + b)[..|a + b| - 1] == a + b[..|b| - 1];
    }
  }

  /** Without ticks nothing is delivered: the books are empty and as the recorded pairs make them. */
  lemma {:induction false} NothingDelivered(depth: nat, events: seq<EngineEvent>)
    requires Run(RecorderMachine(), Queued(Fresh(depth), []), WithoutTicks(events)).Some?
    ensures var q := Run(RecorderMachine(), Queued(Fresh(depth), []), WithoutTicks(events)).value;
            && q.queue == Arrived(events) && q.state.bookRows == [] && q.state.depth == depth
            && q.state.books == BooksAfterPairs(map[], depth, q.state.pairRows)
  {
    if events != [] {
      var init, last := events[..|events| - 1], events[|events| - 1];
      if !last.Tick? {
        assert WithoutTicks(events)[..|WithoutTicks(init)|] == WithoutTicks(init);
      }
      NothingDelivered(depth, init);
      if last.Now? && last.immediate.InstrumentMessage? {
        var q := Run(RecorderMachine(), Queued(Fresh(depth), []), WithoutTicks(init)).value;
        PairsConcat(map[], depth, q.state.pairRows, last.immediate.instrument.pairs);
      }
    }
  }

  /** A recording made without failure, of messages whose decimals print exactly at the precisions of
      their pairs, replays into a new level book: every checksum is confirmed, and the books end with
      the numbers the live ones had. */
  lemma {:induction false} RecordingReplays(depth: nat, events: seq<EngineEvent>)
    requires RunSync(RecorderMachine(), Fresh(depth), events).Some? && StablePrecisions(depth, events)
    requires AllRecordable(RunSync(RecorderMachine(), Fresh(depth), events).value.pairs, Arrived(events))
    ensures var rec := RunSync(RecorderMachine(), Fresh(depth), events).value;
            Replays(BooksAfterPairs(map[], depth, rec.pairRows), rec)
  {
    var quiet := WithoutTicks(events);
    TicksDoNotCount(depth, events);
    DeferredRefinesSynchronous(depth, quiet);
    NothingDelivered(depth, events);
    var q := Run(RecorderMachine(), Queued(Fresh(depth), []), quiet).value;
    var rec := RunSync(RecorderMachine(), Fresh(depth), events).value;
    DeliverKeeps(RecorderMachine(), (st: RecState) => (st.pairs, st.pairRows), q.state, q.queue);
    NewBooksReplay(depth, q.state);
    DeliveredReplays(q.state.books, q.state, q.queue);
  }

  /** The same for the engine, stopped after any events: what it has recorded so far replays to the book
      it has at that moment, whatever is still queued. */
  lemma {:induction false} EngineRecordingReplays(depth: nat, events: seq<EngineEvent>)
    requires Run(RecorderMachine(), Queued(Fresh(depth), []), events).Some?
    requires StablePrecisions(depth, Effective([], events).0)
    requires AllRecordable(Run(RecorderMachine(), Queued(Fresh(depth), []), events).value.state.pairs,
                           Arrived(Effective([], events).0))
    ensures var rec := Run(RecorderMachine(), Queued(Fresh(depth), []), events).value.state;
            Replays(BooksAfterPairs(map[], depth, rec.pairRows), rec)
  {
    RunIsEffective(RecorderMachine(), Fresh(depth), events);
    RecordingReplays(depth, Effective([], events).0);
  }

  method CloseFile(recorder: Recorder)
    requires recorder.Valid()
    modifies recorder.bookSink
    ensures recorder.Valid() && recorder.State() == old(recorder.State())
    ensures RowsOfBatches(recorder.bookSink.written) == recorder.State().bookRows
  {
    recorder.bookSink.Close();
  }

  /** Ending a recording and checking it: the file is closed, and the replay confirms every checksum. */
  method CloseAndCheck(recorder: Recorder, ghost depth: nat, ghost events: seq<EngineEvent>)
    returns (ok: bool, levelBook: LevelBook)
    requires recorder.Valid()
    requires StablePrecisions(depth, events)
    requires RunSync(RecorderMachine(), Fresh(depth), events) == Some(recorder.State())
    requires AllRecordable(recorder.State().pairs, Arrived(events))
    modifies recorder.bookSink
    ensures recorder.Valid() && recorder.State() == old(recorder.State())
    ensures ok && levelBook.Valid() && SameBooks(recorder.State().books, levelBook.Contents())
  {
    DepthStays(depth, events);
    RecordingReplays(depth, events);
    CloseFile(recorder);
    ok, levelBook := CheckBook(recorder.levelBook.bookDepth, recorder.pairRows, recorder.bookSink.written);
  }

  lemma {:induction false} DepthStays(depth: nat, events: seq<EngineEvent>)
    requires RunSync(RecorderMachine(), Fresh(depth), events).Some?
    ensures RunSync(RecorderMachine(), Fresh(depth), events).value.depth == depth
  {
    if events != [] {
      DepthStays(depth, events[..|events| - 1]);
    }
  }

  /** A recording from the start: the engine handles arrivals and ticks until one fails. */
  method Record(depth: nat, events: seq<EngineEvent>) returns (ok: bool, live: Recorder, ghost queue: seq<Book>)
    ensures live.Valid() && fresh(live.Repr())
    ensures Run(RecorderMachine(), Queued(Fresh(depth), []), events) ==
            if ok then Some(Queued(live.State(), queue)) else None
  {
    live := new Recorder(depth);
    var engine := new Engine(live);
    assert engine.State() == Queued(Fresh(depth), []);
    ok := engine.HandleEvents(events);
    queue := engine.queue;
  }

  /** The events of a run at stable precisions, of recordable messages. */
  ghost predicate RunIsRecordable(depth: nat, events: seq<EngineEvent>) {
    var run, done := Run(RecorderMachine(), Queued(Fresh(depth), []), events), Effective([], events).0;
    run.Some? ==> StablePrecisions(depth, done) && AllRecordable(run.value.state.pairs, Arrived(done))
  }

  /** Recording, closing the file and checking it: the replay confirms what was recorded, whatever is still queued. */
  method RecordAndCheck(depth: nat, events: seq<EngineEvent>)
    returns (recorded: bool, ok: bool, live: Recorder, levelBook: LevelBook)
    requires RunIsRecordable(depth, events)
    ensures recorded <==> Run(RecorderMachine(), Queued(Fresh(depth), []), events).Some?
    ensures live.Valid() && levelBook.Valid()
    ensures recorded ==> ok && SameBooks(live.State().books, levelBook.Contents())
    ensures recorded ==> live.State() == Run(RecorderMachine(), Queued(Fresh(depth), []), events).value.state
  {
    ghost var queue;
    recorded, live, queue := Record(depth, events);
    if !recorded {
      ok := false;
      levelBook := new LevelBook(depth);
      return;
    }
    RunIsEffective(RecorderMachine(), Fresh(depth), events);
    ok, levelBook := CloseAndCheck(live, depth, Effective([], events).0);
  }
}
