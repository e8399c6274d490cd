/** Replaying a recording: parsing the recorded rows and applying them to a new level book. */
module ReplayModel {
  import opened Parser
  import opened ParserLaws
  import opened OrderedMap
  import opened Buffers
  import opened Decimals
  import opened SidesModel
  import opened LevelBookModel
  import opened RefdataModel
  import opened RecorderModel
  import opened BookSinkModel

  /** All items read, None when one of them does not read. */
  function Collect<A, B>(read: A -> Option<B>, items: seq<A>): (r: Option<seq<B>>)
    ensures r.Some? ==> |r.value| == |items|
  {
    if items == [] then Some([])
    else
      var before, last := Collect(read, items[..|items| - 1]), read(items[|items| - 1]);
      if before.None? || last.None? then None else Some(before.value + [last.value])
  }

  /** A recorded quote; None when one of its texts does not parse. */
  function ReadQuote(): Printed -> Option<Quote> {
    (p: Printed) =>
      if BookDecimal(p.price).None? || BookDecimal(p.qty).None? then None
      else Some(Entry(BookDecimal(p.price).value, BookDecimal(p.qty).value))
  }

  function ReadQuotes(list: seq<Printed>): (quotes: Option<seq<Quote>>)
    ensures quotes.Some? ==> |quotes.value| == |list|
  {
    Collect(ReadQuote(), list)
  }

  function ReadBook(row: BookRow): Option<Book> {
    var bids, asks := ReadQuotes(row.bids), ReadQuotes(row.asks);
    if bids.None? || asks.None? then None
    else Some(Book(row.recvTm, row.kind, bids.value, asks.value, row.crc32, row.symbol, row.timestamp))
  }

  predicate RowAccepted(books: Books, row: BookRow) {
    ReadBook(row).Some? && BookOutcome(books, ReadBook(row).value).Accepted?
  }

  function AfterRow(books: Books, row: BookRow): Books
    requires ReadBook(row).Some?
  {
    AfterBook(books, ReadBook(row).value)
  }

  /** The books after applying recorded rows; None once one does not parse or is rejected. */
  function ReplayRows(books: Books, rows: seq<BookRow>): Option<Books> {
    if rows == [] then Some(books)
    else if RowAccepted(books, rows[0]) then ReplayRows(AfterRow(books, rows[0]), rows[1..])
    else None
  }

  // ---- The replaying program ----

  /** Parses a text into a decimal and copies it into a quote. */
  method ReadDecimal(token: string) returns (decimal: Option<Held>)
    ensures decimal == BookDecimal(token)
  {
    var parsed := Decimal.FromToken(token);
    if parsed.Err? {
      return None;
    }
    ParseShape(token);
    var copy := new Decimal.Copy(parsed.value);
    decimal := Some(copy.State());
  }

  method ReadPrinted(price: string, qty: string) returns (quote: Option<Quote>)
    ensures quote == ReadQuote()(Printed(price, qty))
  {
    var p := ReadDecimal(price);
    if p.None? {
      return None;
    }
    var q := ReadDecimal(qty);
    if q.None? {
      return None;
    }
    return Some(Entry(p.value, q.value));
  }

  method Extract(column: QuoteColumn, ghost n: nat, idx: nat) returns (quotes: Option<seq<Quote>>)
    requires QuotesAligned(column, n) && idx < n
    ensures quotes == ReadQuotes(ListAt(column, n, idx))
  {
    ghost var list := ListAt(column, n, idx);
    var from := ListStart(column.lengths, idx);
    var length := column.lengths[idx];
    var result: seq<Quote> := [];
    var sidx := 0;
    while sidx < length
      invariant 0 <= sidx <= length == |list|
      invariant Collect(ReadQuote(), list[..sidx]) == Some(result)
    {
      ListEntry(column, n, idx, sidx);
      CollectNext(ReadQuote(), list, sidx);
      var quote := ReadPrinted(column.prices[from + sidx], column.qtys[from + sidx]);
      if quote.None? {
        CollectStops(ReadQuote(), list, sidx + 1);
        return None;
      }
      result := result + [quote.value];
      sidx := sidx + 1;
    }
    assert list[..sidx] == list;
    return Some(result);
  }

  method ListStart(lengths: seq<nat>, idx: nat) returns (from: nat)
    requires idx <= |lengths|
    ensures from == Total(lengths[..idx])
  {
    from := 0;
    var i := 0;
    while i < idx
      invariant 0 <= i <= idx && from == Total(lengths[..i])
    {
      assert lengths[..i + 1][..i] == lengths[..i];
      from := from + lengths[i];
      i := i + 1;
    }
  }

  lemma {:induction false} CollectNext<A, B>(read: A -> Option<B>, items: seq<A>, i: nat)
    requires i < |items|
    ensures Collect(read, items[..i + 1]) ==
            if Collect(read, items[..i]).None? || read(items[i]).None? then None
            else Some(Collect(read, items[..i]).value + [read(items[i]).value])
  {
    assert items[..i + 1][..i] == items[..i];
  }

  lemma {:induction false} CollectStops<A, B>(read: A -> Option<B>, items: seq<A>, i: nat)
    requires i <= |items| && Collect(read, items[..i]).None?
    ensures Collect(read, items).None?
    decreases |items| - i
  {
    if i == |items| {
      assert items[..i] == items;
    } else {
      CollectNext(read, items, i);
      CollectStops(read, items, i + 1);
    }
  }

  /** Replays one row; throws when it does not parse or is rejected. */
  method ReplayRow(c: BookColumns, ghost n: nat, idx: nat, levelBook: LevelBook) returns (ok: bool)
    requires Aligned(c, n) && idx < n && levelBook.Valid()
    modifies levelBook.sides.Values
    ensures levelBook.Valid()
    ensures ok <==> RowAccepted(old(levelBook.Contents()), RowAt(c, n, idx))
    ensures ok ==> levelBook.Contents() == AfterRow(old(levelBook.Contents()), RowAt(c, n, idx))
  {
    var bids := Extract(c.bids, n, idx);
    if bids.None? {
      return false;
    }
    var asks := Extract(c.asks, n, idx);
    if asks.None? {
      return false;
    }
    var book := Book(c.recvTms[idx], c.kinds[idx], bids.value, asks.value, c.crcs[idx], c.symbols[idx],
        c.timestamps[idx]);
    assert ReadBook(RowAt(c, n, idx)) == Some(book);
    var outcome := levelBook.AcceptBook(book);
    return outcome.Accepted?;
  }

  /** Replays one batch of the file; throws at the first row that does. */
  method ReplayBatch(batch: Batch, levelBook: LevelBook) returns (ok: bool)
    requires Aligned(batch.columns, batch.numRows) && levelBook.Valid()
    modifies levelBook.sides.Values
    ensures levelBook.Valid()
    ensures var replayed := ReplayRows(old(levelBook.Contents()), RowsOf(batch.columns, batch.numRows));
            (ok <==> replayed.Some?) && (ok ==> levelBook.Contents() == replayed.value)
  {
    var c, n := batch.columns, batch.numRows;
    ghost var rows := RowsOf(c, n);
    ghost var start := levelBook.Contents();
    var idx := 0;
    assert rows[0..] == rows;
    while idx < n
      invariant 0 <= idx <= n && levelBook.Valid()
      invariant ReplayRows(start, rows) == ReplayRows(levelBook.Contents(), rows[idx..])
    {
      ReplayNext(levelBook.Contents(), rows, idx);
      ok := ReplayRow(c, n, idx, levelBook);
      if !ok {
        return;
      }
      idx := idx + 1;
    }
    return true;
  }

  lemma {:induction false} ReplayNext(books: Books, rows: seq<BookRow>, i: nat)
    requires i < |rows|
    ensures ReplayRows(books, rows[i..]) ==
            if RowAccepted(books, rows[i]) then ReplayRows(AfterRow(books, rows[i]), rows[i + 1..]) else None
  {
    assert rows[i..][1..] == rows[i + 1..];
  }

  /** Replays a recording into a new level book: first all its pairs, then its batches in order. */
  method CheckBook(depth: nat, pairs: seq<Pair>, batches: seq<Batch>) returns (ok: bool, levelBook: LevelBook)
    requires BatchesAligned(batches)
    ensures levelBook.Valid() && fresh(levelBook) && fresh(levelBook.sides.Values)
    ensures var replayed := ReplayRows(BooksAfterPairs(map[], depth, pairs), RowsOfBatches(batches));
            (ok <==> replayed.Some?) && (ok ==> levelBook.Contents() == replayed.value)
  {
    levelBook := new LevelBook(depth);
    Recorder.AcceptPairs(levelBook, pairs);
    ghost var start := levelBook.Contents();
    var i := 0;
    assert batches[..0] == [];
    while i < |batches|
      invariant 0 <= i <= |batches|
      invariant levelBook.Valid() && fresh(levelBook.sides.Values)
      invariant ReplayRows(start, RowsOfBatches(batches[..i])) == Some(levelBook.Contents())
    {
      assert batches[..i + 1][..i] == batches[..i];
      ReplayConcat(start, RowsOfBatches(batches[..i]), RowsOf(batches[i].columns, batches[i].numRows));
      ok := ReplayBatch(batches[i], levelBook);
      if !ok {
        ReplayStops(start, batches, i + 1);
        return;
      }
      i := i + 1;
    }
    assert batches[..i] == batches;
    ok := true;
  }

  lemma {:induction false} ReplayConcat(books: Books, a: seq<BookRow>, b: seq<BookRow>)
    ensures ReplayRows(books, a + b) ==
            match ReplayRows(books, a) case None => None case Some(between) => ReplayRows(between, b)
  {
    if a == [] {
      assert a + b == b;
    } else {
      assert (a + b)[1..] == a[1..] + b;
      if RowAccepted(books, a[0]) {
        ReplayConcat(AfterRow(books, a[0]), a[1..], b);
      }
    }
  }

  lemma {:induction false} ReplayStops(books: Books, batches: seq<Batch>, i: nat)
    requires BatchesAligned(batches) && i <= |batches|
    requires ReplayRows(books, RowsOfBatches(batches[..i])).None?
    ensures ReplayRows(books, RowsOfBatches(batches)).None?
    decreases |batches| - i
  {
    if i == |batches| {
      assert batches[..i] == batches;
    } else {
      assert batches[..i + 1][..i] == batches[..i];
      ReplayConcat(books, RowsOfBatches(batches[..i]), RowsOf(batches[i].columns, batches[i].numRows));
      ReplayStops(books, batches, i + 1);
    }
  }
}
