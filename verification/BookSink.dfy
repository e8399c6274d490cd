/** The recorder's book sink: parallel column builders, flushed to the file in batches. */
module BookSinkModel {
  import opened Printer
  import opened Buffers
  import opened SidesModel
  import opened RefdataModel

  const FLUSH_THRESHOLD: nat := 4096

  datatype Printed = Printed(price: string, qty: string)

  /** One recorded book message. */
  datatype BookRow = BookRow(recvTm: int, kind: string, bids: seq<Printed>, asks: seq<Printed>,
                             crc32: bv64, symbol: string, timestamp: int)

  /** A column of lists: how long each list is, and the entries of all lists one after the other. */
  datatype QuoteColumn = QuoteColumn(lengths: seq<nat>, prices: seq<string>, qtys: seq<string>)

  datatype BookColumns = BookColumns(recvTms: seq<int>, kinds: seq<string>, bids: QuoteColumn, asks: QuoteColumn,
                                     crcs: seq<bv64>, symbols: seq<string>, timestamps: seq<int>)

  datatype Batch = Batch(numRows: nat, columns: BookColumns)

  function Total(lengths: seq<nat>): nat {
    if lengths == [] then 0 else Total(lengths[..|lengths| - 1]) + lengths[|lengths| - 1]
  }

  lemma {:induction false} TotalGrows(lengths: seq<nat>, i: nat)
    requires i < |lengths|
    ensures Total(lengths[..i]) + lengths[i] <= Total(lengths)
    decreases |lengths|
  {
    var init := lengths[..|lengths| - 1];
    if i < |lengths| - 1 {
      TotalGrows(init, i);
      assert init[..i] == lengths[..i];
    }
  }

  predicate QuotesAligned(column: QuoteColumn, n: nat) {
    |column.lengths| == n && |column.prices| == |column.qtys| == Total(column.lengths)
  }

  /** The i-th list of a column. */
  function ListAt(column: QuoteColumn, n: nat, i: nat): (list: seq<Printed>)
    requires QuotesAligned(column, n) && i < n
    ensures |list| == column.lengths[i]
    ensures Total(column.lengths[..i]) + column.lengths[i] <= |column.prices|
  {
    TotalGrows(column.lengths, i);
    var from := Total(column.lengths[..i]);
    seq(column.lengths[i], k requires 0 <= k < column.lengths[i] => Printed(column.prices[from + k],
        column.qtys[from + k]))
  }

  lemma {:induction false} ListEntry(column: QuoteColumn, n: nat, i: nat, k: nat)
    requires QuotesAligned(column, n) && i < n && k < column.lengths[i]
    ensures Total(column.lengths[..i]) + k < |column.prices|
    ensures ListAt(column, n, i)[k] ==
            Printed(column.prices[Total(column.lengths[..i]) + k], column.qtys[Total(column.lengths[..i]) + k])
  {
    TotalGrows(column.lengths, i);
  }

  predicate Aligned(columns: BookColumns, n: nat) {
    && |columns.recvTms| == |columns.kinds| == |columns.crcs| == |columns.symbols| == |columns.timestamps| == n
    && QuotesAligned(columns.bids, n) && QuotesAligned(columns.asks, n)
  }

  function RowAt(columns: BookColumns, n: nat, i: nat): BookRow
    requires Aligned(columns, n) && i < n
  {
    BookRow(columns.recvTms[i], columns.kinds[i], ListAt(columns.bids, n, i), ListAt(columns.asks, n, i),
            columns.crcs[i], columns.symbols[i], columns.timestamps[i])
  }

  function RowsOf(columns: BookColumns, n: nat): (rows: seq<BookRow>)
    requires Aligned(columns, n)
    ensures |rows| == n && forall i :: 0 <= i < n ==> rows[i] == RowAt(columns, n, i)
  {
    seq(n, i requires 0 <= i < n => RowAt(columns, n, i))
  }

  predicate BatchesAligned(batches: seq<Batch>) {
    forall i :: 0 <= i < |batches| ==> Aligned(batches[i].columns, batches[i].numRows)
  }

  function RowsOfBatches(batches: seq<Batch>): seq<BookRow>
    requires BatchesAligned(batches)
  {
    if batches == [] then []
    else
      var last := batches[|batches| - 1];
      RowsOfBatches(batches[..|batches| - 1]) + RowsOf(last.columns, last.numRows)
  }

  /** How a quote prints at a precision. */
  function PrintAt(precision: Precision): Quote -> Printed {
    (q: Quote) => Printed(Str(TextOf(q.key), precision.price), Str(TextOf(q.value), precision.qty))
  }

  function PrintAll<T>(format: T -> Printed, items: seq<T>): (printed: seq<Printed>)
    ensures |printed| == |items|
    ensures forall i :: 0 <= i < |items| ==> printed[i] == format(items[i])
  {
    seq(|items|, i requires 0 <= i < |items| => format(items[i]))
  }

  /** The row recorded for a message. */
  function PrintBook(book: Book, precision: Precision): BookRow {
    BookRow(book.recvTm, book.kind, PrintAll(PrintAt(precision), book.bids), PrintAll(PrintAt(precision), book.asks),
            book.crc32, book.symbol, book.timestamp)
  }

  /** What the list of some quotes has to be. */
  predicate ListIsOf(list: seq<Printed>, quotes: seq<Quote>, precision: Precision) {
    && |list| == |quotes|
    && forall i :: 0 <= i < |list| ==>
         && PrintsAs(list[i].price, quotes[i].key, precision.price)
         && PrintsAs(list[i].qty, quotes[i].value, precision.qty)
  }

  /** What the row of a message has to be. */
  predicate RowIsOf(row: BookRow, book: Book, precision: Precision) {
    && row.recvTm == book.recvTm && row.kind == book.kind && row.crc32 == book.crc32
    && row.symbol == book.symbol && row.timestamp == book.timestamp
    && ListIsOf(row.bids, book.bids, precision) && ListIsOf(row.asks, book.asks, precision)
  }

  lemma {:induction false} PrintAllMeans(quotes: seq<Quote>, precision: Precision)
    ensures ListIsOf(PrintAll(PrintAt(precision), quotes), quotes, precision)
  {
    forall i | 0 <= i < |quotes|
      ensures PrintsAs(PrintAll(PrintAt(precision), quotes)[i].price, quotes[i].key, precision.price)
      ensures PrintsAs(PrintAll(PrintAt(precision), quotes)[i].qty, quotes[i].value, precision.qty)
    {
      StrPrintsAs(quotes[i].key, precision.price);
      StrPrintsAs(quotes[i].value, precision.qty);
    }
  }

  /** The recorded row has every field of its message, and its prices and quantities cut to their precisions. */
  lemma {:induction false} PrintBookMeans(book: Book, precision: Precision)
    ensures RowIsOf(PrintBook(book, precision), book, precision)
  {
    PrintAllMeans(book.bids, precision);
    PrintAllMeans(book.asks, precision);
  }

  function Prices(list: seq<Printed>): (prices: seq<string>)
    ensures |prices| == |list| && forall k :: 0 <= k < |list| ==> prices[k] == list[k].price
  {
    seq(|list|, k requires 0 <= k < |list| => list[k].price)
  }

  function Qtys(list: seq<Printed>): (qtys: seq<string>)
    ensures |qtys| == |list| && forall k :: 0 <= k < |list| ==> qtys[k] == list[k].qty
  {
    seq(|list|, k requires 0 <= k < |list| => list[k].qty)
  }

  function WithList(column: QuoteColumn, list: seq<Printed>): QuoteColumn {
    QuoteColumn(column.lengths + [|list|], column.prices + Prices(list), column.qtys + Qtys(list))
  }

  lemma {:induction false} WithListAligned(column: QuoteColumn, n: nat, list: seq<Printed>)
    requires QuotesAligned(column, n)
    ensures QuotesAligned(WithList(column, list), n + 1)
  {
    assert (column.lengths + [|list|])[..n] == column.lengths;
  }

  /** Appending a list leaves the earlier lists as they are and adds this one. */
  lemma {:induction false} WithListAt(column: QuoteColumn, n: nat, list: seq<Printed>, i: nat)
    requires QuotesAligned(column, n) && QuotesAligned(WithList(column, list), n + 1) && i <= n
    ensures ListAt(WithList(column, list), n + 1, i) == if i < n then ListAt(column, n, i) else list
  {
    var after := WithList(column, list);
    assert after.lengths[..i] == column.lengths[..i];
    if i == n {
      assert column.lengths[..n] == column.lengths;
    } else {
      TotalGrows(column.lengths, i);
    }
  }

  function WithRow(c: BookColumns, row: BookRow): BookColumns {
    BookColumns(c.recvTms + [row.recvTm], c.kinds + [row.kind], WithList(c.bids, row.bids), WithList(c.asks, row.asks),
                c.crcs + [row.crc32], c.symbols + [row.symbol], c.timestamps + [row.timestamp])
  }

  /** Appending to every column adds the row. */
  lemma {:induction false} WithRowAdds(c: BookColumns, n: nat, row: BookRow)
    requires Aligned(c, n)
    ensures Aligned(WithRow(c, row), n + 1)
    ensures RowsOf(WithRow(c, row), n + 1) == RowsOf(c, n) + [row]
  {
    WithListAligned(c.bids, n, row.bids);
    WithListAligned(c.asks, n, row.asks);
    forall i | 0 <= i <= n
      ensures RowAt(WithRow(c, row), n + 1, i) == if i < n then RowAt(c, n, i) else row
    {
      WithListAt(c.bids, n, row.bids, i);
      WithListAt(c.asks, n, row.asks, i);
    }
    var rows := RowsOf(c, n) + [row];
    assert forall i :: 0 <= i <= n ==> rows[i] == RowsOf(WithRow(c, row), n + 1)[i];
  }

  class BookSink {
    var recvTms: seq<int>
    var kinds: seq<string>
    var bids: QuoteColumn
    var asks: QuoteColumn
    var crcs: seq<bv64>
    var symbols: seq<string>
    var timestamps: seq<int>
    var numRows: nat
    var written: seq<Batch>

    ghost function Columns(): BookColumns
      reads this
    {
      BookColumns(recvTms, kinds, bids, asks, crcs, symbols, timestamps)
    }

    /** Every column holds one entry per buffered row, and a full buffer is flushed. */
    ghost predicate Valid()
      reads this
    {
      Aligned(Columns(), numRows) && numRows < FLUSH_THRESHOLD && BatchesAligned(written)
    }

    /** What was written, then what is still buffered. */
    ghost function Recorded(): seq<BookRow>
      requires Valid()
      reads this
    {
      RowsOfBatches(written) + RowsOf(Columns(), numRows)
    }

    ghost predicate FullBatches()
      reads this
    {
      forall i :: 0 <= i < |written| ==> written[i].numRows == FLUSH_THRESHOLD
    }

    constructor ()
      ensures Valid() && Recorded() == [] && FullBatches() && written == []
    {
      recvTms, kinds, crcs, symbols, timestamps := [], [], [], [], [];
      bids, asks := QuoteColumn([], [], []), QuoteColumn([], [], []);
      numRows, written := 0, [];
    }

    /** Records a message as its symbol's precision prints it; throws, unchanged, for an unknown symbol. */
    method Accept(book: Book, refdata: Refdata) returns (ok: bool)
      requires Valid()
      modifies this
      ensures Valid() && (old(FullBatches()) ==> FullBatches())
      ensures ok <==> PrecisionOf(refdata.pairs, book.symbol).Some?
      ensures !ok ==> Recorded() == old(Recorded()) && written == old(written)
      ensures ok ==> Recorded() == old(Recorded()) + [PrintBook(book, PrecisionOf(refdata.pairs, book.symbol).value)]
      ensures ok && old(numRows) + 1 < 4096 ==> written == old(written) && numRows == old(numRows) + 1
      ensures ok && old(numRows) + 1 == 4096 ==> |written| == |old(written)| + 1 && numRows == 0
    {
      var precision := refdata.PairPrecision(book.symbol);
      if precision.None? {
        return false;
      }
      ghost var row := PrintBook(book, precision.value);
      WithRowAdds(Columns(), numRows, row);
      AppendRow(book, precision.value);
      assert old(Recorded()) + [row] == RowsOfBatches(written) + RowsOf(Columns(), numRows);
      if numRows >= FLUSH_THRESHOLD {
        Flush();
      }
      return true;
    }

    /** Every column gets its own field of the message. */
    method AppendRow(book: Book, precision: Precision)
      modifies this
      ensures written == old(written) && numRows == old(numRows) + 1
      ensures Columns() == WithRow(old(Columns()), PrintBook(book, precision))
      ensures recvTms == old(recvTms) + [book.recvTm] && kinds == old(kinds) + [book.kind]
      ensures crcs == old(crcs) + [book.crc32] && symbols == old(symbols) + [book.symbol]
      ensures timestamps == old(timestamps) + [book.timestamp]
      ensures bids.lengths == old(bids.lengths) + [|book.bids|] && asks.lengths == old(asks.lengths) + [|book.asks|]
      ensures bids.prices == old(bids.prices) + Prices(PrintAll(PrintAt(precision), book.bids))
      ensures bids.qtys == old(bids.qtys) + Qtys(PrintAll(PrintAt(precision), book.bids))
      ensures asks.prices == old(asks.prices) + Prices(PrintAll(PrintAt(precision), book.asks))
      ensures asks.qtys == old(asks.qtys) + Qtys(PrintAll(PrintAt(precision), book.asks))
    {
      recvTms := recvTms + [book.recvTm];
      kinds := kinds + [book.kind];
      crcs := crcs + [book.crc32];
      bids := AppendQuotes(bids, book.bids, PrintAt(precision));
      asks := AppendQuotes(asks, book.asks, PrintAt(precision));
      symbols := symbols + [book.symbol];
      timestamps := timestamps + [book.timestamp];
      numRows := numRows + 1;
    }

    /** Appends the list length, then price and quantity of each quote. */
    static method AppendQuotes<T>(column: QuoteColumn, quotes: seq<T>, format: T -> Printed)
      returns (after: QuoteColumn)
      ensures after == WithList(column, PrintAll(format, quotes))
    {
      var lengths, prices, qtys := column.lengths + [|quotes|], column.prices, column.qtys;
      ghost var list := PrintAll(format, quotes);
      var i := 0;
      while i < |quotes|
        invariant 0 <= i <= |quotes|
        invariant prices == column.prices + Prices(list)[..i]
        invariant qtys == column.qtys + Qtys(list)[..i]
      {
        prices := prices + [format(quotes[i]).price];
        qtys := qtys + [format(quotes[i]).qty];
        i := i + 1;
      }
      assert Prices(list)[..i] == Prices(list) && Qtys(list)[..i] == Qtys(list);
      after := QuoteColumn(lengths, prices, qtys);
    }

    /** Moves the buffered rows to the file as one batch. */
    method Flush()
      requires Aligned(Columns(), numRows) && BatchesAligned(written)
      modifies this
      ensures Valid() && numRows == 0
      ensures |written| == |old(written)| + 1 && written[..|old(written)|] == old(written)
      ensures written[|old(written)|].numRows == old(numRows)
      ensures Recorded() == RowsOfBatches(old(written)) + RowsOf(old(Columns()), old(numRows))
    {
      var batch := Batch(numRows, BookColumns(recvTms, kinds, bids, asks, crcs, symbols, timestamps));
      written := written + [batch];
      recvTms, kinds, crcs, symbols, timestamps := [], [], [], [], [];
      bids, asks := QuoteColumn([], [], []), QuoteColumn([], [], []);
      numRows := 0;
      assert written[..|old(written)|] == old(written);
      assert RowsOf(Columns(), 0) == [];
    }

    /** The destructor writes what is buffered: the file then holds every row, in order. */
    method Close()
      requires Valid()
      modifies this
      ensures Valid() && RowsOfBatches(written) == old(Recorded()) == Recorded()
    {
      Flush();
      assert RowsOf(Columns(), 0) == [];
    }
  }
}
