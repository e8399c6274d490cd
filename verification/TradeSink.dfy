/** The recorder's trade sink: one row a trade; the flush threshold is checked once a message. */
module TradeSinkModel {
  import opened Printer
  import opened Buffers
  import opened RefdataModel

  const FLUSH_THRESHOLD: nat := 4096

  datatype Trade = Trade(ordType: char, price: Held, qty: Held, side: char, symbol: string, timestamp: int,
                         tradeId: nat)

  /** A message of the trade channel. */
  datatype Trades = Trades(recvTm: int, trades: seq<Trade>)

  datatype TradeRow = TradeRow(recvTm: int, ordType: string, price: string, qty: string, side: string,
                               symbol: string, timestamp: int, tradeId: nat)

  datatype TradeColumns = TradeColumns(recvTms: seq<int>, ordTypes: seq<string>, prices: seq<string>, qtys: seq<string>,
                                       sides: seq<string>, symbols: seq<string>, timestamps: seq<int>,
                                       tradeIds: seq<nat>)

  datatype Batch = Batch(numRows: nat, columns: TradeColumns)

  predicate Aligned(c: TradeColumns, n: nat) {
    && |c.recvTms| == |c.ordTypes| == |c.prices| == |c.qtys| == n
    && |c.sides| == |c.symbols| == |c.timestamps| == |c.tradeIds| == n
  }

  function RowsOf(c: TradeColumns, n: nat): (rows: seq<TradeRow>)
    requires Aligned(c, n)
    ensures |rows| == n
  {
    seq(n, i requires 0 <= i < n => TradeRow(c.recvTms[i], c.ordTypes[i], c.prices[i], c.qtys[i], c.sides[i],
                                             c.symbols[i], c.timestamps[i], c.tradeIds[i]))
  }

  predicate BatchesAligned(batches: seq<Batch>) {
    forall i :: 0 <= i < |batches| ==> Aligned(batches[i].columns, batches[i].numRows)
  }

  function RowsOfBatches(batches: seq<Batch>): seq<TradeRow>
    requires BatchesAligned(batches)
  {
    if batches == [] then []
    else
      var last := batches[|batches| - 1];
      RowsOfBatches(batches[..|batches| - 1]) + RowsOf(last.columns, last.numRows)
  }

  /** How many items come before the first that does not hold. */
  function Leading<T>(holds: T -> bool, items: seq<T>): (n: nat)
    ensures n <= |items|
    ensures forall i :: 0 <= i < n ==> holds(items[i])
    ensures n < |items| ==> !holds(items[n])
  {
    if items == [] || !holds(items[0]) then 0
    else
      var n := Leading(holds, items[1..]);
      assert forall i :: 0 < i <= n ==> items[i] == items[1..][i - 1];
      1 + n
  }

  /** How many trades of a message come before the first of an unknown symbol. */
  function KnownTrades(table: Pairs, trades: seq<Trade>): (n: nat)
    ensures n <= |trades|
    ensures forall i :: 0 <= i < n ==> trades[i].symbol in table
    ensures n < |trades| ==> trades[n].symbol !in table
  {
    Leading((trade: Trade) => trade.symbol in table, trades)
  }

  function PrintTrade(table: Pairs, recvTm: int, trade: Trade): TradeRow
    requires trade.symbol in table
  {
    TradeRow(recvTm, [trade.ordType], Str(TextOf(trade.price), table[trade.symbol].pricePrecision),
             Str(TextOf(trade.qty), table[trade.symbol].qtyPrecision), [trade.side], trade.symbol, trade.timestamp,
             trade.tradeId)
  }

  /** The rows recorded for a message: those of its trades before the first of an unknown symbol. */
  function PrintTrades(table: Pairs, message: Trades): (rows: seq<TradeRow>)
    ensures |rows| == KnownTrades(table, message.trades)
  {
    seq(KnownTrades(table, message.trades), i requires 0 <= i < KnownTrades(table, message.trades) =>
      PrintTrade(table, message.recvTm, message.trades[i]))
  }

  /** What the row of a trade has to be. */
  predicate RowIsOf(row: TradeRow, recvTm: int, trade: Trade, precision: Precision) {
    && PrintsAs(row.price, trade.price, precision.price) && PrintsAs(row.qty, trade.qty, precision.qty)
    && row.recvTm == recvTm && row.ordType == [trade.ordType] && row.side == [trade.side]
    && row.symbol == trade.symbol && row.timestamp == trade.timestamp && row.tradeId == trade.tradeId
  }

  /** The rows of the known trades of a message, each at the precisions of its pair. */
  predicate RowsAreOf(rows: seq<TradeRow>, table: Pairs, message: Trades) {
    var n := KnownTrades(table, message.trades);
    |rows| == n && forall i :: 0 <= i < n ==>
      var pair := table[message.trades[i].symbol];
      RowIsOf(rows[i], message.recvTm, message.trades[i], Precision(pair.pricePrecision, pair.qtyPrecision))
  }

  lemma {:induction false} PrintTradeMeans(table: Pairs, recvTm: int, trade: Trade)
    requires trade.symbol in table
    ensures var pair := table[trade.symbol];
            RowIsOf(PrintTrade(table, recvTm, trade), recvTm, trade, Precision(pair.pricePrecision, pair.qtyPrecision))
  {
    StrPrintsAs(trade.price, table[trade.symbol].pricePrecision);
    StrPrintsAs(trade.qty, table[trade.symbol].qtyPrecision);
  }

  lemma {:induction false} PrintTradesMean(table: Pairs, message: Trades)
    ensures RowsAreOf(PrintTrades(table, message), table, message)
  {
    forall i | 0 <= i < KnownTrades(table, message.trades)
      ensures var pair := table[message.trades[i].symbol];
              RowIsOf(PrintTrades(table, message)[i], message.recvTm, message.trades[i],
                      Precision(pair.pricePrecision, pair.qtyPrecision))
    {
      PrintTradeMeans(table, message.recvTm, message.trades[i]);
    }
  }

  class TradeSink {
    var recvTms: seq<int>
    var ordTypes: seq<string>
    var prices: seq<string>
    var qtys: seq<string>
    var sides: seq<string>
    var symbols: seq<string>
    var timestamps: seq<int>
    var tradeIds: seq<nat>
    var numRows: nat
    var written: seq<Batch>

    ghost function Columns(): TradeColumns
      reads this
    {
      TradeColumns(recvTms, ordTypes, prices, qtys, sides, symbols, timestamps, tradeIds)
    }

    ghost predicate Valid()
      reads this
    {
      Aligned(Columns(), numRows) && BatchesAligned(written)
    }

    /** What was written, then what is still buffered. */
    ghost function Recorded(): seq<TradeRow>
      requires Valid()
      reads this
    {
      RowsOfBatches(written) + RowsOf(Columns(), numRows)
    }

    constructor ()
      ensures Valid() && Recorded() == [] && numRows == 0
    {
      recvTms, ordTypes, prices, qtys, sides, symbols, timestamps, tradeIds := [], [], [], [], [], [], [], [];
      numRows, written := 0, [];
    }

    /** Records the trades of a message. At a trade of an unknown symbol it throws: the trades before it
        stay buffered, the columns stay aligned, and nothing is flushed. */
    method Accept(message: Trades, refdata: Refdata) returns (ok: bool)
      requires Valid()
      modifies this
      ensures Valid()
      ensures old(Recorded()) <= Recorded()
      ensures RowsAreOf(Recorded()[|old(Recorded())|..], refdata.pairs, message)
      ensures Recorded() == old(Recorded()) + PrintTrades(refdata.pairs, message)
      ensures ok <==> KnownTrades(refdata.pairs, message.trades) == |message.trades|
      ensures !ok ==> written == old(written)
                      && numRows == old(numRows) + KnownTrades(refdata.pairs, message.trades)
      ensures ok ==> numRows == if old(numRows) + |message.trades| < 4096 then old(numRows) + |message.trades| else 0
    {
      ghost var rows, buffered := PrintTrades(refdata.pairs, message), RowsOf(Columns(), numRows);
      ok := AppendTrades(message, refdata);
      PrintTradesMean(refdata.pairs, message);
      RowsBehind(RowsOfBatches(written), buffered, rows);
      if ok && numRows >= FLUSH_THRESHOLD {
        Flush();
      }
    }

    /** The loop over the trades, up to the first of an unknown symbol. */
    method AppendTrades(message: Trades, refdata: Refdata) returns (ok: bool)
      requires Valid()
      modifies this
      ensures Valid() && written == old(written)
      ensures numRows == old(numRows) + KnownTrades(refdata.pairs, message.trades)
      ensures RowsOf(Columns(), numRows) == old(RowsOf(Columns(), numRows)) + PrintTrades(refdata.pairs, message)
      ensures ok <==> KnownTrades(refdata.pairs, message.trades) == |message.trades|
    {
      ghost var before, rows := RowsOf(Columns(), numRows), PrintTrades(refdata.pairs, message);
      var i := 0;
      assert before + rows[..0] == before;
      while i < |message.trades|
        invariant 0 <= i <= |rows|
        invariant Valid() && written == old(written) && numRows == old(numRows) + i
        invariant RowsOf(Columns(), numRows) == before + rows[..i]
      {
        var precision := refdata.PairPrecision(message.trades[i].symbol);
        if precision.None? {
          assert rows[..i] == rows;
          return false;
        }
        AppendTrade(message.recvTm, message.trades[i], precision.value);
        OneMore(before, rows, i);
        i := i + 1;
      }
      assert rows[..i] == rows;
      return true;
    }

    static lemma {:induction false} OneMore<T>(before: seq<T>, rows: seq<T>, i: nat)
      requires i < |rows|
      ensures before + rows[..i] + [rows[i]] == before + rows[..i + 1]
    {
    }

    static lemma {:induction false} RowsBehind<T>(written: seq<T>, buffered: seq<T>, rows: seq<T>)
      ensures written + (buffered + rows) == written + buffered + rows
      ensures (written + buffered + rows)[|written + buffered|..] == rows
    {
    }

    method AppendTrade(recvTm: int, trade: Trade, precision: Precision)
      requires Valid()
      modifies this
      ensures Valid() && written == old(written) && numRows == old(numRows) + 1
      ensures RowsOf(Columns(), numRows) == old(RowsOf(Columns(), numRows)) +
              [TradeRow(recvTm, [trade.ordType], Str(TextOf(trade.price), precision.price),
                        Str(TextOf(trade.qty), precision.qty), [trade.side], trade.symbol, trade.timestamp,
                        trade.tradeId)]
    {
      var price, qty := Str(TextOf(trade.price), precision.price), Str(TextOf(trade.qty), precision.qty);
      AppendRow(TradeRow(recvTm, [trade.ordType], price, qty, [trade.side], trade.symbol, trade.timestamp,
                         trade.tradeId));
    }

    /** Every column gets its own field of the row. */
    method AppendRow(row: TradeRow)
      requires Valid()
      modifies this
      ensures Valid() && written == old(written) && numRows == old(numRows) + 1
      ensures recvTms == old(recvTms) + [row.recvTm] && ordTypes == old(ordTypes) + [row.ordType]
      ensures prices == old(prices) + [row.price] && qtys == old(qtys) + [row.qty] && sides == old(sides) + [row.side]
      ensures symbols == old(symbols) + [row.symbol] && timestamps == old(timestamps) + [row.timestamp]
      ensures tradeIds == old(tradeIds) + [row.tradeId]
      ensures RowsOf(Columns(), numRows) == old(RowsOf(Columns(), numRows)) + [row]
    {
      recvTms := recvTms + [row.recvTm];
      ordTypes := ordTypes + [row.ordType];
      prices := prices + [row.price];
      qtys := qtys + [row.qty];
      sides := sides + [row.side];
      symbols := symbols + [row.symbol];
      timestamps := timestamps + [row.timestamp];
      tradeIds := tradeIds + [row.tradeId];
      numRows := numRows + 1;
    }

    /** Moves the buffered rows to the file as one batch. */
    method Flush()
      requires Valid()
      modifies this
      ensures Valid() && numRows == 0 && |written| == |old(written)| + 1
      ensures Recorded() == old(Recorded()) == RowsOfBatches(written)
    {
      var columns := TradeColumns(recvTms, ordTypes, prices, qtys, sides, symbols, timestamps, tradeIds);
      written := written + [Batch(numRows, columns)];
      recvTms, ordTypes, prices, qtys, sides, symbols, timestamps, tradeIds := [], [], [], [], [], [], [], [];
      numRows := 0;
      assert written[..|old(written)|] == old(written);
      assert RowsOf(Columns(), 0) == [];
    }
  }
}
