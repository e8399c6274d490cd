/** Reference data: the latest asset and pair descriptions by id and symbol. */
module RefdataModel {
  import opened Parser
  import opened LevelBookModel
  import opened SidesModel

  datatype Asset = Asset(id: string, details: int)

  datatype Instrument = Instrument(recvTm: int, assets: seq<Asset>, pairs: seq<Pair>)

  datatype Precision = Precision(price: nat, qty: nat)

  type Pairs = map<string, Pair>

  /** The table after some pairs: the latest of a symbol wins. */
  function AfterPairs(table: Pairs, pairs: seq<Pair>): Pairs {
    if pairs == [] then table
    else AfterPairs(table, pairs[..|pairs| - 1])[pairs[|pairs| - 1].symbol := pairs[|pairs| - 1]]
  }

  function AfterAssets(table: map<string, Asset>, assets: seq<Asset>): map<string, Asset> {
    if assets == [] then table
    else AfterAssets(table, assets[..|assets| - 1])[assets[|assets| - 1].id := assets[|assets| - 1]]
  }

  function PrecisionOf(table: Pairs, symbol: string): Option<Precision> {
    if symbol in table then Some(Precision(table[symbol].pricePrecision, table[symbol].qtyPrecision)) else None
  }

  class Refdata {
    var assets: map<string, Asset>
    var pairs: Pairs

    constructor ()
      ensures assets == map[] && pairs == map[]
    {
      assets, pairs := map[], map[];
    }

    method Accept(instrument: Instrument)
      modifies this
      ensures assets == AfterAssets(old(assets), instrument.assets)
      ensures pairs == AfterPairs(old(pairs), instrument.pairs)
    {
      var i := 0;
      assert instrument.assets[..0] == [];
      while i < |instrument.assets|
        invariant 0 <= i <= |instrument.assets|
        invariant assets == AfterAssets(old(assets), instrument.assets[..i])
        invariant pairs == old(pairs)
      {
        assert instrument.assets[..i + 1][..i] == instrument.assets[..i];
        assets := assets[instrument.assets[i].id := instrument.assets[i]];
        i := i + 1;
      }
      assert instrument.assets[..i] == instrument.assets;
      i := 0;
      assert instrument.pairs[..0] == [];
      while i < |instrument.pairs|
        invariant 0 <= i <= |instrument.pairs|
        invariant assets == AfterAssets(old(assets), instrument.assets)
        invariant pairs == AfterPairs(old(pairs), instrument.pairs[..i])
      {
        assert instrument.pairs[..i + 1][..i] == instrument.pairs[..i];
        pairs := pairs[instrument.pairs[i].symbol := instrument.pairs[i]];
        i := i + 1;
      }
      assert instrument.pairs[..i] == instrument.pairs;
    }

    function PairPrecision(symbol: string): Option<Precision>
      reads this
    {
      if symbol in pairs then Some(Precision(pairs[symbol].pricePrecision, pairs[symbol].qtyPrecision)) else None
    }
  }

  /** The position of the last pair of a symbol, or -1. */
  function LastPair(pairs: seq<Pair>, symbol: string): (i: int)
    ensures -1 <= i < |pairs|
    ensures i >= 0 ==> pairs[i].symbol == symbol
    ensures forall j :: i < j < |pairs| ==> pairs[j].symbol != symbol
  {
    if pairs == [] then -1
    else if pairs[|pairs| - 1].symbol == symbol then |pairs| - 1
    else LastPair(pairs[..|pairs| - 1], symbol)
  }

  function LastAsset(assets: seq<Asset>, id: string): (i: int)
    ensures -1 <= i < |assets|
    ensures i >= 0 ==> assets[i].id == id
    ensures forall j :: i < j < |assets| ==> assets[j].id != id
  {
    if assets == [] then -1
    else if assets[|assets| - 1].id == id then |assets| - 1
    else LastAsset(assets[..|assets| - 1], id)
  }

  /** After an instrument message a symbol is looked up with the precisions of its last pair in the message, or
      with those it had before when the message does not name it. */
  lemma {:induction false} LookupIsLatest(table: Pairs, pairs: seq<Pair>, symbol: string)
    ensures var i, found := LastPair(pairs, symbol), PrecisionOf(AfterPairs(table, pairs), symbol);
            && (i >= 0 ==> found == Some(Precision(pairs[i].pricePrecision, pairs[i].qtyPrecision)))
            && (i < 0 ==> found == PrecisionOf(table, symbol))
  {
    if pairs != [] && pairs[|pairs| - 1].symbol != symbol {
      LookupIsLatest(table, pairs[..|pairs| - 1], symbol);
    }
  }

  /** Likewise the last asset of an id is the one that is kept. */
  lemma {:induction false} LatestAssetIsKept(table: map<string, Asset>, assets: seq<Asset>, id: string)
    ensures var i, after := LastAsset(assets, id), AfterAssets(table, assets);
            && (i >= 0 ==> id in after && after[id] == assets[i])
            && (i < 0 ==> (id in after <==> id in table) && (id in table ==> after[id] == table[id]))
  {
    if assets != [] && assets[|assets| - 1].id != id {
      LatestAssetIsKept(table, assets[..|assets| - 1], id);
    }
  }

  /** The books after the pairs of an instrument message. */
  function BooksAfterPairs(books: Books, depth: nat, pairs: seq<Pair>): Books {
    if pairs == [] then books
    else AfterPair(BooksAfterPairs(books, depth, pairs[..|pairs| - 1]), depth, pairs[|pairs| - 1])
  }

  /** Reference data and books know the same symbols with the same precisions. */
  predicate Agree(table: Pairs, books: Books) {
    table.Keys == books.Keys && forall s :: s in table ==> SamePrecisions(books[s], table[s])
  }

  lemma {:induction false} AgreeAfterPair(table: Pairs, books: Books, depth: nat, pair: Pair)
    requires Agree(table, books)
    ensures Agree(table[pair.symbol := pair], AfterPair(books, depth, pair))
  {
  }

  /** Instrument messages keep the two copies of the precisions the same. */
  lemma {:induction false} PairsKeepAgreement(table: Pairs, books: Books, depth: nat, pairs: seq<Pair>)
    requires Agree(table, books)
    ensures Agree(AfterPairs(table, pairs), BooksAfterPairs(books, depth, pairs))
  {
    if pairs != [] {
      var init := pairs[..|pairs| - 1];
      PairsKeepAgreement(table, books, depth, init);
      AgreeAfterPair(AfterPairs(table, init), BooksAfterPairs(books, depth, init), depth, pairs[|pairs| - 1]);
    }
  }

  /** So do book messages, which change no precision; and the book sink, which looks symbols up in the
      reference data, accepts a book message only if its symbol has a book. */
  lemma {:induction false} BooksKeepAgreement(table: Pairs, books: Books, book: Book)
    requires Agree(table, books)
    ensures Agree(table, AfterBook(books, book))
    ensures PrecisionOf(table, book.symbol).Some? <==> book.symbol in books
    ensures book.symbol in books ==>
              PrecisionOf(table, book.symbol).value ==
              Precision(books[book.symbol].pricePrecision, books[book.symbol].qtyPrecision)
  {
  }
}
