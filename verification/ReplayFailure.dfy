/** A recording that does not replay: why padded buffers are asked for. */
module ReplayFailure {
  import opened Parser
  import opened Buffers
  import opened BufferLaws
  import opened WrapLaws
  import opened OrderedMap
  import opened SidesModel
  import opened SidesLaws
  import opened LevelBookModel
  import opened RefdataModel
  import opened RecorderModel
  import opened Queueing
  import opened EngineModel
  import opened EngineLaws
  import opened BookSinkModel
  import opened SpellingLaws
  import opened ReplayModel
  import opened ReplayLaws

  function NewSides(depth: nat, pair: Pair): SidesState {
    SidesState(depth, pair.pricePrecision, pair.qtyPrecision, [], [])
  }

  function PrecisionsOf(pair: Pair): Precision {
    Precision(pair.pricePrecision, pair.qtyPrecision)
  }

  /** A snapshot of one ask. */
  function OneAskBook(pair: Pair, price: Held, qty: Held, crc32: bv64): Book {
    Book(0, SNAPSHOT, [], [Entry(price, qty)], crc32, pair.symbol, 0)
  }

  lemma {:induction false} InsertOne<K, V>(rules: Rules<K, V>, q: Entry<K, V>)
    ensures InsertAll(rules, []) == [] && InsertAll(rules, [q]) == [q]
  {
    assert [q][..0] == [];
    assert InsertNew(rules, [], q) == [q];
  }

  lemma {:induction false} OneAskReceived(depth: nat, pair: Pair, price: Held, qty: Held, crc32: bv64)
    ensures Received(NewSides(depth, pair), OneAskBook(pair, price, qty, crc32)) ==
            OneAsk(NewSides(depth, pair), price, qty)
  {
    InsertOne(AskRules(), Entry(price, qty));
    InsertOne(BidRules(), Entry(price, qty));
  }

  /** The events: a pair, then a snapshot of one ask with the checksum that the recorder computes for it. */
  function WrappedEvents(pair: Pair, book: Book): seq<EngineEvent> {
    [Now(InstrumentMessage(Instrument(0, [], [pair]))), Later(book)]
  }

  lemma {:induction false} OnePair(depth: nat, pair: Pair)
    ensures AfterPairs(map[], [pair]) == map[pair.symbol := pair]
    ensures BooksAfterPairs(map[], depth, [pair]) == map[pair.symbol := NewSides(depth, pair)]
  {
    assert [pair][..0] == [];
    assert AfterPairs(map[], []) == map[] && BooksAfterPairs(map[], depth, []) == map[];
  }

  /** The recorder after the pair. */
  function WithPair(depth: nat, pair: Pair): RecState {
    AfterInstrument(Fresh(depth), Instrument(0, [], [pair]))
  }

  lemma {:induction false} PairArrived(depth: nat, pair: Pair)
    ensures WithPair(depth, pair).pairs == map[pair.symbol := pair]
    ensures WithPair(depth, pair).books == map[pair.symbol := NewSides(depth, pair)]
    ensures WithPair(depth, pair).bookRows == []
  {
    OnePair(depth, pair);
  }

  lemma {:induction false} SnapshotAccepted(depth: nat, pair: Pair, price: Held, qty: Held, crc32: bv64)
    requires ChecksumOf(OneAsk(NewSides(depth, pair), price, qty)) == Some(crc32)
    ensures var book, st := OneAskBook(pair, price, qty, crc32), WithPair(depth, pair);
            && BookAccepted(st, book)
            && AfterBookMessage(st, book).bookRows ==
               [PrintBook(book, PrecisionsOf(pair))]
  {
    PairArrived(depth, pair);
    OneAskReceived(depth, pair, price, qty, crc32);
  }

  lemma {:induction false} TwoEvents(depth: nat, pair: Pair, book: Book)
    requires BookAccepted(WithPair(depth, pair), book)
    ensures RunSync(RecorderMachine(), Fresh(depth), WrappedEvents(pair, book)) ==
            Some(AfterBookMessage(WithPair(depth, pair), book))
    ensures StablePrecisions(depth, WrappedEvents(pair, book))
  {
    var events := WrappedEvents(pair, book);
    assert events[..1] == [events[0]] && [events[0]][..0] == [];
    assert RunSync(RecorderMachine(), Fresh(depth), [events[0]]) == Some(WithPair(depth, pair));
    assert StablePrecisions(depth, [events[0]]);
  }

  /** Its row reads back as an ask of the same values in sound decimals, whose checksum is another. */
  lemma {:induction false} ReadsBackAlike(depth: nat, pair: Pair, other: Held, qty: Held, crc32: bv64)
    requires Recordable(other, pair.pricePrecision) && Recordable(qty, pair.qtyPrecision)
    ensures var row := PrintBook(OneAskBook(pair, other, qty, crc32), PrecisionsOf(pair));
            && ReadBook(row).Some? && ReadBook(row).value.symbol == pair.symbol
            && KnownKind(ReadBook(row).value) && ReadBook(row).value.crc32 == crc32
            && ChecksumOf(Received(NewSides(depth, pair), ReadBook(row).value)) ==
               ChecksumOf(OneAsk(NewSides(depth, pair), other, qty))
  {
    var precision := PrecisionsOf(pair);
    var sound := OneAskBook(pair, other, qty, crc32);
    BookReadsBack(sound, precision);
    RecordableIsSound(sound, precision);
    OneAskReceived(depth, pair, other, qty, crc32);
    AlikeReceived(NewSides(depth, pair), NewSides(depth, pair), sound, ReadBook(PrintBook(sound, precision)).value,
                  precision);
  }

  lemma {:induction false} SamePrint(pair: Pair, price: Held, other: Held, qty: Held, crc32: bv64)
    requires TextOf(price) == TextOf(other)
    ensures var precision := PrecisionsOf(pair);
            PrintBook(OneAskBook(pair, price, qty, crc32), precision) ==
            PrintBook(OneAskBook(pair, other, qty, crc32), precision)
  {
  }

  lemma {:induction false} RowIsRejected(depth: nat, pair: Pair, price: Held, other: Held, qty: Held, crc32: bv64)
    requires TextOf(price) == TextOf(other)
    requires Recordable(other, pair.pricePrecision) && Recordable(qty, pair.qtyPrecision)
    requires ChecksumOf(OneAsk(NewSides(depth, pair), other, qty)) != Some(crc32)
    ensures var row := PrintBook(OneAskBook(pair, price, qty, crc32), PrecisionsOf(pair));
            ReplayRows(BooksAfterPairs(map[], depth, [pair]), [row]).None?
  {
    var row := PrintBook(OneAskBook(pair, price, qty, crc32), PrecisionsOf(pair));
    SamePrint(pair, price, other, qty, crc32);
    ReadsBackAlike(depth, pair, other, qty, crc32);
    OnePair(depth, pair);
    OneRow(BooksAfterPairs(map[], depth, [pair]), row);
  }

  /** A feed that sends 0.18446744073709551616, with the checksum of the digits that the recorder feeds for it,
      is recorded without failure, and the recording is rejected when it is replayed. */
  lemma {:induction false} WrappedRecordingDoesNotReplay(depth: nat, pair: Pair, qty: Held) returns (book: Book)
    requires pair.pricePrecision == 8 && Recordable(qty, pair.qtyPrecision)
    ensures BookDecimal(WRAPPED).Some? && book.asks == [Entry(BookDecimal(WRAPPED).value, qty)]
    ensures var rec := RunSync(RecorderMachine(), Fresh(depth), WrappedEvents(pair, book));
            && rec.Some? && StablePrecisions(depth, WrappedEvents(pair, book))
            && ReplayRows(BooksAfterPairs(map[], depth, [pair]), rec.value.bookRows).None?
  {
    PaddingIsNeeded(NewSides(depth, pair), qty);
    WrappedFeedsOther();
    var wrapped, tenth := BookDecimal(WRAPPED).value, BookDecimal(TENTH).value;
    var crc32 := ChecksumOf(OneAsk(NewSides(depth, pair), wrapped, qty)).value;
    book := OneAskBook(pair, wrapped, qty, crc32);
    TenthIsCanonical();
    OrdinaryIsRecordable(TENTH, 8);
    SnapshotAccepted(depth, pair, wrapped, qty, crc32);
    TwoEvents(depth, pair, book);
    RowIsRejected(depth, pair, wrapped, tenth, qty, crc32);
  }
}
