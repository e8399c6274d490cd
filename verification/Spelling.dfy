/** Books and messages that differ in the spelling of their decimals only. */
module SpellingLaws {
  import opened Parser
  import opened SidesModel
  import opened SidesLaws
  import opened LevelBookModel
  import opened RefdataModel

  predicate SameBooks(a: Books, b: Books) {
    a.Keys == b.Keys && forall s :: s in a ==> NumOf(a[s]) == NumOf(b[s])
  }

  /** Messages that agree on everything but the spelling of their decimals. */
  predicate SameMessage(a: Book, b: Book) {
    a.kind == b.kind && a.symbol == b.symbol && a.crc32 == b.crc32 && SameNumbers(a, b)
  }

  /** The highest precisions a symbol gets. */
  type Limits = string -> Precision

  predicate WithinLimits(pair: Pair, limits: Limits) {
    pair.pricePrecision <= limits(pair.symbol).price && pair.qtyPrecision <= limits(pair.symbol).qty
  }

  /** Every decimal of the message is padded and prints inside its buffer at all precisions of its symbol. */
  predicate SoundMessage(book: Book, limits: Limits) {
    SoundBook(book, limits(book.symbol).price, limits(book.symbol).qty)
  }

  predicate SoundAtLimit(st: SidesState, limit: Precision) {
    st.pricePrecision <= limit.price && st.qtyPrecision <= limit.qty && SoundSides(st, limit.price, limit.qty)
  }

  /** Sides of sound decimals that differ in spelling only. */
  predicate Alike(s: SidesState, t: SidesState, limit: Precision) {
    NumOf(s) == NumOf(t) && SoundAtLimit(s, limit) && SoundAtLimit(t, limit)
  }

  predicate AlikeBooks(x: Books, y: Books, limits: Limits) {
    x.Keys == y.Keys && forall s :: s in x ==> Alike(x[s], y[s], limits(s))
  }

  lemma {:induction false} AlikeAfter(x: Books, y: Books, limits: Limits, symbol: string, s: SidesState, t: SidesState)
    requires AlikeBooks(x, y, limits) && Alike(s, t, limits(symbol))
    ensures AlikeBooks(x[symbol := s], y[symbol := t], limits)
  {
  }

  lemma {:induction false} ReceivedIsSound(st: SidesState, book: Book, limit: Precision)
    requires SoundAtLimit(st, limit) && SoundBook(book, limit.price, limit.qty)
    ensures SoundAtLimit(Received(st, book), limit)
  {
    MessagesKeepSound(st, book, limit.price, limit.qty);
  }

  lemma {:induction false} AlikeChecksum(s: SidesState, t: SidesState, limit: Precision)
    requires Alike(s, t, limit)
    ensures ChecksumOf(s).Some? && ChecksumOf(s) == ChecksumOf(t)
  {
    SoundBelow(s, limit.price, limit.qty);
    SoundBelow(t, limit.price, limit.qty);
    ChecksumOfNumbers(s, t);
  }

  lemma {:induction false} SameReceived(s: SidesState, t: SidesState, a: Book, b: Book)
    requires NumOf(s) == NumOf(t) && SameMessage(a, b)
    ensures NumOf(Received(s, a)) == NumOf(Received(t, b))
  {
    SpellingKeepsNumbers(s, t, a, b);
  }

  lemma {:induction false} AlikeReceived(s: SidesState, t: SidesState, a: Book, b: Book, limit: Precision)
    requires Alike(s, t, limit) && SameMessage(a, b)
    requires SoundBook(a, limit.price, limit.qty) && SoundBook(b, limit.price, limit.qty)
    ensures Alike(Received(s, a), Received(t, b), limit)
    ensures ChecksumOf(Received(s, a)) == ChecksumOf(Received(t, b))
  {
    var s', t' := Received(s, a), Received(t, b);
    SameReceived(s, t, a, b);
    ReceivedIsSound(s, a, limit);
    ReceivedIsSound(t, b, limit);
    AlikeChecksum(s', t', limit);
  }

  lemma {:induction false} AlikeVerify(s: SidesState, t: SidesState, limit: Precision, expected: bv64)
    requires Alike(s, t, limit)
    ensures Verify(s, expected) == Verify(t, expected)
  {
    AlikeChecksum(s, t, limit);
  }

  lemma {:induction false} AlikeStep(x: Books, y: Books, a: Book, b: Book, limits: Limits)
    requires AlikeBooks(x, y, limits) && SameMessage(a, b) && SoundMessage(a, limits) && SoundMessage(b, limits)
    ensures BookOutcome(x, a) == BookOutcome(y, b)
    ensures AlikeBooks(AfterBook(x, a), AfterBook(y, b), limits)
  {
    var k := a.symbol;
    if k in x {
      var s, t := Received(x[k], a), Received(y[k], b);
      AlikeReceived(x[k], y[k], a, b, limits(k));
      AlikeVerify(s, t, limits(k), a.crc32);
      AlikeAfter(x, y, limits, k, s, t);
      assert AfterBook(x, a) == x[k := s] && AfterBook(y, b) == y[k := t];
    } else {
      assert AfterBook(x, a) == x && AfterBook(y, b) == y;
    }
  }

  lemma {:induction false} AlikePairStep(x: Books, y: Books, depth: nat, pair: Pair, limits: Limits)
    requires AlikeBooks(x, y, limits) && WithinLimits(pair, limits)
    ensures AlikeBooks(AfterPair(x, depth, pair), AfterPair(y, depth, pair), limits)
  {
    var x', y', k := AfterPair(x, depth, pair), AfterPair(y, depth, pair), pair.symbol;
    AlikeRescaled(x, y, depth, pair, limits(k));
    AlikeAfter(x, y, limits, k, x'[k], y'[k]);
    assert x' == x[k := x'[k]] && y' == y[k := y'[k]];
  }

  lemma {:induction false} AlikeRescaled(x: Books, y: Books, depth: nat, pair: Pair, limit: Precision)
    requires pair.pricePrecision <= limit.price && pair.qtyPrecision <= limit.qty
    requires pair.symbol in x <==> pair.symbol in y
    requires pair.symbol in x ==> Alike(x[pair.symbol], y[pair.symbol], limit)
    ensures Alike(AfterPair(x, depth, pair)[pair.symbol], AfterPair(y, depth, pair)[pair.symbol], limit)
  {
  }

  /** The same pair, or books of sound decimals that differ in spelling only. */
  predicate SpelledAlike(x: Message, y: Message, limits: Limits) {
    match (x, y)
    case (OnPair(a), OnPair(b)) => a == b && WithinLimits(a, limits)
    case (OnBook(a), OnBook(b)) => SameMessage(a, b) && SoundMessage(a, limits) && SoundMessage(b, limits)
    case _ => false
  }

  predicate AlikeRuns(x: Option<Books>, y: Option<Books>, limits: Limits) {
    x.Some? == y.Some? && (x.Some? ==> AlikeBooks(x.value, y.value, limits))
  }

  lemma {:induction false} SpellingOfStep(depth: nat, x: Books, y: Books, a: Message, b: Message, limits: Limits)
    requires AlikeBooks(x, y, limits) && SpelledAlike(a, b, limits)
    ensures AlikeRuns(RunMessages(x, depth, [a]), RunMessages(y, depth, [b]), limits)
  {
    assert [a][..0] == [] && [b][..0] == [];
    match a
    case OnPair(pair) => AlikePairStep(x, y, depth, pair, limits);
    case OnBook(book) => AlikeStep(x, y, book, b.book, limits);
  }

  lemma {:induction false} RunMessagesNext(books: Books, depth: nat, messages: seq<Message>)
    requires messages != []
    ensures var n := |messages| - 1; var before := RunMessages(books, depth, messages[..n]);
            RunMessages(books, depth, messages) ==
            if before.None? then None else RunMessages(before.value, depth, [messages[n]])
  {
    assert [messages[|messages| - 1]][..0] == [];
  }

  /** Runs of messages that differ in spelling only are accepted alike, and leave books that differ in spelling
      only, with the same checksums; decimals that are not padded, or too wide for their buffers, are excluded. */
  lemma {:induction false} SpellingOfRunDoesNotMatter(depth: nat, x: Books, y: Books, xs: seq<Message>,
      ys: seq<Message>, limits: Limits)
    requires AlikeBooks(x, y, limits)
    requires |xs| == |ys| && forall i :: 0 <= i < |xs| ==> SpelledAlike(xs[i], ys[i], limits)
    ensures AlikeRuns(RunMessages(x, depth, xs), RunMessages(y, depth, ys), limits)
    ensures RunMessages(x, depth, xs).Some? ==>
              forall s :: s in RunMessages(x, depth, xs).value ==>
                ChecksumOf(RunMessages(x, depth, xs).value[s]) == ChecksumOf(RunMessages(y, depth, ys).value[s])
  {
    if xs != [] {
      var n := |xs| - 1;
      SpellingOfRunDoesNotMatter(depth, x, y, xs[..n], ys[..n], limits);
      RunMessagesNext(x, depth, xs);
      RunMessagesNext(y, depth, ys);
      var before, other := RunMessages(x, depth, xs[..n]), RunMessages(y, depth, ys[..n]);
      if before.Some? {
        SpellingOfStep(depth, before.value, other.value, xs[n], ys[n], limits);
      }
    }
    if RunMessages(x, depth, xs).Some? {
      AlikeChecksums(RunMessages(x, depth, xs).value, RunMessages(y, depth, ys).value, limits);
    }
  }

  lemma {:induction false} AlikeChecksums(x: Books, y: Books, limits: Limits)
    requires AlikeBooks(x, y, limits)
    ensures forall s :: s in x ==> ChecksumOf(x[s]) == ChecksumOf(y[s])
  {
    forall s | s in x
      ensures ChecksumOf(x[s]) == ChecksumOf(y[s])
    {
      AlikeChecksum(x[s], y[s], limits(s));
    }
  }

  /** A run of sound messages leaves sound books. */
  lemma {:induction false} SoundRunStaysSound(depth: nat, messages: seq<Message>, limits: Limits)
    requires forall i :: 0 <= i < |messages| ==> SpelledAlike(messages[i], messages[i], limits)
    requires RunMessages(map[], depth, messages).Some?
    ensures var books := RunMessages(map[], depth, messages).value;
            AlikeBooks(books, books, limits) && forall s :: s in books ==> SoundAtLimit(books[s], limits(s))
  {
    SpellingOfRunDoesNotMatter(depth, map[], map[], messages, messages, limits);
  }

  lemma {:induction false} ReadableIsVerified(st: SidesState, expected: bv64)
    requires ChecksumOf(st).Some?
    ensures Verify(st, expected) != Rejected(Overrun)
  {
  }

  /** Sound books read inside all buffers when the next sound message is checked. */
  lemma {:induction false} SoundMessageDoesNotOverrun(books: Books, next: Book, limits: Limits)
    requires AlikeBooks(books, books, limits) && SoundMessage(next, limits)
    ensures BookOutcome(books, next) != Rejected(Overrun)
  {
    if next.symbol in books {
      var st, limit := Received(books[next.symbol], next), limits(next.symbol);
      AlikeReceived(books[next.symbol], books[next.symbol], next, next, limit);
      AlikeChecksum(st, st, limit);
      ReadableIsVerified(st, next.crc32);
    }
  }
}
