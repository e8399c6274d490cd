/** The two sides of one symbol's book, updated by book messages and checked by their checksum. */
module SidesModel {
  import opened Parser
  import opened Order
  import opened OrderedMap
  import opened Buffers
  import opened Decimals
  import Crc32

  type Quote = Entry<Held, Held>
  type Side = seq<Quote>

  /** A message of the book channel, its decimals parsed. */
  datatype Book = Book(recvTm: int, kind: string, bids: seq<Quote>, asks: seq<Quote>,
                       crc32: bv64, symbol: string, timestamp: int)

  /** Why a message is rejected. `Overrun` stands for no exception of the source: it marks the runs in which
      the in-place printer reads behind a decimal's buffer, of which nothing can be said. */
  datatype Failure = UnknownSymbol | BadChecksum(expected: bv64, actual: bv64) | BogusType | Overrun

  datatype Outcome = Accepted | Rejected(why: Failure)

  function IsZeroQty(): Held -> bool {
    (qty: Held) => Key(TextOf(qty)) == 0
  }

  /** Asks in ascending order of price. */
  function AskRules(): Rules<Held, Held> {
    Rules((price: Held) => Key(TextOf(price)), IsZeroQty())
  }

  /** Bids in descending order of price. */
  function BidRules(): Rules<Held, Held> {
    Rules((price: Held) => -(Key(TextOf(price)) as int), IsZeroQty())
  }

  datatype SidesState = SidesState(depth: nat, pricePrecision: nat, qtyPrecision: nat, bids: Side, asks: Side)

  /** Both sides are in order, without duplicate prices. */
  predicate ValidSides(st: SidesState) {
    Sorted(BidRules(), st.bids) && Sorted(AskRules(), st.asks)
  }

  const CRC_DEPTH: nat := 10

  /** What a decimal feeds the checksum, as far as the print stays inside its buffer. */
  function DigitsAt(d: Held, p: nat): string {
    if d.Fits(p) then Fed(d, p) else ""
  }

  /** The digits of one level: its price, then its quantity. */
  function LevelDigits(pp: nat, qp: nat): Quote -> string {
    (q: Quote) => DigitsAt(q.key, pp) + DigitsAt(q.value, qp)
  }

  /** Both prints of a level stay inside their buffers. */
  function LevelFits(pp: nat, qp: nat): Quote -> bool {
    (q: Quote) => q.key.Fits(pp) && q.value.Fits(qp)
  }

  predicate All<T>(holds: T -> bool, items: seq<T>) {
    forall i :: 0 <= i < |items| ==> holds(items[i])
  }

  predicate SideFits(side: Side, pp: nat, qp: nat) {
    All(LevelFits(pp, qp), side)
  }

  function Concat<T>(text: T -> string, items: seq<T>): string {
    if items == [] then "" else Concat(text, items[..|items| - 1]) + text(items[|items| - 1])
  }

  lemma {:induction false} ConcatNext<T>(text: T -> string, items: seq<T>, i: nat)
    requires i < |items|
    ensures Concat(text, items[..i + 1]) == Concat(text, items[..i]) + text(items[i])
  {
    assert items[..i + 1][..i] == items[..i];
  }

  function SideDigits(side: Side, pp: nat, qp: nat): string {
    Concat(LevelDigits(pp, qp), side)
  }

  /** The text the checksum is taken of: the ten best asks, then the ten best bids. */
  function ChecksumText(st: SidesState): string {
    SideDigits(Take(st.asks, CRC_DEPTH), st.pricePrecision, st.qtyPrecision)
    + SideDigits(Take(st.bids, CRC_DEPTH), st.pricePrecision, st.qtyPrecision)
  }

  /** Every decimal the checksum is taken of prints inside its buffer. */
  predicate Readable(st: SidesState) {
    && SideFits(Take(st.asks, CRC_DEPTH), st.pricePrecision, st.qtyPrecision)
    && SideFits(Take(st.bids, CRC_DEPTH), st.pricePrecision, st.qtyPrecision)
  }

  /** The checksum; None when taking it would read behind a buffer. */
  function ChecksumOf(st: SidesState): Option<bv64> {
    if Readable(st) then Some(Crc32.Checksum(Crc32.Process(Crc32.START, ChecksumText(st)))) else None
  }

  /** What one level does to the register; None when feeding it would read behind a buffer. */
  function FeedStep(pp: nat, qp: nat): (Crc32.Register, Quote) -> Option<Crc32.Register> {
    (r: Crc32.Register, q: Quote) =>
      if LevelFits(pp, qp)(q) then Some(Crc32.Process(Crc32.Process(r, DigitsAt(q.key, pp)), DigitsAt(q.value, qp)))
      else None
  }

  /** What feeding the first n items leads to. */
  function Feeding<R, Q>(step: (R, Q) -> Option<R>, r: R, items: seq<Q>, n: nat): Option<R>
    requires n <= |items|
  {
    if n == 0 then Some(r)
    else match Feeding(step, r, items, n - 1)
      case None => None
      case Some(before) => step(before, items[n - 1])
  }

  lemma {:induction false} FeedingStops<R, Q>(step: (R, Q) -> Option<R>, r: R, items: seq<Q>, i: nat, n: nat)
    requires i <= n <= |items| && Feeding(step, r, items, i).None?
    ensures Feeding(step, r, items, n).None?
  {
    if i < n {
      FeedingStops(step, r, items, i, n - 1);
    }
  }

  lemma {:induction false} AllNext<T>(holds: T -> bool, items: seq<T>, i: nat)
    requires i < |items|
    ensures All(holds, items[..i + 1]) <==> All(holds, items[..i]) && holds(items[i])
  {
    assert items[..i + 1] == items[..i] + [items[i]];
  }

  /** Feeding level by level is feeding one text. */
  lemma {:induction false} FeedingText(crc: Crc32.Register, side: Side, pp: nat, qp: nat, n: nat)
    requires n <= |side|
    ensures Feeding(FeedStep(pp, qp), crc, side, n) == TextCrc(crc, side[..n], pp, qp)
  {
    if n > 0 {
      FeedingText(crc, side, pp, qp, n - 1);
      TextCrcNext(crc, side, pp, qp, n - 1);
    } else {
      assert side[..0] == [];
    }
  }

  /** The register after the text of some levels. */
  function TextCrc(crc: Crc32.Register, side: Side, pp: nat, qp: nat): Option<Crc32.Register> {
    if SideFits(side, pp, qp) then Some(Crc32.Process(crc, SideDigits(side, pp, qp))) else None
  }

  lemma {:induction false} TextCrcNext(crc: Crc32.Register, side: Side, pp: nat, qp: nat, n: nat)
    requires n < |side|
    ensures TextCrc(crc, side[..n + 1], pp, qp) ==
            match TextCrc(crc, side[..n], pp, qp) case None => None case Some(r) => FeedStep(pp, qp)(r, side[n])
  {
    AllNext(LevelFits(pp, qp), side, n);
    ConcatNext(LevelDigits(pp, qp), side, n);
    Crc32.ProcessThree(crc, SideDigits(side[..n], pp, qp), DigitsAt(side[n].key, pp), DigitsAt(side[n].value, qp));
  }

  /** A snapshot replaces both sides; it is not cut to the depth. */
  function AfterSnapshot(st: SidesState, book: Book): SidesState {
    st.(bids := InsertAll(BidRules(), book.bids), asks := InsertAll(AskRules(), book.asks))
  }

  function AfterUpdate(st: SidesState, book: Book): SidesState {
    st.(bids := Update(BidRules(), st.bids, book.bids, st.depth),
        asks := Update(AskRules(), st.asks, book.asks, st.depth))
  }

  function Verify(st: SidesState, expected: bv64): Outcome {
    match ChecksumOf(st)
    case None => Rejected(Overrun)
    case Some(actual) => if expected != actual then Rejected(BadChecksum(expected, actual)) else Accepted
  }

  class Sides {
    const bookDepth: nat
    const pricePrecision: nat
    const qtyPrecision: nat
    var bids: Side
    var asks: Side

    ghost function State(): SidesState
      reads this
    {
      SidesState(bookDepth, pricePrecision, qtyPrecision, bids, asks)
    }

    constructor (bookDepth: nat, pricePrecision: nat, qtyPrecision: nat, bids: Side, asks: Side)
      ensures State() == SidesState(bookDepth, pricePrecision, qtyPrecision, bids, asks)
    {
      this.bookDepth, this.pricePrecision, this.qtyPrecision := bookDepth, pricePrecision, qtyPrecision;
      this.bids, this.asks := bids, asks;
    }

    /** A failing checksum is reported after both sides have changed. */
    method AcceptSnapshot(book: Book) returns (outcome: Outcome)
      modifies `bids, `asks
      ensures State() == AfterSnapshot(old(State()), book)
      ensures outcome == Verify(State(), book.crc32)
    {
      bids, asks := [], [];
      bids := InsertQuotes(BidRules(), book.bids);
      asks := InsertQuotes(AskRules(), book.asks);
      outcome := VerifyChecksum(book.crc32);
    }

    method AcceptUpdate(book: Book) returns (outcome: Outcome)
      modifies `bids, `asks
      ensures State() == AfterUpdate(old(State()), book)
      ensures outcome == Verify(State(), book.crc32)
    {
      bids := ApplyUpdate(BidRules(), book.bids, bids);
      asks := ApplyUpdate(AskRules(), book.asks, asks);
      outcome := VerifyChecksum(book.crc32);
    }

    static method InsertQuotes<K, V>(rules: Rules<K, V>, quotes: seq<Entry<K, V>>) returns (side: seq<Entry<K, V>>)
      ensures side == InsertAll(rules, quotes)
    {
      side := [];
      var i := 0;
      assert quotes[..0] == [];
      while i < |quotes|
        invariant 0 <= i <= |quotes|
        invariant side == InsertAll(rules, quotes[..i])
      {
        assert quotes[..i + 1][..i] == quotes[..i];
        var it := LowerBound(rules, side, rules.rank(quotes[i].key));
        if it == |side| || rules.rank(side[it].key) != rules.rank(quotes[i].key) {
          side := side[..it] + [quotes[i]] + side[it..];
        }
        i := i + 1;
      }
      assert quotes[..i] == quotes;
    }

    method ApplyUpdate<K, V>(rules: Rules<K, V>, quotes: seq<Entry<K, V>>, before: seq<Entry<K, V>>)
      returns (side: seq<Entry<K, V>>)
      ensures side == Update(rules, before, quotes, bookDepth)
    {
      side := before;
      var i := 0;
      assert quotes[..0] == [];
      while i < |quotes|
        invariant 0 <= i <= |quotes|
        invariant side == ApplyAll(rules, before, quotes[..i])
      {
        assert quotes[..i + 1][..i] == quotes[..i];
        var price, qty := quotes[i].key, quotes[i].value;
        var it := LowerBound(rules, side, rules.rank(price));
        if it < |side| && rules.rank(side[it].key) == rules.rank(price) {
          if rules.zero(qty) {
            side := side[..it] + side[it + 1..];
          } else {
            side := side[it := side[it].(value := qty)];
          }
        } else {
          side := side[..it] + [quotes[i]] + side[it..];
        }
        i := i + 1;
      }
      assert quotes[..i] == quotes;
      if |side| > bookDepth {
        side := side[..bookDepth];
      }
    }

    method VerifyChecksum(expected: bv64) returns (outcome: Outcome)
      ensures outcome == Verify(State(), expected)
    {
      var actual := Crc();
      if actual.None? {
        return Rejected(Overrun);
      }
      if expected != actual.value {
        return Rejected(BadChecksum(expected, actual.value));
      }
      return Accepted;
    }

    /** The checksum of both sides is that of one text. */
    method Crc() returns (checksum: Option<bv64>)
      ensures checksum == ChecksumOf(State())
    {
      var r := UpdateChecksum(Crc32.START, asks);
      if r.None? {
        return None;
      }
      r := UpdateChecksum(r.value, bids);
      if r.None? {
        return None;
      }
      Crc32.ProcessConcat(Crc32.START, SideDigits(Take(asks, CRC_DEPTH), pricePrecision, qtyPrecision),
                          SideDigits(Take(bids, CRC_DEPTH), pricePrecision, qtyPrecision));
      checksum := Some(Crc32.Checksum(r.value));
    }

    /** The text of the ten best levels of a side is fed; None when a print of theirs would leave its buffer. */
    method UpdateChecksum(crc: Crc32.Register, side: Side) returns (r: Option<Crc32.Register>)
      ensures r == TextCrc(crc, Take(side, CRC_DEPTH), pricePrecision, qtyPrecision)
    {
      r := FeedLevels(crc, side);
      FeedingText(crc, side, pricePrecision, qtyPrecision, |Take(side, CRC_DEPTH)|);
      assert side[..|Take(side, CRC_DEPTH)|] == Take(side, CRC_DEPTH);
    }

    method FeedLevels(crc: Crc32.Register, side: Side) returns (r: Option<Crc32.Register>)
      ensures r == Feeding(FeedStep(pricePrecision, qtyPrecision), crc, side, |Take(side, CRC_DEPTH)|)
    {
      ghost var step := FeedStep(pricePrecision, qtyPrecision);
      r := Some(crc);
      var i, depth := 0, 0;
      while i < |side|
        invariant 0 <= i == depth <= |side| && i <= CRC_DEPTH
        invariant r.Some? && r == Feeding(step, crc, side, i)
      {
        depth := depth + 1;
        if depth > CRC_DEPTH {
          break;
        }
        r := FeedLevel(r.value, side[i]);
        if r.None? {
          FeedingStops(step, crc, side, i + 1, |Take(side, CRC_DEPTH)|);
          return;
        }
        i := i + 1;
      }
    }

    method FeedLevel(crc: Crc32.Register, q: Quote) returns (r: Option<Crc32.Register>)
      ensures r == FeedStep(pricePrecision, qtyPrecision)(crc, q)
    {
      if !LevelFits(pricePrecision, qtyPrecision)(q) {
        return None;
      }
      var register := FeedDecimal(crc, q.key, pricePrecision);
      register := FeedDecimal(register, q.value, qtyPrecision);
      return Some(register);
    }

    /** The element of the map prints itself in place. The point this may write is not kept in the side: it
        never shows. */
    static method FeedDecimal(crc: Crc32.Register, d: Held, p: nat) returns (r: Crc32.Register)
      requires d.Fits(p)
      ensures r == Crc32.Process(crc, DigitsAt(d, p))
    {
      var element := new Decimal.Of(d);
      r := element.Process(crc, p);
    }
  }
}
