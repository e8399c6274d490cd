/** What the checksum of a book is, in numbers, with the order of its parts. */
module ChecksumLaws {
  import opened Digits
  import opened View
  import opened Parser
  import opened Buffers
  import opened OrderedMap
  import opened SidesModel
  import opened SidesLaws
  import Crc32

  /** The numeral of floor(value * 10^p). */
  function NumeralAt(d: Held, p: nat): string {
    Numeral(FloorAt(Num(TextOf(d)), p))
  }

  /** The numerals of one level: its price, then its quantity. */
  function LevelNumerals(pp: nat, qp: nat): Quote -> string {
    (q: Quote) => NumeralAt(q.key, pp) + NumeralAt(q.value, qp)
  }

  /** Texts one after the other, from the first item on. */
  function InOrder<T>(text: T -> string, items: seq<T>): string {
    if items == [] then "" else text(items[0]) + InOrder(text, items[1..])
  }

  lemma {:induction false} InOrderLast<T>(text: T -> string, items: seq<T>, last: T)
    ensures InOrder(text, items + [last]) == InOrder(text, items) + text(last)
  {
    if items == [] {
      assert [] + [last] == [last] && [last][1..] == [];
      assert InOrder(text, [last][1..]) == "";
    } else {
      InOrderLast(text, items[1..], last);
      assert (items + [last])[1..] == items[1..] + [last];
    }
  }

  lemma {:induction false} InOrderIsConcat<T>(text: T -> string, items: seq<T>)
    ensures InOrder(text, items) == Concat(text, items)
  {
    if items != [] {
      var init, last := items[..|items| - 1], items[|items| - 1];
      InOrderIsConcat(text, init);
      InOrderLast(text, init, last);
      assert items == init + [last];
    }
  }

  function NumeralsOf(levels: Side, pp: nat, qp: nat): string {
    InOrder(LevelNumerals(pp, qp), levels)
  }

  lemma {:induction false} ConcatOther<T>(text: T -> string, other: T -> string, items: seq<T>)
    requires forall i :: 0 <= i < |items| ==> text(items[i]) == other(items[i])
    ensures Concat(text, items) == Concat(other, items)
  {
    if items != [] {
      ConcatOther(text, other, items[..|items| - 1]);
    }
  }

  /** What sound levels feed is their numerals. */
  lemma {:induction false} SideIsNumerals(levels: Side, pp: nat, qp: nat)
    requires SoundSide(levels, pp, qp)
    ensures SideFits(levels, pp, qp) && SideDigits(levels, pp, qp) == NumeralsOf(levels, pp, qp)
  {
    forall i | 0 <= i < |levels|
      ensures LevelDigits(pp, qp)(levels[i]) == LevelNumerals(pp, qp)(levels[i])
    {
      assert SoundAt(pp)(levels[i].key) && SoundAt(qp)(levels[i].value);
      SoundDigits(levels[i].key, pp);
      SoundDigits(levels[i].value, qp);
    }
    ConcatOther(LevelDigits(pp, qp), LevelNumerals(pp, qp), levels);
    InOrderIsConcat(LevelNumerals(pp, qp), levels);
  }

  /** The checksum of a book is the CRC-32 of the numerals of its ten best asks, then of its ten best bids. */
  lemma {:induction false} ChecksumOfBook(st: SidesState)
    requires SoundBest(st)
    ensures var asks := NumeralsOf(Take(st.asks, 10), st.pricePrecision, st.qtyPrecision);
            var bids := NumeralsOf(Take(st.bids, 10), st.pricePrecision, st.qtyPrecision);
            ChecksumOf(st) == Some(Crc32.Checksum(Crc32.Process(Crc32.START, asks + bids)))
  {
    SideIsNumerals(Take(st.asks, 10), st.pricePrecision, st.qtyPrecision);
    SideIsNumerals(Take(st.bids, 10), st.pricePrecision, st.qtyPrecision);
  }

  /** The text of a book, sound or not, is that of its asks alone, then that of its bids alone. */
  lemma {:induction false} AsksBeforeBids(st: SidesState)
    ensures ChecksumText(st) == ChecksumText(st.(bids := [])) + ChecksumText(st.(asks := []))
  {
  }

  /** For one ask and one bid: ask price, ask quantity, bid price, bid quantity. */
  lemma {:induction false} ChecksumOfTwoLevels(st: SidesState, ask: Quote, bid: Quote)
    requires st.asks == [ask] && st.bids == [bid] && SoundBest(st)
    ensures ChecksumOf(st) == Some(Crc32.Checksum(Crc32.Process(Crc32.START,
              Numeral(FloorAt(Num(TextOf(ask.key)), st.pricePrecision))
              + Numeral(FloorAt(Num(TextOf(ask.value)), st.qtyPrecision))
              + Numeral(FloorAt(Num(TextOf(bid.key)), st.pricePrecision))
              + Numeral(FloorAt(Num(TextOf(bid.value)), st.qtyPrecision)))))
  {
    ChecksumOfBook(st);
    OneLevel(ask, st.pricePrecision, st.qtyPrecision);
    OneLevel(bid, st.pricePrecision, st.qtyPrecision);
    FourTexts(NumeralAt(ask.key, st.pricePrecision), NumeralAt(ask.value, st.qtyPrecision),
              NumeralAt(bid.key, st.pricePrecision), NumeralAt(bid.value, st.qtyPrecision));
  }

  lemma {:induction false} FourTexts(a: string, b: string, c: string, d: string)
    ensures (a + b) + (c + d) == a + b + c + d
  {
  }

  lemma {:induction false} OneLevel(level: Quote, pp: nat, qp: nat)
    ensures NumeralsOf([level], pp, qp) == NumeralAt(level.key, pp) + NumeralAt(level.value, qp)
  {
    InOrderLast(LevelNumerals(pp, qp), [], level);
    assert [] + [level] == [level];
  }
}
