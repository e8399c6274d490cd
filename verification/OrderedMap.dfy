/** An ordered map with a comparator, as its entries in order, and the update rule of a book side. */
module OrderedMap {
  import opened Parser

  datatype Entry<K, V> = Entry(key: K, value: V)

  /** The comparator, as the rank of a key, and which values remove the entry they are quoted for. */
  datatype Rules<!K, !V> = Rules(rank: K -> int, zero: V -> bool)

  predicate Sorted<K, V>(rules: Rules<K, V>, levels: seq<Entry<K, V>>) {
    forall i, j :: 0 <= i < j < |levels| ==> rules.rank(levels[i].key) < rules.rank(levels[j].key)
  }

  /** Position of the first level whose rank is at least k. */
  function LowerBound<K, V>(rules: Rules<K, V>, levels: seq<Entry<K, V>>, k: int): (n: nat)
    ensures n <= |levels|
    ensures forall i :: 0 <= i < n ==> rules.rank(levels[i].key) < k
    ensures n < |levels| ==> rules.rank(levels[n].key) >= k
  {
    if levels == [] || rules.rank(levels[0].key) >= k then 0
    else
      var n := LowerBound(rules, levels[1..], k);
      assert forall i :: 0 < i <= n < |levels| ==> rules.rank(levels[i].key) == rules.rank(levels[1..][i - 1].key);
      1 + n
  }

  predicate Present<K, V>(rules: Rules<K, V>, levels: seq<Entry<K, V>>, k: int) {
    var n := LowerBound(rules, levels, k);
    n < |levels| && rules.rank(levels[n].key) == k
  }

  function Lookup<K, V>(rules: Rules<K, V>, levels: seq<Entry<K, V>>, k: int): Option<Entry<K, V>> {
    if Present(rules, levels, k) then Some(levels[LowerBound(rules, levels, k)]) else None
  }

  /** What one quote of an update does: a known price is removed by a zero quantity and otherwise
      gets the quantity; an unknown price is inserted, whatever the quantity. */
  function Upsert<K, V>(rules: Rules<K, V>, levels: seq<Entry<K, V>>, q: Entry<K, V>): seq<Entry<K, V>> {
    var n := LowerBound(rules, levels, rules.rank(q.key));
    if Present(rules, levels, rules.rank(q.key)) then
      if rules.zero(q.value) then levels[..n] + levels[n + 1..]
      else levels[n := levels[n].(value := q.value)]
    else
      levels[..n] + [q] + levels[n..]
  }

  function ApplyAll<K, V>(rules: Rules<K, V>, levels: seq<Entry<K, V>>, quotes: seq<Entry<K, V>>): seq<Entry<K, V>> {
    if quotes == [] then levels
    else Upsert(rules, ApplyAll(rules, levels, quotes[..|quotes| - 1]), quotes[|quotes| - 1])
  }

  /** What one quote of a snapshot does: the first quote of a price wins. */
  function InsertNew<K, V>(rules: Rules<K, V>, levels: seq<Entry<K, V>>, q: Entry<K, V>): seq<Entry<K, V>> {
    var n := LowerBound(rules, levels, rules.rank(q.key));
    if Present(rules, levels, rules.rank(q.key)) then levels else levels[..n] + [q] + levels[n..]
  }

  function InsertAll<K, V>(rules: Rules<K, V>, quotes: seq<Entry<K, V>>): seq<Entry<K, V>> {
    if quotes == [] then []
    else InsertNew(rules, InsertAll(rules, quotes[..|quotes| - 1]), quotes[|quotes| - 1])
  }

  function Take<T>(s: seq<T>, n: nat): seq<T> {
    if |s| > n then s[..n] else s
  }

  /** An update as a whole: all its quotes, then the best `depth` levels. */
  function Update<K, V>(rules: Rules<K, V>, levels: seq<Entry<K, V>>, quotes: seq<Entry<K, V>>,
      depth: nat): seq<Entry<K, V>> {
    Take(ApplyAll(rules, levels, quotes), depth)
  }

  // ---- A side as a finite map ----

  lemma {:induction false} LookupFound<K, V>(rules: Rules<K, V>, levels: seq<Entry<K, V>>, i: nat)
    requires Sorted(rules, levels) && i < |levels|
    ensures Lookup(rules, levels, rules.rank(levels[i].key)) == Some(levels[i])
    ensures LowerBound(rules, levels, rules.rank(levels[i].key)) == i
  {
  }

  lemma {:induction false} LookupMissing<K, V>(rules: Rules<K, V>, levels: seq<Entry<K, V>>, k: int)
    requires Sorted(rules, levels) && forall i :: 0 <= i < |levels| ==> rules.rank(levels[i].key) != k
    ensures Lookup(rules, levels, k) == None
  {
  }

  /** A sorted side is determined by what its prices look up. */
  lemma {:induction false} SameLookupsSameLevels<K, V>(rules: Rules<K, V>, s: seq<Entry<K, V>>, t: seq<Entry<K, V>>)
    requires Sorted(rules, s) && Sorted(rules, t)
    requires forall k :: Lookup(rules, s, k) == Lookup(rules, t, k)
    ensures s == t
  {
    if s != [] && t != [] {
      LookupFound(rules, s, 0);
      LookupFound(rules, t, 0);
      assert Lookup(rules, t, rules.rank(s[0].key)) == Some(s[0]);
      assert Lookup(rules, s, rules.rank(t[0].key)) == Some(t[0]);
      assert s[0] == t[0];
      forall k
        ensures Lookup(rules, s[1..], k) == Lookup(rules, t[1..], k)
      {
        LookupTail(rules, s, k);
        LookupTail(rules, t, k);
      }
      SameLookupsSameLevels(rules, s[1..], t[1..]);
    } else if s != [] {
      LookupFound(rules, s, 0);
    } else if t != [] {
      LookupFound(rules, t, 0);
    }
  }

  lemma {:induction false} TailSorted<K, V>(rules: Rules<K, V>, s: seq<Entry<K, V>>)
    requires Sorted(rules, s) && s != []
    ensures Sorted(rules, s[1..])
  {
    assert forall i :: 0 <= i < |s| - 1 ==> rules.rank(s[1..][i].key) == rules.rank(s[i + 1].key);
  }

  lemma {:induction false} LookupTail<K, V>(rules: Rules<K, V>, s: seq<Entry<K, V>>, k: int)
    requires Sorted(rules, s) && s != []
    ensures Sorted(rules, s[1..])
    ensures Lookup(rules, s[1..], k) == if k == rules.rank(s[0].key) then None else Lookup(rules, s, k)
  {
    TailSorted(rules, s);
    assert forall i :: 0 <= i < |s| - 1 ==> rules.rank(s[1..][i].key) == rules.rank(s[i + 1].key);
    if i :| 0 <= i < |s| - 1 && rules.rank(s[1..][i].key) == k {
      LookupFound(rules, s[1..], i);
      LookupFound(rules, s, i + 1);
    } else {
      LookupMissing(rules, s[1..], k);
      if k != rules.rank(s[0].key) {
        LookupMissing(rules, s, k);
      }
    }
  }

  /** What a quote does to the level of its own price. */
  function Effect<K, V>(rules: Rules<K, V>, level: Option<Entry<K, V>>, q: Entry<K, V>): Option<Entry<K, V>> {
    match level
    case None => Some(q)
    case Some(found) => if rules.zero(q.value) then None else Some(found.(value := q.value))
  }

  /** What a list of quotes does to the level of rank k: only quotes of that rank count, in order. */
  function EffectAll<K, V>(rules: Rules<K, V>, level: Option<Entry<K, V>>, quotes: seq<Entry<K, V>>,
      k: int): Option<Entry<K, V>> {
    if quotes == [] then level
    else
      var before := EffectAll(rules, level, quotes[..|quotes| - 1], k);
      var last := quotes[|quotes| - 1];
      if rules.rank(last.key) == k then Effect(rules, before, last) else before
  }

  lemma {:induction false} InsertedSorted<K, V>(rules: Rules<K, V>, s: seq<Entry<K, V>>, q: Entry<K, V>, n: nat)
    requires Sorted(rules, s) && n <= |s|
    requires forall i :: 0 <= i < n ==> rules.rank(s[i].key) < rules.rank(q.key)
    requires forall i :: n <= i < |s| ==> rules.rank(q.key) < rules.rank(s[i].key)
    ensures Sorted(rules, s[..n] + [q] + s[n..])
  {
    var t := s[..n] + [q] + s[n..];
    forall i, j | 0 <= i < j < |t|
      ensures rules.rank(t[i].key) < rules.rank(t[j].key)
    {
      assert t[i] == if i < n then s[i] else if i == n then q else s[i - 1];
      assert t[j] == if j < n then s[j] else if j == n then q else s[j - 1];
    }
  }

  lemma {:induction false} InsertedAt<K, V>(rules: Rules<K, V>, s: seq<Entry<K, V>>, q: Entry<K, V>, k: int)
    requires Sorted(rules, s) && !Present(rules, s, rules.rank(q.key))
    ensures var n := LowerBound(rules, s, rules.rank(q.key)); var t := s[..n] + [q] + s[n..];
            && Sorted(rules, t)
            && Lookup(rules, t, k) == if k == rules.rank(q.key) then Some(q) else Lookup(rules, s, k)
  {
    var n := LowerBound(rules, s, rules.rank(q.key));
    var t := s[..n] + [q] + s[n..];
    InsertedSorted(rules, s, q, n);
    InsertedLookup(rules, s, t, q, n, k);
  }

  lemma {:induction false} InsertedLookup<K, V>(rules: Rules<K, V>, s: seq<Entry<K, V>>, t: seq<Entry<K, V>>,
      q: Entry<K, V>, n: nat, k: int)
    requires n <= |s| && t == s[..n] + [q] + s[n..]
    requires Sorted(rules, s) && Sorted(rules, t)
    ensures Lookup(rules, t, k) == if k == rules.rank(q.key) then Some(q) else Lookup(rules, s, k)
  {
    assert t[n] == q;
    if k == rules.rank(q.key) {
      LookupFound(rules, t, n);
    } else if i :| 0 <= i < |s| && rules.rank(s[i].key) == k {
      LookupFound(rules, s, i);
      var j := if i < n then i else i + 1;
      assert t[j] == s[i];
      LookupFound(rules, t, j);
    } else {
      LookupMissing(rules, s, k);
      forall i | 0 <= i < |t|
        ensures rules.rank(t[i].key) != k
      {
        assert t[i] == if i < n then s[i] else if i == n then q else s[i - 1];
      }
      LookupMissing(rules, t, k);
    }
  }

  lemma {:induction false} RemovedSorted<K, V>(rules: Rules<K, V>, s: seq<Entry<K, V>>, n: nat)
    requires Sorted(rules, s) && n < |s|
    ensures Sorted(rules, s[..n] + s[n + 1..])
  {
    var t := s[..n] + s[n + 1..];
    forall i, j | 0 <= i < j < |t|
      ensures rules.rank(t[i].key) < rules.rank(t[j].key)
    {
      assert t[i] == if i < n then s[i] else s[i + 1];
      assert t[j] == if j < n then s[j] else s[j + 1];
    }
  }

  lemma {:induction false} RemovedAt<K, V>(rules: Rules<K, V>, s: seq<Entry<K, V>>, n: nat, k: int)
    requires Sorted(rules, s) && n < |s|
    ensures var t := s[..n] + s[n + 1..];
            && Sorted(rules, t)
            && Lookup(rules, t, k) == if k == rules.rank(s[n].key) then None else Lookup(rules, s, k)
  {
    var t := s[..n] + s[n + 1..];
    RemovedSorted(rules, s, n);
    if i :| 0 <= i < |s| && i != n && rules.rank(s[i].key) == k {
      LookupFound(rules, s, i);
      LookupFound(rules, t, if i < n then i else i - 1);
    } else {
      forall i | 0 <= i < |t|
        ensures rules.rank(t[i].key) != k
      {
        assert t[i] == if i < n then s[i] else s[i + 1];
      }
      LookupMissing(rules, t, k);
      if k != rules.rank(s[n].key) {
        LookupMissing(rules, s, k);
      }
    }
  }

  lemma {:induction false} ReplacedAt<K, V>(rules: Rules<K, V>, s: seq<Entry<K, V>>, n: nat, value: V, k: int)
    requires Sorted(rules, s) && n < |s|
    ensures var t := s[n := s[n].(value := value)];
            && Sorted(rules, t)
            && Lookup(rules, t, k) ==
               if k == rules.rank(s[n].key) then Some(s[n].(value := value)) else Lookup(rules, s, k)
  {
    var t := s[n := s[n].(value := value)];
    assert forall i :: 0 <= i < |t| ==> rules.rank(t[i].key) == rules.rank(s[i].key);
    if i :| 0 <= i < |s| && rules.rank(s[i].key) == k {
      LookupFound(rules, s, i);
      LookupFound(rules, t, i);
    } else {
      LookupMissing(rules, s, k);
      LookupMissing(rules, t, k);
    }
  }

  /** A quote keeps the side sorted, changes the level of its own price only, and does that as told. */
  lemma {:induction false} UpsertLookup<K, V>(rules: Rules<K, V>, s: seq<Entry<K, V>>, q: Entry<K, V>, k: int)
    requires Sorted(rules, s)
    ensures Sorted(rules, Upsert(rules, s, q))
    ensures Lookup(rules, Upsert(rules, s, q), k) ==
            if rules.rank(q.key) == k then Effect(rules, Lookup(rules, s, k), q) else Lookup(rules, s, k)
  {
    var n := LowerBound(rules, s, rules.rank(q.key));
    if !Present(rules, s, rules.rank(q.key)) {
      InsertedAt(rules, s, q, k);
    } else if rules.zero(q.value) {
      RemovedAt(rules, s, n, k);
    } else {
      ReplacedAt(rules, s, n, q.value, k);
    }
  }

  /** All quotes of an update: the side stays sorted, and each price ends as its own quotes say. */
  lemma {:induction false} ApplyAllLookup<K, V>(rules: Rules<K, V>, s: seq<Entry<K, V>>, quotes: seq<Entry<K, V>>,
      k: int)
    requires Sorted(rules, s)
    ensures Sorted(rules, ApplyAll(rules, s, quotes))
    ensures Lookup(rules, ApplyAll(rules, s, quotes), k) == EffectAll(rules, Lookup(rules, s, k), quotes, k)
  {
    if quotes != [] {
      ApplyAllLookup(rules, s, quotes[..|quotes| - 1], k);
      UpsertLookup(rules, ApplyAll(rules, s, quotes[..|quotes| - 1]), quotes[|quotes| - 1], k);
    }
  }

  lemma {:induction false} InsertAllSorted<K, V>(rules: Rules<K, V>, quotes: seq<Entry<K, V>>)
    ensures Sorted(rules, InsertAll(rules, quotes))
  {
    if quotes != [] {
      var s, q := InsertAll(rules, quotes[..|quotes| - 1]), quotes[|quotes| - 1];
      InsertAllSorted(rules, quotes[..|quotes| - 1]);
      if !Present(rules, s, rules.rank(q.key)) {
        InsertedAt(rules, s, q, 0);
      }
    }
  }

  /** The first quote of rank k. */
  function FirstOf<K, V>(rules: Rules<K, V>, quotes: seq<Entry<K, V>>, k: int): Option<Entry<K, V>> {
    if quotes == [] then None
    else if rules.rank(quotes[0].key) == k then Some(quotes[0])
    else FirstOf(rules, quotes[1..], k)
  }

  lemma {:induction false} FirstOfSnoc<K, V>(rules: Rules<K, V>, quotes: seq<Entry<K, V>>, q: Entry<K, V>, k: int)
    ensures FirstOf(rules, quotes + [q], k) ==
            if FirstOf(rules, quotes, k).Some? then FirstOf(rules, quotes, k)
            else if rules.rank(q.key) == k then Some(q) else None
  {
    if quotes != [] {
      FirstOfSnoc(rules, quotes[1..], q, k);
      assert (quotes + [q])[1..] == quotes[1..] + [q];
    }
  }

  /** A snapshot holds, in order, the first quote of every price it names. */
  lemma {:induction false} InsertAllLookup<K, V>(rules: Rules<K, V>, quotes: seq<Entry<K, V>>, k: int)
    ensures Sorted(rules, InsertAll(rules, quotes))
    ensures Lookup(rules, InsertAll(rules, quotes), k) == FirstOf(rules, quotes, k)
  {
    InsertAllSorted(rules, quotes);
    if quotes != [] {
      var init, q := quotes[..|quotes| - 1], quotes[|quotes| - 1];
      InsertAllLookup(rules, init, k);
      InsertAllLookup(rules, init, rules.rank(q.key));
      FirstOfSnoc(rules, init, q, k);
      assert quotes == init + [q];
      if !Present(rules, InsertAll(rules, init), rules.rank(q.key)) {
        InsertedAt(rules, InsertAll(rules, init), q, k);
      }
    }
  }

  /** The position of the last quote of rank k, or -1. */
  function LastOf<K, V>(rules: Rules<K, V>, quotes: seq<Entry<K, V>>, k: int): (i: int)
    ensures -1 <= i < |quotes|
    ensures i >= 0 ==> rules.rank(quotes[i].key) == k
    ensures forall j :: i < j < |quotes| ==> rules.rank(quotes[j].key) != k
  {
    if quotes == [] then -1
    else if rules.rank(quotes[|quotes| - 1].key) == k then |quotes| - 1
    else LastOf(rules, quotes[..|quotes| - 1], k)
  }

  lemma {:induction false} EffectOfLast<K, V>(rules: Rules<K, V>, level: Option<Entry<K, V>>,
      quotes: seq<Entry<K, V>>, k: int)
    ensures var i := LastOf(rules, quotes, k);
            EffectAll(rules, level, quotes, k) ==
            if i < 0 then level else Effect(rules, EffectAll(rules, level, quotes[..i], k), quotes[i])
  {
    if quotes != [] && rules.rank(quotes[|quotes| - 1].key) != k {
      var init := quotes[..|quotes| - 1];
      EffectOfLast(rules, level, init, k);
      var i := LastOf(rules, init, k);
      if i >= 0 {
        assert init[..i] == quotes[..i];
      }
    }
  }

  /** After an update each price that was quoted and survives has its latest quantity, and a level of
      zero quantity is the last quote of its price, which found that price absent. */
  lemma {:induction false} LatestQuantity<K, V>(rules: Rules<K, V>, s: seq<Entry<K, V>>, quotes: seq<Entry<K, V>>,
      k: int)
    requires Sorted(rules, s)
    ensures var i := LastOf(rules, quotes, k); var after := Lookup(rules, ApplyAll(rules, s, quotes), k);
            && (i < 0 ==> after == Lookup(rules, s, k))
            && (i >= 0 && after.Some? ==> after.value.value == quotes[i].value)
            && (i >= 0 && after.Some? && rules.zero(after.value.value) ==>
                  Lookup(rules, ApplyAll(rules, s, quotes[..i]), k) == None)
            && (i >= 0 && after.None? ==>
                  rules.zero(quotes[i].value) && Lookup(rules, ApplyAll(rules, s, quotes[..i]), k).Some?)
  {
    ApplyAllLookup(rules, s, quotes, k);
    EffectOfLast(rules, Lookup(rules, s, k), quotes, k);
    var i := LastOf(rules, quotes, k);
    if i >= 0 {
      ApplyAllLookup(rules, s, quotes[..i], k);
    }
  }

  /** The level of rank k is cut off: the side is full of better ones. */
  predicate CutOff<K, V>(rules: Rules<K, V>, side: seq<Entry<K, V>>, depth: nat, k: int) {
    |side| == depth && forall j :: 0 <= j < |side| ==> rules.rank(side[j].key) < k
  }

  lemma {:induction false} TakeLookup<K, V>(rules: Rules<K, V>, t: seq<Entry<K, V>>, depth: nat, k: int)
    requires Sorted(rules, t)
    ensures Sorted(rules, Take(t, depth))
    ensures Lookup(rules, Take(t, depth), k) == Lookup(rules, t, k)
            || (Lookup(rules, Take(t, depth), k) == None && CutOff(rules, Take(t, depth), depth, k))
  {
    var s := Take(t, depth);
    assert forall i :: 0 <= i < |s| ==> s[i] == t[i];
    if i :| 0 <= i < |t| && rules.rank(t[i].key) == k {
      LookupFound(rules, t, i);
      if i < |s| {
        LookupFound(rules, s, i);
      } else {
        LookupMissing(rules, s, k);
      }
    } else {
      LookupMissing(rules, t, k);
      LookupMissing(rules, s, k);
    }
  }

  /** What an update has to do to the level of rank k, by the quotes of that rank alone: if there are none, it stays
      as it is; else they act on it in order, it ends with the quantity of the last one, and a single one removes
      it if it was there and the quantity is zero, changes its quantity if not, and inserts it if it was absent.
      Only `depth` better levels can keep it out. */
  predicate UpdatedAt<K(==), V(==)>(rules: Rules<K, V>, before: seq<Entry<K, V>>, quotes: seq<Entry<K, V>>,
      after: seq<Entry<K, V>>, depth: nat, k: int) {
    var i, b, a := LastOf(rules, quotes, k), Lookup(rules, before, k), Lookup(rules, after, k);
    || (a == None && CutOff(rules, after, depth, k))
    || (if i < 0 then a == b
        else
          && a == EffectAll(rules, b, quotes, k)
          && (a.Some? ==> a.value.value == quotes[i].value)
          && (a.None? ==> rules.zero(quotes[i].value))
          && ((forall j :: 0 <= j < i ==> rules.rank(quotes[j].key) != k) ==>
                a == if b.None? then Some(quotes[i])
                     else if rules.zero(quotes[i].value) then None
                     else Some(b.value.(value := quotes[i].value))))
  }

  lemma {:induction false} ApplyAllAt<K, V>(rules: Rules<K, V>, s: seq<Entry<K, V>>, quotes: seq<Entry<K, V>>, k: int)
    requires Sorted(rules, s)
    ensures var i, b, a := LastOf(rules, quotes, k), Lookup(rules, s, k), Lookup(rules, ApplyAll(rules, s, quotes), k);
            if i < 0 then a == b
            else
              && a == EffectAll(rules, b, quotes, k)
              && (a.Some? ==> a.value.value == quotes[i].value)
              && (a.None? ==> rules.zero(quotes[i].value))
              && ((forall j :: 0 <= j < i ==> rules.rank(quotes[j].key) != k) ==>
                    a == if b.None? then Some(quotes[i])
                         else if rules.zero(quotes[i].value) then None
                         else Some(b.value.(value := quotes[i].value)))
  {
    LatestQuantity(rules, s, quotes, k);
    ApplyAllLookup(rules, s, quotes, k);
    var i := LastOf(rules, quotes, k);
    if i >= 0 && forall j :: 0 <= j < i ==> rules.rank(quotes[j].key) != k {
      EffectOfLast(rules, Lookup(rules, s, k), quotes, k);
      EffectOfNone(rules, Lookup(rules, s, k), quotes[..i], k);
    }
  }

  lemma {:induction false} UpdateAt<K, V>(rules: Rules<K, V>, s: seq<Entry<K, V>>, quotes: seq<Entry<K, V>>,
      depth: nat, k: int)
    requires Sorted(rules, s)
    ensures Sorted(rules, Update(rules, s, quotes, depth)) && |Update(rules, s, quotes, depth)| <= depth
    ensures UpdatedAt(rules, s, quotes, Update(rules, s, quotes, depth), depth, k)
  {
    ApplyAllLookup(rules, s, quotes, k);
    ApplyAllAt(rules, s, quotes, k);
    TakeLookup(rules, ApplyAll(rules, s, quotes), depth, k);
  }

  predicate DistinctPrices<K, V>(rules: Rules<K, V>, quotes: seq<Entry<K, V>>) {
    forall i, j :: 0 <= i < j < |quotes| ==> rules.rank(quotes[i].key) != rules.rank(quotes[j].key)
  }

  /** With pairwise different prices, the quote of a price acts alone. */
  lemma {:induction false} EffectOfOnly<K, V>(rules: Rules<K, V>, level: Option<Entry<K, V>>,
      quotes: seq<Entry<K, V>>, k: int, i: nat)
    requires DistinctPrices(rules, quotes) && i < |quotes| && rules.rank(quotes[i].key) == k
    ensures EffectAll(rules, level, quotes, k) == Effect(rules, level, quotes[i])
  {
    EffectOfLast(rules, level, quotes, k);
    var last := LastOf(rules, quotes, k);
    assert rules.rank(quotes[last].key) == k;
    EffectOfNone(rules, level, quotes[..i], k);
  }

  lemma {:induction false} EffectOfNone<K, V>(rules: Rules<K, V>, level: Option<Entry<K, V>>,
      quotes: seq<Entry<K, V>>, k: int)
    requires forall i :: 0 <= i < |quotes| ==> rules.rank(quotes[i].key) != k
    ensures EffectAll(rules, level, quotes, k) == level
  {
    if quotes != [] {
      EffectOfNone(rules, level, quotes[..|quotes| - 1], k);
    }
  }

  /** Quotes of pairwise different prices can be applied in any order. */
  lemma {:induction false} OrderDoesNotMatter<K, V>(rules: Rules<K, V>, s: seq<Entry<K, V>>, quotes: seq<Entry<K, V>>,
      permuted: seq<Entry<K, V>>, depth: nat)
    requires Sorted(rules, s)
    requires DistinctPrices(rules, quotes) && multiset(quotes) == multiset(permuted)
    ensures Update(rules, s, quotes, depth) == Update(rules, s, permuted, depth)
  {
    PermutedDistinct(rules, quotes, permuted);
    forall k
      ensures Lookup(rules, ApplyAll(rules, s, quotes), k) == Lookup(rules, ApplyAll(rules, s, permuted), k)
    {
      ApplyAllLookup(rules, s, quotes, k);
      ApplyAllLookup(rules, s, permuted, k);
      if i :| 0 <= i < |quotes| && rules.rank(quotes[i].key) == k {
        assert quotes[i] in multiset(permuted);
        var j :| 0 <= j < |permuted| && permuted[j] == quotes[i];
        EffectOfOnly(rules, Lookup(rules, s, k), quotes, k, i);
        assert rules.rank(permuted[j].key) == k;
        EffectOfOnly(rules, Lookup(rules, s, k), permuted, k, j);
      } else {
        EffectOfNone(rules, Lookup(rules, s, k), quotes, k);
        forall j | 0 <= j < |permuted|
          ensures rules.rank(permuted[j].key) != k
        {
          assert permuted[j] in multiset(quotes);
          var i :| 0 <= i < |quotes| && quotes[i] == permuted[j];
          assert rules.rank(quotes[i].key) != k;
        }
        EffectOfNone(rules, Lookup(rules, s, k), permuted, k);
      }
    }
    ApplyAllLookup(rules, s, quotes, 0);
    ApplyAllLookup(rules, s, permuted, 0);
    SameLookupsSameLevels(rules, ApplyAll(rules, s, quotes), ApplyAll(rules, s, permuted));
  }

  lemma {:induction false} PermutedDistinct<K, V>(rules: Rules<K, V>, quotes: seq<Entry<K, V>>,
      permuted: seq<Entry<K, V>>)
    requires DistinctPrices(rules, quotes) && multiset(quotes) == multiset(permuted)
    ensures DistinctPrices(rules, permuted)
  {
    forall i, j | 0 <= i < j < |permuted|
      ensures rules.rank(permuted[i].key) != rules.rank(permuted[j].key)
    {
      if rules.rank(permuted[i].key) == rules.rank(permuted[j].key) {
        assert permuted[i] in multiset(quotes) && permuted[j] in multiset(quotes);
        var a :| 0 <= a < |quotes| && quotes[a] == permuted[i];
        var b :| 0 <= b < |quotes| && quotes[b] == permuted[j];
        assert rules.rank(quotes[a].key) == rules.rank(quotes[b].key);
        assert a == b && permuted[i] == permuted[j];
        TwiceInPermuted(permuted, i, j);
        OnceInDistinct(rules, quotes, a);
      }
    }
  }

  lemma {:induction false} TwiceInPermuted<K, V>(s: seq<Entry<K, V>>, i: nat, j: nat)
    requires i < j < |s| && s[i] == s[j]
    ensures multiset(s)[s[i]] >= 2
  {
    assert s == s[..j] + s[j..];
    assert s[i] in s[..j] && s[j] in s[j..];
    assert s[..j][i] == s[i] && s[j..][0] == s[j];
  }

  lemma {:induction false} OnceInDistinct<K, V>(rules: Rules<K, V>, s: seq<Entry<K, V>>, a: nat)
    requires DistinctPrices(rules, s) && a < |s|
    ensures multiset(s)[s[a]] == 1
  {
    assert s == s[..a] + [s[a]] + s[a + 1..];
    assert forall i :: 0 <= i < |s| && i != a ==> rules.rank(s[i].key) != rules.rank(s[a].key);
    assert s[a] !in s[..a] && s[a] !in s[a + 1..];
  }

  // ---- What holds of every key and every value ----

  predicate AllEntries<K, V>(key: K -> bool, value: V -> bool, s: seq<Entry<K, V>>) {
    forall i :: 0 <= i < |s| ==> key(s[i].key) && value(s[i].value)
  }

  lemma {:induction false} UpsertKeeps<K, V>(rules: Rules<K, V>, key: K -> bool, value: V -> bool,
      s: seq<Entry<K, V>>, q: Entry<K, V>)
    requires AllEntries(key, value, s) && key(q.key) && value(q.value)
    ensures AllEntries(key, value, Upsert(rules, s, q)) && AllEntries(key, value, InsertNew(rules, s, q))
  {
  }

  /** What holds of the keys and values of a side and of all quotes holds of the side after them. */
  lemma {:induction false} UpdateKeeps<K, V>(rules: Rules<K, V>, key: K -> bool, value: V -> bool,
      s: seq<Entry<K, V>>, quotes: seq<Entry<K, V>>, depth: nat)
    requires AllEntries(key, value, s) && AllEntries(key, value, quotes)
    ensures AllEntries(key, value, ApplyAll(rules, s, quotes)) && AllEntries(key, value, InsertAll(rules, quotes))
    ensures AllEntries(key, value, Update(rules, s, quotes, depth))
  {
    if quotes != [] {
      var init, q := quotes[..|quotes| - 1], quotes[|quotes| - 1];
      UpdateKeeps(rules, key, value, s, init, depth);
      UpsertKeeps(rules, key, value, ApplyAll(rules, s, init), q);
      UpsertKeeps(rules, key, value, InsertAll(rules, init), q);
    }
  }

  // ---- Sides under another reading of their keys and values ----

  function Image<K, V, A, B>(key: K -> A, value: V -> B, s: seq<Entry<K, V>>): (t: seq<Entry<A, B>>)
    ensures |t| == |s|
    ensures forall i :: 0 <= i < |s| ==> t[i] == Entry(key(s[i].key), value(s[i].value))
  {
    seq(|s|, i requires 0 <= i < |s| => Entry(key(s[i].key), value(s[i].value)))
  }

  /** The rules read nothing of a key or a value but what the images keep. */
  ghost predicate Factors<K(!new), V(!new), A, B>(rules: Rules<K, V>, key: K -> A, value: V -> B, image: Rules<A, B>) {
    && (forall k :: rules.rank(k) == image.rank(key(k)))
    && (forall v :: rules.zero(v) == image.zero(value(v)))
  }

  lemma {:induction false} LowerBoundImage<K(!new), V(!new), A, B>(rules: Rules<K, V>, key: K -> A, value: V -> B,
      image: Rules<A, B>, s: seq<Entry<K, V>>, k: int)
    requires Factors(rules, key, value, image)
    ensures LowerBound(image, Image(key, value, s), k) == LowerBound(rules, s, k)
    ensures Present(image, Image(key, value, s), k) == Present(rules, s, k)
  {
    var t := Image(key, value, s);
    if s != [] && rules.rank(s[0].key) < k {
      LowerBoundImage(rules, key, value, image, s[1..], k);
      assert t[1..] == Image(key, value, s[1..]);
    }
  }

  lemma {:induction false} ImageInserted<K, V, A, B>(key: K -> A, value: V -> B, s: seq<Entry<K, V>>, q: Entry<K, V>,
      n: nat)
    requires n <= |s|
    ensures Image(key, value, s[..n] + [q] + s[n..]) ==
            Image(key, value, s)[..n] + [Entry(key(q.key), value(q.value))] + Image(key, value, s)[n..]
  {
  }

  lemma {:induction false} ImageRemoved<K, V, A, B>(key: K -> A, value: V -> B, s: seq<Entry<K, V>>, n: nat)
    requires n < |s|
    ensures Image(key, value, s[..n] + s[n + 1..]) == Image(key, value, s)[..n] + Image(key, value, s)[n + 1..]
  {
  }

  lemma {:induction false} ImageReplaced<K, V, A, B>(key: K -> A, value: V -> B, s: seq<Entry<K, V>>, n: nat, v: V)
    requires n < |s|
    ensures Image(key, value, s[n := s[n].(value := v)]) ==
            Image(key, value, s)[n := Image(key, value, s)[n].(value := value(v))]
  {
  }

  lemma {:induction false} UpsertImage<K(!new), V(!new), A, B>(rules: Rules<K, V>, key: K -> A, value: V -> B,
      image: Rules<A, B>, s: seq<Entry<K, V>>, q: Entry<K, V>)
    requires Factors(rules, key, value, image)
    ensures Image(key, value, Upsert(rules, s, q)) ==
            Upsert(image, Image(key, value, s), Entry(key(q.key), value(q.value)))
    ensures Image(key, value, InsertNew(rules, s, q)) ==
            InsertNew(image, Image(key, value, s), Entry(key(q.key), value(q.value)))
  {
    var n := LowerBound(rules, s, rules.rank(q.key));
    LowerBoundImage(rules, key, value, image, s, rules.rank(q.key));
    ImageInserted(key, value, s, q, n);
    if Present(rules, s, rules.rank(q.key)) {
      ImageRemoved(key, value, s, n);
      ImageReplaced(key, value, s, n, q.value);
    }
  }

  lemma {:induction false} ImageInit<K, V, A, B>(key: K -> A, value: V -> B, s: seq<Entry<K, V>>)
    requires s != []
    ensures Image(key, value, s)[..|s| - 1] == Image(key, value, s[..|s| - 1])
  {
  }

  /** An update read through the images is the update of the images. */
  lemma {:induction false} ApplyAllImage<K(!new), V(!new), A, B>(rules: Rules<K, V>, key: K -> A, value: V -> B,
      image: Rules<A, B>, s: seq<Entry<K, V>>, quotes: seq<Entry<K, V>>)
    requires Factors(rules, key, value, image)
    ensures Image(key, value, ApplyAll(rules, s, quotes)) ==
            ApplyAll(image, Image(key, value, s), Image(key, value, quotes))
  {
    if quotes != [] {
      var init, q := quotes[..|quotes| - 1], quotes[|quotes| - 1];
      ApplyAllImage(rules, key, value, image, s, init);
      UpsertImage(rules, key, value, image, ApplyAll(rules, s, init), q);
      ImageInit(key, value, quotes);
    }
  }

  /** And so for a snapshot. */
  lemma {:induction false} InsertAllImage<K(!new), V(!new), A, B>(rules: Rules<K, V>, key: K -> A, value: V -> B,
      image: Rules<A, B>, quotes: seq<Entry<K, V>>)
    requires Factors(rules, key, value, image)
    ensures Image(key, value, InsertAll(rules, quotes)) == InsertAll(image, Image(key, value, quotes))
  {
    if quotes != [] {
      var init, q := quotes[..|quotes| - 1], quotes[|quotes| - 1];
      InsertAllImage(rules, key, value, image, init);
      UpsertImage(rules, key, value, image, InsertAll(rules, init), q);
      ImageInit(key, value, quotes);
    }
  }

  lemma {:induction false} UpdateImage<K(!new), V(!new), A, B>(rules: Rules<K, V>, key: K -> A, value: V -> B,
      image: Rules<A, B>, s: seq<Entry<K, V>>, quotes: seq<Entry<K, V>>, depth: nat)
    requires Factors(rules, key, value, image)
    ensures Image(key, value, Update(rules, s, quotes, depth)) ==
            Update(image, Image(key, value, s), Image(key, value, quotes), depth)
  {
    ApplyAllImage(rules, key, value, image, s, quotes);
  }
}
