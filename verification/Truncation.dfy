/** How long a side that is cut to a depth after every update agrees with one that never is. */
module Truncation {
  import opened OrderedMap

  type Batches<K, V> = seq<seq<Entry<K, V>>>

  /** The side after some updates, cut to the depth after each. */
  function Run<K, V>(rules: Rules<K, V>, start: seq<Entry<K, V>>, batches: Batches<K, V>,
      depth: nat): seq<Entry<K, V>> {
    if batches == [] then start
    else Update(rules, Run(rules, start, batches[..|batches| - 1], depth), batches[|batches| - 1], depth)
  }

  /** The same without ever cutting. */
  function RunUncut<K, V>(rules: Rules<K, V>, start: seq<Entry<K, V>>, batches: Batches<K, V>): seq<Entry<K, V>> {
    if batches == [] then start
    else ApplyAll(rules, RunUncut(rules, start, batches[..|batches| - 1]), batches[|batches| - 1])
  }

  /** How many of the first levels are still right after a quote, when m were right before: one fewer
      when one of them is removed, one more when a new one arrives among them. */
  function Margin<K, V>(rules: Rules<K, V>, levels: seq<Entry<K, V>>, q: Entry<K, V>, m: nat): nat {
    var n := LowerBound(rules, levels, rules.rank(q.key));
    if n >= m then m
    else if !Present(rules, levels, rules.rank(q.key)) then m + 1
    else if rules.zero(q.value) then m - 1
    else m
  }

  function MarginAll<K, V>(rules: Rules<K, V>, levels: seq<Entry<K, V>>, quotes: seq<Entry<K, V>>, m: nat): nat {
    if quotes == [] then m
    else
      var init := quotes[..|quotes| - 1];
      Margin(rules, ApplyAll(rules, levels, init), quotes[|quotes| - 1], MarginAll(rules, levels, init, m))
  }

  function Min(a: nat, b: nat): nat {
    if a < b then a else b
  }

  /** How many of the first levels are right after a run; this reads the cut side only. */
  function MarginRun<K, V>(rules: Rules<K, V>, start: seq<Entry<K, V>>, batches: Batches<K, V>, depth: nat): nat {
    if batches == [] then depth
    else
      var init := batches[..|batches| - 1];
      Min(MarginAll(rules, Run(rules, start, init, depth), batches[|batches| - 1],
                    MarginRun(rules, start, init, depth)), depth)
  }

  /** The number of quotes of zero quantity. */
  function ZeroQuotes<K, V>(rules: Rules<K, V>, quotes: seq<Entry<K, V>>): nat {
    if quotes == [] then 0
    else ZeroQuotes(rules, quotes[..|quotes| - 1]) + if rules.zero(quotes[|quotes| - 1].value) then 1 else 0
  }

  function ZeroQuotesInRun<K, V>(rules: Rules<K, V>, batches: Batches<K, V>): nat {
    if batches == [] then 0
    else ZeroQuotesInRun(rules, batches[..|batches| - 1]) + ZeroQuotes(rules, batches[|batches| - 1])
  }

  predicate Agree<T(==)>(s: seq<T>, t: seq<T>, m: nat) {
    Take(s, m) == Take(t, m)
  }

  lemma {:induction false} AgreeLess<T>(s: seq<T>, t: seq<T>, m: nat, n: nat)
    requires Agree(s, t, m) && n <= m
    ensures Agree(s, t, n)
  {
    assert Take(Take(s, m), n) == Take(s, n);
    assert Take(Take(t, m), n) == Take(t, n);
  }

  lemma {:induction false} AgreeSame<T>(s: seq<T>, t: seq<T>, m: nat)
    requires Agree(s, t, m) && (|s| < m || |t| < m)
    ensures s == t
  {
  }

  lemma {:induction false} LowerBoundIs<K, V>(rules: Rules<K, V>, levels: seq<Entry<K, V>>, k: int, n: nat)
    requires Sorted(rules, levels) && n <= |levels|
    requires forall i :: 0 <= i < n ==> rules.rank(levels[i].key) < k
    requires n < |levels| ==> rules.rank(levels[n].key) >= k
    ensures LowerBound(rules, levels, k) == n
  {
  }

  /** Among the agreeing levels, a key has the same position in both sides, or none in either. */
  lemma {:induction false} SamePosition<K, V>(rules: Rules<K, V>, s: seq<Entry<K, V>>, t: seq<Entry<K, V>>, k: int,
      m: nat)
    requires Sorted(rules, s) && Sorted(rules, t)
    requires m <= |s| && m <= |t| && s[..m] == t[..m]
    ensures LowerBound(rules, s, k) < m || LowerBound(rules, t, k) < m ==>
              LowerBound(rules, s, k) == LowerBound(rules, t, k)
              && Present(rules, s, k) == Present(rules, t, k)
  {
    assert forall i :: 0 <= i < m ==> s[i] == s[..m][i] == t[..m][i] == t[i];
    var n := LowerBound(rules, s, k);
    if n < m {
      LowerBoundIs(rules, t, k, n);
    }
  }

  /** One quote, applied to two sides that agree on their first m levels. */
  lemma {:induction false} UpsertAgrees<K, V>(rules: Rules<K, V>, s: seq<Entry<K, V>>, t: seq<Entry<K, V>>,
      q: Entry<K, V>, m: nat)
    requires Sorted(rules, s) && Sorted(rules, t) && Agree(s, t, m)
    ensures Agree(Upsert(rules, s, q), Upsert(rules, t, q), Margin(rules, s, q, m))
  {
    if |s| < m || |t| < m {
      AgreeSame(s, t, m);
    } else {
      var k := rules.rank(q.key);
      SamePosition(rules, s, t, k, m);
      var n := LowerBound(rules, s, k);
      if n < m {
        AgreeBehind(s, t, q, s[n].(value := q.value), m, n);
        assert s[n] == s[..m][n] == t[..m][n] == t[n];
      } else {
        UpsertBeyond(rules, s, q, m);
        UpsertBeyond(rules, t, q, m);
      }
    }
  }

  lemma {:induction false} AgreeBehind<T>(s: seq<T>, t: seq<T>, x: T, y: T, m: nat, n: nat)
    requires n < m <= |s| && m <= |t| && s[..m] == t[..m]
    ensures Agree(s[..n] + [x] + s[n..], t[..n] + [x] + t[n..], m + 1)
    ensures Agree(s[..n] + s[n + 1..], t[..n] + t[n + 1..], m - 1)
    ensures Agree(s[n := y], t[n := y], m)
  {
    var p := s[..m];
    assert Take(s[..n] + [x] + s[n..], m + 1) == p[..n] + [x] + p[n..];
    assert Take(t[..n] + [x] + t[n..], m + 1) == p[..n] + [x] + p[n..];
    assert Take(s[..n] + s[n + 1..], m - 1) == p[..n] + p[n + 1..];
    assert Take(t[..n] + t[n + 1..], m - 1) == p[..n] + p[n + 1..];
    assert Take(s[n := y], m) == p[n := y];
    assert Take(t[n := y], m) == p[n := y];
  }

  lemma {:induction false} UpsertBeyond<K, V>(rules: Rules<K, V>, s: seq<Entry<K, V>>, q: Entry<K, V>, m: nat)
    requires m <= |s| && LowerBound(rules, s, rules.rank(q.key)) >= m
    ensures Take(Upsert(rules, s, q), m) == s[..m]
  {
  }

  lemma {:induction false} ApplyAllAgrees<K, V>(rules: Rules<K, V>, s: seq<Entry<K, V>>, t: seq<Entry<K, V>>,
      quotes: seq<Entry<K, V>>, m: nat)
    requires Sorted(rules, s) && Sorted(rules, t) && Agree(s, t, m)
    ensures Agree(ApplyAll(rules, s, quotes), ApplyAll(rules, t, quotes), MarginAll(rules, s, quotes, m))
  {
    if quotes != [] {
      var init := quotes[..|quotes| - 1];
      ApplyAllAgrees(rules, s, t, init, m);
      ApplyAllLookup(rules, s, init, 0);
      ApplyAllLookup(rules, t, init, 0);
      UpsertAgrees(rules, ApplyAll(rules, s, init), ApplyAll(rules, t, init), quotes[|quotes| - 1],
                   MarginAll(rules, s, init, m));
    }
  }

  lemma {:induction false} TakeSorted<K, V>(rules: Rules<K, V>, s: seq<Entry<K, V>>, n: nat)
    requires Sorted(rules, s)
    ensures Sorted(rules, Take(s, n))
  {
  }

  lemma {:induction false} RunSorted<K, V>(rules: Rules<K, V>, start: seq<Entry<K, V>>, batches: Batches<K, V>,
      depth: nat)
    requires Sorted(rules, start)
    ensures Sorted(rules, Run(rules, start, batches, depth))
    ensures Sorted(rules, RunUncut(rules, start, batches))
    ensures batches != [] ==> |Run(rules, start, batches, depth)| <= depth
  {
    if batches != [] {
      var init, last := batches[..|batches| - 1], batches[|batches| - 1];
      RunSorted(rules, start, init, depth);
      ApplyAllLookup(rules, Run(rules, start, init, depth), last, 0);
      ApplyAllLookup(rules, RunUncut(rules, start, init), last, 0);
      TakeSorted(rules, ApplyAll(rules, Run(rules, start, init, depth), last), depth);
    }
  }

  /** The cut side is right on as many levels as its margin says, whatever was sent. */
  lemma {:induction false} RunAgrees<K, V>(rules: Rules<K, V>, start: seq<Entry<K, V>>, batches: Batches<K, V>,
      depth: nat)
    requires Sorted(rules, start)
    ensures Agree(Run(rules, start, batches, depth), RunUncut(rules, start, batches),
                  MarginRun(rules, start, batches, depth))
  {
    if batches != [] {
      var init, last := batches[..|batches| - 1], batches[|batches| - 1];
      var s, t := Run(rules, start, init, depth), RunUncut(rules, start, init);
      var m := MarginRun(rules, start, init, depth);
      RunAgrees(rules, start, init, depth);
      RunSorted(rules, start, init, depth);
      ApplyAllAgrees(rules, s, t, last, m);
      var s', t', m' := ApplyAll(rules, s, last), ApplyAll(rules, t, last), MarginAll(rules, s, last, m);
      AgreeLess(s', t', m', Min(m', depth));
      assert Take(Take(s', depth), Min(m', depth)) == Take(s', Min(m', depth));
    }
  }

  lemma {:induction false} MarginAllBound<K, V>(rules: Rules<K, V>, s: seq<Entry<K, V>>, quotes: seq<Entry<K, V>>,
      m: nat)
    ensures MarginAll(rules, s, quotes, m) + ZeroQuotes(rules, quotes) >= m
  {
    if quotes != [] {
      MarginAllBound(rules, s, quotes[..|quotes| - 1], m);
    }
  }

  lemma {:induction false} MarginBound<K, V>(rules: Rules<K, V>, start: seq<Entry<K, V>>, batches: Batches<K, V>,
      depth: nat)
    ensures MarginRun(rules, start, batches, depth) + ZeroQuotesInRun(rules, batches) >= depth
  {
    if batches != [] {
      var init, last := batches[..|batches| - 1], batches[|batches| - 1];
      MarginBound(rules, start, init, depth);
      MarginAllBound(rules, Run(rules, start, init, depth), last, MarginRun(rules, start, init, depth));
    }
  }

  /** After at most `gone` quotes of zero quantity, the first depth - gone levels are right. */
  lemma {:induction false} TruncationIsSafe<K, V>(rules: Rules<K, V>, start: seq<Entry<K, V>>, batches: Batches<K, V>,
      depth: nat, gone: nat)
    requires Sorted(rules, start)
    requires ZeroQuotesInRun(rules, batches) <= gone <= depth
    ensures Agree(Run(rules, start, batches, depth), RunUncut(rules, start, batches), depth - gone)
  {
    RunAgrees(rules, start, batches, depth);
    MarginBound(rules, start, batches, depth);
    AgreeLess(Run(rules, start, batches, depth), RunUncut(rules, start, batches),
              MarginRun(rules, start, batches, depth), depth - gone);
  }

  // ---- The bound cannot be improved ----

  /** Quotes of quantity v for the given levels. */
  function QuotesFor<K, V>(levels: seq<Entry<K, V>>, v: V): (quotes: seq<Entry<K, V>>)
    ensures |quotes| == |levels|
  {
    if levels == [] then [] else QuotesFor(levels[..|levels| - 1], v) + [Entry(levels[|levels| - 1].key, v)]
  }

  lemma {:induction false} RemovingTheBest<K, V>(rules: Rules<K, V>, s: seq<Entry<K, V>>, v: V, n: nat)
    requires Sorted(rules, s) && n <= |s| && rules.zero(v)
    ensures ApplyAll(rules, s, QuotesFor(s[..n], v)) == s[n..]
    ensures ZeroQuotes(rules, QuotesFor(s[..n], v)) == n
  {
    var quotes := QuotesFor(s[..n], v);
    if n > 0 {
      assert s[..n][..n - 1] == s[..n - 1];
      var init := QuotesFor(s[..n - 1], v);
      assert quotes == init + [Entry(s[n - 1].key, v)] && quotes[..n - 1] == init;
      RemovingTheBest(rules, s, v, n - 1);
      var rest := s[n - 1..];
      assert Sorted(rules, rest);
      assert rest[0] == s[n - 1];
      LookupFound(rules, rest, 0);
      assert rest[..0] + rest[1..] == s[n..];
    } else {
      assert s[n..] == s;
    }
  }

  /** With more levels than the depth to start from, depth - 9 quotes of zero quantity are enough to
      leave the tenth level wrong. */
  lemma {:induction false} TruncationBoundIsTight<K, V>(rules: Rules<K, V>, start: seq<Entry<K, V>>, v: V, depth: nat)
    requires Sorted(rules, start) && |start| > depth >= 9 && rules.zero(v)
    ensures var batches := [[], QuotesFor(start[..depth - 9], v)];
            && ZeroQuotesInRun(rules, batches) == depth - 9
            && Run(rules, start, batches, depth) == start[depth - 9..depth]
            && RunUncut(rules, start, batches) == start[depth - 9..]
            && !Agree(Run(rules, start, batches, depth), RunUncut(rules, start, batches), 10)
  {
    var quotes := QuotesFor(start[..depth - 9], v);
    var batches: Batches<K, V> := [[], quotes];
    assert batches[..1] == [[]] && batches[..1][..0] == [];
    var cut := start[..depth];
    assert Run(rules, start, batches[..1], depth) == cut;
    assert RunUncut(rules, start, batches[..1]) == start;
    RemovingTheBest(rules, start, v, depth - 9);
    assert cut[..depth - 9] == start[..depth - 9];
    TakeSorted(rules, start, depth);
    RemovingTheBest(rules, cut, v, depth - 9);
    var s, t := Run(rules, start, batches, depth), RunUncut(rules, start, batches);
    assert s == Take(cut[depth - 9..], depth) && |s| == 9;
    assert t == start[depth - 9..] && |t| >= 10;
    assert |Take(s, 10)| == 9 && |Take(t, 10)| == 10;
    assert ZeroQuotesInRun(rules, batches[..1]) == 0;
  }
}
