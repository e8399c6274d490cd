/** A machine that handles some messages on arrival and queues the others, delivering them in batches
    on a tick, compared with one that handles every message on arrival. */
module Queueing {
  import opened Parser

  const BATCH_SIZE: nat := 64

  /** What a delivery and an immediate message do to a state, and when they are accepted. */
  datatype Machine<!S, !B, !I> = Machine(deliver: (S, B) -> S, accepts: (S, B) -> bool,
                                         handle: (S, I) -> S, handles: (S, I) -> bool)

  /** What delivering some messages in order leads to: the state, how many were accepted before one was
      rejected, and whether none was. */
  datatype Delivery<S> = Delivery(state: S, accepted: nat, ok: bool)

  function Deliver<S, B, I>(m: Machine<S, B, I>, s: S, books: seq<B>): (d: Delivery<S>)
    ensures d.accepted <= |books| && (d.ok <==> d.accepted == |books|)
  {
    if books == [] then Delivery(s, 0, true)
    else if !m.accepts(s, books[0]) then Delivery(m.deliver(s, books[0]), 0, false)
    else
      var rest := Deliver(m, m.deliver(s, books[0]), books[1..]);
      rest.(accepted := rest.accepted + 1)
  }

  function BatchOf<B>(queue: seq<B>): nat {
    if |queue| < BATCH_SIZE then |queue| else BATCH_SIZE
  }

  datatype Event<B, I> = Now(immediate: I) | Later(book: B) | Tick

  datatype Queued<S, B> = Queued(state: S, queue: seq<B>)

  /** One event of the queueing machine; None once a message was rejected. */
  function Step<S, B, I>(m: Machine<S, B, I>, q: Queued<S, B>, event: Event<B, I>): Option<Queued<S, B>> {
    match event
    case Now(i) => if m.handles(q.state, i) then Some(q.(state := m.handle(q.state, i))) else None
    case Later(b) => Some(q.(queue := q.queue + [b]))
    case Tick =>
      var d := Deliver(m, q.state, q.queue[..BatchOf(q.queue)]);
      if d.ok then Some(Queued(d.state, q.queue[d.accepted..])) else None
  }

  function Run<S, B, I>(m: Machine<S, B, I>, q: Queued<S, B>, events: seq<Event<B, I>>): Option<Queued<S, B>> {
    if events == [] then Some(q)
    else match Run(m, q, events[..|events| - 1])
      case None => None
      case Some(before) => Step(m, before, events[|events| - 1])
  }

  lemma {:induction false} RunStops<S, B, I>(m: Machine<S, B, I>, q: Queued<S, B>, events: seq<Event<B, I>>, i: nat)
    requires i <= |events| && Run(m, q, events[..i]).None?
    ensures Run(m, q, events).None?
  {
    if i == |events| {
      assert events[..i] == events;
    } else {
      assert events[..|events| - 1][..i] == events[..i];
      RunStops(m, q, events[..|events| - 1], i);
    }
  }

  /** One event when every message is handled on arrival. */
  function StepSync<S, B, I>(m: Machine<S, B, I>, s: S, event: Event<B, I>): Option<S> {
    match event
    case Now(i) => if m.handles(s, i) then Some(m.handle(s, i)) else None
    case Later(b) => if m.accepts(s, b) then Some(m.deliver(s, b)) else None
    case Tick => Some(s)
  }

  function RunSync<S, B, I>(m: Machine<S, B, I>, s: S, events: seq<Event<B, I>>): Option<S> {
    if events == [] then Some(s)
    else match RunSync(m, s, events[..|events| - 1])
      case None => None
      case Some(before) => StepSync(m, before, events[|events| - 1])
  }

  function Arrived<B, I>(events: seq<Event<B, I>>): seq<B> {
    if events == [] then []
    else
      var before, last := Arrived(events[..|events| - 1]), events[|events| - 1];
      if last.Later? then before + [last.book] else before
  }

  // ---- Deliveries ----

  lemma {:induction false} DeliverConcat<S, B, I>(m: Machine<S, B, I>, s: S, a: seq<B>, b: seq<B>)
    requires Deliver(m, s, a).ok
    ensures var d := Deliver(m, Deliver(m, s, a).state, b);
            Deliver(m, s, a + b) == d.(accepted := |a| + d.accepted)
  {
    if a == [] {
      assert a + b == b;
    } else {
      DeliverConcat(m, m.deliver(s, a[0]), a[1..], b);
      assert (a + b)[1..] == a[1..] + b;
    }
  }

  lemma {:induction false} DeliverPrefix<S, B, I>(m: Machine<S, B, I>, s: S, books: seq<B>, n: nat)
    requires Deliver(m, s, books).ok && n <= |books|
    ensures Deliver(m, s, books[..n]).ok
    ensures Deliver(m, Deliver(m, s, books[..n]).state, books[n..]) ==
            Delivery(Deliver(m, s, books).state, |books| - n, true)
  {
    if n == 0 {
      assert books[..0] == [] && books[0..] == books;
    } else {
      DeliverPrefix(m, m.deliver(s, books[0]), books[1..], n - 1);
      assert books[..n][1..] == books[1..][..n - 1];
      assert books[1..][n - 1..] == books[n..];
    }
  }

  lemma {:induction false} DeliverOne<S, B, I>(m: Machine<S, B, I>, s: S, b: B)
    ensures Deliver(m, s, [b]).ok <==> m.accepts(s, b)
    ensures m.accepts(s, b) ==> Deliver(m, s, [b]).state == m.deliver(s, b)
  {
    assert [b][1..] == [];
  }

  /** What every delivery of a good message keeps, a batch of good messages keeps. */
  lemma {:induction false} DeliverInvariant<S(!new), B(!new), I>(m: Machine<S, B, I>, inv: S -> bool, good: B -> bool,
      s: S, books: seq<B>)
    requires forall s, b :: inv(s) && good(b) && m.accepts(s, b) ==> inv(m.deliver(s, b))
    requires inv(s) && (forall i :: 0 <= i < |books| ==> good(books[i]))
    requires Deliver(m, s, books).ok
    ensures inv(Deliver(m, s, books).state)
  {
    if books != [] {
      DeliverInvariant(m, inv, good, m.deliver(s, books[0]), books[1..]);
    }
  }

  /** What no delivery changes, no batch of deliveries changes. */
  lemma {:induction false} DeliverKeeps<S(!new), B(!new), I, T>(m: Machine<S, B, I>, part: S -> T, s: S, books: seq<B>)
    requires forall s, b :: m.accepts(s, b) ==> part(m.deliver(s, b)) == part(s)
    requires Deliver(m, s, books).ok
    ensures part(Deliver(m, s, books).state) == part(s)
  {
    if books != [] {
      DeliverKeeps(m, part, m.deliver(s, books[0]), books[1..]);
    }
  }

  /** The first n queued messages have been delivered, as far as they were accepted. */
  ghost predicate Delivered<S, B, I>(m: Machine<S, B, I>, start: S, queued: seq<B>, n: nat, s: S, queue: seq<B>,
      ok: bool) {
    n <= |queued| &&
    var d := Deliver(m, start, queued[..n]);
    s == d.state && ok == d.ok && queue == queued[d.accepted..]
  }

  /** The first `done` of n queued messages have been delivered and accepted. */
  ghost predicate Delivering<S, B, I>(m: Machine<S, B, I>, start: S, queued: seq<B>, n: nat, done: nat, s: S,
      queue: seq<B>) {
    && done <= n <= |queued| && queue == queued[done..]
    && Deliver(m, start, queued[..n]) ==
       (var rest := Deliver(m, s, queued[done..n]); rest.(accepted := done + rest.accepted))
  }

  lemma {:induction false} DeliveredNone<S, B, I>(m: Machine<S, B, I>, start: S, queued: seq<B>, n: nat)
    requires n <= |queued|
    ensures Delivering(m, start, queued, n, 0, start, queued)
  {
    assert queued[0..n] == queued[..n] && queued[0..] == queued;
  }

  lemma {:induction false} DeliveredNext<S, B, I>(m: Machine<S, B, I>, start: S, queued: seq<B>, n: nat, done: nat,
      s: S, queue: seq<B>)
    requires Delivering(m, start, queued, n, done, s, queue) && done < n
    ensures queue != []
    ensures m.accepts(s, queue[0]) ==> Delivering(m, start, queued, n, done + 1, m.deliver(s, queue[0]), queue[1..])
    ensures !m.accepts(s, queue[0]) ==> Delivered(m, start, queued, n, m.deliver(s, queue[0]), queue, false)
  {
    assert queued[done..n][0] == queue[0] && queued[done..n][1..] == queued[done + 1..n];
    assert queue[1..] == queued[done + 1..];
  }

  lemma {:induction false} DeliveredAll<S, B, I>(m: Machine<S, B, I>, start: S, queued: seq<B>, n: nat, s: S,
      queue: seq<B>)
    requires Delivering(m, start, queued, n, n, s, queue)
    ensures Delivered(m, start, queued, n, s, queue, true)
  {
    assert queued[n..n] == [];
  }

  // ---- The queue refines handling on arrival ----

  /** An immediate message may be handled before or after the delivery of a book, if it is stable; and a
      delivery changes nothing of whether it is. */
  ghost predicate Commuting<S(!new), B(!new), I(!new)>(m: Machine<S, B, I>, inv: S -> bool, stable: (S, I) -> bool) {
    && (forall s, b, i :: inv(s) && m.accepts(s, b) && m.handles(s, i) && stable(s, i) ==>
          m.accepts(m.handle(s, i), b) && m.deliver(m.handle(s, i), b) == m.handle(m.deliver(s, b), i))
    && (forall s, b :: inv(s) && m.accepts(s, b) ==> inv(m.deliver(s, b)))
    && (forall s, b, i :: inv(s) && m.accepts(s, b) ==>
          (m.handles(m.deliver(s, b), i) == m.handles(s, i)) && (stable(m.deliver(s, b), i) == stable(s, i)))
    && (forall s, i :: inv(s) && m.handles(s, i) && stable(s, i) ==> inv(m.handle(s, i)))
  }

  lemma {:induction false} HandleBeforeDeliveries<S(!new), B(!new), I(!new)>(m: Machine<S, B, I>, inv: S -> bool,
      stable: (S, I) -> bool, s: S, books: seq<B>, i: I)
    requires Commuting(m, inv, stable) && inv(s)
    requires Deliver(m, s, books).ok
    ensures inv(Deliver(m, s, books).state)
    ensures m.handles(Deliver(m, s, books).state, i) == m.handles(s, i)
    ensures stable(Deliver(m, s, books).state, i) == stable(s, i)
    ensures m.handles(s, i) && stable(s, i) ==>
              Deliver(m, m.handle(s, i), books) ==
              Delivery(m.handle(Deliver(m, s, books).state, i), |books|, true)
  {
    if books != [] {
      HandleBeforeDeliveries(m, inv, stable, m.deliver(s, books[0]), books[1..], i);
    }
  }

  /** Every immediate message of the run is stable where handling on arrival meets it. */
  predicate StableRun<S, B, I>(m: Machine<S, B, I>, stable: (S, I) -> bool, s: S, events: seq<Event<B, I>>) {
    events != [] ==>
      var init, last := events[..|events| - 1], events[|events| - 1];
      && StableRun(m, stable, s, init)
      && (last.Now? && RunSync(m, s, init).Some? ==> stable(RunSync(m, s, init).value, last.immediate))
  }

  /** If handling every message on arrival never fails, the queueing machine does not fail either, and
      delivering what it still has queued leads to the same state, however arrivals and ticks interleave. */
  lemma {:induction false} QueueRefinesSync<S(!new), B(!new), I(!new)>(m: Machine<S, B, I>, inv: S -> bool,
      stable: (S, I) -> bool, s: S, events: seq<Event<B, I>>)
    requires Commuting(m, inv, stable) && inv(s)
    requires RunSync(m, s, events).Some? && StableRun(m, stable, s, events)
    ensures Run(m, Queued(s, []), events).Some?
    ensures var q := Run(m, Queued(s, []), events).value;
            inv(q.state) && Deliver(m, q.state, q.queue) == Delivery(RunSync(m, s, events).value, |q.queue|, true)
  {
    if events != [] {
      var init, last := events[..|events| - 1], events[|events| - 1];
      QueueRefinesSync(m, inv, stable, s, init);
      var q := Run(m, Queued(s, []), init).value;
      match last
      case Now(i) =>
        HandleBeforeDeliveries(m, inv, stable, q.state, q.queue, i);
      case Later(b) =>
        DeliverConcat(m, q.state, q.queue, [b]);
        DeliverOne(m, RunSync(m, s, init).value, b);
      case Tick =>
        var n := BatchOf(q.queue);
        DeliverPrefix(m, q.state, q.queue, n);
        DeliverInv(m, inv, stable, q.state, q.queue[..n]);
    }
  }

  lemma {:induction false} DeliverInv<S(!new), B(!new), I(!new)>(m: Machine<S, B, I>, inv: S -> bool,
      stable: (S, I) -> bool, s: S, books: seq<B>)
    requires Commuting(m, inv, stable) && inv(s) && Deliver(m, s, books).ok
    ensures inv(Deliver(m, s, books).state)
  {
    if books != [] {
      DeliverInv(m, inv, stable, m.deliver(s, books[0]), books[1..]);
    }
  }

  // ---- Progress ----

  function Ticks<B, I>(n: nat): (events: seq<Event<B, I>>)
    ensures |events| == n
  {
    if n == 0 then [] else Ticks(n - 1) + [Tick]
  }

  /** One tick, when the first j messages have been delivered already. */
  lemma {:induction false} TickDelivers<S, B, I>(m: Machine<S, B, I>, s: S, books: seq<B>, j: nat)
    requires Deliver(m, s, books).ok && j <= |books|
    ensures var k := if j + BATCH_SIZE < |books| then j + BATCH_SIZE else |books|;
            Step(m, Queued(Deliver(m, s, books[..j]).state, books[j..]), Tick) ==
            Some(Queued(Deliver(m, s, books[..k]).state, books[k..]))
  {
    var rest := books[j..];
    var b := BatchOf(rest);
    DeliverPrefix(m, s, books, j + b);
    DeliverPrefix(m, s, books[..j + b], j);
    assert books[..j + b][..j] == books[..j] && books[..j + b][j..] == rest[..b];
    assert rest[b..] == books[j + b..];
  }

  /** Without arrivals, n ticks deliver the first 64 n queued messages, or all of them. */
  lemma {:induction false} TicksDrain<S, B, I>(m: Machine<S, B, I>, q: Queued<S, B>, n: nat)
    requires Deliver(m, q.state, q.queue).ok
    ensures var k := if BATCH_SIZE * n < |q.queue| then BATCH_SIZE * n else |q.queue|;
            Run(m, q, Ticks(n)) == Some(Queued(Deliver(m, q.state, q.queue[..k]).state, q.queue[k..]))
  {
    if n == 0 {
      assert q.queue[..0] == [] && q.queue[0..] == q.queue;
    } else {
      var events: seq<Event<B, I>> := Ticks(n);
      assert events[..n - 1] == Ticks(n - 1);
      TicksDrain(m, q, n - 1);
      TickDelivers(m, q.state, q.queue, if BATCH_SIZE * (n - 1) < |q.queue| then BATCH_SIZE * (n - 1) else |q.queue|);
    }
  }

  /** So the queue is empty after exactly ceil(length / 64) ticks, and no sooner. */
  lemma {:induction false} DrainedAfter<S, B, I>(m: Machine<S, B, I>, q: Queued<S, B>, n: nat)
    requires Deliver(m, q.state, q.queue).ok
    ensures Run(m, q, Ticks(n)).Some?
    ensures Run(m, q, Ticks(n)).value.queue == [] <==> n >= (|q.queue| + 63) / 64
    ensures n >= (|q.queue| + 63) / 64 ==>
              Run(m, q, Ticks(n)).value.state == Deliver(m, q.state, q.queue).state
  {
    TicksDrain(m, q, n);
    assert q.queue[..|q.queue|] == q.queue;
  }

  // ---- Every queued run is a synchronous run of what was delivered ----

  /** The events in the order in which they took effect. */
  function Effective<B, I>(queue: seq<B>, events: seq<Event<B, I>>): (r: (seq<Event<B, I>>, seq<B>)) {
    if events == [] then ([], queue)
    else
      var (done, left) := Effective(queue, events[..|events| - 1]);
      match events[|events| - 1]
      case Now(i) => (done + [Now(i)], left)
      case Later(b) => (done, left + [b])
      case Tick => (done + AllLater(left[..BatchOf(left)]), left[BatchOf(left)..])
  }

  function AllLater<B, I>(books: seq<B>): (events: seq<Event<B, I>>)
    ensures |events| == |books| && forall i :: 0 <= i < |books| ==> events[i] == Later(books[i])
  {
    seq(|books|, i requires 0 <= i < |books| => Later(books[i]))
  }

  lemma {:induction false} RunSyncLater<S, B, I>(m: Machine<S, B, I>, s: S, events: seq<Event<B, I>>, books: seq<B>)
    requires RunSync(m, s, events).Some? && Deliver(m, RunSync(m, s, events).value, books).ok
    ensures RunSync(m, s, events + AllLater(books)) == Some(Deliver(m, RunSync(m, s, events).value, books).state)
  {
    if books == [] {
      assert events + AllLater(books) == events;
    } else {
      var init, b := books[..|books| - 1], books[|books| - 1];
      var before := RunSync(m, s, events).value;
      DeliverPrefix(m, before, books, |books| - 1);
      assert books[|books| - 1..] == [b];
      RunSyncLater(m, s, events, init);
      DeliverOne(m, Deliver(m, before, init).state, b);
      var all: seq<Event<B, I>> := events + AllLater(books);
      assert all[..|all| - 1] == events + AllLater(init);
    }
  }

  lemma {:induction false} RunSyncNext<S, B, I>(m: Machine<S, B, I>, s: S, events: seq<Event<B, I>>, event: Event<B, I>)
    requires RunSync(m, s, events).Some?
    ensures RunSync(m, s, events + [event]) == StepSync(m, RunSync(m, s, events).value, event)
  {
    assert (events + [event])[..|events|] == events;
  }

  /** Whatever the machine has done so far is what handling its effective events on arrival does. */
  lemma {:induction false} RunIsEffective<S, B, I>(m: Machine<S, B, I>, s: S, events: seq<Event<B, I>>)
    requires Run(m, Queued(s, []), events).Some?
    ensures var (done, left) := Effective([], events); var q := Run(m, Queued(s, []), events).value;
            RunSync(m, s, done) == Some(q.state) && left == q.queue
  {
    if events != [] {
      var init, last := events[..|events| - 1], events[|events| - 1];
      RunIsEffective(m, s, init);
      var (done, left) := Effective([], init);
      if last.Now? {
        RunSyncNext(m, s, done, last);
      } else if last.Tick? {
        RunSyncLater(m, s, done, left[..BatchOf(left)]);
      }
    }
  }

  /** What every accepted message keeps, every run of handling on arrival keeps. */
  lemma {:induction false} RunKeeps<S(!new), B(!new), I(!new)>(m: Machine<S, B, I>, inv: S -> bool, s: S,
      events: seq<Event<B, I>>)
    requires inv(s) && RunSync(m, s, events).Some?
    requires forall s, b :: inv(s) && m.accepts(s, b) ==> inv(m.deliver(s, b))
    requires forall s, i :: inv(s) && m.handles(s, i) ==> inv(m.handle(s, i))
    ensures inv(RunSync(m, s, events).value)
  {
    if events != [] {
      RunKeeps(m, inv, s, events[..|events| - 1]);
    }
  }

  lemma {:induction false} ArrivedLater<B, I>(events: seq<Event<B, I>>, books: seq<B>)
    ensures Arrived(events + AllLater(books)) == Arrived(events) + books
  {
    var all: seq<Event<B, I>> := events + AllLater(books);
    if books == [] {
      assert all == events;
    } else {
      var init := books[..|books| - 1];
      ArrivedLater(events, init);
      assert all[..|all| - 1] == events + AllLater(init) && all[|all| - 1] == Later(books[|books| - 1]);
      assert Arrived(events) + books == Arrived(events) + init + [books[|books| - 1]];
    }
  }

  lemma {:induction false} ArrivedNow<B, I>(events: seq<Event<B, I>>, i: I)
    ensures Arrived(events + [Now(i)]) == Arrived(events)
  {
    assert (events + [Now(i)])[..|events|] == events;
  }

  /** What has been delivered, then what is queued, is what has arrived, in order. */
  lemma {:induction false} DeliveredThenQueued<B, I>(queue: seq<B>, events: seq<Event<B, I>>)
    ensures var (done, left) := Effective(queue, events);
            Arrived(done) + left == queue + Arrived(events)
  {
    if events != [] {
      var init, last := events[..|events| - 1], events[|events| - 1];
      DeliveredThenQueued(queue, init);
      var (done, left) := Effective(queue, init);
      match last
      case Now(i) => ArrivedNow(done, i);
      case Later(b) =>
        assert Arrived(done) + (left + [b]) == queue + Arrived(init) + [b];
      case Tick =>
        var n := BatchOf(left);
        ArrivedLater(done, left[..n]);
        assert left == left[..n] + left[n..];
    }
  }
}
