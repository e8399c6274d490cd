/** The engine: instrument and trade messages go straight to the recorder, book messages are queued
    and delivered in batches by a timer. */
module EngineModel {
  import opened Parser
  import opened SidesModel
  import opened RefdataModel
  import opened RecorderModel
  import opened Queueing
  import TS = TradeSinkModel

  /** The messages that are handled on arrival. */
  datatype Immediate = InstrumentMessage(instrument: Instrument) | TradesMessage(trades: TS.Trades)

  function AfterImmediate(st: RecState, message: Immediate): RecState {
    match message
    case InstrumentMessage(instrument) => AfterInstrument(st, instrument)
    case TradesMessage(trades) => AfterTrades(st, trades)
  }

  predicate ImmediateAccepted(st: RecState, message: Immediate) {
    message.TradesMessage? ==> TradesAccepted(st, message.trades)
  }

  /** The recorder, as the engine drives it. */
  function RecorderMachine(): Machine<RecState, Book, Immediate> {
    Machine(AfterBookMessage, BookAccepted, AfterImmediate, ImmediateAccepted)
  }

  type EngineEvent = Event<Book, Immediate>

  /** A recorder that has received nothing yet. */
  function Fresh(depth: nat): RecState {
    RecState(depth, [], [], map[], map[], map[], [], [])
  }

  class Engine {
    const recorder: Recorder
    var queue: seq<Book>

    constructor (recorder: Recorder)
      ensures this.recorder == recorder && queue == []
    {
      this.recorder := recorder;
      queue := [];
    }

    method HandleInstrument(instrument: Instrument)
      requires recorder.Valid()
      modifies recorder, recorder.refdata, recorder.levelBook
      ensures recorder.Valid() && fresh(recorder.Repr() - old(recorder.Repr()))
      ensures recorder.State() == AfterInstrument(old(recorder.State()), instrument)
    {
      recorder.AcceptInstrument(instrument);
    }

    method HandleBook(book: Book)
      requires recorder.Valid()
      modifies `queue
      ensures queue == old(queue) + [book]
      ensures recorder.Valid() && recorder.State() == old(recorder.State())
    {
      assert (this as object) !in recorder.Repr();
      queue := queue + [book];
    }

    method HandleTrades(message: TS.Trades) returns (ok: bool)
      requires recorder.Valid()
      modifies recorder.tradeSink
      ensures recorder.Valid()
      ensures recorder.State() == AfterTrades(old(recorder.State()), message)
      ensures ok <==> TradesAccepted(old(recorder.State()), message)
    {
      ok := recorder.AcceptTrades(message);
    }

    /** Delivers at most 64 queued books. A rejected book ends the tick and stays at the front. */
    method OnProcessTimer() returns (ok: bool)
      requires recorder.Valid()
      modifies this, recorder.bookSink, recorder.levelBook.sides.Values
      ensures recorder.Valid()
      ensures Delivered(RecorderMachine(), old(recorder.State()), old(queue), BatchOf(old(queue)),
                        recorder.State(), queue, ok)
    {
      var numToProcess := if BATCH_SIZE < |queue| then BATCH_SIZE else |queue|;
      ghost var m, start, queued := RecorderMachine(), recorder.State(), queue;
      ghost var done := 0;
      ok := true;
      DeliveredNone(m, start, queued, numToProcess);
      while numToProcess > 0
        invariant done + numToProcess == BatchOf(queued)
        invariant recorder.Valid()
        invariant Delivering(m, start, queued, BatchOf(queued), done, recorder.State(), queue)
      {
        DeliveredNext(m, start, queued, BatchOf(queued), done, recorder.State(), queue);
        ok := ProcessFront();
        if !ok {
          return;
        }
        numToProcess := numToProcess - 1;
        done := done + 1;
      }
      DeliveredAll(m, start, queued, BatchOf(queued), recorder.State(), queue);
    }

    /** Delivers the book at the front, and removes it from the queue once it has been accepted. */
    method ProcessFront() returns (ok: bool)
      requires recorder.Valid() && queue != []
      modifies this, recorder.bookSink, recorder.levelBook.sides.Values
      ensures recorder.Valid()
      ensures recorder.State() == RecorderMachine().deliver(old(recorder.State()), old(queue[0]))
      ensures ok == RecorderMachine().accepts(old(recorder.State()), old(queue[0]))
      ensures queue == if ok then old(queue[1..]) else old(queue)
    {
      assert (this as object) !in recorder.Repr();
      ok := recorder.AcceptBook(queue[0]);
      if ok {
        Pop();
      }
    }

    method Pop()
      requires recorder.Valid() && queue != []
      modifies `queue
      ensures queue == old(queue[1..])
      ensures recorder.Valid() && recorder.State() == old(recorder.State())
    {
      assert (this as object) !in recorder.Repr();
      queue := queue[1..];
    }

    ghost function State(): Queued<RecState, Book>
      requires recorder.Valid()
      reads this, recorder, recorder.levelBook, recorder.Repr()
    {
      Queued(recorder.State(), queue)
    }

    /** Handles one arrival or one tick; throws when a message it handles or delivers is rejected. */
    method HandleEvent(event: EngineEvent) returns (ok: bool)
      requires recorder.Valid()
      modifies this, recorder.Repr()
      ensures recorder.Valid() && fresh(recorder.Repr() - old(recorder.Repr()))
      ensures Step(RecorderMachine(), old(State()), event) == if ok then Some(State()) else None
    {
      ok := true;
      match event {
        case Now(InstrumentMessage(instrument)) =>
          HandleInstrument(instrument);
        case Now(TradesMessage(trades)) =>
          ok := HandleTrades(trades);
        case Later(book) =>
          HandleBook(book);
        case Tick =>
          ok := OnProcessTimer();
      }
    }

    /** The event loop: arrivals and ticks in any order, until one of them fails. */
    method HandleEvents(events: seq<EngineEvent>) returns (ok: bool)
      requires recorder.Valid()
      modifies this, recorder.Repr()
      ensures recorder.Valid() && fresh(recorder.Repr() - old(recorder.Repr()))
      ensures Run(RecorderMachine(), old(State()), events) == if ok then Some(State()) else None
    {
      ghost var start := State();
      var i := 0;
      ok := true;
      assert events[..0] == [];
      while i < |events|
        invariant 0 <= i <= |events|
        invariant recorder.Valid() && fresh(recorder.Repr() - old(recorder.Repr()))
        invariant Run(RecorderMachine(), start, events[..i]) == Some(State())
      {
        assert events[..i + 1][..i] == events[..i];
        ok := HandleEvent(events[i]);
        i := i + 1;
        if !ok {
          RunStops(RecorderMachine(), start, events, i);
          return;
        }
      }
      assert events[..i] == events;
    }
  }
}
