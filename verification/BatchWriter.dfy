// The micro-batching writer: its handlers, its periodic flush and the drain on shutdown
// interleave at every await. A flush that fails puts its events back.
module BatchWriter {
  import opened Sequences
  import opened Cache
  import opened EventWriters

  // ---------------------------------------------------------------- metrics

  const WINDOW := 100

  function LastOf<T>(s: seq<T>, count: nat): seq<T> {
    if |s| <= count then s else s[|s| - count..]
  }

  function Sum(s: seq<nat>): nat {
    if s == [] then 0 else Sum(s[..|s| - 1]) + s[|s| - 1]
  }

  function Total(s: seq<real>): real {
    if s == [] then 0.0 else Total(s[..|s| - 1]) + s[|s| - 1]
  }

  function AverageSize(s: seq<nat>): real
    requires s != []
  {
    Sum(s) as real / |s| as real
  }

  function AverageLatency(s: seq<real>): real
    requires s != []
  {
    Total(s) / |s| as real
  }

  class BatchMetrics {
    var eventsReceived: nat
    var eventsFlushed: nat
    var batchesFlushed: nat
    var flushErrors: nat
    var avgBatchSize: real
    var avgFlushLatency: real
    var batchSizes: seq<nat>
    var flushLatencies: seq<real>
    ghost var allSizes: seq<nat>        // of every flush so far
    ghost var allLatencies: seq<real>

    // The averages are those of the last hundred flushes.
    ghost predicate Valid()
      reads this
    {
      && batchesFlushed == |allSizes| == |allLatencies| && eventsFlushed == Sum(allSizes)
      && batchSizes == LastOf(allSizes, WINDOW) && flushLatencies == LastOf(allLatencies, WINDOW)
      && (allSizes != [] ==>
            && avgBatchSize == AverageSize(batchSizes) && avgFlushLatency == AverageLatency(flushLatencies))
    }

    constructor ()
      ensures Valid() && eventsReceived == flushErrors == 0 && allSizes == []
    {
      eventsReceived, eventsFlushed, batchesFlushed, flushErrors := 0, 0, 0, 0;
      avgBatchSize, avgFlushLatency := 0.0, 0.0;
      batchSizes, flushLatencies, allSizes, allLatencies := [], [], [], [];
    }

    method RecordFlush(batchSize: nat, latency: real)
      requires Valid()
      modifies this
      ensures Valid() && allSizes == old(allSizes) + [batchSize] && allLatencies == old(allLatencies) + [latency]
      ensures eventsFlushed == old(eventsFlushed) + batchSize && batchesFlushed == old(batchesFlushed) + 1
      ensures eventsReceived == old(eventsReceived) && flushErrors == old(flushErrors)
    {
      eventsFlushed := eventsFlushed + batchSize;
      batchesFlushed := batchesFlushed + 1;
      SlideWindows(batchSize, latency);
      SumAppend(allSizes, batchSize);
      allSizes := allSizes + [batchSize];
      allLatencies := allLatencies + [latency];
      UpdateAverages();
    }

    // The two lists of the last hundred flushes.
    method SlideWindows(batchSize: nat, latency: real)
      requires batchSizes == LastOf(allSizes, WINDOW) && flushLatencies == LastOf(allLatencies, WINDOW)
      requires |allSizes| == |allLatencies|
      modifies this`batchSizes, this`flushLatencies
      ensures batchSizes == LastOf(allSizes + [batchSize], WINDOW)
      ensures flushLatencies == LastOf(allLatencies + [latency], WINDOW)
    {
      WindowMoves(allSizes, batchSize);
      WindowMoves(allLatencies, latency);
      batchSizes := batchSizes + [batchSize];
      flushLatencies := flushLatencies + [latency];
      if |batchSizes| > WINDOW {
        batchSizes := batchSizes[1..];
        flushLatencies := flushLatencies[1..];
      }
    }

    method UpdateAverages()
      requires batchSizes != [] && flushLatencies != []
      modifies this`avgBatchSize, this`avgFlushLatency
      ensures avgBatchSize == AverageSize(batchSizes) && avgFlushLatency == AverageLatency(flushLatencies)
    {
      avgBatchSize := AverageSize(batchSizes);
      avgFlushLatency := AverageLatency(flushLatencies);
    }
  }

  lemma SumAppend(s: seq<nat>, x: nat)
    ensures Sum(s + [x]) == Sum(s) + x
  {
    assert (s + [x])[..|s|] == s;
  }

  lemma WindowMoves<T>(s: seq<T>, x: T)
    ensures LastOf(s + [x], WINDOW)
            == var longer := LastOf(s, WINDOW) + [x]; if |longer| > WINDOW then longer[1..] else longer
  {
    var longer := LastOf(s, WINDOW) + [x];
    if |longer| > WINDOW {
      assert LastOf(s + [x], WINDOW) == longer[1..];
    }
  }

  // How far the members of a window lie from a value, summed up.
  function Deviation(s: seq<real>, from: real): real {
    if s == [] then 0.0 else Deviation(s[..|s| - 1], from) + (s[|s| - 1] - from)
  }

  function Reals(s: seq<nat>): (r: seq<real>)
    ensures |r| == |s|
  {
    if s == [] then [] else Reals(s[..|s| - 1]) + [s[|s| - 1] as real]
  }

  lemma {:induction false} DeviationIs(s: seq<real>, from: real)
    ensures Deviation(s, from) == Total(s) - |s| as real * from
  {
    if s != [] {
      DeviationIs(s[..|s| - 1], from);
    }
  }

  lemma {:induction false} TotalOfReals(s: seq<nat>)
    ensures Total(Reals(s)) == Sum(s) as real
  {
    if s != [] {
      TotalOfReals(s[..|s| - 1]);
      assert Reals(s)[..|s| - 1] == Reals(s[..|s| - 1]);
    }
  }

  // An average is the one value from which the members of the window deviate by nothing in all.
  lemma AveragesBalance(sizes: seq<nat>, latencies: seq<real>, x: real)
    requires sizes != [] && latencies != []
    ensures Deviation(Reals(sizes), x) == 0.0 <==> x == AverageSize(sizes)
    ensures Deviation(latencies, x) == 0.0 <==> x == AverageLatency(latencies)
  {
    SizesBalance(sizes, x);
    LatenciesBalance(latencies, x);
  }

  lemma LatenciesBalance(latencies: seq<real>, x: real)
    requires latencies != []
    ensures Deviation(latencies, x) == 0.0 <==> x == AverageLatency(latencies)
  {
    DeviationIs(latencies, x);
    Quotient(Total(latencies), |latencies| as real, x);
  }

  lemma SizesBalance(sizes: seq<nat>, x: real)
    requires sizes != []
    ensures Deviation(Reals(sizes), x) == 0.0 <==> x == AverageSize(sizes)
  {
    TotalOfReals(sizes);
    assert Reals(sizes) != [] && AverageLatency(Reals(sizes)) == AverageSize(sizes);
    LatenciesBalance(Reals(sizes), x);
  }

  lemma Quotient(a: real, n: real, x: real)
    requires n > 0.0
    ensures a - n * x == 0.0 <==> x == a / n
  {
    if a - n * x == 0.0 {
      assert a / n == (n * x) / n;
    }
  }

  // The windows hold the last hundred flushes, or all of them while there are fewer.
  lemma WindowIsLastHundred<T>(s: seq<T>)
    ensures |s| <= 100 ==> LastOf(s, WINDOW) == s
    ensures |s| > 100 ==> |LastOf(s, WINDOW)| == 100 && s == s[..|s| - 100] + LastOf(s, WINDOW)
  {
    if |s| > 100 {
      TakeAndDrop(s, |s| - 100);
    }
  }

  // ---------------------------------------------------------------- the steps

  datatype Origin = ByEvent | ByTimer | ByDrain

  // A flush that has taken its events and awaits the database.
  datatype Flight = Flight(events: seq<Event>, origin: Origin)

  datatype State = State(
    waiting: seq<Event>,      // handlers that have not yet got the buffer lock
    buffer: seq<Event>,
    flights: seq<Flight>,     // in the order they began
    appended: seq<Event>,     // history: events in the order they entered the buffer
    committed: seq<Event>,    // the database: events in the order they were persisted
    batches: seq<nat>,        // history: sizes of the committed batches
    failed: seq<Origin>,      // history: failed flushes
    stopped: bool)            // stop has cancelled the timer

  datatype Action =
    | Receive(e: Event)       // a handler starts: cache and broadcast
    | Append(k: nat)          // a waiting handler gets the lock
    | Tick                    // the timer gets the lock
    | Drain                   // stop: cancels the timer and flushes without the lock
    | Commit(k: nat)
    | Fail(k: nat)

  // Flushes by an event or the timer hold the lock until they end.
  function Holders(flights: seq<Flight>): nat {
    if flights == [] then 0 else (if flights[0].origin == ByDrain then 0 else 1) + Holders(flights[1..])
  }

  predicate Locked(s: State) {
    Holders(s.flights) > 0
  }

  predicate Enabled(s: State, a: Action) {
    match a
    case Receive(_) => true
    case Append(k) => !Locked(s) && k < |s.waiting|
    case Tick => !s.stopped && !Locked(s) && s.buffer != []
    case Drain => !s.stopped && forall i :: 0 <= i < |s.flights| ==> s.flights[i].origin != ByTimer
    case Commit(k) => k < |s.flights|
    case Fail(k) => k < |s.flights|
  }

  function Start(): State {
    State([], [], [], [], [], [], [], false)
  }

  function Begin(s: State, origin: Origin): State {
    s.(buffer := [], flights := s.flights + [Flight(s.buffer, origin)])
  }

  function Next(s: State, a: Action, batchSize: int): State
    requires Enabled(s, a)
  {
    match a
    case Receive(e) => s.(waiting := s.waiting + [e])
    case Append(k) =>
      var e := s.waiting[k];
      var t := s.(waiting := Without(s.waiting, k), buffer := s.buffer + [e], appended := s.appended + [e]);
      if |t.buffer| >= batchSize then Begin(t, ByEvent) else t
    case Tick => Begin(s, ByTimer)
    case Drain =>
      var t := s.(stopped := true);
      if s.buffer == [] then t else Begin(t, ByDrain)
    case Commit(k) =>
      var events := s.flights[k].events;
      s.(flights := Without(s.flights, k), committed := s.committed + events, batches := s.batches + [|events|])
    case Fail(k) =>
      s.(flights := Without(s.flights, k), buffer := s.flights[k].events + s.buffer,
         failed := s.failed + [s.flights[k].origin])
  }

  // The timer counts a failed flush once more than the flush itself does.
  function ErrorCount(failed: seq<Origin>): nat {
    if failed == [] then 0
    else ErrorCount(failed[..|failed| - 1]) + if failed[|failed| - 1] == ByTimer then 2 else 1
  }

  // Suspended handlers and flushes are fields here; each method is what runs between two awaits.
  class MicroBatchWriter {
    const cache: RedisCache
    const metrics: BatchMetrics
    const batchSize: int
    var broadcast: seq<Event>
    var waiting: seq<Event>
    var buffer: seq<Event>
    var flights: seq<Flight>
    var database: seq<Event>
    var stopped: bool
    ghost var appended: seq<Event>
    ghost var failed: seq<Origin>

    ghost predicate Valid()
      reads this, metrics
    {
      metrics.Valid() && metrics.flushErrors == ErrorCount(failed)
    }

    ghost function View(): State
      reads this, metrics
    {
      State(waiting, buffer, flights, appended, database, metrics.allSizes, failed, stopped)
    }

    constructor (cache: RedisCache, batchSize: int)
      ensures Valid() && fresh(metrics) && this.cache == cache && this.batchSize == batchSize
      ensures View() == Start() && metrics.eventsReceived == 0 && broadcast == []
    {
      this.cache := cache;
      this.batchSize := batchSize;
      metrics := new BatchMetrics();
      broadcast, waiting, buffer, flights, database, appended, failed := [], [], [], [], [], [], [];
      stopped := false;
    }

    // _handle_event up to the lock
    method HandleEvent(e: Event)
      requires Valid()
      modifies this, metrics, cache
      ensures Valid() && View() == Next(old(View()), Receive(e), batchSize)
      ensures metrics.eventsReceived == old(metrics.eventsReceived) + 1
      ensures cache.store == Apply(Micro, old(cache.store), e) && broadcast == old(broadcast) + [e]
    {
      metrics.eventsReceived := metrics.eventsReceived + 1;
      UpdateCache(cache, e);
      broadcast := broadcast + [e];
      waiting := waiting + [e];
    }

    // _handle_event under the lock
    method AppendEvent(k: nat)
      requires Valid() && Enabled(View(), Append(k))
      modifies this
      ensures Valid() && View() == Next(old(View()), Append(k), batchSize)
    {
      var e := waiting[k];
      waiting := Without(waiting, k);
      buffer := buffer + [e];
      appended := appended + [e];
      if |buffer| >= batchSize {
        BeginFlush(ByEvent);
      }
    }

    // _flush_buffer up to the session; an empty buffer is not flushed
    method BeginFlush(origin: Origin)
      requires Valid()
      modifies this
      ensures Valid() && View() == if old(buffer) == [] then old(View()) else Begin(old(View()), origin)
    {
      if buffer == [] {
        return;
      }
      var events := buffer;
      buffer := [];
      flights := flights + [Flight(events, origin)];
    }

    method PeriodicFlush()
      requires Valid() && !stopped && !Locked(View())
      modifies this
      ensures Valid()
      ensures View() == if old(buffer) == [] then old(View()) else Next(old(View()), Tick, batchSize)
    {
      if buffer != [] {
        BeginFlush(ByTimer);
      }
    }

    // stop
    method DrainBuffer()
      requires Valid() && Enabled(View(), Drain)
      modifies this
      ensures Valid() && View() == Next(old(View()), Drain, batchSize)
    {
      stopped := true;
      if buffer != [] {
        BeginFlush(ByDrain);
      }
    }

    method CommitFlush(k: nat, latency: real)
      requires Valid() && k < |flights|
      modifies this, metrics
      ensures Valid() && View() == Next(old(View()), Commit(k), batchSize)
      ensures metrics.eventsReceived == old(metrics.eventsReceived)
    {
      var events := flights[k].events;
      flights := Without(flights, k);
      database := database + events;
      metrics.RecordFlush(|events|, latency);
    }

    // The except branch: every event goes back to the left end, last event first.
    method FailFlush(k: nat)
      requires Valid() && k < |flights|
      modifies this, metrics
      ensures Valid() && View() == Next(old(View()), Fail(k), batchSize)
      ensures metrics.eventsReceived == old(metrics.eventsReceived)
    {
      var Flight(events, origin) := flights[k];
      flights := Without(flights, k);
      failed := failed + [origin];
      assert failed[..|failed| - 1] == old(failed);
      metrics.flushErrors := metrics.flushErrors + 1;
      Requeue(events);
      if origin == ByTimer {
        metrics.flushErrors := metrics.flushErrors + 1;
      }
    }

    method Requeue(events: seq<Event>)
      modifies this`buffer
      ensures buffer == events + old(buffer)
    {
      var i := |events|;
      while i > 0
        invariant 0 <= i <= |events|
        invariant buffer == events[i..] + old(buffer)
      {
        i := i - 1;
        buffer := [events[i]] + buffer;
        assert [events[i]] + events[i + 1..] == events[i..];
      }
    }
  }

  // ---------------------------------------------------------------- conservation

  function Concat(flights: seq<Flight>): seq<Event> {
    if flights == [] then [] else flights[0].events + Concat(flights[1..])
  }

  // Nothing is lost or duplicated.
  predicate Conserved(s: State) {
    multiset(s.committed) + multiset(Concat(s.flights)) + multiset(s.buffer) == multiset(s.appended)
  }

  // No empty batch is in flight, and at most one flush holds the lock.
  predicate Tidy(flights: seq<Flight>) {
    (forall i :: 0 <= i < |flights| ==> flights[i].events != []) && Holders(flights) <= 1
  }

  predicate Safe(s: State) {
    Conserved(s) && Tidy(s.flights) && |s.committed| == Sum(s.batches)
  }

  lemma {:induction false} ConcatAppend(a: seq<Flight>, b: seq<Flight>)
    ensures Concat(a + b) == Concat(a) + Concat(b)
  {
    if a == [] {
      AppendNothing(b);
      AppendNothing(Concat(b));
    } else {
      ConcatAppend(a[1..], b);
      TailOfAppend(a, b);
      Associative(a[0].events, Concat(a[1..]), Concat(b));
    }
  }

  lemma {:induction false} HoldersAppend(a: seq<Flight>, b: seq<Flight>)
    ensures Holders(a + b) == Holders(a) + Holders(b)
  {
    if a == [] {
      AppendNothing(b);
    } else {
      HoldersAppend(a[1..], b);
      TailOfAppend(a, b);
    }
  }

  lemma OneFlight(flight: Flight)
    ensures Concat([flight]) == flight.events && Holders([flight]) == if flight.origin == ByDrain then 0 else 1
  {
    assert [flight][1..] == [];
    AppendNothing(flight.events);
  }

  // The events of one flight between those of the earlier and the later ones.
  lemma ConcatAround(flights: seq<Flight>, k: nat)
    requires k < |flights|
    ensures Concat(flights) == Concat(flights[..k]) + flights[k].events + Concat(flights[k + 1..])
    ensures Concat(Without(flights, k)) == Concat(flights[..k]) + Concat(flights[k + 1..])
  {
    ConcatAppend(flights[..k], flights[k + 1..]);
    ConcatAppend(flights[..k], flights[k..]);
    TakeAndDrop(flights, k);
    assert flights[k..][1..] == flights[k + 1..];
    Associative(Concat(flights[..k]), flights[k].events, Concat(flights[k + 1..]));
  }

  lemma ConcatBegin(s: State, origin: Origin)
    ensures Concat(Begin(s, origin).flights) == Concat(s.flights) + s.buffer
    ensures Holders(Begin(s, origin).flights) == Holders(s.flights) + if origin == ByDrain then 0 else 1
  {
    var last := [Flight(s.buffer, origin)];
    ConcatAppend(s.flights, last);
    HoldersAppend(s.flights, last);
    OneFlight(last[0]);
  }

  lemma BeginSafe(s: State, origin: Origin)
    requires Safe(s) && s.buffer != [] && (origin == ByDrain || !Locked(s))
    ensures Safe(Begin(s, origin))
  {
    ConcatBegin(s, origin);
  }

  lemma WithoutFlight(flights: seq<Flight>, k: nat)
    requires k < |flights|
    ensures multiset(Concat(flights)) == multiset(flights[k].events) + multiset(Concat(Without(flights, k)))
  {
    ConcatAround(flights, k);
  }

  lemma WithoutTidy(flights: seq<Flight>, k: nat)
    requires k < |flights| && Tidy(flights)
    ensures Tidy(Without(flights, k))
  {
    assert forall i :: 0 <= i < |flights| - 1 ==> Without(flights, k)[i] == flights[if i < k then i else i + 1];
    HoldersAppend(flights[..k], flights[k + 1..]);
    HoldersAppend(flights[..k], flights[k..]);
    assert flights[..k] + flights[k..] == flights && flights[k..][1..] == flights[k + 1..];
  }

  lemma CommitConserves(s: State, k: nat, batchSize: int)
    requires Conserved(s) && k < |s.flights|
    ensures Conserved(Next(s, Commit(k), batchSize))
  {
    WithoutFlight(s.flights, k);
    var t := Next(s, Commit(k), batchSize);
    assert multiset(t.committed) == multiset(s.committed) + multiset(s.flights[k].events);
  }

  lemma FailConserves(s: State, k: nat, batchSize: int)
    requires Conserved(s) && k < |s.flights|
    ensures Conserved(Next(s, Fail(k), batchSize))
  {
    WithoutFlight(s.flights, k);
    var t := Next(s, Fail(k), batchSize);
    assert multiset(t.buffer) == multiset(s.flights[k].events) + multiset(s.buffer);
  }

  lemma EndSafe(s: State, k: nat, batchSize: int)
    requires Safe(s) && k < |s.flights|
    ensures Safe(Next(s, Commit(k), batchSize)) && Safe(Next(s, Fail(k), batchSize))
  {
    CommitConserves(s, k, batchSize);
    FailConserves(s, k, batchSize);
    WithoutTidy(s.flights, k);
    assert (s.batches + [|s.flights[k].events|])[..|s.batches|] == s.batches;
  }

  lemma AppendSafe(s: State, k: nat, batchSize: int)
    requires Safe(s) && Enabled(s, Append(k))
    ensures Safe(Next(s, Append(k), batchSize))
  {
    var e := s.waiting[k];
    var t := s.(waiting := Without(s.waiting, k), buffer := s.buffer + [e], appended := s.appended + [e]);
    assert multiset(t.appended) == multiset(s.appended) + multiset([e]);
    BeginSafe(t, ByEvent);
  }

  lemma DrainSafe(s: State, batchSize: int)
    requires Safe(s) && Enabled(s, Drain)
    ensures Safe(Next(s, Drain, batchSize))
  {
    if s.buffer != [] {
      BeginSafe(s.(stopped := true), ByDrain);
    }
  }

  lemma StepSafe(s: State, a: Action, batchSize: int)
    requires Safe(s) && Enabled(s, a)
    ensures Safe(Next(s, a, batchSize))
  {
    match a
    case Receive(_) =>
    case Append(k) => AppendSafe(s, k, batchSize);
    case Tick => BeginSafe(s, ByTimer);
    case Drain => DrainSafe(s, batchSize);
    case Commit(k) => EndSafe(s, k, batchSize);
    case Fail(k) => EndSafe(s, k, batchSize);
  }

  predicate ValidRun(s: State, run: seq<Action>, batchSize: int)
    decreases |run|
  {
    run != [] ==> Enabled(s, run[0]) && ValidRun(Next(s, run[0], batchSize), run[1..], batchSize)
  }

  function After(s: State, run: seq<Action>, batchSize: int): State
    requires ValidRun(s, run, batchSize)
    decreases |run|
  {
    if run == [] then s else After(Next(s, run[0], batchSize), run[1..], batchSize)
  }

  // Over every run with any failures, drains and interleavings, the committed events, those
  // in flight and the buffer are together exactly the appended events.
  lemma {:induction false} RunSafe(s: State, run: seq<Action>, batchSize: int)
    requires Safe(s) && ValidRun(s, run, batchSize)
    ensures Safe(After(s, run, batchSize))
    decreases |run|
  {
    if run != [] {
      StepSafe(s, run[0], batchSize);
      RunSafe(Next(s, run[0], batchSize), run[1..], batchSize);
    }
  }

  // ---------------------------------------------------------------- order

  predicate Ordered(s: State) {
    s.committed + Concat(s.flights) + s.buffer == s.appended
  }

  // A flush commits only when it is the oldest and fails only when it is the newest.
  predicate InTurn(s: State, a: Action) {
    match a
    case Commit(k) => k == 0
    case Fail(k) => k + 1 == |s.flights|
    case _ => true
  }

  lemma BeginOrdered(s: State, origin: Origin)
    requires Ordered(s)
    ensures Ordered(Begin(s, origin))
  {
    ConcatBegin(s, origin);
    Associative(s.committed, Concat(s.flights), s.buffer);
    AppendNothing(s.committed + (Concat(s.flights) + s.buffer));
  }

  lemma CommitOldestOrdered(s: State, batchSize: int)
    requires Ordered(s) && s.flights != []
    ensures Ordered(Next(s, Commit(0), batchSize))
  {
    ConcatAround(s.flights, 0);
    assert s.flights[..0] == [];
    Associative(s.committed, s.flights[0].events, Concat(s.flights[1..]));
  }

  lemma FailNewestOrdered(s: State, batchSize: int)
    requires Ordered(s) && s.flights != []
    ensures Ordered(Next(s, Fail(|s.flights| - 1), batchSize))
  {
    var k := |s.flights| - 1;
    ConcatAround(s.flights, k);
    assert s.flights[k + 1..] == [];
    var before, events := Concat(s.flights[..k]), s.flights[k].events;
    AppendNothing(before);
    AppendNothing(before + events);
    Associative(s.committed, before, events);
    Associative(s.committed + before, events, s.buffer);
  }

  lemma StepOrdered(s: State, a: Action, batchSize: int)
    requires Ordered(s) && Enabled(s, a) && InTurn(s, a)
    ensures Ordered(Next(s, a, batchSize))
  {
    match a
    case Receive(_) =>
    case Append(k) =>
      var e := s.waiting[k];
      var t := s.(waiting := Without(s.waiting, k), buffer := s.buffer + [e], appended := s.appended + [e]);
      Associative(s.committed + Concat(s.flights), s.buffer, [e]);
      BeginOrdered(t, ByEvent);
    case Tick => BeginOrdered(s, ByTimer);
    case Drain => BeginOrdered(s.(stopped := true), ByDrain);
    case Commit(k) => CommitOldestOrdered(s, batchSize);
    case Fail(k) => FailNewestOrdered(s, batchSize);
  }

  predicate Distinct(events: seq<Event>) {
    forall i, j :: 0 <= i < j < |events| ==> events[i] != events[j]
  }

  // Two non-empty stretches of distinct events cannot trade places unnoticed.
  lemma SwapNoticed(front: seq<Event>, a: seq<Event>, b: seq<Event>, back: seq<Event>)
    requires a != [] && b != [] && Distinct(front + a + b + back)
    ensures front + b + a + back != front + a + b + back
  {
    var all := front + a + b + back;
    assert all[|front|] == a[0] && all[|front| + |a|] == b[0];
    assert (front + b + a + back)[|front|] == b[0];
  }

  lemma Regroup<T>(a: seq<T>, b: seq<T>, c: seq<T>, d: seq<T>, e: seq<T>)
    ensures a + (b + c + d) + e == a + b + c + d + e
    ensures a + (b + d) + (c + e) == a + b + d + c + e
    ensures a + b + c + d + e == a + b + c + (d + e)
    ensures (a + c) + (b + d) + e == a + c + b + (d + e)
  {
  }

  lemma LateCommitReorders(s: State, k: nat, batchSize: int)
    requires Ordered(s) && Distinct(s.appended) && 0 < k < |s.flights|
    requires s.flights[0].events != [] && s.flights[k].events != []
    ensures !Ordered(Next(s, Commit(k), batchSize))
  {
    var before, events, later := Concat(s.flights[..k]), s.flights[k].events, Concat(s.flights[k + 1..]);
    ConcatAround(s.flights, k);
    NonEmptyConcat(s.flights[..k]);
    Regroup(s.committed, before, events, later, s.buffer);
    SwapNoticed(s.committed, before, events, later + s.buffer);
  }

  lemma EarlyFailureReorders(s: State, k: nat, batchSize: int)
    requires Ordered(s) && Distinct(s.appended) && k + 1 < |s.flights|
    requires s.flights[k].events != [] && s.flights[k + 1].events != []
    ensures !Ordered(Next(s, Fail(k), batchSize))
  {
    var before, events, later := Concat(s.flights[..k]), s.flights[k].events, Concat(s.flights[k + 1..]);
    ConcatAround(s.flights, k);
    NonEmptyConcat(s.flights[k + 1..]);
    Regroup(s.committed, before, events, later, s.buffer);
    SwapNoticed(s.committed + before, events, later, s.buffer);
  }

  // With distinct events the order survives a commit if and only if the flush is the
  // oldest, and a failure if and only if it is the newest.
  lemma OrderExactly(s: State, k: nat, batchSize: int)
    requires Safe(s) && Ordered(s) && k < |s.flights| && Distinct(s.appended)
    ensures Ordered(Next(s, Commit(k), batchSize)) <==> k == 0
    ensures Ordered(Next(s, Fail(k), batchSize)) <==> k + 1 == |s.flights|
  {
    if k == 0 {
      StepOrdered(s, Commit(k), batchSize);
    } else {
      LateCommitReorders(s, k, batchSize);
    }
    if k + 1 == |s.flights| {
      StepOrdered(s, Fail(k), batchSize);
    } else {
      EarlyFailureReorders(s, k, batchSize);
    }
  }

  lemma NonEmptyConcat(flights: seq<Flight>)
    requires flights != [] && flights[0].events != []
    ensures Concat(flights) != []
  {
  }

  predicate RunInTurn(s: State, run: seq<Action>, batchSize: int)
    requires ValidRun(s, run, batchSize)
    decreases |run|
  {
    run != [] ==> InTurn(s, run[0]) && RunInTurn(Next(s, run[0], batchSize), run[1..], batchSize)
  }

  // Events reach the database in the order in which they entered the buffer.
  lemma {:induction false} RunOrdered(s: State, run: seq<Action>, batchSize: int)
    requires Ordered(s) && ValidRun(s, run, batchSize) && RunInTurn(s, run, batchSize)
    ensures Ordered(After(s, run, batchSize))
    decreases |run|
  {
    if run != [] {
      StepOrdered(s, run[0], batchSize);
      RunOrdered(Next(s, run[0], batchSize), run[1..], batchSize);
    }
  }

  predicate AllLocked(flights: seq<Flight>) {
    forall i :: 0 <= i < |flights| ==> flights[i].origin != ByDrain
  }

  lemma {:induction false} AllHold(flights: seq<Flight>)
    requires AllLocked(flights)
    ensures Holders(flights) == |flights|
  {
    if flights != [] {
      AllHold(flights[1..]);
    }
  }

  lemma LockedStepInTurn(s: State, a: Action, batchSize: int)
    requires Safe(s) && Enabled(s, a) && a != Drain && AllLocked(s.flights)
    ensures InTurn(s, a) && AllLocked(Next(s, a, batchSize).flights)
  {
    AllHold(s.flights);
  }

  // Before shutdown the lock alone keeps every flush in turn, whatever fails.
  lemma {:induction false} LockedRunInTurn(s: State, run: seq<Action>, batchSize: int)
    requires Safe(s) && ValidRun(s, run, batchSize) && Drain !in run && AllLocked(s.flights)
    ensures RunInTurn(s, run, batchSize)
    decreases |run|
  {
    if run != [] {
      assert run[0] in run;
      StepSafe(s, run[0], batchSize);
      LockedStepInTurn(s, run[0], batchSize);
      LockedRunInTurn(Next(s, run[0], batchSize), run[1..], batchSize);
    }
  }

  // ---------------------------------------------------------------- the drain on shutdown

  predicate Arrivals(run: seq<Action>) {
    forall n :: 0 <= n < |run| ==> run[n].Receive? || run[n].Append?
  }

  // Arriving events may start flushes but end none.
  lemma {:induction false} ArrivalsKeep(s: State, run: seq<Action>, batchSize: int)
    requires ValidRun(s, run, batchSize) && Arrivals(run)
    ensures RunInTurn(s, run, batchSize)
    ensures var t := After(s, run, batchSize); s.flights <= t.flights && s.appended <= t.appended
    ensures After(s, run, batchSize).committed == s.committed
    decreases |run|
  {
    if run != [] {
      var t := Next(s, run[0], batchSize);
      assert s.flights <= t.flights && s.appended <= t.appended && t.committed == s.committed;
      ArrivalsKeep(t, run[1..], batchSize);
    }
  }

  // The state in which a drain may fail, after events have arrived behind it.
  lemma DuringDrain(s: State, arrivals: seq<Action>, batchSize: int) returns (t: State)
    requires Ordered(s) && s.flights == [] && s.buffer != [] && Enabled(s, Drain)
    requires ValidRun(Next(s, Drain, batchSize), arrivals, batchSize) && Arrivals(arrivals)
    ensures t == After(Next(s, Drain, batchSize), arrivals, batchSize) && Ordered(t)
    ensures [Flight(s.buffer, ByDrain)] <= t.flights && t.committed == s.committed && s.appended <= t.appended
  {
    var d := Next(s, Drain, batchSize);
    StepOrdered(s, Drain, batchSize);
    AppendNothing([Flight(s.buffer, ByDrain)]);
    ArrivalsKeep(d, arrivals, batchSize);
    RunOrdered(d, arrivals, batchSize);
    t := After(d, arrivals, batchSize);
  }

  // A drain that fails after any number of events have arrived puts its own events before
  // them, as long as the arriving events have not started a flush of their own.
  lemma FailedDrainKeepsOrder(s: State, arrivals: seq<Action>, batchSize: int)
    requires Ordered(s) && s.flights == [] && s.buffer != [] && Enabled(s, Drain)
    requires ValidRun(Next(s, Drain, batchSize), arrivals, batchSize) && Arrivals(arrivals)
    requires |After(Next(s, Drain, batchSize), arrivals, batchSize).flights| == 1
    ensures var t := After(Next(s, Drain, batchSize), arrivals, batchSize);
            var u := Next(t, Fail(0), batchSize);
            && s.appended <= t.appended && Ordered(u) && u.flights == [] && u.committed == s.committed
            && u.buffer == s.buffer + t.appended[|s.appended|..]
  {
    var t := DuringDrain(s, arrivals, batchSize);
    FailNewestOrdered(t, batchSize);
    OneFlight(t.flights[0]);
    AppendNothing(s.committed);
    assert t.committed + s.buffer + t.buffer == t.appended && s.committed + s.buffer == s.appended;
  }

  // Whatever arrives, the order survives the failure of a drain if and only if no flush has
  // begun since.
  lemma DrainFailureExactly(s: State, arrivals: seq<Action>, batchSize: int)
    requires Safe(s) && Ordered(s) && s.flights == [] && s.buffer != [] && Enabled(s, Drain)
    requires ValidRun(Next(s, Drain, batchSize), arrivals, batchSize) && Arrivals(arrivals)
    requires Distinct(After(Next(s, Drain, batchSize), arrivals, batchSize).appended)
    ensures var t := After(Next(s, Drain, batchSize), arrivals, batchSize);
            && t.flights != []
            && (Ordered(Next(t, Fail(0), batchSize)) <==> |t.flights| == 1)
  {
    var t := DuringDrain(s, arrivals, batchSize);
    StepSafe(s, Drain, batchSize);
    RunSafe(Next(s, Drain, batchSize), arrivals, batchSize);
    OrderExactly(t, 0, batchSize);
  }

  lemma OneStep(s: State, a: Action, rest: seq<Action>, batchSize: int) returns (run: seq<Action>)
    requires Enabled(s, a) && ValidRun(Next(s, a, batchSize), rest, batchSize)
    ensures run == [a] + rest
    ensures ValidRun(s, run, batchSize)
    ensures After(s, run, batchSize) == After(Next(s, a, batchSize), rest, batchSize)
  {
    run := [a] + rest;
    assert run[1..] == rest;
  }

  // A drain that is still in flight when a later flush commits,
  lemma LaterFlushOvertakes(s: State, batchSize: int) returns (t: State)
    requires |s.flights| == 2
    ensures t == Next(s, Commit(1), batchSize)
    ensures t.flights == [s.flights[0]] && t.committed == s.committed + s.flights[1].events
    ensures t.buffer == s.buffer && t.waiting == s.waiting && t.appended == s.appended
  {
    t := Next(s, Commit(1), batchSize);
  }

  // and that then fails, has its events flushed again with the next one that arrives.
  lemma DrainComesBack(t: State, batchSize: int) returns (run: seq<Action>)
    requires |t.flights| == 1 && t.flights[0].origin == ByDrain && t.waiting != []
    requires |t.flights[0].events| + |t.buffer| + 1 >= batchSize
    ensures run == [Fail(0)] + ([Append(0)] + ([Commit(0)] + [])) && ValidRun(t, run, batchSize)
    ensures var u := After(t, run, batchSize);
            && u.committed == t.committed + (t.flights[0].events + t.buffer + [t.waiting[0]])
            && u.appended == t.appended + [t.waiting[0]] && u.flights == [] && u.buffer == []
  {
    var t1 := Next(t, Fail(0), batchSize);
    assert t1.flights == [];
    var t2 := Next(t1, Append(0), batchSize);
    AppendNothing([Flight(t1.buffer + [t.waiting[0]], ByEvent)]);
    assert t2.flights == [Flight(t1.buffer + [t.waiting[0]], ByEvent)];
    var t3 := Next(t2, Commit(0), batchSize);
    run := OneStep(t2, Commit(0), [], batchSize);
    run := OneStep(t1, Append(0), run, batchSize);
    run := OneStep(t, Fail(0), run, batchSize);
    assert t3.flights == [];
  }

  // A drain that fails after a later flush has committed: once everything is flushed, the
  // drained events follow the later ones in the database.
  lemma OverlappingDrainReorders(s: State, batchSize: int)
    requires Ordered(s) && |s.flights| == 2 && s.flights[0].origin == ByDrain && s.waiting != []
    requires |s.flights[0].events| + |s.buffer| + 1 >= batchSize
    ensures var run := [Commit(1)] + ([Fail(0)] + ([Append(0)] + ([Commit(0)] + [])));
            var drained, later, rest := s.flights[0].events, s.flights[1].events, s.buffer + [s.waiting[0]];
            && ValidRun(s, run, batchSize)
            && After(s, run, batchSize).appended == s.committed + (drained + later) + rest
            && After(s, run, batchSize).committed == s.committed + (later + drained) + rest
  {
    var t := LaterFlushOvertakes(s, batchSize);
    var run := DrainComesBack(t, batchSize);
    run := OneStep(s, Commit(1), run, batchSize);
    TwoFlights(s.flights);
    var drained, later := s.flights[0].events, s.flights[1].events;
    assert s.committed + later + (drained + s.buffer + [s.waiting[0]])
        == s.committed + (later + drained) + (s.buffer + [s.waiting[0]]);
    assert s.committed + (drained + later) + s.buffer + [s.waiting[0]]
        == s.committed + (drained + later) + (s.buffer + [s.waiting[0]]);
  }

  // Such a drain is reached from the start: a flush fails, and a second event arrives while
  // the drain retries the first one.
  function RetryDrained(first: Event, second: Event, third: Event): State {
    State([third], [], [Flight([first], ByDrain), Flight([second], ByEvent)],
          [first, second], [], [], [ByEvent], true)
  }

  function RetryPending(first: Event): State {
    State([], [first], [], [first], [], [], [ByEvent], false)
  }

  lemma RetryReached(first: Event, rest: seq<Action>) returns (run: seq<Action>)
    requires ValidRun(RetryPending(first), rest, 1)
    ensures ValidRun(Start(), run, 1) && After(Start(), run, 1) == After(RetryPending(first), rest, 1)
  {
    var s1 := State([first], [], [], [], [], [], [], false);
    var s2 := State([], [], [Flight([first], ByEvent)], [first], [], [], [], false);
    assert Next(Start(), Receive(first), 1) == s1;
    assert Without([first], 0) == [] && Next(s1, Append(0), 1) == s2;
    assert Without(s2.flights, 0) == [] && Next(s2, Fail(0), 1) == RetryPending(first);
    run := OneStep(s2, Fail(0), rest, 1);
    run := OneStep(s1, Append(0), run, 1);
    run := OneStep(Start(), Receive(first), run, 1);
  }

  // The drain retries the first event while the other two arrive, and the second one fills
  // the buffer.
  lemma DrainArrives(first: Event, second: Event, third: Event) returns (s1: State, s2: State, s3: State)
    ensures s1 == RetryPending(first).(waiting := [second]) && s2 == s1.(waiting := [second, third])
    ensures s3 == s2.(buffer := [], flights := [Flight([first], ByDrain)], stopped := true)
    ensures Next(RetryPending(first), Receive(second), 1) == s1 && Next(s1, Receive(third), 1) == s2
    ensures Enabled(s2, Drain) && Next(s2, Drain, 1) == s3
  {
    s1 := RetryPending(first).(waiting := [second]);
    s2 := s1.(waiting := [second, third]);
    s3 := s2.(buffer := [], flights := [Flight([first], ByDrain)], stopped := true);
    AppendNothing([second]);
    assert [second] + [third] == [second, third];
    AppendNothing([Flight([first], ByDrain)]);
  }

  lemma SecondAppends(first: Event, second: Event, third: Event, s: State)
    requires s == RetryPending(first).(waiting := [second, third], buffer := [],
                                       flights := [Flight([first], ByDrain)], stopped := true)
    ensures Enabled(s, Append(0)) && Next(s, Append(0), 1) == RetryDrained(first, second, third)
  {
    OneFlight(s.flights[0]);
    AppendNothing([second]);
    assert [first] + [second] == [first, second];
    assert Without(s.waiting, 0) == [third];
    assert [Flight([first], ByDrain)] + [Flight([second], ByEvent)] == RetryDrained(first, second, third).flights;
  }

  lemma DrainReached(first: Event, second: Event, third: Event, rest: seq<Action>) returns (run: seq<Action>)
    requires ValidRun(RetryDrained(first, second, third), rest, 1)
    ensures ValidRun(RetryPending(first), run, 1)
    ensures After(RetryPending(first), run, 1) == After(RetryDrained(first, second, third), rest, 1)
  {
    var s := RetryPending(first);
    var s1, s2, s3 := DrainArrives(first, second, third);
    SecondAppends(first, second, third, s3);
    run := OneStep(s3, Append(0), rest, 1);
    run := OneStep(s2, Drain, run, 1);
    run := OneStep(s1, Receive(third), run, 1);
    run := OneStep(s, Receive(second), run, 1);
  }

  predicate Persists(run: seq<Action>, batchSize: int, appended: seq<Event>, committed: seq<Event>) {
    && ValidRun(Start(), run, batchSize)
    && After(Start(), run, batchSize).appended == appended && After(Start(), run, batchSize).committed == committed
  }

  // So the database can end up with events in another order than they were appended in.
  lemma DatabaseReordered(first: Event, second: Event, third: Event)
    ensures exists run :: Persists(run, 1, [first, second, third], [second, first, third])
  {
    var s := RetryDrained(first, second, third);
    TwoFlights(s.flights);
    OverlappingDrainReorders(s, 1);
    var run := DrainReached(first, second, third, [Commit(1)] + ([Fail(0)] + ([Append(0)] + ([Commit(0)] + []))));
    run := RetryReached(first, run);
    assert Persists(run, 1, [first, second, third], [second, first, third]);
  }

  lemma TwoFlights(flights: seq<Flight>)
    requires |flights| == 2
    ensures Concat(flights) == flights[0].events + flights[1].events
  {
    OneFlight(flights[1]);
    assert flights[1..] == [flights[1]];
  }
}
