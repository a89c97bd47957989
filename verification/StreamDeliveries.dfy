// How often a message of the stream bus is handled: a bound by its deliveries, and exactly
// when it can still be handled once more.
module StreamDeliveries {
  import opened StreamBus

  // ---------------------------------------------------------------- handled at most as often as delivered

  // What a consumer still holds of a message: the delivery it is handling and those that
  // wait in its batch.
  function InRest(rest: Rest, m: MessageId): nat {
    match rest
    case RestOfScan(_) => 0
    case RestOfBatch(batch) => multiset(batch)[m]
  }

  function Held(pc: Pc, m: MessageId): nat {
    match pc
    case Handling(msg, _, rest) => Count(msg == m) + InRest(rest, m)
    case Acking(_, rest) => InRest(rest, m)
    case AckingEmpty(_, rest) => InRest(rest, m)
    case _ => 0
  }

  function HeldByAll(consumers: seq<Pc>, m: MessageId): nat {
    if consumers == [] then 0 else Held(consumers[0], m) + HeldByAll(consumers[1..], m)
  }

  // Every delivery has been handled, is still held, or was given up.
  predicate HandledBounded(s: State, m: MessageId) {
    s.handled[m] + HeldByAll(s.consumers, m) <= s.sent[m]
  }

  lemma {:induction false} HeldAfter(consumers: seq<Pc>, c: nat, pc: Pc, m: MessageId)
    requires c < |consumers|
    ensures HeldByAll(consumers[c := pc], m) + Held(consumers[c], m) == HeldByAll(consumers, m) + Held(pc, m)
  {
    if c == 0 {
      assert consumers[c := pc][1..] == consumers[1..];
    } else {
      assert consumers[c := pc][1..] == consumers[1..][c - 1 := pc];
      HeldAfter(consumers[1..], c - 1, pc, m);
    }
  }

  lemma BatchHolds(s: State, batch: seq<MessageId>, m: MessageId)
    ensures Held(NextInBatch(s, batch), m) <= multiset(batch)[m]
  {
    if batch != [] {
      assert batch == [batch[0]] + batch[1..];
    }
  }

  // A step hands out at most what it sends, and handles only what was held.
  lemma StepBounded(s: State, c: nat, a: Action, m: MessageId)
    requires Enabled(s, c, a) && HandledBounded(s, m)
    ensures HandledBounded(Next(s, c, a), m)
  {
    var t := Next(s, c, a);
    if !a.Publish? {
      HeldAfter(s.consumers, c, t.consumers[c], m);
      assert t.consumers == s.consumers[c := t.consumers[c]];
    }
    StepHolds(s, c, a, m);
  }

  lemma StepHolds(s: State, c: nat, a: Action, m: MessageId)
    requires Enabled(s, c, a)
    ensures var t := Next(s, c, a);
            t.handled[m] + Held(t.consumers[c], m) + s.sent[m] <= s.handled[m] + Held(s.consumers[c], m) + t.sent[m]
  {
    var pc := s.consumers[c];
    match a
    case Read(count) => BatchHolds(s, Batch(s, count), m);
    case ProcessingFails => ResumeHolds(s, pc.rest, m);
    case Command =>
      if pc.Acking? || pc.AckingEmpty? {
        ResumeHolds(s, pc.rest, m);
      }
    case _ =>
  }

  lemma ResumeHolds(s: State, rest: Rest, m: MessageId)
    ensures Held(Resume(s, rest), m) <= InRest(rest, m)
  {
    if rest.RestOfBatch? {
      BatchHolds(s, rest.batch, m);
    }
  }

  // ---------------------------------------------------------------- deliveries are reads and claims

  // An XCLAIM that returns the message.
  predicate ClaimsMessage(s: State, c: nat, a: Action, m: MessageId)
    requires Enabled(s, c, a)
  {
    a.Claim? && a.stillIdle && s.consumers[c].todo[0].0 == m && m in s.pending && s.trimmed <= m
  }

  function ClaimsOf(s: State, run: seq<Event>, m: MessageId): nat
    requires ValidRun(s, run)
    decreases |run|
  {
    if run == [] then 0
    else
      Count(ClaimsMessage(s, run[0].c, run[0].action, m)) + ClaimsOf(Next(s, run[0].c, run[0].action), run[1..], m)
  }

  // Read by some consumer, not skipped because it had been trimmed.
  predicate WasRead(s: State, m: MessageId) {
    m < s.delivered && m !in s.skipped
  }

  predicate SkippedDelivered(s: State) {
    forall m :: m in s.skipped ==> m < s.delivered
  }

  lemma StepSkipped(s: State, c: nat, a: Action)
    requires Enabled(s, c, a) && SkippedDelivered(s)
    ensures SkippedDelivered(Next(s, c, a))
  {
    if a.Read? {
      InBetween(s.delivered, FirstUnread(s));
    }
  }

  lemma StepSent(s: State, c: nat, a: Action, m: MessageId)
    requires Enabled(s, c, a) && SkippedDelivered(s)
    ensures var t := Next(s, c, a);
            t.sent[m] + Count(WasRead(s, m)) == s.sent[m] + Count(WasRead(t, m)) + Count(ClaimsMessage(s, c, a, m))
  {
    if a.Read? {
      BatchOnce(Batch(s, a.count), FirstUnread(s));
      InBetween(s.delivered, FirstUnread(s));
    }
  }

  lemma {:induction false} RunBounded(s: State, run: seq<Event>, m: MessageId)
    requires ValidRun(s, run) && HandledBounded(s, m) && SkippedDelivered(s)
    ensures var t := After(s, run);
            && HandledBounded(t, m)
            && t.sent[m] + Count(WasRead(s, m)) == s.sent[m] + Count(WasRead(t, m)) + ClaimsOf(s, run, m)
    decreases |run|
  {
    if run != [] {
      StepBounded(s, run[0].c, run[0].action, m);
      StepSent(s, run[0].c, run[0].action, m);
      StepSkipped(s, run[0].c, run[0].action);
      RunBounded(Next(s, run[0].c, run[0].action), run[1..], m);
    }
  }

  lemma {:induction false} NothingHeld(consumers: seq<Pc>, m: MessageId)
    requires forall c :: 0 <= c < |consumers| ==> consumers[c].Looping?
    ensures HeldByAll(consumers, m) == 0
  {
    if consumers != [] {
      NothingHeld(consumers[1..], m);
    }
  }

  // A message is handled no more often than it was delivered, which is once by reading and
  // once more for every successful claim.
  lemma HandledAtMostDelivered(s: State, run: seq<Event>, m: MessageId)
    requires Initial(s) && ValidRun(s, run)
    ensures var t := After(s, run);
            t.handled[m] <= t.sent[m] == Count(WasRead(t, m)) + ClaimsOf(s, run, m)
  {
    NothingHeld(s.consumers, m);
    RunBounded(s, run, m);
  }

  // A message that is never successfully claimed is handled at most once.
  lemma UnclaimedAtMostOnce(s: State, run: seq<Event>, m: MessageId)
    requires Initial(s) && ValidRun(s, run) && ClaimsOf(s, run, m) == 0
    ensures After(s, run).handled[m] <= 1
  {
    HandledAtMostDelivered(s, run, m);
  }

  // ---------------------------------------------------------------- what can still be handled

  predicate HasData(s: State, m: MessageId) {
    m < |s.hasData| && s.hasData[m]
  }

  // It can still be delivered.
  predicate InStream(s: State, m: MessageId) {
    HasData(s, m) && s.trimmed <= m
  }

  predicate SomeoneLives(s: State) {
    exists c :: 0 <= c < |s.consumers| && !s.consumers[c].Crashed?
  }

  predicate WaitsInBatch(pc: Pc, m: MessageId) {
    (pc.Handling? || pc.Acking? || pc.AckingEmpty?) && pc.rest.RestOfBatch? && m in pc.rest.batch
  }

  // The scan entries a consumer still has before it.
  function Todo(pc: Pc): seq<(MessageId, nat)> {
    match pc
    case Scanning(todo) => todo
    case DeadRead(_, todo) => todo
    case DeadAdd(_, todo) => todo
    case DeadAck(_, todo) => todo
    case Handling(_, _, RestOfScan(todo)) => todo
    case Acking(_, RestOfScan(todo)) => todo
    case AckingEmpty(_, RestOfScan(todo)) => todo
    case _ => []
  }

  predicate ListedForClaim(todo: seq<(MessageId, nat)>, m: MessageId) {
    exists k :: 0 <= k < |todo| && todo[k].0 == m && todo[k].1 < MAX_RETRIES
  }

  // What one consumer may still do with a message: finish handling it, take it from its
  // batch, or claim it on the strength of a scan it has made.
  predicate MayHandle(s: State, pc: Pc, m: MessageId) {
    || (pc.Handling? && pc.msg == m)
    || (HasData(s, m) && WaitsInBatch(pc, m))
    || (InStream(s, m) && m in s.pending && ListedForClaim(Todo(pc), m))
  }

  predicate Claimable(s: State, m: MessageId) {
    InStream(s, m) && m in s.pending && s.pending[m].deliveries < MAX_RETRIES
  }

  predicate Unread(s: State, m: MessageId) {
    FirstUnread(s) <= m && (m < |s.hasData| ==> s.hasData[m])
  }

  // What any live consumer may do: claim it from pending, or read it when it is, or
  // may yet be published as, an undelivered message with data.
  predicate Obtainable(s: State, m: MessageId) {
    SomeoneLives(s) && (Claimable(s, m) || Unread(s, m))
  }

  predicate CanBeHandled(s: State, m: MessageId) {
    Obtainable(s, m) || exists c :: 0 <= c < |s.consumers| && MayHandle(s, s.consumers[c], m)
  }

  // No delivery runs more handlers than its consumer has.
  predicate Orderly(s: State) {
    |s.handlers| == |s.consumers| && forall c :: 0 <= c < |s.consumers| && s.consumers[c].Handling? ==>
      s.consumers[c].done <= s.handlers[c]
  }

  predicate Sound(s: State) {
    Safe(s) && Orderly(s)
  }

  lemma StepOrderly(s: State, c: nat, a: Action)
    requires Orderly(s) && Enabled(s, c, a)
    ensures Orderly(Next(s, c, a))
  {
    var t := Next(s, c, a);
    assert forall k :: 0 <= k < |t.consumers| && k != c ==> t.consumers[k] == s.consumers[k];
  }

  lemma {:induction false} RunSound(s: State, run: seq<Event>)
    requires Sound(s) && ValidRun(s, run)
    ensures Sound(After(s, run))
    decreases |run|
  {
    if run != [] {
      StepSafe(s, run[0].c, run[0].action);
      StepOrderly(s, run[0].c, run[0].action);
      RunSound(Next(s, run[0].c, run[0].action), run[1..]);
    }
  }

  // ---------------------------------------------------------------- nothing else is ever handled

  lemma PendingBefore(s: State, c: nat, a: Action, m: MessageId)
    requires Safe(s) && Enabled(s, c, a)
    ensures var t := Next(s, c, a);
            m in t.pending && m < s.delivered ==> m in s.pending && s.pending[m].deliveries <= t.pending[m].deliveries
    ensures HasData(Next(s, c, a), m) && m < s.delivered ==> HasData(s, m)
    ensures InStream(Next(s, c, a), m) && m < s.delivered ==> InStream(s, m)
  {
    if a.Read? {
      var batch := Batch(s, a.count);
      assert a.count > 0 ==> forall k :: 0 <= k < |batch| ==> batch[k] >= s.delivered;
    }
  }

  lemma LivedBefore(s: State, c: nat, a: Action)
    requires Enabled(s, c, a) && SomeoneLives(Next(s, c, a))
    ensures SomeoneLives(s)
  {
    var t := Next(s, c, a);
    var k :| 0 <= k < |t.consumers| && !t.consumers[k].Crashed?;
    assert !s.consumers[k].Crashed?;
  }

  lemma ObtainableBefore(s: State, c: nat, a: Action, m: MessageId)
    requires Safe(s) && Enabled(s, c, a) && Obtainable(Next(s, c, a), m)
    ensures Obtainable(s, m)
  {
    LivedBefore(s, c, a);
    PendingBefore(s, c, a, m);
    StepSafe(s, c, a);
    var t := Next(s, c, a);
    assert m < |s.hasData| ==> t.hasData[m] == s.hasData[m];
  }

  // A consumer that does not move gains nothing.
  lemma OtherBefore(s: State, c: nat, a: Action, pc: Pc, m: MessageId)
    requires Safe(s) && Enabled(s, c, a) && PcJustified(s, pc) && MayHandle(Next(s, c, a), pc, m)
    ensures MayHandle(s, pc, m)
  {
    PendingBefore(s, c, a, m);
    assert WaitsInBatch(pc, m) || ListedForClaim(Todo(pc), m) ==> m < s.delivered;
  }

  lemma BatchMayHandle(s: State, t: State, batch: seq<MessageId>, m: MessageId)
    requires t.hasData == s.hasData && MayHandle(t, NextInBatch(s, batch), m)
    ensures m in batch && (m < |s.hasData| ==> HasData(s, m))
  {
  }

  // The consumer that moves may handle only what it, or any live consumer, could before.
  lemma OwnBefore(s: State, c: nat, a: Action, m: MessageId)
    requires Sound(s) && Enabled(s, c, a) && !a.Publish? && MayHandle(Next(s, c, a), Next(s, c, a).consumers[c], m)
    ensures CanBeHandled(s, m)
  {
    var t, pc := Next(s, c, a), s.consumers[c];
    assert PcJustified(s, pc);
    PendingBefore(s, c, a, m);
    if a.Read? {
      var batch := Batch(s, a.count);
      BatchMayHandle(s, t, batch, m);
      assert !pc.Crashed?;
      assert Unread(s, m);
    } else if a.Scan? {
      ScanBefore(s, c, a, m);
    } else {
      MovedBefore(s, c, a, m);
    }
  }

  lemma ScanBefore(s: State, c: nat, a: Action, m: MessageId)
    requires Sound(s) && Enabled(s, c, a) && a.Scan? && MayHandle(Next(s, c, a), Next(s, c, a).consumers[c], m)
    ensures Obtainable(s, m)
  {
    assert !s.consumers[c].Crashed?;
    var k :| 0 <= k < |a.entries| && a.entries[k].0 == m && a.entries[k].1 < MAX_RETRIES;
    assert Claimable(s, m);
  }

  lemma TodoShrinks(todo: seq<(MessageId, nat)>, m: MessageId)
    requires todo != [] && ListedForClaim(todo[1..], m)
    ensures ListedForClaim(todo, m)
  {
    var k :| 0 <= k < |todo[1..]| && todo[1..][k].0 == m && todo[1..][k].1 < MAX_RETRIES;
    assert todo[k + 1].0 == m;
  }

  lemma MovedBefore(s: State, c: nat, a: Action, m: MessageId)
    requires Sound(s) && Enabled(s, c, a) && !a.Publish? && !a.Read? && !a.Scan?
    requires MayHandle(Next(s, c, a), Next(s, c, a).consumers[c], m)
    ensures MayHandle(s, s.consumers[c], m)
  {
    PendingBefore(s, c, a, m);
    if a.SkipEntry? || a.Claim? || a.ToDeadLetter? {
      ScannerMovedBefore(s, c, a, m);
    } else {
      WorkerMovedBefore(s, c, a, m);
    }
  }

  lemma ScannerMovedBefore(s: State, c: nat, a: Action, m: MessageId)
    requires Sound(s) && Enabled(s, c, a) && (a.SkipEntry? || a.Claim? || a.ToDeadLetter?)
    requires MayHandle(Next(s, c, a), Next(s, c, a).consumers[c], m)
    ensures MayHandle(s, s.consumers[c], m)
  {
    assert PcJustified(s, s.consumers[c]);
    TodoMoved(s.consumers[c].todo, m);
  }

  // Outside a scan the records stay, and what is still to do is part of what was.
  lemma WorkerMovedBefore(s: State, c: nat, a: Action, m: MessageId)
    requires Sound(s) && Enabled(s, c, a) && !a.Publish? && !a.Read? && !a.Scan?
    requires !a.SkipEntry? && !a.Claim? && !a.ToDeadLetter?
    requires MayHandle(Next(s, c, a), Next(s, c, a).consumers[c], m)
    ensures MayHandle(s, s.consumers[c], m)
  {
    var pc := s.consumers[c];
    if a.ProcessingFails? || (a.Command? && (pc.Acking? || pc.AckingEmpty?)) {
      ResumeBefore(s, Next(s, c, a), pc, m);
    }
  }

  // What follows a message was there to do before.
  lemma ResumeBefore(s: State, t: State, pc: Pc, m: MessageId)
    requires Safe(s) && PcJustified(s, pc) && (pc.Handling? || pc.Acking? || pc.AckingEmpty?)
    requires t.hasData == s.hasData && t.trimmed == s.trimmed && (m in t.pending ==> m in s.pending)
    requires MayHandle(t, Resume(s, pc.rest), m)
    ensures MayHandle(s, pc, m)
  {
    if pc.rest.RestOfBatch? {
      BatchMayHandle(s, t, pc.rest.batch, m);
    }
  }

  lemma TodoMoved(todo: seq<(MessageId, nat)>, m: MessageId)
    requires todo != []
    ensures ListedForClaim(todo[1..], m) ==> ListedForClaim(todo, m)
    ensures todo[0].0 == m && todo[0].1 < MAX_RETRIES ==> ListedForClaim(todo, m)
  {
    if ListedForClaim(todo[1..], m) {
      TodoShrinks(todo, m);
    }
  }

  lemma StepBack(s: State, c: nat, a: Action, m: MessageId)
    requires Sound(s) && Enabled(s, c, a)
    ensures CanBeHandled(Next(s, c, a), m) ==> CanBeHandled(s, m)
    ensures Next(s, c, a).handled[m] > s.handled[m] ==> CanBeHandled(s, m)
  {
    var t := Next(s, c, a);
    if t.handled[m] > s.handled[m] {
      assert MayHandle(s, s.consumers[c], m);
    }
    if Obtainable(t, m) {
      ObtainableBefore(s, c, a, m);
    } else if CanBeHandled(t, m) {
      var k :| 0 <= k < |t.consumers| && MayHandle(t, t.consumers[k], m);
      assert PcJustified(s, s.consumers[k]);
      if k != c || a.Publish? {
        OtherBefore(s, c, a, s.consumers[k], m);
      } else {
        OwnBefore(s, c, a, m);
      }
    }
  }

  lemma {:induction false} RunBack(s: State, run: seq<Event>, m: MessageId)
    requires Sound(s) && ValidRun(s, run) && After(s, run).handled[m] > s.handled[m]
    ensures CanBeHandled(s, m)
    decreases |run|
  {
    var c, a := run[0].c, run[0].action;
    StepSafe(s, c, a);
    StepOrderly(s, c, a);
    StepBack(s, c, a, m);
    if Next(s, c, a).handled[m] <= s.handled[m] {
      RunBack(Next(s, c, a), run[1..], m);
    }
  }

  // ---------------------------------------------------------------- a run that handles it

  // A run after which the message was handled once more.
  predicate HandlesOnceMore(s: State, run: seq<Event>, m: MessageId) {
    ValidRun(s, run) && After(s, run).handled[m] == s.handled[m] + 1
  }

  lemma Before(s: State, c: nat, a: Action, rest: seq<Event>, m: MessageId) returns (run: seq<Event>)
    requires Enabled(s, c, a) && Next(s, c, a).handled == s.handled && HandlesOnceMore(Next(s, c, a), rest, m)
    ensures HandlesOnceMore(s, run, m)
  {
    run := Prefixed(s, c, a, rest);
  }

  // The remaining handlers run.
  lemma {:induction false} FinishHandling(s: State, c: nat, m: MessageId) returns (run: seq<Event>)
    requires Orderly(s) && c < |s.consumers| && s.consumers[c].Handling? && s.consumers[c].msg == m
    ensures HandlesOnceMore(s, run, m)
    decreases s.handlers[c] - s.consumers[c].done
  {
    if s.consumers[c].done == s.handlers[c] {
      run := Prefixed(s, c, Command, []);
    } else {
      var t := Next(s, c, HandlerOk);
      StepOrderly(s, c, HandlerOk);
      var rest := FinishHandling(t, c, m);
      run := Before(s, c, HandlerOk, rest, m);
    }
  }

  // The messages before it in the batch fail.
  lemma {:induction false} HandleFromBatch(s: State, c: nat, m: MessageId) returns (run: seq<Event>)
    requires Orderly(s) && c < |s.consumers| && WaitsInBatch(s.consumers[c], m) && HasData(s, m)
    ensures HandlesOnceMore(s, run, m)
    decreases |s.consumers[c].rest.batch|
  {
    var t := Next(s, c, ProcessingFails);
    StepOrderly(s, c, ProcessingFails);
    var rest;
    if s.consumers[c].rest.batch[0] == m {
      rest := FinishHandling(t, c, m);
    } else {
      rest := HandleFromBatch(t, c, m);
    }
    run := Before(s, c, ProcessingFails, rest, m);
  }

  // The entries before it in the scan are skipped, and the claim succeeds.
  lemma {:induction false} HandleFromScan(s: State, c: nat, m: MessageId) returns (run: seq<Event>)
    requires Orderly(s) && c < |s.consumers| && s.consumers[c].Scanning?
    requires InStream(s, m) && m in s.pending && ListedForClaim(s.consumers[c].todo, m)
    ensures HandlesOnceMore(s, run, m)
    decreases |s.consumers[c].todo|
  {
    var todo := s.consumers[c].todo;
    if todo[0].0 == m && todo[0].1 < MAX_RETRIES {
      var t := Next(s, c, Claim(true));
      StepOrderly(s, c, Claim(true));
      var rest := FinishHandling(t, c, m);
      run := Before(s, c, Claim(true), rest, m);
    } else {
      var k :| 0 <= k < |todo| && todo[k].0 == m && todo[k].1 < MAX_RETRIES;
      assert todo[1..][k - 1] == todo[k];
      StepOrderly(s, c, SkipEntry);
      var rest := HandleFromScan(Next(s, c, SkipEntry), c, m);
      run := Before(s, c, SkipEntry, rest, m);
    }
  }

  lemma HandleListed(s: State, c: nat, m: MessageId) returns (run: seq<Event>)
    requires Orderly(s) && c < |s.consumers| && InStream(s, m) && m in s.pending
    requires ListedForClaim(Todo(s.consumers[c]), m)
    ensures HandlesOnceMore(s, run, m)
  {
    var pc := s.consumers[c];
    if pc.Scanning? {
      run := HandleFromScan(s, c, m);
    } else {
      var a := if pc.Handling? || pc.Acking? || pc.AckingEmpty? then ProcessingFails else DeadLetterFails;
      StepOrderly(s, c, a);
      var rest := HandleFromScan(Next(s, c, a), c, m);
      run := Before(s, c, a, rest, m);
    }
  }

  lemma HandleClaimable(s: State, c: nat, m: MessageId) returns (run: seq<Event>)
    requires Orderly(s) && c < |s.consumers| && s.consumers[c].Looping? && Claimable(s, m)
    ensures HandlesOnceMore(s, run, m)
  {
    var a := Scan([(m, s.pending[m].deliveries)]);
    StepOrderly(s, c, a);
    var t := Next(s, c, a);
    assert t.consumers[c].todo[0].0 == m;
    var rest := HandleFromScan(t, c, m);
    run := Before(s, c, a, rest, m);
  }

  // Messages are published and read one by one until it is this one's turn.
  lemma {:induction false} HandleUnread(s: State, c: nat, m: MessageId) returns (run: seq<Event>)
    requires Orderly(s) && FirstUnread(s) <= |s.hasData| && c < |s.consumers| && s.consumers[c].Looping? && Unread(s, m)
    ensures HandlesOnceMore(s, run, m)
    decreases m - s.delivered, m + 1 - |s.hasData|, 1
  {
    if |s.hasData| <= m {
      var a := Publish(true, s.trimmed);
      StepOrderly(s, c, a);
      var rest := HandleUnread(Next(s, c, a), c, m);
      run := Before(s, c, a, rest, m);
    } else {
      StepOrderly(s, c, Read(1));
      var t := Next(s, c, Read(1));
      assert Batch(s, 1) == [FirstUnread(s)];
      if FirstUnread(s) == m {
        var rest := FinishHandling(t, c, m);
        run := Before(s, c, Read(1), rest, m);
      } else {
        StepOrderly(t, c, Abort);
        var rest := HandleUnread(Next(t, c, Abort), c, m);
        var later := Before(t, c, Abort, rest, m);
        run := Before(s, c, Read(1), later, m);
      }
    }
  }

  lemma HandleObtainable(s: State, m: MessageId) returns (run: seq<Event>)
    requires Sound(s) && Obtainable(s, m)
    ensures HandlesOnceMore(s, run, m)
  {
    var c :| 0 <= c < |s.consumers| && !s.consumers[c].Crashed?;
    StepOrderly(s, c, Abort);
    var t := Next(s, c, Abort);
    var rest;
    if Claimable(s, m) {
      rest := HandleClaimable(t, c, m);
    } else {
      rest := HandleUnread(t, c, m);
    }
    run := Before(s, c, Abort, rest, m);
  }

  lemma HandleIt(s: State, m: MessageId) returns (run: seq<Event>)
    requires Sound(s) && CanBeHandled(s, m)
    ensures HandlesOnceMore(s, run, m)
  {
    if Obtainable(s, m) {
      run := HandleObtainable(s, m);
    } else {
      var c :| 0 <= c < |s.consumers| && MayHandle(s, s.consumers[c], m);
      if s.consumers[c].Handling? && s.consumers[c].msg == m {
        run := FinishHandling(s, c, m);
      } else if WaitsInBatch(s.consumers[c], m) {
        run := HandleFromBatch(s, c, m);
      } else {
        run := HandleListed(s, c, m);
      }
    }
  }

  predicate HandlesMore(s: State, run: seq<Event>, m: MessageId) {
    ValidRun(s, run) && After(s, run).handled[m] > s.handled[m]
  }

  // A message can be handled once more if and only if it is unread, claimable from pending
  // or listed for a claim, or a live consumer is handling it or has it waiting in its
  // batch. Once none of these holds it is never handled again.
  lemma HandledAgainFrom(s: State, m: MessageId)
    requires Sound(s)
    ensures CanBeHandled(s, m) <==> exists run :: HandlesMore(s, run, m)
  {
    if CanBeHandled(s, m) {
      var run := HandleIt(s, m);
      assert HandlesMore(s, run, m);
    } else if run :| HandlesMore(s, run, m) {
      RunBack(s, run, m);
    }
  }

  // So it is from every reachable state.
  lemma HandledAgainExactly(start: State, before: seq<Event>, m: MessageId)
    requires Initial(start) && ValidRun(start, before)
    ensures var s := After(start, before);
            CanBeHandled(s, m) <==> exists run :: HandlesMore(s, run, m)
  {
    InitialSafe(start);
    RunSound(start, before);
    HandledAgainFrom(After(start, before), m);
  }
}
