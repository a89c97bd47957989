// The Redis Streams event bus as a state machine: one stream with a consumer group, its
// pending-entries list, the dead-letter stream, and any number of consumers. Each step is
// one Redis command or one handler call of one consumer. Publishing trims the stream.
module StreamBus {

  // Messages are numbered in stream order.
  type MessageId = nat

  const MAX_RETRIES := 3
  const BATCH_SIZE := 10
  const MAX_LEN := 100000

  // What a consumer is about to do.
  datatype Pc =
    | Looping                                       // top of the consume loop
    | Scanning(todo: seq<(MessageId, nat)>)         // XPENDING entries with their delivery counts
    | Handling(msg: MessageId, done: nat, rest: Rest) // `done` handlers have run in this delivery
    | Acking(msg: MessageId, rest: Rest)            // every handler ran, XACK comes next
    | AckingEmpty(msg: MessageId, rest: Rest)       // no data field, XACK comes next
    | DeadRead(msg: MessageId, todo: seq<(MessageId, nat)>)   // XRANGE
    | DeadAdd(msg: MessageId, todo: seq<(MessageId, nat)>)    // XADD to the dead-letter stream
    | DeadAck(msg: MessageId, todo: seq<(MessageId, nat)>)    // XACK
    | Crashed

  // What follows a processed message: the rest of a claim scan or of a read batch.
  datatype Rest = RestOfScan(todo: seq<(MessageId, nat)>) | RestOfBatch(batch: seq<MessageId>)

  datatype Pending = PendingEntry(consumer: nat, deliveries: nat)

  datatype State = State(
    hasData: seq<bool>,                 // every message published: whether it carries a data field
    trimmed: nat,                       // messages before this one are no longer in the stream
    delivered: nat,                     // last-delivered position of the group
    pending: map<MessageId, Pending>,   // pending-entries list
    dead: seq<MessageId>,               // original ids in the dead-letter stream
    consumers: seq<Pc>,
    handlers: seq<nat>,                 // how many handlers each consumer has
    sent: multiset<MessageId>,          // history: deliveries to consumers
    acked: set<MessageId>,              // history: acknowledged messages
    handled: multiset<MessageId>,       // history: deliveries in which every handler ran
    skipped: set<MessageId>,            // history: trimmed before any consumer read them
    forgotten: set<MessageId>)          // history: dropped from pending because they were trimmed

  datatype Action =
    | Publish(withData: bool, trim: nat)  // XADD, which may trim the stream up to a message
    | Scan(entries: seq<(MessageId, nat)>)  // XPENDING range
    | EndScan
    | SkipEntry                       // not idle long enough
    | Claim(stillIdle: bool)          // XCLAIM with min-idle-time
    | ToDeadLetter                    // delivery count exhausted
    | Read(count: nat)                // XREADGROUP ">"
    | HandlerOk
    | ProcessingFails                 // the deserializer, a handler or XACK raises; the loop goes on
    | DeadLetterFails                 // moving to the dead-letter stream raises; the scan goes on
    | Command                         // the next Redis command of the current call
    | Abort                           // a Redis error or an exception ends the current call
    | Crash

  // The next message that XREADGROUP finds.
  function FirstUnread(s: State): nat {
    if s.delivered < s.trimmed then s.trimmed else s.delivered
  }

  function Between(from: nat, to: nat): (r: seq<MessageId>)
    requires from <= to
    ensures |r| == to - from && forall k :: 0 <= k < |r| ==> r[k] == from + k
  {
    seq(to - from, k => from + k)
  }

  function Batch(s: State, count: nat): (r: seq<MessageId>)
    ensures |r| == count && forall k :: 0 <= k < count ==> r[k] == FirstUnread(s) + k
  {
    Between(FirstUnread(s), FirstUnread(s) + count)
  }

  function NextInBatch(s: State, batch: seq<MessageId>): Pc {
    if batch == [] then Looping else Start(s, batch[0], RestOfBatch(batch[1..]))
  }

  // _process_message begins: messages without data are acknowledged at once.
  function Start(s: State, msg: MessageId, rest: Rest): Pc {
    if msg < |s.hasData| && !s.hasData[msg] then AckingEmpty(msg, rest) else Handling(msg, 0, rest)
  }

  function Resume(s: State, rest: Rest): Pc {
    match rest
    case RestOfScan(todo) => Scanning(todo)
    case RestOfBatch(batch) => NextInBatch(s, batch)
  }

  predicate Enabled(s: State, c: nat, a: Action) {
    && c < |s.consumers| && |s.handlers| == |s.consumers|
    && match a
       case Publish(_, trim) => trim == s.trimmed || (s.trimmed <= trim && trim + MAX_LEN <= |s.hasData| + 1)
       case Scan(entries) =>
         && s.consumers[c].Looping? && |entries| <= BATCH_SIZE
         && forall k :: 0 <= k < |entries| ==>
              entries[k].0 in s.pending && s.pending[entries[k].0].deliveries == entries[k].1
       case EndScan => s.consumers[c].Scanning? && s.consumers[c].todo == []
       case SkipEntry => s.consumers[c].Scanning? && s.consumers[c].todo != []
       case Claim(_) => s.consumers[c].Scanning? && s.consumers[c].todo != [] && s.consumers[c].todo[0].1 < MAX_RETRIES
       case ToDeadLetter => s.consumers[c].Scanning? && s.consumers[c].todo != [] && s.consumers[c].todo[0].1 >= MAX_RETRIES
       case Read(count) => s.consumers[c].Looping? && count <= BATCH_SIZE && FirstUnread(s) + count <= |s.hasData|
       case HandlerOk => s.consumers[c].Handling? && s.consumers[c].done < s.handlers[c]
       case ProcessingFails => s.consumers[c].Handling? || s.consumers[c].Acking? || s.consumers[c].AckingEmpty?
       case DeadLetterFails => s.consumers[c].DeadRead? || s.consumers[c].DeadAdd? || s.consumers[c].DeadAck?
       case Command =>
         || s.consumers[c].Acking? || s.consumers[c].AckingEmpty? || s.consumers[c].DeadRead?
         || s.consumers[c].DeadAdd? || s.consumers[c].DeadAck?
         || (s.consumers[c].Handling? && s.consumers[c].done == s.handlers[c])
       case Abort => !s.consumers[c].Crashed?
       case Crash => true
  }

  function Goto(s: State, c: nat, pc: Pc): State
    requires c < |s.consumers|
  {
    s.(consumers := s.consumers[c := pc])
  }

  function Acknowledge(s: State, msg: MessageId): State {
    if msg in s.pending then s.(pending := s.pending - {msg}, acked := s.acked + {msg}) else s
  }

  function Next(s: State, c: nat, a: Action): State
    requires Enabled(s, c, a)
  {
    var pc := s.consumers[c];
    match a
    case Publish(withData, trim) => s.(hasData := s.hasData + [withData], trimmed := trim)
    case Scan(entries) => Goto(s, c, Scanning(entries))
    case EndScan => Goto(s, c, Looping)
    case SkipEntry => Goto(s, c, Scanning(pc.todo[1..]))
    case Claim(stillIdle) =>
      // a message that was acknowledged or claimed by someone else in the meantime is not
      // returned, and one that was trimmed leaves the pending entries
      var msg := pc.todo[0].0;
      if msg in s.pending && msg < s.trimmed then
        Goto(s, c, Scanning(pc.todo[1..])).(pending := s.pending - {msg}, forgotten := s.forgotten + {msg})
      else if msg in s.pending && stillIdle then
        Goto(s, c, Start(s, msg, RestOfScan(pc.todo[1..])))
          .(pending := s.pending[msg := PendingEntry(c, s.pending[msg].deliveries + 1)],
            sent := s.sent + multiset{msg})
      else
        Goto(s, c, Scanning(pc.todo[1..]))
    case ToDeadLetter => Goto(s, c, DeadRead(pc.todo[0].0, pc.todo[1..]))
    case Read(count) =>
      var batch := Batch(s, count);
      if count == 0 then s
      else
        Goto(s, c, NextInBatch(s, batch))
          .(delivered := FirstUnread(s) + count,
            pending := s.pending + map msg | msg in batch :: PendingEntry(c, 1),
            sent := s.sent + multiset(batch),
            skipped := s.skipped + set m | m in Between(s.delivered, FirstUnread(s)))
    case HandlerOk => Goto(s, c, Handling(pc.msg, pc.done + 1, pc.rest))
    case ProcessingFails => Goto(s, c, Resume(s, pc.rest))
    case DeadLetterFails => Goto(s, c, Scanning(pc.todo))
    case Abort => Goto(s, c, Looping)
    case Crash => Goto(s, c, Crashed)
    case Command =>
      match pc
      case Handling(msg, _, rest) => Goto(s, c, Acking(msg, rest)).(handled := s.handled + multiset{msg})
      case Acking(msg, rest) => Acknowledge(Goto(s, c, Resume(s, rest)), msg)
      case AckingEmpty(msg, rest) => Acknowledge(Goto(s, c, Resume(s, rest)), msg)
      case DeadRead(msg, todo) => Goto(s, c, if s.trimmed <= msg then DeadAdd(msg, todo) else DeadAck(msg, todo))
      case DeadAdd(msg, todo) => Goto(s, c, DeadAck(msg, todo)).(dead := s.dead + [msg])
      case DeadAck(msg, todo) => Acknowledge(Goto(s, c, Scanning(todo)), msg)
      case _ => s
  }

  predicate Initial(s: State) {
    && s.hasData == [] && s.trimmed == s.delivered == 0 && s.pending == map[] && s.dead == []
    && |s.handlers| == |s.consumers| && (forall c :: 0 <= c < |s.consumers| ==> s.consumers[c].Looping?)
    && s.sent == multiset{} && s.acked == {} && s.handled == multiset{} && s.skipped == s.forgotten == {}
  }

  datatype Event = Event(c: nat, action: Action)

  predicate ValidRun(s: State, run: seq<Event>)
    decreases |run|
  {
    run != [] ==>
      Enabled(s, run[0].c, run[0].action) && ValidRun(Next(s, run[0].c, run[0].action), run[1..])
  }

  function After(s: State, run: seq<Event>): State
    requires ValidRun(s, run)
    decreases |run|
  {
    if run == [] then s else After(Next(s, run[0].c, run[0].action), run[1..])
  }

  // ---------------------------------------------------------------- the invariant

  // Every message is in exactly one place.
  predicate Partitioned(s: State) {
    && s.delivered <= |s.hasData|
    && (forall m :: m in s.pending ==> m < s.delivered && m !in s.acked && m !in s.skipped && m !in s.forgotten)
    && (forall m :: m in s.acked ==> m < s.delivered && m !in s.skipped && m !in s.forgotten)
    && (forall m :: m in s.skipped ==> m < s.delivered && m !in s.forgotten)
    && (forall m :: m in s.forgotten ==> m < s.delivered)
    && (forall m: nat :: m < s.delivered ==> m in s.pending || m in s.acked || m in s.skipped || m in s.forgotten)
  }

  // Only messages that MAX_LEN newer ones have pushed out are gone from the stream.
  predicate TrimmedLate(s: State) {
    && (s.trimmed > 0 ==> s.trimmed + MAX_LEN <= |s.hasData|)
    && (forall m :: m in s.skipped ==> m < s.trimmed)
    && (forall m :: m in s.forgotten ==> m < s.trimmed)
  }

  // An acknowledged message was fully handled in some delivery, or is a dead letter,
  // or carries no data, or was trimmed before it could become a dead letter.
  predicate AckedForAReason(s: State) {
    forall m :: m in s.acked && m < |s.hasData| && s.hasData[m] ==>
      m in s.handled || m in s.dead || m < s.trimmed
  }

  predicate RestDelivered(s: State, rest: Rest) {
    match rest
    case RestOfScan(todo) => forall k :: 0 <= k < |todo| ==> todo[k].0 < s.delivered && todo[k].1 <= s.sent[todo[k].0]
    case RestOfBatch(batch) => forall k :: 0 <= k < |batch| ==> batch[k] < s.delivered
  }

  // What a consumer may rely on where it stands.
  predicate PcJustified(s: State, pc: Pc) {
    match pc
    case Looping => true
    case Crashed => true
    case Scanning(todo) => RestDelivered(s, RestOfScan(todo))
    case Handling(msg, _, rest) => msg < s.delivered && RestDelivered(s, rest)
    case Acking(msg, rest) => msg < s.delivered && msg in s.handled && RestDelivered(s, rest)
    case AckingEmpty(msg, rest) => msg < s.delivered && msg < |s.hasData| && !s.hasData[msg] && RestDelivered(s, rest)
    case DeadRead(msg, todo) => msg < s.delivered && MAX_RETRIES <= s.sent[msg] && RestDelivered(s, RestOfScan(todo))
    case DeadAdd(msg, todo) => msg < s.delivered && MAX_RETRIES <= s.sent[msg] && RestDelivered(s, RestOfScan(todo))
    case DeadAck(msg, todo) =>
      msg < s.delivered && (msg in s.dead || msg < s.trimmed) && RestDelivered(s, RestOfScan(todo))
  }

  predicate Justified(s: State) {
    forall c :: 0 <= c < |s.consumers| ==> PcJustified(s, s.consumers[c])
  }

  // The delivery counter of a pending entry counts its deliveries; a message becomes a
  // dead letter only after MAX_RETRIES of them.
  predicate DeliveriesCounted(s: State) {
    && (forall m :: m in s.pending ==> s.pending[m].deliveries == s.sent[m])
    && (forall m :: m in s.sent ==> m < s.delivered)
    && (forall m :: m in s.dead ==> MAX_RETRIES <= s.sent[m])
  }

  predicate Safe(s: State) {
    Partitioned(s) && TrimmedLate(s) && AckedForAReason(s) && Justified(s) && DeliveriesCounted(s)
  }

  // Justifications survive as the stream, the histories and the dead letters grow.
  predicate Grown(s: State, t: State) {
    && s.delivered <= t.delivered && s.trimmed <= t.trimmed
    && |s.hasData| <= |t.hasData| && t.hasData[..|s.hasData|] == s.hasData
    && s.handled <= t.handled && s.dead <= t.dead && s.sent <= t.sent
  }

  lemma StillJustified(s: State, t: State, pc: Pc)
    requires PcJustified(s, pc) && Grown(s, t)
    ensures PcJustified(t, pc)
  {
    assert forall m :: 0 <= m < |s.hasData| ==> t.hasData[m] == t.hasData[..|s.hasData|][m];
    assert forall m :: m in s.dead ==> m in t.dead;
  }

  lemma OthersJustified(s: State, t: State, c: nat)
    requires Justified(s) && Grown(s, t) && c < |s.consumers|
    requires |t.consumers| == |s.consumers| && t.consumers == s.consumers[c := t.consumers[c]]
    requires PcJustified(t, t.consumers[c])
    ensures Justified(t)
  {
    forall k | 0 <= k < |t.consumers| ensures PcJustified(t, t.consumers[k]) {
      if k != c {
        StillJustified(s, t, s.consumers[k]);
      }
    }
  }

  lemma ResumeJustified(s: State, rest: Rest)
    requires Partitioned(s) && RestDelivered(s, rest)
    ensures PcJustified(s, Resume(s, rest))
  {
  }

  // Steps that only move a consumer.
  lemma LocalStepSafe(s: State, c: nat, a: Action)
    requires Safe(s) && Enabled(s, c, a)
    requires a.Scan? || a.EndScan? || a.SkipEntry? || a.ToDeadLetter? || a.HandlerOk? ||
             a.ProcessingFails? || a.DeadLetterFails? || a.Abort? || a.Crash?
    ensures Safe(Next(s, c, a))
  {
    var t := Next(s, c, a);
    LocalPcJustified(s, c, a);
    assert t.hasData[..|s.hasData|] == s.hasData;
    OthersJustified(s, t, c);
  }

  lemma LocalPcJustified(s: State, c: nat, a: Action)
    requires Safe(s) && Enabled(s, c, a)
    requires a.Scan? || a.EndScan? || a.SkipEntry? || a.ToDeadLetter? || a.HandlerOk? ||
             a.ProcessingFails? || a.DeadLetterFails? || a.Abort? || a.Crash?
    ensures var t := Next(s, c, a); t == s.(consumers := t.consumers) && t.consumers == s.consumers[c := t.consumers[c]]
    ensures PcJustified(Next(s, c, a), Next(s, c, a).consumers[c])
  {
    assert PcJustified(s, s.consumers[c]);
  }

  lemma PublishSafe(s: State, c: nat, a: Action)
    requires Safe(s) && Enabled(s, c, a) && a.Publish?
    ensures Safe(Next(s, c, a))
  {
    var t := Next(s, c, a);
    assert t.consumers[c] == s.consumers[c];
    StillJustified(s, t, s.consumers[c]);
    OthersJustified(s, t, c);
  }

  lemma {:induction false} BatchOnce(batch: seq<MessageId>, from: nat)
    requires forall k :: 0 <= k < |batch| ==> batch[k] == from + k
    ensures forall m :: m in batch <==> from <= m < from + |batch|
    ensures forall m :: multiset(batch)[m] == if m in batch then 1 else 0
  {
    if batch != [] {
      BatchOnce(batch[1..], from + 1);
      assert batch == [batch[0]] + batch[1..];
    }
  }

  lemma InBetween(from: nat, to: nat)
    requires from <= to
    ensures forall m: nat :: m in Between(from, to) <==> from <= m < to
  {
    forall m: nat | from <= m < to ensures m in Between(from, to) {
      assert Between(from, to)[m - from] == m;
    }
  }

  lemma ReadPartitioned(s: State, c: nat, count: nat)
    requires Partitioned(s) && Enabled(s, c, Read(count)) && count > 0
    ensures Partitioned(Next(s, c, Read(count)))
  {
    InBetween(FirstUnread(s), FirstUnread(s) + count);
    InBetween(s.delivered, FirstUnread(s));
  }

  lemma ReadCounted(s: State, c: nat, count: nat)
    requires Safe(s) && Enabled(s, c, Read(count)) && count > 0
    ensures DeliveriesCounted(Next(s, c, Read(count))) && s.sent <= Next(s, c, Read(count)).sent
  {
    var t := Next(s, c, Read(count));
    var batch := Batch(s, count);
    BatchOnce(batch, FirstUnread(s));
    forall m | m in t.pending ensures t.pending[m].deliveries == t.sent[m] {
      assert m in batch ==> m !in s.sent;
    }
  }

  lemma ReadTrimmed(s: State, c: nat, count: nat)
    requires Safe(s) && Enabled(s, c, Read(count)) && count > 0
    ensures TrimmedLate(Next(s, c, Read(count))) && AckedForAReason(Next(s, c, Read(count)))
  {
    InBetween(s.delivered, FirstUnread(s));
  }

  lemma ReadSafe(s: State, c: nat, count: nat)
    requires Safe(s) && Enabled(s, c, Read(count))
    ensures Safe(Next(s, c, Read(count)))
  {
    if count > 0 {
      var t := Next(s, c, Read(count));
      ReadPartitioned(s, c, count);
      ReadCounted(s, c, count);
      ReadTrimmed(s, c, count);
      ReadJustified(s, c, count);
    }
  }

  lemma ReadJustified(s: State, c: nat, count: nat)
    requires Safe(s) && Enabled(s, c, Read(count)) && count > 0 && s.sent <= Next(s, c, Read(count)).sent
    ensures Justified(Next(s, c, Read(count)))
  {
    var t := Next(s, c, Read(count));
    var batch := Batch(s, count);
    assert forall k :: 0 <= k < |batch| ==> batch[k] < t.delivered;
    assert t.hasData[..|s.hasData|] == s.hasData;
    OthersJustified(s, t, c);
  }

  // A trimmed message leaves the pending entries.
  lemma ForgetSafe(s: State, c: nat, stillIdle: bool)
    requires Safe(s) && Enabled(s, c, Claim(stillIdle)) && s.consumers[c].todo[0].0 < s.trimmed
    ensures Safe(Next(s, c, Claim(stillIdle)))
  {
    var t := Next(s, c, Claim(stillIdle));
    ForgetPartitioned(s, c, stillIdle);
    assert PcJustified(s, s.consumers[c]);
    TailJustified(s, s.consumers[c].todo);
    assert t.hasData[..|s.hasData|] == s.hasData;
    StillJustified(s, t, t.consumers[c]);
    OthersJustified(s, t, c);
  }

  lemma ForgetPartitioned(s: State, c: nat, stillIdle: bool)
    requires Safe(s) && Enabled(s, c, Claim(stillIdle)) && s.consumers[c].todo[0].0 < s.trimmed
    ensures var t := Next(s, c, Claim(stillIdle)); Partitioned(t) && TrimmedLate(t) && DeliveriesCounted(t)
  {
  }

  lemma TailJustified(s: State, todo: seq<(MessageId, nat)>)
    requires todo != [] && PcJustified(s, Scanning(todo))
    ensures PcJustified(s, Scanning(todo[1..]))
  {
    assert forall k :: 0 <= k < |todo[1..]| ==> todo[1..][k] == todo[k + 1];
  }

  lemma ClaimSafe(s: State, c: nat, stillIdle: bool)
    requires Safe(s) && Enabled(s, c, Claim(stillIdle))
    ensures Safe(Next(s, c, Claim(stillIdle)))
  {
    if s.consumers[c].todo[0].0 < s.trimmed {
      ForgetSafe(s, c, stillIdle);
    } else {
      var t := Next(s, c, Claim(stillIdle));
      assert PcJustified(s, s.consumers[c]);
      assert t.hasData[..|s.hasData|] == s.hasData;
      OthersJustified(s, t, c);
    }
  }

  // XACK of a message that may be acknowledged.
  lemma AcknowledgeSafe(s: State, c: nat, pc: Pc, msg: MessageId)
    requires Safe(s) && c < |s.consumers| && PcJustified(s, pc)
    requires msg < s.delivered && (s.hasData[msg] ==> msg in s.handled || msg in s.dead || msg < s.trimmed)
    ensures Safe(Acknowledge(Goto(s, c, pc), msg))
  {
    var t := Acknowledge(Goto(s, c, pc), msg);
    assert t.hasData[..|s.hasData|] == s.hasData;
    assert t.consumers[c] == pc;
    StillJustified(s, t, pc);
    OthersJustified(s, t, c);
  }

  lemma RecordSafe(s: State, c: nat)
    requires Safe(s) && Enabled(s, c, Command)
    requires s.consumers[c].Handling? || s.consumers[c].DeadRead? || s.consumers[c].DeadAdd?
    ensures Safe(Next(s, c, Command))
  {
    var t := Next(s, c, Command);
    assert PcJustified(s, s.consumers[c]);
    assert t.hasData[..|s.hasData|] == s.hasData;
    assert forall m :: m in s.dead ==> m in t.dead;
    OthersJustified(s, t, c);
  }

  lemma CommandSafe(s: State, c: nat)
    requires Safe(s) && Enabled(s, c, Command)
    ensures Safe(Next(s, c, Command))
  {
    var pc := s.consumers[c];
    assert PcJustified(s, pc);
    if pc.Acking? || pc.AckingEmpty? {
      ResumeJustified(s, pc.rest);
      AcknowledgeSafe(s, c, Resume(s, pc.rest), pc.msg);
    } else if pc.DeadAck? {
      AcknowledgeSafe(s, c, Scanning(pc.todo), pc.msg);
    } else {
      RecordSafe(s, c);
    }
  }

  lemma StepSafe(s: State, c: nat, a: Action)
    requires Safe(s) && Enabled(s, c, a)
    ensures Safe(Next(s, c, a))
  {
    match a
    case Publish(_, _) => PublishSafe(s, c, a);
    case Read(count) => ReadSafe(s, c, count);
    case Claim(stillIdle) => ClaimSafe(s, c, stillIdle);
    case Command => CommandSafe(s, c);
    case _ => LocalStepSafe(s, c, a);
  }

  lemma InitialSafe(s: State)
    requires Initial(s)
    ensures Safe(s)
  {
  }

  lemma {:induction false} RunSafe(s: State, run: seq<Event>)
    requires Safe(s) && ValidRun(s, run)
    ensures Safe(After(s, run))
    decreases |run|
  {
    if run != [] {
      StepSafe(s, run[0].c, run[0].action);
      RunSafe(Next(s, run[0].c, run[0].action), run[1..]);
    }
  }

  // ---------------------------------------------------------------- no silent loss

  function Count(b: bool): nat {
    if b then 1 else 0
  }

  // The message is gone from the stream, which takes MAX_LEN newer messages.
  predicate Outlived(s: State, m: MessageId) {
    m < s.trimmed && m + MAX_LEN < |s.hasData|
  }

  // In every run, with crashes, failing handlers, racing claimers and trimming, each
  // published message is in exactly one of undelivered, pending, acknowledged and lost by
  // trimming, before it was read or while it was pending; an acknowledged message with data
  // was handled completely in one delivery, or is a dead letter, or was trimmed as well; and
  // nothing is trimmed before MAX_LEN newer messages were published.
  lemma NoSilentLoss(s: State, run: seq<Event>, m: MessageId)
    requires Initial(s) && ValidRun(s, run) && m < |After(s, run).hasData|
    ensures var t := After(s, run);
            && Count(m >= t.delivered) + Count(m in t.pending) + Count(m in t.acked)
               + Count(m in t.skipped) + Count(m in t.forgotten) == 1
            && (m in t.skipped || m in t.forgotten ==> Outlived(t, m))
            && (m in t.acked && t.hasData[m] ==> m in t.handled || m in t.dead || Outlived(t, m))
            && (m in t.dead ==> MAX_RETRIES <= t.sent[m])
  {
    InitialSafe(s);
    RunSafe(s, run);
  }

  // The bus is at-least-once, not exactly-once: a consumer that crashes between its last
  // handler and XACK leaves the message to be handled again.
  lemma HandledTwice(s: State)
    requires Initial(s) && s.handlers == [1, 1]
    ensures exists run :: ValidRun(s, run) && After(s, run).handled[0] == 2
  {
    var s1 := Next(s, 0, Publish(true, 0));
    var s2 := Next(s1, 0, Read(1));
    assert Batch(s1, 1) == [0];
    var r2 := HandledThenCrashed(s2);
    var r1 := Prefixed(s1, 0, Read(1), r2);
    var r0 := Prefixed(s, 0, Publish(true, 0), r1);
  }

  // The first consumer handles the message and crashes before XACK.
  lemma HandledThenCrashed(s: State) returns (run: seq<Event>)
    requires s.handlers == [1, 1] && |s.consumers| == 2 && s.consumers[1].Looping?
    requires s.consumers[0].Handling? && s.consumers[0].msg == 0 && s.consumers[0].done == 0
    requires s.hasData == [true] && s.trimmed == 0 && s.pending == map[0 := PendingEntry(0, 1)] && s.handled[0] == 0
    ensures ValidRun(s, run) && After(s, run).handled[0] == 2
  {
    var s1 := Next(s, 0, HandlerOk);
    var s2 := Next(s1, 0, Command);
    var s3 := Next(s2, 0, Action.Crash);
    var r3 := HandledAgain(s3);
    var r2 := Prefixed(s2, 0, Action.Crash, r3);
    var r1 := Prefixed(s1, 0, Command, r2);
    run := Prefixed(s, 0, HandlerOk, r1);
  }

  // Another consumer claims the first message and handles it.
  lemma HandledAgain(s: State) returns (run: seq<Event>)
    requires s.handlers == [1, 1] && |s.consumers| == 2 && s.consumers[1].Looping?
    requires s.hasData == [true] && s.trimmed == 0 && s.pending == map[0 := PendingEntry(0, 1)] && s.handled[0] == 1
    ensures ValidRun(s, run) && After(s, run).handled[0] == 2
  {
    var s1 := Next(s, 1, Scan([(0, 1)]));
    var s2 := Next(s1, 1, Claim(true));
    assert s1.consumers[1].todo[1..] == [];
    run := ClaimedHandled(s2);
    run := Prefixed(s1, 1, Claim(true), run);
    run := Prefixed(s, 1, Scan([(0, 1)]), run);
  }

  lemma ClaimedHandled(s: State) returns (run: seq<Event>)
    requires s.handlers == [1, 1] && |s.consumers| == 2 && s.consumers[1] == Handling(0, 0, RestOfScan([]))
    requires s.handled[0] == 1
    ensures ValidRun(s, run) && After(s, run).handled[0] == 2
  {
    var s1 := Next(s, 1, HandlerOk);
    run := Prefixed(s1, 1, Command, []);
    run := Prefixed(s, 1, HandlerOk, run);
  }

  // A run with one more event in front.
  lemma Prefixed(s: State, c: nat, a: Action, rest: seq<Event>) returns (run: seq<Event>)
    requires Enabled(s, c, a) && ValidRun(Next(s, c, a), rest)
    ensures ValidRun(s, run) && After(s, run) == After(Next(s, c, a), rest)
  {
    run := [Event(c, a)] + rest;
    assert run[1..] == rest;
  }
}
