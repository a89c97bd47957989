// What the calls of a consumer achieve when nobody comes in between: a batch that is read
// is handled and acknowledged, a claimed message too, and an exhausted one becomes a dead
// letter.
module StreamCalls {
  import opened Sequences
  import opened StreamBus

  // The run of one consumer.
  function Doing(c: nat, actions: seq<Action>): (run: seq<Event>)
    ensures |run| == |actions|
  {
    if actions == [] then [] else [Event(c, actions[0])] + Doing(c, actions[1..])
  }

  predicate Ends(s: State, c: nat, actions: seq<Action>, t: State) {
    ValidRun(s, Doing(c, actions)) && After(s, Doing(c, actions)) == t
  }

  lemma Done(s: State, c: nat)
    ensures Ends(s, c, [], s)
  {
  }

  lemma Do(s: State, c: nat, a: Action, rest: seq<Action>, t: State)
    requires Enabled(s, c, a) && Ends(Next(s, c, a), c, rest, t)
    ensures Ends(s, c, [a] + rest, t)
  {
    assert ([a] + rest)[1..] == rest;
    var run := Doing(c, [a] + rest);
    assert run[1..] == Doing(c, rest);
  }

  lemma {:induction false} Join(s: State, c: nat, a: seq<Action>, b: seq<Action>, t: State, u: State)
    requires Ends(s, c, a, t) && Ends(t, c, b, u)
    ensures Ends(s, c, a + b, u)
    decreases |a|
  {
    if a == [] {
      assert a + b == b;
    } else {
      var run := Doing(c, a);
      assert run[1..] == Doing(c, a[1..]);
      Join(Next(s, c, a[0]), c, a[1..], b, t, u);
      Do(s, c, a[0], a[1..] + b, u);
      HeadAndTail(a);
      Associative([a[0]], a[1..], b);
    }
  }

  // ---------------------------------------------------------------- dead letters

  function DeadLetterCall(s: State, msg: MessageId): seq<Action> {
    if s.trimmed <= msg then [ToDeadLetter] + ([Command] + ([Command] + ([Command] + [])))
    else [ToDeadLetter] + ([Command] + ([Command] + []))
  }

  // _move_to_dead_letter of a message whose deliveries are used up: it ends acknowledged and
  // no longer pending, one copy is added to the dead letters if and only if the stream still
  // holds it, and the consumer goes on with the rest of its scan.
  lemma DeadLetterAlone(s: State, c: nat)
    requires Safe(s) && |s.handlers| == |s.consumers| && c < |s.consumers| && s.consumers[c].Scanning?
    requires s.consumers[c].todo != [] && s.consumers[c].todo[0].1 >= MAX_RETRIES
    requires s.consumers[c].todo[0].0 in s.pending
    ensures var todo := s.consumers[c].todo;
            var msg := todo[0].0;
            Ends(s, c, DeadLetterCall(s, msg),
              s.(pending := s.pending - {msg}, acked := s.acked + {msg},
                 dead := if s.trimmed <= msg then s.dead + [msg] else s.dead,
                 consumers := s.consumers[c := Scanning(todo[1..])]))
  {
    var todo := s.consumers[c].todo;
    var msg, rest := todo[0].0, todo[1..];
    var s1 := Goto(s, c, DeadRead(msg, rest));
    var t := s.(pending := s.pending - {msg}, acked := s.acked + {msg},
                dead := if s.trimmed <= msg then s.dead + [msg] else s.dead,
                consumers := s.consumers[c := Scanning(rest)]);
    assert s1.consumers[c := Scanning(rest)] == s.consumers[c := Scanning(rest)];
    if s.trimmed <= msg {
      CopiedAlone(s1, c);
      Do(s, c, ToDeadLetter, [Command] + ([Command] + ([Command] + [])), t);
    } else {
      MissedAlone(s1, c);
      Do(s, c, ToDeadLetter, [Command] + ([Command] + []), t);
    }
  }

  // XRANGE finds the message: XADD, XACK.
  lemma CopiedAlone(s: State, c: nat)
    requires |s.handlers| == |s.consumers| && c < |s.consumers| && s.consumers[c].DeadRead?
    requires s.trimmed <= s.consumers[c].msg && s.consumers[c].msg in s.pending
    ensures var msg := s.consumers[c].msg;
            Ends(s, c, [Command] + ([Command] + ([Command] + [])),
              s.(pending := s.pending - {msg}, acked := s.acked + {msg}, dead := s.dead + [msg],
                 consumers := s.consumers[c := Scanning(s.consumers[c].todo)]))
  {
    var DeadRead(msg, todo) := s.consumers[c];
    var s1 := Goto(s, c, DeadAdd(msg, todo));
    var s2 := Goto(s, c, DeadAck(msg, todo)).(dead := s.dead + [msg]);
    assert Next(s, c, Command) == s1;
    assert s1.consumers[c := DeadAck(msg, todo)] == s.consumers[c := DeadAck(msg, todo)];
    assert Next(s1, c, Command) == s2;
    DeadAckAlone(s2, c);
    assert s2.consumers[c := Scanning(todo)] == s.consumers[c := Scanning(todo)];
    Do(s1, c, Command, [Command] + [], Next(s2, c, Command));
    Do(s, c, Command, [Command] + ([Command] + []), Next(s2, c, Command));
  }

  // XRANGE finds nothing: XACK only.
  lemma MissedAlone(s: State, c: nat)
    requires |s.handlers| == |s.consumers| && c < |s.consumers| && s.consumers[c].DeadRead?
    requires s.trimmed > s.consumers[c].msg && s.consumers[c].msg in s.pending
    ensures var msg := s.consumers[c].msg;
            Ends(s, c, [Command] + ([Command] + []),
              s.(pending := s.pending - {msg}, acked := s.acked + {msg},
                 consumers := s.consumers[c := Scanning(s.consumers[c].todo)]))
  {
    var DeadRead(msg, todo) := s.consumers[c];
    var s1 := Goto(s, c, DeadAck(msg, todo));
    assert Next(s, c, Command) == s1;
    DeadAckAlone(s1, c);
    assert s1.consumers[c := Scanning(todo)] == s.consumers[c := Scanning(todo)];
    Do(s, c, Command, [Command] + [], Next(s1, c, Command));
  }

  lemma DeadAckAlone(s: State, c: nat)
    requires |s.handlers| == |s.consumers| && c < |s.consumers| && s.consumers[c].DeadAck?
    requires s.consumers[c].msg in s.pending
    ensures Enabled(s, c, Command) && Ends(s, c, [Command] + [], Next(s, c, Command))
    ensures var msg := s.consumers[c].msg;
            Next(s, c, Command)
            == s.(pending := s.pending - {msg}, acked := s.acked + {msg},
                  consumers := s.consumers[c := Scanning(s.consumers[c].todo)])
  {
    Done(Next(s, c, Command), c);
    Do(s, c, Command, [], Next(s, c, Command));
  }

  // ---------------------------------------------------------------- one message

  function Repeat(n: nat): seq<Action> {
    if n == 0 then [Command] + ([Command] + []) else [HandlerOk] + Repeat(n - 1)
  }

  // What _process_message does from where it stands, when every handler succeeds.
  function ProcessCall(s: State, c: nat): seq<Action>
    requires c < |s.consumers| == |s.handlers|
  {
    match s.consumers[c]
    case Handling(_, done, _) => Repeat(if done <= s.handlers[c] then s.handlers[c] - done else 0)
    case _ => [Command] + []
  }

  predicate Processing(s: State, c: nat) {
    && c < |s.consumers| == |s.handlers|
    && (s.consumers[c].Handling? || s.consumers[c].AckingEmpty?) && s.consumers[c].msg in s.pending
    && (s.consumers[c].Handling? ==> s.consumers[c].done <= s.handlers[c])
  }

  // Acknowledged, and handled unless it had no data.
  function Processed(s: State, c: nat): State
    requires Processing(s, c)
  {
    var pc := s.consumers[c];
    s.(pending := s.pending - {pc.msg}, acked := s.acked + {pc.msg},
       handled := if pc.Handling? then s.handled + multiset{pc.msg} else s.handled,
       consumers := s.consumers[c := Resume(s, pc.rest)])
  }

  // A message whose handlers all succeed is handled once more, acknowledged and no longer
  // pending; one without data is acknowledged at once.
  lemma {:induction false} ProcessAlone(s: State, c: nat)
    requires Processing(s, c)
    ensures Ends(s, c, ProcessCall(s, c), Processed(s, c))
    decreases if s.consumers[c].Handling? then s.handlers[c] - s.consumers[c].done else 0
  {
    var pc := s.consumers[c];
    if pc.AckingEmpty? {
      Done(Next(s, c, Command), c);
      Do(s, c, Command, [], Next(s, c, Command));
    } else if pc.done == s.handlers[c] {
      AckAlone(s, c);
    } else {
      var t := Next(s, c, HandlerOk);
      ProcessAlone(t, c);
      assert Processed(t, c) == Processed(s, c) by {
        assert t.consumers[c := Resume(s, pc.rest)] == s.consumers[c := Resume(s, pc.rest)];
      }
      Do(s, c, HandlerOk, ProcessCall(t, c), Processed(s, c));
    }
  }

  lemma AckAlone(s: State, c: nat)
    requires Processing(s, c) && s.consumers[c].Handling? && s.consumers[c].done == s.handlers[c]
    ensures Ends(s, c, [Command] + ([Command] + []), Processed(s, c))
  {
    var pc := s.consumers[c];
    var s1 := Next(s, c, Command);
    var s2 := Next(s1, c, Command);
    assert s1.consumers[c := Resume(s, pc.rest)] == s.consumers[c := Resume(s, pc.rest)];
    assert s2 == Processed(s, c);
    Done(s2, c);
    Do(s1, c, Command, [], s2);
    Do(s, c, Command, [Command] + [], s2);
  }

  // ---------------------------------------------------------------- a claimed message

  // XCLAIM of a message that is still idle and in the stream hands it to this consumer, which
  // then handles it; one that was trimmed leaves the pending entries, and one that somebody
  // else has acknowledged or taken is passed over.
  lemma ClaimAlone(s: State, c: nat, stillIdle: bool)
    requires Safe(s) && Enabled(s, c, Claim(stillIdle))
    ensures var todo := s.consumers[c].todo;
            var msg := todo[0].0;
            var t := Next(s, c, Claim(stillIdle));
            if msg in s.pending && msg < s.trimmed then
              && t.consumers[c] == Scanning(todo[1..]) && t.pending == s.pending - {msg}
              && t.forgotten == s.forgotten + {msg} && t.sent == s.sent
            else if msg in s.pending && stillIdle then
              && Processing(t, c) && t.consumers[c].msg == msg && t.consumers[c].rest == RestOfScan(todo[1..])
              && t.consumers[c].Handling? == s.hasData[msg] && (t.consumers[c].Handling? ==> t.consumers[c].done == 0)
              && t.pending[msg].consumer == c && t.pending[msg].deliveries == s.pending[msg].deliveries + 1
              && t.pending.Keys == s.pending.Keys
            else
              t == s.(consumers := s.consumers[c := Scanning(todo[1..])])
  {
    assert PcJustified(s, s.consumers[c]);
  }

  lemma EndScanAlone(s: State, c: nat)
    requires Enabled(s, c, EndScan)
    ensures Next(s, c, EndScan) == s.(consumers := s.consumers[c := Looping])
  {
  }

  // ---------------------------------------------------------------- a batch

  // A read takes up to ten of the unread messages, and a scan looks at up to ten of the
  // pending ones.
  lemma TenAtATime(s: State, c: nat, count: nat, entries: seq<(MessageId, nat)>)
    requires c < |s.consumers| == |s.handlers| && s.consumers[c].Looping?
    requires FirstUnread(s) + count <= |s.hasData|
    requires forall k :: 0 <= k < |entries| ==>
               entries[k].0 in s.pending && s.pending[entries[k].0].deliveries == entries[k].1
    ensures Enabled(s, c, Read(count)) <==> count <= 10
    ensures Enabled(s, c, Scan(entries)) <==> |entries| <= 10
  {
  }

  // The messages of a batch in a state where the consumer has just started on them.
  predicate OnBatch(s: State, c: nat, batch: seq<MessageId>) {
    && c < |s.consumers| == |s.handlers| && s.consumers[c] == NextInBatch(s, batch)
    && (forall k :: 0 <= k < |batch| ==> batch[k] in s.pending && batch[k] < |s.hasData|)
    && (forall j, k :: 0 <= j < k < |batch| ==> batch[j] != batch[k])
  }

  function WithData(s: State, batch: seq<MessageId>): multiset<MessageId>
    requires forall k :: 0 <= k < |batch| ==> batch[k] < |s.hasData|
  {
    if batch == [] then multiset{}
    else (if s.hasData[batch[0]] then multiset{batch[0]} else multiset{}) + WithData(s, batch[1..])
  }

  function AllProcessed(s: State, c: nat, batch: seq<MessageId>): State
    requires c < |s.consumers| && forall k :: 0 <= k < |batch| ==> batch[k] < |s.hasData|
  {
    s.(pending := s.pending - (set m | m in batch), acked := s.acked + (set m | m in batch),
       handled := s.handled + WithData(s, batch), consumers := s.consumers[c := Looping])
  }

  ghost predicate CanEnd(s: State, c: nat, t: State) {
    exists actions :: Ends(s, c, actions, t)
  }

  lemma BatchSet(batch: seq<MessageId>)
    requires batch != []
    ensures (set m | m in batch) == {batch[0]} + set m | m in batch[1..]
  {
    assert batch == [batch[0]] + batch[1..];
  }

  // The rest of the batch after its first message.
  lemma FirstProcessed(s: State, c: nat, batch: seq<MessageId>)
    requires OnBatch(s, c, batch) && batch != []
    ensures Processing(s, c) && s.consumers[c].msg == batch[0]
    ensures OnBatch(Processed(s, c), c, batch[1..])
  {
    assert forall k :: 0 <= k < |batch[1..]| ==> batch[1..][k] == batch[k + 1];
  }

  lemma ProcessedFirst(s: State, c: nat, batch: seq<MessageId>)
    requires OnBatch(s, c, batch) && batch != [] && Processing(s, c) && s.consumers[c].msg == batch[0]
    requires forall k :: 0 <= k < |batch[1..]| ==> batch[1..][k] < |s.hasData|
    ensures AllProcessed(Processed(s, c), c, batch[1..]) == AllProcessed(s, c, batch)
  {
    var t := Processed(s, c);
    var now, rest := set m | m in batch, set m | m in batch[1..];
    BatchSet(batch);
    SameData(s, t, batch[1..]);
    SplitSets(s.pending, s.acked, batch[0], rest);
    assert t.pending - rest == s.pending - now && t.acked + rest == s.acked + now;
    assert t.consumers[c := Looping] == s.consumers[c := Looping];
    assert t.handled + WithData(t, batch[1..]) == s.handled + WithData(s, batch);
  }

  lemma SplitSets(pending: map<MessageId, Pending>, acked: set<MessageId>, m: MessageId, rest: set<MessageId>)
    ensures pending - {m} - rest == pending - ({m} + rest) && acked + {m} + rest == acked + ({m} + rest)
  {
  }

  lemma {:induction false} SameData(s: State, t: State, batch: seq<MessageId>)
    requires t.hasData == s.hasData && forall k :: 0 <= k < |batch| ==> batch[k] < |s.hasData|
    ensures WithData(t, batch) == WithData(s, batch)
  {
    if batch != [] {
      SameData(s, t, batch[1..]);
    }
  }

  lemma {:induction false} BatchAlone(s: State, c: nat, batch: seq<MessageId>)
    requires OnBatch(s, c, batch)
    ensures CanEnd(s, c, AllProcessed(s, c, batch))
    decreases |batch|
  {
    if batch == [] {
      Done(s, c);
      assert s.consumers[c := Looping] == s.consumers && s.pending - {} == s.pending && s.acked + {} == s.acked;
      assert (set m | m in batch) == {} && s.handled + multiset{} == s.handled;
      assert AllProcessed(s, c, batch) == s;
    } else {
      FirstProcessed(s, c, batch);
      ProcessedFirst(s, c, batch);
      var t := Processed(s, c);
      ProcessAlone(s, c);
      BatchAlone(t, c, batch[1..]);
      var rest :| Ends(t, c, rest, AllProcessed(s, c, batch));
      Join(s, c, ProcessCall(s, c), rest, t, AllProcessed(s, c, batch));
    }
  }

  // A turn of the consume loop that nobody interrupts and in which every handler succeeds:
  // the next messages of the stream are delivered to this consumer, every one that has data
  // is handled once, all are acknowledged, and nothing else changes.
  lemma ReadAlone(s: State, c: nat, count: nat)
    requires Safe(s) && Enabled(s, c, Read(count)) && count > 0
    ensures var batch := Batch(s, count);
            && (forall k :: 0 <= k < |batch| ==> batch[k] < |s.hasData|)
            && var t := AllProcessed(Next(s, c, Read(count)), c, batch);
            && CanEnd(s, c, t)
            && t.pending == s.pending && t.acked == s.acked + (set m | m in batch)
            && t.handled == s.handled + WithData(s, batch) && t.delivered == FirstUnread(s) + count
            && t.consumers == s.consumers[c := Looping] && t.dead == s.dead && t.hasData == s.hasData
  {
    ReadStarts(s, c, count);
    ReadEnds(s, c, count);
    ReadLeaves(s, c, count);
  }

  lemma ReadEnds(s: State, c: nat, count: nat)
    requires Enabled(s, c, Read(count)) && OnBatch(Next(s, c, Read(count)), c, Batch(s, count))
    ensures CanEnd(s, c, AllProcessed(Next(s, c, Read(count)), c, Batch(s, count)))
  {
    var s1 := Next(s, c, Read(count));
    var t := AllProcessed(s1, c, Batch(s, count));
    BatchAlone(s1, c, Batch(s, count));
    var rest :| Ends(s1, c, rest, t);
    Do(s, c, Read(count), rest, t);
  }

  lemma ReadLeaves(s: State, c: nat, count: nat)
    requires Safe(s) && Enabled(s, c, Read(count)) && count > 0
    requires OnBatch(Next(s, c, Read(count)), c, Batch(s, count))
    ensures var t := AllProcessed(Next(s, c, Read(count)), c, Batch(s, count));
            && t.pending == s.pending && t.handled == s.handled + WithData(s, Batch(s, count))
            && t.consumers == s.consumers[c := Looping]
  {
    var s1 := Next(s, c, Read(count));
    SameData(s, s1, Batch(s, count));
    BatchLeavesPending(s, c, Batch(s, count));
    assert s1.consumers[c := Looping] == s.consumers[c := Looping];
  }

  lemma ReadStarts(s: State, c: nat, count: nat)
    requires Enabled(s, c, Read(count)) && count > 0
    ensures OnBatch(Next(s, c, Read(count)), c, Batch(s, count))
  {
    var batch, t := Batch(s, count), Next(s, c, Read(count));
    assert t.consumers[c] == NextInBatch(s, batch) == NextInBatch(t, batch);
    assert forall k :: 0 <= k < |batch| ==> batch[k] in batch;
  }

  // What was added to the pending entries is taken out again.
  lemma BatchLeavesPending(s: State, c: nat, batch: seq<MessageId>)
    requires forall m :: m in batch ==> m !in s.pending
    ensures (s.pending + map m | m in batch :: PendingEntry(c, 1)) - (set m | m in batch) == s.pending
  {
  }
}
