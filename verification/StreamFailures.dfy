// What becomes of messages whose processing fails: they are delivered again until their
// deliveries are used up, and then they are dead letters.
module StreamFailures {
  import opened StreamBus
  import opened StreamCalls

  // ---------------------------------------------------------------- a message that always fails

  // A consumer at the top of its loop, and a message with data that the stream still holds
  // and nobody has acknowledged.
  predicate Unacknowledged(s: State, c: nat, msg: MessageId) {
    && c < |s.consumers| == |s.handlers| && s.consumers[c].Looping?
    && msg in s.pending && s.trimmed <= msg < |s.hasData| && s.hasData[msg]
  }

  const NOTHING: seq<(MessageId, nat)> := []

  // One turn of the loop finds the message idle, claims it, and its processing raises.
  function FailingTurn(msg: MessageId, deliveries: nat): seq<Action> {
    [Scan([(msg, deliveries)])] + ([Claim(true)] + ([ProcessingFails] + ([EndScan] + [])))
  }

  function Redelivered(s: State, c: nat, msg: MessageId): State
    requires msg in s.pending
  {
    s.(pending := s.pending[msg := PendingEntry(c, s.pending[msg].deliveries + 1)], sent := s.sent + multiset{msg})
  }

  lemma FailingTurnAlone(s: State, c: nat, msg: MessageId)
    requires Unacknowledged(s, c, msg) && s.pending[msg].deliveries < 3
    ensures Ends(s, c, FailingTurn(msg, s.pending[msg].deliveries), Redelivered(s, c, msg))
  {
    var entry: (MessageId, nat) := (msg, s.pending[msg].deliveries);
    var t := Redelivered(s, c, msg);
    var s1 := Goto(s, c, Scanning([entry]));
    var s2 := Goto(t, c, Handling(msg, 0, RestOfScan(NOTHING)));
    var s3 := Goto(t, c, Scanning(NOTHING));
    assert [entry][1..] == NOTHING;
    assert Next(s, c, Scan([entry])) == s1;
    MovedTwice(s, c, Scanning([entry]), Handling(msg, 0, RestOfScan(NOTHING)));
    assert Next(s1, c, Claim(true)) == s2;
    MovedTwice(s, c, Handling(msg, 0, RestOfScan(NOTHING)), Scanning(NOTHING));
    assert Next(s2, c, ProcessingFails) == s3;
    BackToLooping(s, c, Scanning(NOTHING));
    assert Next(s3, c, EndScan) == t;
    Done(t, c);
    Do(s3, c, EndScan, [], t);
    Do(s2, c, ProcessingFails, [EndScan] + [], t);
    Do(s1, c, Claim(true), [ProcessingFails] + ([EndScan] + []), t);
    Do(s, c, Scan([entry]), [Claim(true)] + ([ProcessingFails] + ([EndScan] + [])), t);
  }

  lemma MovedTwice(s: State, c: nat, first: Pc, second: Pc)
    requires c < |s.consumers|
    ensures s.consumers[c := first][c := second] == s.consumers[c := second]
  {
  }

  lemma BackToLooping(s: State, c: nat, pc: Pc)
    requires c < |s.consumers| && s.consumers[c].Looping?
    ensures s.consumers[c := pc][c := Looping] == s.consumers
  {
  }

  // The turn that finds the deliveries used up.
  function LastTurn(msg: MessageId, deliveries: nat): seq<Action> {
    [Scan([(msg, deliveries)])] + (([ToDeadLetter] + ([Command] + ([Command] + ([Command] + [])))) + ([EndScan] + []))
  }

  function DeadLettered(s: State, msg: MessageId): State {
    s.(pending := s.pending - {msg}, acked := s.acked + {msg}, dead := s.dead + [msg])
  }

  lemma LastTurnAlone(s: State, c: nat, msg: MessageId)
    requires Safe(s) && Unacknowledged(s, c, msg) && s.pending[msg].deliveries >= 3
    ensures Ends(s, c, LastTurn(msg, s.pending[msg].deliveries), DeadLettered(s, msg))
  {
    var entry: (MessageId, nat) := (msg, s.pending[msg].deliveries);
    var s1 := Next(s, c, Scan([entry]));
    var s2 := Goto(DeadLettered(s, msg), c, Scanning(NOTHING));
    StepSafe(s, c, Scan([entry]));
    DeadLetterAlone(s1, c);
    assert [entry][1..] == NOTHING;
    MovedTwice(s, c, Scanning([entry]), Scanning(NOTHING));
    assert Ends(s1, c, DeadLetterCall(s1, msg), s2);
    BackToLooping(s, c, Scanning(NOTHING));
    assert Next(s2, c, EndScan) == DeadLettered(s, msg);
    Done(DeadLettered(s, msg), c);
    Do(s2, c, EndScan, [], DeadLettered(s, msg));
    Join(s1, c, DeadLetterCall(s1, msg), [EndScan] + [], s2, DeadLettered(s, msg));
    Do(s, c, Scan([entry]), DeadLetterCall(s1, msg) + ([EndScan] + []), DeadLettered(s, msg));
  }

  function Turns(msg: MessageId, deliveries: nat): seq<Action>
    decreases if deliveries < 3 then 3 - deliveries else 0
  {
    if deliveries < 3 then FailingTurn(msg, deliveries) + Turns(msg, deliveries + 1) else LastTurn(msg, deliveries)
  }

  // A message whose processing fails every time is delivered until it has had three
  // deliveries, no more and no less, and then ends as a dead letter: acknowledged, no longer
  // pending, and never counted as handled.
  lemma {:induction false} FailingMessageDies(s: State, c: nat, msg: MessageId)
    requires Safe(s) && Unacknowledged(s, c, msg) && s.pending[msg].deliveries <= 3
    ensures Ends(s, c, Turns(msg, s.pending[msg].deliveries),
              DeadLettered(s, msg).(sent := s.sent[msg := 3]))
    decreases 3 - s.pending[msg].deliveries
  {
    var d := s.pending[msg].deliveries;
    assert s.sent[msg] == d;
    if d == 3 {
      LastTurnAlone(s, c, msg);
      assert s.sent[msg := 3] == s.sent;
    } else {
      var t := Redelivered(s, c, msg);
      FailingTurnAlone(s, c, msg);
      EndsSafe(s, c, FailingTurn(msg, d), t);
      FailingMessageDies(t, c, msg);
      assert t.pending - {msg} == s.pending - {msg};
      assert t.sent[msg := 3] == s.sent[msg := 3];
      Join(s, c, FailingTurn(msg, d), Turns(msg, d + 1), t, DeadLettered(s, msg).(sent := s.sent[msg := 3]));
    }
  }

  lemma EndsSafe(s: State, c: nat, actions: seq<Action>, t: State)
    requires Safe(s) && Ends(s, c, actions, t)
    ensures Safe(t)
  {
    RunSafe(s, Doing(c, actions));
  }

  // ---------------------------------------------------------------- other failures

  // When processing fails, the message stays pending as it was, and the consumer goes on with
  // the next message of its batch or of its scan.
  lemma FailureGoesOn(s: State, c: nat)
    requires WithinBatch(s, c) && Enabled(s, c, ProcessingFails)
    ensures var t := Next(s, c, ProcessingFails);
            t == s.(consumers := t.consumers) && t.consumers == s.consumers[c := t.consumers[c]]
    ensures var rest, t := s.consumers[c].rest, Next(s, c, ProcessingFails);
            match rest
            case RestOfScan(todo) => t.consumers[c] == Scanning(todo)
            case RestOfBatch(batch) =>
              if batch == [] then t.consumers[c].Looping?
              else
                && (t.consumers[c].Handling? || t.consumers[c].AckingEmpty?)
                && t.consumers[c].msg == batch[0] && t.consumers[c].rest == RestOfBatch(batch[1..])
  {
  }

  predicate WithinBatch(s: State, c: nat) {
    c < |s.consumers| && (s.consumers[c].Handling? || s.consumers[c].Acking? || s.consumers[c].AckingEmpty?)
  }

  // A message that is not idle long enough, or whose move to the dead letters raises, is
  // passed over and stays pending.
  lemma PassedOver(s: State, c: nat)
    ensures Enabled(s, c, SkipEntry) ==>
              Next(s, c, SkipEntry) == s.(consumers := s.consumers[c := Scanning(s.consumers[c].todo[1..])])
    ensures Enabled(s, c, DeadLetterFails) ==>
              Next(s, c, DeadLetterFails) == s.(consumers := s.consumers[c := Scanning(s.consumers[c].todo)])
  {
  }

  // Whatever a consumer was doing, a crash or an error that ends its turn loses nothing.
  lemma EndedTurnLosesNothing(s: State, c: nat, a: Action)
    requires Enabled(s, c, a) && (a.Abort? || a.Crash?)
    ensures Next(s, c, a) == s.(consumers := s.consumers[c := if a.Abort? then Looping else Crashed])
  {
  }

  // A new message is the last of the stream, and at most what a hundred thousand newer ones
  // have pushed out is gone.
  lemma PublishedIsLast(s: State, c: nat, withData: bool, trim: nat)
    requires Safe(s) && Enabled(s, c, Publish(withData, trim))
    ensures var t := Next(s, c, Publish(withData, trim));
            && t == s.(hasData := s.hasData + [withData], trimmed := trim) && s.trimmed <= t.trimmed
            && (t.trimmed > 0 ==> t.trimmed + 100000 <= |t.hasData|)
  {
  }
}
