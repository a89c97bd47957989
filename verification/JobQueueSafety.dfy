// Safety of the job queue in every interleaving: a job is in at most one place, with at
// most one owner, and nothing is being processed without an owner.
module JobQueueSafety {
  import opened Wrappers
  import opened JobQueue

  predicate OneHolder(s: State) {
    forall p, q :: 0 <= p < q < |s.procs| && Holder(s.procs[p]).Some? ==> Holder(s.procs[p]) != Holder(s.procs[q])
  }

  predicate Held(s: State, id: Id) {
    exists p :: 0 <= p < |s.procs| && Holder(s.procs[p]) == Some(id)
  }

  // Pending, dead letters and the owners do not share ids.
  predicate Separate(s: State) {
    && NoRepeat(s.pending) && NoRepeat(s.dlq) && NoRepeat(s.processing)
    && (forall id :: id in s.pending ==> id !in s.dlq && id !in s.processing)
    && (forall id :: id in s.dlq ==> id !in s.processing)
    && (forall p :: 0 <= p < |s.procs| && Holder(s.procs[p]).Some? ==>
          Holder(s.procs[p]).value !in s.pending && Holder(s.procs[p]).value !in s.dlq)
  }

  // Before queueing and after LREM an owned id is not in processing.
  predicate Unlisted(pc: Pc) {
    pc.Submitting? || pc.Submitted? || pc.FailSet? || pc.FailPush?
  }

  predicate OffList(s: State) {
    forall p :: 0 <= p < |s.procs| && Unlisted(s.procs[p]) ==> s.procs[p].id !in s.processing
  }

  predicate Known(s: State) {
    && (forall id :: id in s.pending ==> id in s.used)
    && (forall id :: id in s.processing ==> id in s.used)
    && (forall id :: id in s.dlq ==> id in s.used)
    && (forall p :: 0 <= p < |s.procs| && Holder(s.procs[p]).Some? ==> Holder(s.procs[p]).value in s.used)
  }

  // A queued or owned id has its record unless the record expired once.
  predicate Recorded(s: State) {
    && (forall id :: id in s.pending ==> id in s.jobs || id in s.expired)
    && (forall p :: 0 <= p < |s.procs| && Holder(s.procs[p]).Some? && !s.procs[p].Submitting? && !s.procs[p].Crashed? ==>
          Holder(s.procs[p]).value in s.jobs || Holder(s.procs[p]).value in s.expired)
  }

  predicate Attended(s: State) {
    forall id :: id in s.processing ==> id in s.expired || Held(s, id)
  }

  // PoppedGone is reached only when the record was gone.
  predicate GoneExpired(s: State) {
    forall p :: 0 <= p < |s.procs| && s.procs[p].PoppedGone? ==> s.procs[p].id in s.expired
  }

  predicate Safe(s: State) {
    && OneHolder(s) && Separate(s) && OffList(s) && Known(s) && Recorded(s) && Attended(s) && GoneExpired(s)
  }

  // ---------------------------------------------------------------- one step

  // The holders before and after a process moves on.
  lemma HoldersAfter(s: State, t: State, p: nat)
    requires p < |s.procs| && |t.procs| == |s.procs| && t.procs == s.procs[p := t.procs[p]]
    requires OneHolder(s)
    requires Holder(t.procs[p]).Some? ==>
               Holder(t.procs[p]) == Holder(s.procs[p]) || !Held(s, Holder(t.procs[p]).value)
    ensures OneHolder(t)
    ensures forall id :: Held(s, id) && (Holder(s.procs[p]) == Some(id) ==> Holder(t.procs[p]) == Some(id)) ==> Held(t, id)
  {
    forall q, r | 0 <= q < r < |t.procs| && Holder(t.procs[q]).Some? ensures Holder(t.procs[q]) != Holder(t.procs[r]) {
      if q == p || r == p {
        var other := if q == p then r else q;
        assert t.procs[other] == s.procs[other];
      }
    }
    forall id | Held(s, id) && (Holder(s.procs[p]) == Some(id) ==> Holder(t.procs[p]) == Some(id)) ensures Held(t, id) {
      var q :| 0 <= q < |s.procs| && Holder(s.procs[q]) == Some(id);
      assert Holder(t.procs[q]) == Some(id);
    }
  }

  lemma SubmitSafe(s: State, p: nat, id: Id, maxRetries: int)
    requires Safe(s) && Enabled(s, p, StartSubmit(id, maxRetries))
    ensures Safe(Next(s, p, StartSubmit(id, maxRetries)))
  {
    HoldersAfter(s, Next(s, p, StartSubmit(id, maxRetries)), p);
  }

  lemma ClaimSafe(s: State, p: nat)
    requires Safe(s) && Enabled(s, p, StartClaim)
    ensures Safe(Next(s, p, StartClaim))
  {
    var t := Next(s, p, StartClaim);
    var id := s.pending[|s.pending| - 1];
    assert id in s.pending && id !in t.pending;
    assert !Held(s, id);
    HoldersAfter(s, t, p);
    assert Holder(t.procs[p]) == Some(id);
  }

  // A process gets no new job, and the lists only shrink.
  predicate Quiet(s: State, t: State, p: nat) {
    && p < |s.procs| && |t.procs| == |s.procs| && t.procs == s.procs[p := t.procs[p]]
    && (Holder(t.procs[p]).Some? ==> Holder(t.procs[p]) == Holder(s.procs[p]))
    && t.used == s.used && t.expired == s.expired && t.dlq == s.dlq
    && NoRepeat(t.pending) && NoRepeat(t.processing)
    && (forall id :: id in t.pending ==> id in s.pending)
    && (forall id :: id in t.processing ==> id in s.processing)
    && (forall id :: id in s.jobs ==> id in t.jobs)
    && (Holder(s.procs[p]).Some? && Holder(t.procs[p]).None? ==>
          Holder(s.procs[p]).value !in t.processing || Holder(s.procs[p]).value in s.expired)
    && (Unlisted(t.procs[p]) ==> t.procs[p].id !in t.processing)
    && (t.procs[p].PoppedGone? ==> t.procs[p].id in s.expired)
    && (Holder(t.procs[p]).Some? && !t.procs[p].Submitting? && !t.procs[p].Crashed? ==>
          Holder(t.procs[p]).value in t.jobs || Holder(t.procs[p]).value in s.expired)
  }

  lemma QuietSafe(s: State, t: State, p: nat)
    requires Safe(s) && Quiet(s, t, p)
    ensures Safe(t)
  {
    HoldersAfter(s, t, p);
    forall q | 0 <= q < |t.procs| && Holder(t.procs[q]).Some?
      ensures Holder(t.procs[q]).value in s.used && Holder(t.procs[q]).value !in s.pending && Holder(t.procs[q]).value !in s.dlq
    {
      assert q != p ==> t.procs[q] == s.procs[q];
    }
    assert Attended(t);
    assert Recorded(t);
  }

  // Commands that leave the three lists alone.
  predicate ListFree(s: State, p: nat, a: Action)
    requires Enabled(s, p, a)
  {
    match a
    case StartSubmit(_, _) => false
    case StartClaim => false
    case Expire(_) => false
    case LostReply => false
    case Proceed =>
      !s.procs[p].Submitted? && !s.procs[p].PoppedGone? && !s.procs[p].CompleteRem? && !s.procs[p].FailRem? &&
      !s.procs[p].FailPush? && !s.procs[p].CancelPending? && !s.procs[p].CancelProcessing?
    case _ => true
  }

  lemma ListFreeSafe(s: State, p: nat, a: Action)
    requires Safe(s) && Enabled(s, p, a) && ListFree(s, p, a)
    ensures Safe(Next(s, p, a))
  {
    if a.Proceed? {
      ListFreeCommand(s, p);
    } else {
      ListFreeMove(s, p, a);
    }
    QuietSafe(s, Next(s, p, a), p);
  }

  lemma ListFreeMove(s: State, p: nat, a: Action)
    requires Safe(s) && Enabled(s, p, a) && ListFree(s, p, a) && !a.Proceed?
    ensures Quiet(s, Next(s, p, a), p)
  {
  }

  lemma ListFreeCommand(s: State, p: nat)
    requires Safe(s) && Enabled(s, p, Proceed) && ListFree(s, p, Proceed)
    ensures Quiet(s, Next(s, p, Proceed), p)
  {
    var pc := s.procs[p];
    if pc.Submitting? || pc.Popped? || pc.Claiming? {
      QueueingCommand(s, p);
    } else if pc.CompleteGet? || pc.CompleteSet? {
      CompletingCommand(s, p);
    } else if pc.FailGet? || pc.FailSet? {
      FailingCommand(s, p);
    } else {
      CancellingCommand(s, p);
    }
  }

  // submit and claim_jobs
  lemma QueueingCommand(s: State, p: nat)
    requires Safe(s) && Enabled(s, p, Proceed)
    requires s.procs[p].Submitting? || s.procs[p].Popped? || s.procs[p].Claiming?
    ensures Quiet(s, Next(s, p, Proceed), p)
  {
  }

  lemma CompletingCommand(s: State, p: nat)
    requires Safe(s) && Enabled(s, p, Proceed) && (s.procs[p].CompleteGet? || s.procs[p].CompleteSet?)
    ensures Quiet(s, Next(s, p, Proceed), p)
  {
  }

  lemma FailingCommand(s: State, p: nat)
    requires Safe(s) && Enabled(s, p, Proceed) && (s.procs[p].FailGet? || s.procs[p].FailSet?)
    ensures Quiet(s, Next(s, p, Proceed), p)
  {
  }

  lemma CancellingCommand(s: State, p: nat)
    requires Safe(s) && Enabled(s, p, Proceed) && (s.procs[p].CancelGet? || s.procs[p].CancelSet?)
    ensures Quiet(s, Next(s, p, Proceed), p)
  {
  }

  // Commands that remove an id from processing or pending.
  lemma RemovalSafe(s: State, p: nat, a: Action)
    requires Safe(s) && Enabled(s, p, a)
    requires a.LostReply? || (a.Proceed? && (s.procs[p].PoppedGone? || s.procs[p].CompleteRem? || s.procs[p].FailRem? ||
                                             s.procs[p].CancelPending? || s.procs[p].CancelProcessing?))
    ensures Safe(Next(s, p, a))
  {
    if a.LostReply? {
      LostReplyQuiet(s, p);
    } else if s.procs[p].CancelPending? || s.procs[p].CancelProcessing? {
      CancelRemovalQuiet(s, p);
    } else {
      OwnerRemovalQuiet(s, p);
    }
    QuietSafe(s, Next(s, p, a), p);
  }

  lemma LostReplyQuiet(s: State, p: nat)
    requires Safe(s) && Enabled(s, p, LostReply)
    ensures Quiet(s, Next(s, p, LostReply), p)
  {
    RemoveFirstOf(s.processing, s.procs[p].id);
  }

  lemma CancelRemovalQuiet(s: State, p: nat)
    requires Safe(s) && Enabled(s, p, Proceed) && (s.procs[p].CancelPending? || s.procs[p].CancelProcessing?)
    ensures Quiet(s, Next(s, p, Proceed), p)
  {
    RemoveFirstOf(s.processing, s.procs[p].id);
    RemoveFirstOf(s.pending, s.procs[p].id);
  }

  lemma OwnerRemovalQuiet(s: State, p: nat)
    requires Safe(s) && Enabled(s, p, Proceed)
    requires s.procs[p].PoppedGone? || s.procs[p].CompleteRem? || s.procs[p].FailRem?
    ensures Quiet(s, Next(s, p, Proceed), p)
  {
    RemoveFirstOf(s.processing, s.procs[p].id);
  }

  // LPUSH hands an unlisted job over to a queue.
  lemma PushSafe(s: State, p: nat)
    requires Safe(s) && Enabled(s, p, Proceed) && (s.procs[p].Submitted? || s.procs[p].FailPush?)
    ensures Safe(Next(s, p, Proceed))
  {
    var t := Next(s, p, Proceed);
    var id := s.procs[p].id;
    assert Unlisted(s.procs[p]) && Holder(s.procs[p]) == Some(id);
    HoldersAfter(s, t, p);
    forall q | 0 <= q < |t.procs| && Holder(t.procs[q]).Some?
      ensures Holder(t.procs[q]).value != id && t.procs[q] == s.procs[q]
    {
      assert q != p;
    }
  }

  lemma ExpireSafe(s: State, p: nat, id: Id)
    requires Safe(s) && Enabled(s, p, Expire(id))
    ensures Safe(Next(s, p, Expire(id)))
  {
    var t := Next(s, p, Expire(id));
    assert forall x :: Held(t, x) <==> Held(s, x);
  }

  lemma StepSafe(s: State, p: nat, a: Action)
    requires Safe(s) && Enabled(s, p, a)
    ensures Safe(Next(s, p, a))
  {
    if ListFree(s, p, a) {
      ListFreeSafe(s, p, a);
    } else {
      match a
      case StartSubmit(id, maxRetries) => SubmitSafe(s, p, id, maxRetries);
      case StartClaim => ClaimSafe(s, p);
      case Expire(id) => ExpireSafe(s, p, id);
      case LostReply => RemovalSafe(s, p, a);
      case Proceed =>
        if s.procs[p].Submitted? || s.procs[p].FailPush? {
          PushSafe(s, p);
        } else {
          RemovalSafe(s, p, a);
        }
    }
  }

  // ---------------------------------------------------------------- every run

  lemma InitialSafe(s: State)
    requires Initial(s)
    ensures Safe(s)
  {
  }

  lemma {:induction false} RunSafe(s: State, run: seq<Event>)
    requires Safe(s) && ValidRun(s, run)
    ensures Safe(After(s, run))
    decreases |run|
  {
    if run != [] {
      StepSafe(s, run[0].p, run[0].action);
      RunSafe(Next(s, run[0].p, run[0].action), run[1..]);
    }
  }

  // All owners in order of their processes.
  function Owners(procs: seq<Pc>): seq<Id> {
    if procs == [] then []
    else (match Holder(procs[0]) case None => [] case Some(id) => [id]) + Owners(procs[1..])
  }

  predicate OwnedOnce(procs: seq<Pc>) {
    forall p, q :: 0 <= p < q < |procs| && Holder(procs[p]).Some? ==> Holder(procs[p]) != Holder(procs[q])
  }

  lemma {:induction false} OwnersOnce(procs: seq<Pc>)
    requires OwnedOnce(procs)
    ensures NoRepeat(Owners(procs))
    ensures forall id :: id in Owners(procs) <==> exists p :: 0 <= p < |procs| && Holder(procs[p]) == Some(id)
  {
    if procs != [] {
      var rest := procs[1..];
      forall p, q | 0 <= p < q < |rest| && Holder(rest[p]).Some? ensures Holder(rest[p]) != Holder(rest[q]) {
        assert rest[p] == procs[p + 1] && rest[q] == procs[q + 1];
      }
      OwnersOnce(rest);
      var all := Owners(procs);
      forall id ensures id in all <==> exists p :: 0 <= p < |procs| && Holder(procs[p]) == Some(id) {
        if id in Owners(rest) {
          var q :| 0 <= q < |rest| && Holder(rest[q]) == Some(id);
          assert procs[q + 1] == rest[q];
        }
        if p :| 0 <= p < |procs| && Holder(procs[p]) == Some(id) {
          if p > 0 {
            assert rest[p - 1] == procs[p];
          }
        }
      }
      if Holder(procs[0]).Some? {
        var id := Holder(procs[0]).value;
        forall q | 0 <= q < |rest| ensures Holder(rest[q]) != Some(id) {
          assert procs[q + 1] == rest[q];
        }
        assert id !in Owners(rest);
      }
    }
  }

  // In every reachable state a job id occurs at most once over the pending list, the
  // dead letters and the owners, and an id being processed has an owner unless its
  // record expired.
  lemma AtMostOnce(s: State, run: seq<Event>, id: Id)
    requires Initial(s) && ValidRun(s, run)
    ensures var t := After(s, run);
            (multiset(t.pending) + multiset(t.dlq) + multiset(Owners(t.procs)))[id] <= 1
    ensures var t := After(s, run); id in t.processing && id !in t.expired ==> id in Owners(t.procs)
  {
    InitialSafe(s);
    RunSafe(s, run);
    var t := After(s, run);
    OwnersOnce(t.procs);
    OnceInMultiset(t.pending, id);
    OnceInMultiset(t.dlq, id);
    OnceInMultiset(Owners(t.procs), id);
    assert id in Owners(t.procs) ==> id !in t.pending && id !in t.dlq;
  }
}
