// The queue's own methods over the shared Redis state: a call that nobody interrupts does
// what its step program does when it runs alone.
module JobQueueMethods {
  import opened Wrappers
  import opened JobQueue
  import opened JobQueueSafety

  // How many commands the current call still has.
  function Remaining(pc: Pc): nat {
    match pc
    case Submitting(_, _) => 2
    case Submitted(_) => 1
    case Popped(_) => 2
    case PoppedGone(_) => 1
    case Claiming(_, _) => 1
    case CompleteGet(_) => 3
    case CompleteSet(_, _) => 2
    case CompleteRem(_) => 1
    case FailGet(_, _) => 4
    case FailRem(_, _, _) => 3
    case FailSet(_, _, _) => 2
    case FailPush(_, _) => 1
    case CancelGet(_) => 4
    case CancelPending(_, _) => 3
    case CancelProcessing(_, _) => 2
    case CancelSet(_, _) => 1
    case _ => 0
  }

  // The state when a process has finished its current call alone.
  function Finish(s: State, p: nat): (t: State)
    requires p < |s.procs|
    ensures |t.procs| == |s.procs|
    decreases Remaining(s.procs[p])
  {
    if Remaining(s.procs[p]) == 0 then s else Finish(NextCommand(s, p), p)
  }

  // The last two commands of fail_job, after its LREM.
  lemma FailAlone(s: State, p: nat)
    requires p < |s.procs| && s.procs[p].FailSet?
    ensures var id, job := s.procs[p].id, s.procs[p].job;
            var again := s.procs[p].retry && job.attempts < job.maxRetries;
            var t := Finish(s, p);
            && t.jobs == s.jobs[id := job.(status := if again then Pending else Dead)]
            && t.pending == (if again then [id] + s.pending else s.pending)
            && t.dlq == (if again then s.dlq else [id] + s.dlq) && t.processing == s.processing
  {
    var s1 := NextCommand(s, p);
    assert Finish(s, p) == Finish(s1, p) == NextCommand(s1, p);
  }

  // The commands of cancel_job after its GET.
  lemma CancelAlone(s: State, p: nat)
    requires p < |s.procs| && s.procs[p].CancelPending?
    ensures var id, job := s.procs[p].id, s.procs[p].job;
            var t := Finish(s, p);
            && t.jobs == s.jobs[id := job.(status := Cancelled)] && t.dlq == s.dlq
            && t.pending == RemoveFirst(s.pending, id) && t.processing == RemoveFirst(s.processing, id)
  {
    var s1 := NextCommand(s, p);
    var s2 := NextCommand(s1, p);
    assert Finish(s, p) == Finish(s1, p) == Finish(s2, p) == NextCommand(s2, p);
  }

  class RedisQueue {
    var jobs: map<Id, Job>
    var pending: seq<Id>
    var processing: seq<Id>
    var dlq: seq<Id>

    // The records and lists are those of a state of the protocol.
    predicate Shows(s: State)
      reads this
    {
      jobs == s.jobs && pending == s.pending && processing == s.processing && dlq == s.dlq
    }

    constructor ()
      ensures jobs == map[] && pending == processing == dlq == []
    {
      jobs, pending, processing, dlq := map[], [], [], [];
    }

    method Submit(id: Id, maxRetries: int, ghost s: State, ghost p: nat)
      requires Shows(s) && Enabled(s, p, StartSubmit(id, maxRetries))
      modifies this
      ensures Shows(Finish(Next(s, p, StartSubmit(id, maxRetries)), p))
    {
      var job := Job(Pending, 0, maxRetries);
      jobs := jobs[id := job];
      pending := [id] + pending;
      ghost var s1 := Next(s, p, StartSubmit(id, maxRetries));
      ghost var s2 := NextCommand(s1, p);
      assert Finish(s1, p) == Finish(s2, p) == NextCommand(s2, p);
    }

    // One turn of the claiming loop; nothing is claimed when the popped record is gone.
    method ClaimJob(ghost s: State, ghost p: nat) returns (claimed: Option<(Id, Job)>)
      requires Shows(s) && Enabled(s, p, StartClaim)
      modifies this
      ensures var t := Finish(Next(s, p, StartClaim), p);
              && Shows(t)
              && t.procs[p] == if claimed.Some? then Working(claimed.value.0) else Idle
      ensures claimed.Some? ==> claimed.value.0 in jobs && jobs[claimed.value.0] == claimed.value.1
    {
      var id := pending[|pending| - 1];
      pending := pending[..|pending| - 1];
      processing := [id] + processing;
      ghost var s1 := Next(s, p, StartClaim);
      ghost var s2 := NextCommand(s1, p);
      assert Finish(s1, p) == Finish(s2, p) == NextCommand(s2, p);
      if id !in jobs {
        processing := RemoveFirst(processing, id);
        return None;
      }
      var job := jobs[id].(status := Running, attempts := jobs[id].attempts + 1);
      jobs := jobs[id := job];
      claimed := Some((id, job));
    }

    method CompleteJob(id: Id, ghost s: State, ghost p: nat)
      requires Shows(s) && p < |s.procs| && s.procs[p] == CompleteGet(id)
      modifies this
      ensures Shows(Finish(s, p))
    {
      ghost var s1 := NextCommand(s, p);
      if id !in jobs {
        assert Finish(s, p) == s1;
        return;
      }
      jobs := jobs[id := jobs[id].(status := Completed)];
      processing := RemoveFirst(processing, id);
      ghost var s2 := NextCommand(s1, p);
      assert Finish(s, p) == Finish(s1, p) == Finish(s2, p) == NextCommand(s2, p);
    }

    method FailJob(id: Id, retry: bool, ghost s: State, ghost p: nat)
      requires Shows(s) && p < |s.procs| && s.procs[p] == FailGet(id, retry)
      modifies this
      ensures Shows(Finish(s, p))
    {
      ghost var s1 := NextCommand(s, p);
      if id !in jobs {
        assert Finish(s, p) == s1;
        return;
      }
      var job := jobs[id];
      processing := RemoveFirst(processing, id);
      if retry && job.attempts < job.maxRetries {
        jobs := jobs[id := job.(status := Pending)];
        pending := [id] + pending;
      } else {
        jobs := jobs[id := job.(status := Dead)];
        dlq := [id] + dlq;
      }
      ghost var s2 := NextCommand(s1, p);
      assert Finish(s, p) == Finish(s1, p) == Finish(s2, p);
      FailAlone(s2, p);
    }

    method CancelJob(id: Id, ghost s: State, ghost p: nat) returns (cancelled: bool)
      requires Shows(s) && Enabled(s, p, StartCancel(id))
      modifies this
      ensures Shows(Finish(Next(s, p, StartCancel(id)), p))
      ensures cancelled == (id in old(jobs) && old(jobs)[id].status in {Pending, Running})
    {
      ghost var s1 := Next(s, p, StartCancel(id));
      ghost var s2 := NextCommand(s1, p);
      if id !in jobs || (jobs[id].status != Pending && jobs[id].status != Running) {
        assert Finish(s1, p) == s2;
        return false;
      }
      var job := jobs[id];
      pending := RemoveFirst(pending, id);
      processing := RemoveFirst(processing, id);
      jobs := jobs[id := job.(status := Cancelled)];
      assert Finish(s1, p) == Finish(s2, p);
      CancelAlone(s2, p);
      cancelled := true;
    }
  }

  // ---------------------------------------------------------------- a claimed job in the hands of a worker

  // The job is queued again, or ends among the dead letters.
  predicate FailedTo(s: State, t: State, id: Id, again: bool) {
    && id in s.jobs && t.jobs == s.jobs[id := s.jobs[id].(status := if again then Pending else Dead)]
    && t.pending == (if again then [id] + s.pending else s.pending)
    && t.dlq == (if again then s.dlq else [id] + s.dlq)
    && t.processing == RemoveFirst(s.processing, id)
  }

  // fail_job alone.
  lemma FailFromGet(s: State, p: nat)
    requires p < |s.procs| && s.procs[p].FailGet? && s.procs[p].id in s.jobs
    ensures var id := s.procs[p].id;
            FailedTo(s, Finish(s, p), id, s.procs[p].retry && s.jobs[id].attempts < s.jobs[id].maxRetries)
  {
    var s1 := NextCommand(s, p);
    var s2 := NextCommand(s1, p);
    assert Finish(s, p) == Finish(s1, p) == Finish(s2, p);
    FailAlone(s2, p);
  }

  // complete_job alone.
  lemma CompleteFromGet(s: State, p: nat)
    requires p < |s.procs| && s.procs[p].CompleteGet? && s.procs[p].id in s.jobs
    ensures var id := s.procs[p].id;
            var t := Finish(s, p);
            && t.jobs == s.jobs[id := s.jobs[id].(status := Completed)]
            && t.pending == s.pending && t.dlq == s.dlq && t.processing == RemoveFirst(s.processing, id)
  {
    var s1 := NextCommand(s, p);
    var s2 := NextCommand(s1, p);
    assert Finish(s, p) == Finish(s1, p) == Finish(s2, p) == NextCommand(s2, p);
  }

  // _process_job alone: a task that nobody handles ends among the dead letters whatever its
  // attempts, a handler that raises is tried again while attempts remain, and one that
  // returns completes the job.
  lemma ProcessJobAlone(s: State, p: nat, id: Id)
    requires p < |s.procs| && s.procs[p] == Working(id) && id in s.jobs
    ensures FailedTo(s, Finish(Next(s, p, NoHandler), p), id, false)
    ensures FailedTo(s, Finish(Next(s, p, HandlerRaises), p), id, s.jobs[id].attempts < s.jobs[id].maxRetries)
    ensures var t := Finish(Next(s, p, HandlerReturns), p);
            && t.jobs == s.jobs[id := s.jobs[id].(status := Completed)]
            && t.pending == s.pending && t.dlq == s.dlq && t.processing == RemoveFirst(s.processing, id)
  {
    FailFromGet(Next(s, p, NoHandler), p);
    FailFromGet(Next(s, p, HandlerRaises), p);
    CompleteFromGet(Next(s, p, HandlerReturns), p);
  }

  // A Redis error while the result is stored is taken for a failure of the handler, even
  // when the job was already marked as completed, or had already left the processing list.
  lemma StoringFailsAlone(s: State, p: nat, id: Id, a: Action)
    requires Enabled(s, p, a) && (a.RedisError? || a.LostReply?) && s.procs[p].id == id && id in s.jobs
    requires NoRepeat(s.processing)
    ensures FailedTo(s, Finish(Next(s, p, a), p), id, s.jobs[id].attempts < s.jobs[id].maxRetries)
  {
    var t := Next(s, p, a);
    FailFromGet(t, p);
    RemoveFirstOf(s.processing, id);
    RemoveFirstOf(t.processing, id);
  }

  // The LREM whose reply is lost has taken the job out of the processing list.
  lemma LostReplyRemoves(s: State, p: nat)
    requires Enabled(s, p, LostReply) && NoRepeat(s.processing)
    ensures s.procs[p].id !in Next(s, p, LostReply).processing
    ensures forall id :: id != s.procs[p].id ==> (id in s.processing <==> id in Next(s, p, LostReply).processing)
  {
    RemoveFirstOf(s.processing, s.procs[p].id);
  }

  // A job whose record expires while it waits is dropped when its turn comes: it leaves both
  // lists, nothing runs, and no record appears.
  lemma ExpiredJobAlone(s: State, p: nat, id: Id)
    requires p < |s.procs| && s.procs[p].Idle? && s.pending != [] && s.pending[|s.pending| - 1] == id
    ensures Enabled(s, p, Expire(id)) && Enabled(Next(s, p, Expire(id)), p, StartClaim)
    ensures var t := Finish(Next(Next(s, p, Expire(id)), p, StartClaim), p);
            && t.procs == s.procs && t.jobs == s.jobs - {id} && t.dlq == s.dlq
            && t.pending == s.pending[..|s.pending| - 1] && t.processing == s.processing
  {
    var s1 := Next(s, p, Expire(id));
    var s2 := Next(s1, p, StartClaim);
    var s3 := NextCommand(s2, p);
    assert s3.procs[p] == PoppedGone(id);
    assert Finish(s2, p) == Finish(s3, p) == NextCommand(s3, p);
    assert ([id] + s.processing)[1..] == s.processing;
    assert s.procs[p := s.procs[p]] == s.procs;
  }

  // A call that runs alone is one of the interleavings, so it keeps the ownership invariant
  // and leaves its process idle or with a claimed job.
  lemma {:induction false} FinishIsRun(s: State, p: nat) returns (run: seq<Event>)
    requires Safe(s) && p < |s.procs|
    ensures ValidRun(s, run) && After(s, run) == Finish(s, p) && Safe(Finish(s, p))
    ensures Remaining(Finish(s, p).procs[p]) == 0
    decreases Remaining(s.procs[p])
  {
    if Remaining(s.procs[p]) == 0 {
      run := [];
    } else {
      StepSafe(s, p, Proceed);
      var rest := FinishIsRun(NextCommand(s, p), p);
      run := [Event(p, Proceed)] + rest;
      assert run[1..] == rest;
    }
  }
}
