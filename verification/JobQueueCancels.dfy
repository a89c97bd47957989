// How a cancel makes the queue forget a claim: from every state with an overtaken cancel, a
// job that can still be retried ends up claimed more often than its limit.
module JobQueueCancels {
  import opened Wrappers
  import opened Sequences
  import opened JobQueue
  import opened JobQueueSafety
  import opened JobQueueClaims

  // ---------------------------------------------------------------- reachable states

  predicate LeadsTo(s: State, run: seq<Event>, t: State) {
    ValidRun(s, run) && After(s, run) == t
  }

  ghost predicate CanReach(s: State, t: State) {
    exists run :: LeadsTo(s, run, t)
  }

  lemma {:induction false} RunsJoin(s: State, a: seq<Event>, b: seq<Event>)
    requires ValidRun(s, a) && ValidRun(After(s, a), b)
    ensures LeadsTo(s, a + b, After(After(s, a), b))
    decreases |a|
  {
    if a == [] {
      AppendNothing(b);
    } else {
      TailOfAppend(a, b);
      RunsJoin(Next(s, a[0].p, a[0].action), a[1..], b);
    }
  }

  lemma Then(s: State, t: State, u: State)
    requires CanReach(s, t) && CanReach(t, u)
    ensures CanReach(s, u)
  {
    var a :| LeadsTo(s, a, t);
    var b :| LeadsTo(t, b, u);
    RunsJoin(s, a, b);
  }

  lemma Here(s: State)
    ensures CanReach(s, s)
  {
    assert LeadsTo(s, [], s);
  }

  lemma Go(s: State, t: State, p: nat, a: Action) returns (u: State)
    requires CanReach(s, t) && Enabled(t, p, a)
    ensures u == Next(t, p, a) && CanReach(s, u)
  {
    u := Next(t, p, a);
    var run := [Event(p, a)];
    assert run[1..] == [] && ValidRun(u, []) && After(u, []) == u;
    assert ValidRun(t, run) && After(t, run) == u;
    assert LeadsTo(t, run, u);
    Then(s, t, u);
  }

  lemma ReachSafe(s: State, t: State)
    requires Safe(s) && CanReach(s, t)
    ensures Safe(t)
  {
    var run :| LeadsTo(s, run, t);
    RunSafe(s, run);
  }

  // A job is claimed more often than its record allows.
  predicate Exceeded(s: State, m: Id) {
    m in s.jobs && Claims(s, m) > Bound(s.jobs[m].maxRetries)
  }

  ghost predicate CanExceed(s: State, m: Id) {
    exists t :: CanReach(s, t) && Exceeded(t, m)
  }

  lemma ExceedLater(s: State, t: State, m: Id)
    requires CanReach(s, t) && CanExceed(t, m)
    ensures CanExceed(s, m)
  {
    var u :| CanReach(t, u) && Exceeded(u, m);
    Then(s, t, u);
  }

  // ---------------------------------------------------------------- what the others leave alone

  predicate Record(s: State, m: Id, attempts: nat, limit: int) {
    m in s.jobs && s.jobs[m].attempts == attempts && s.jobs[m].maxRetries == limit
  }

  // One process has moved on, and the job has neither been claimed nor rewritten.
  predicate Moved(s: State, t: State, q: nat, pc: Pc, m: Id) {
    && q < |s.procs| && t.procs == s.procs[q := pc] && Claims(t, m) == Claims(s, m)
    && (m in s.jobs ==> m in t.jobs && t.jobs[m] == s.jobs[m])
  }

  lemma MovedTwice(s: State, t: State, u: State, q: nat, pc: Pc, last: Pc, m: Id)
    requires Moved(s, t, q, pc, m) && Moved(t, u, q, last, m)
    ensures Moved(s, u, q, last, m)
  {
  }

  // One more step of worker q on another job.
  lemma GoOther(s: State, t: State, q: nat, a: Action, m: Id) returns (u: State)
    requires CanReach(s, t) && Enabled(t, q, a) && Moved(s, t, q, t.procs[q], m) && (a.HandlerReturns? || a.Proceed?)
    requires Holder(t.procs[q]).Some? && Holder(t.procs[q]) != Some(m)
    requires t.procs[q].Popped? || t.procs[q].PoppedGone? || t.procs[q].Claiming? || t.procs[q].Working?
          || t.procs[q].CompleteGet? || t.procs[q].CompleteSet? || t.procs[q].CompleteRem?
    ensures u == Next(t, q, a) && CanReach(s, u) && u.pending == t.pending && Moved(s, u, q, u.procs[q], m)
  {
    u := Go(s, t, q, a);
    assert Moved(t, u, q, u.procs[q], m);
    MovedTwice(s, t, u, q, t.procs[q], u.procs[q], m);
  }

  lemma PopOther(s: State, q: nat, m: Id) returns (t: State)
    requires q < |s.procs| && s.procs[q].Idle? && s.pending != [] && s.pending[|s.pending| - 1] != m
    ensures t == Next(s, q, StartClaim) && CanReach(s, t)
    ensures Moved(s, t, q, Popped(s.pending[|s.pending| - 1]), m) && t.pending == s.pending[..|s.pending| - 1]
  {
    Here(s);
    t := Go(s, s, q, StartClaim);
  }

  // A worker serves the oldest job, which is another one.
  lemma ServeOther(s: State, q: nat, m: Id) returns (t: State)
    requires q < |s.procs| && s.procs[q].Idle? && s.pending != [] && s.pending[|s.pending| - 1] != m
    ensures CanReach(s, t) && Moved(s, t, q, Idle, m) && t.pending == s.pending[..|s.pending| - 1]
  {
    var x := s.pending[|s.pending| - 1];
    t := PopOther(s, q, m);
    t := GoOther(s, t, q, Proceed, m);
    t := GoOther(s, t, q, Proceed, m);
    if x in s.jobs {
      var u := FinishOther(t, q, x, m);
      MovedTwice(s, t, u, q, Working(x), Idle, m);
      Then(s, t, u);
      t := u;
    }
  }

  lemma FinishOther(s: State, q: nat, x: Id, m: Id) returns (t: State)
    requires q < |s.procs| && s.procs[q] == Working(x) && x in s.jobs && x != m
    ensures CanReach(s, t) && Moved(s, t, q, Idle, m) && t.pending == s.pending
  {
    Here(s);
    assert s.procs[q := Working(x)] == s.procs;
    t := GoOther(s, s, q, HandlerReturns, m);
    t := GoOther(s, t, q, Proceed, m);
    t := GoOther(s, t, q, Proceed, m);
    t := GoOther(s, t, q, Proceed, m);
  }

  // It serves the older jobs until this one is next.
  lemma {:induction false} Drain(s: State, q: nat, m: Id) returns (t: State)
    requires q < |s.procs| && s.procs[q].Idle? && m in s.pending && NoRepeat(s.pending)
    ensures CanReach(s, t) && Moved(s, t, q, Idle, m) && NoRepeat(t.pending)
    ensures t.pending != [] && t.pending[|t.pending| - 1] == m
    decreases |s.pending|
  {
    var n := |s.pending| - 1;
    if s.pending[n] == m {
      Here(s);
      t := s;
    } else {
      var u := ServeOther(s, q, m);
      TakeAndDrop(s.pending, n);
      assert m in s.pending[..n];
      t := Drain(u, q, m);
      Then(s, u, t);
    }
  }

  lemma ClaimIt(s: State, q: nat, m: Id, attempts: nat, limit: int) returns (t: State)
    requires q < |s.procs| && s.procs[q].Idle? && NoRepeat(s.pending) && Record(s, m, attempts, limit)
    requires s.pending != [] && s.pending[|s.pending| - 1] == m
    ensures CanReach(s, t) && t.procs == s.procs[q := Working(m)] && Record(t, m, attempts + 1, limit)
    ensures Claims(t, m) == Claims(s, m) + 1 && NoRepeat(t.pending) && m !in t.pending
  {
    Here(s);
    t := Go(s, s, q, StartClaim);
    t := Go(s, t, q, Proceed);
    t := Go(s, t, q, Proceed);
  }

  lemma FailureRead(s: State, q: nat, m: Id) returns (t: State)
    requires q < |s.procs| && s.procs[q] == FailGet(m, true) && m in s.jobs
    ensures CanReach(s, t) && Moved(s, t, q, FailSet(m, s.jobs[m], true), m) && t.pending == s.pending
  {
    Here(s);
    t := Go(s, s, q, Proceed);
    t := Go(s, t, q, Proceed);
  }

  // A failing handler with attempts left queues the job again.
  lemma Requeue(s: State, q: nat, m: Id, attempts: nat, limit: int) returns (t: State)
    requires q < |s.procs| && s.procs[q] == FailGet(m, true) && Record(s, m, attempts, limit) && attempts < limit
    requires NoRepeat(s.pending) && m !in s.pending
    ensures CanReach(s, t) && t.procs == s.procs[q := Idle] && Record(t, m, attempts, limit)
    ensures Claims(t, m) == Claims(s, m) && t.pending == [m] + s.pending && NoRepeat(t.pending)
  {
    var u := FailureRead(s, q, m);
    t := QueueAgain(u, q, m, s.jobs[m]);
    Then(s, u, t);
  }

  lemma QueueAgain(s: State, q: nat, m: Id, job: Job) returns (t: State)
    requires q < |s.procs| && s.procs[q] == FailSet(m, job, true) && job.attempts < job.maxRetries
    requires NoRepeat(s.pending) && m !in s.pending
    ensures CanReach(s, t) && t.procs == s.procs[q := Idle] && Record(t, m, job.attempts, job.maxRetries)
    ensures Claims(t, m) == Claims(s, m) && t.pending == [m] + s.pending && NoRepeat(t.pending)
  {
    Here(s);
    t := Go(s, s, q, Proceed);
    t := Go(s, t, q, Proceed);
    NoRepeatCons(m, s.pending);
  }

  // ---------------------------------------------------------------- once the record is behind

  lemma {:induction false} RetryExceeds(s: State, q: nat, m: Id, attempts: nat, limit: int)
    requires q < |s.procs| && s.procs[q] == FailGet(m, true) && Record(s, m, attempts, limit)
    requires attempts < limit && attempts < Claims(s, m) && NoRepeat(s.pending) && m !in s.pending
    ensures CanExceed(s, m)
    decreases limit - attempts, 1
  {
    var t := Requeue(s, q, m, attempts, limit);
    QueuedExceeds(t, q, m, attempts, limit);
    ExceedLater(s, t, m);
  }

  lemma {:induction false} QueuedExceeds(s: State, q: nat, m: Id, attempts: nat, limit: int)
    requires q < |s.procs| && s.procs[q].Idle? && Record(s, m, attempts, limit)
    requires attempts < limit && attempts < Claims(s, m) && NoRepeat(s.pending) && m in s.pending
    ensures CanExceed(s, m)
    decreases limit - attempts, 0
  {
    var t := Drain(s, q, m);
    var u := ClaimIt(t, q, m, attempts, limit);
    Then(s, t, u);
    if attempts + 1 < limit {
      var v := Go(u, u, q, HandlerRaises) by { Here(u); }
      RetryExceeds(v, q, m, attempts + 1, limit);
      ExceedLater(u, v, m);
    } else {
      Here(u);
      assert Exceeded(u, m);
    }
    ExceedLater(s, u, m);
  }
  // ---------------------------------------------------------------- an overtaken cancel

  // The cancel of p read the record before a claim, at a time when attempts were left.
  predicate Outdated(s: State, p: nat, m: Id) {
    && p < |s.procs| && CancelCopy(s.procs[p], m)
    && s.procs[p].job.attempts < Claims(s, m) && s.procs[p].job.attempts < s.procs[p].job.maxRetries
  }

  // The cancel runs up to its SET.
  lemma ToCancelSet(s: State, p: nat, m: Id) returns (t: State)
    requires NoRepeat(s.pending) && p < |s.procs| && CancelCopy(s.procs[p], m)
    ensures CanReach(s, t) && Moved(s, t, p, CancelSet(m, s.procs[p].job), m) && NoRepeat(t.pending)
    ensures m !in s.pending ==> m !in t.pending
    ensures !s.procs[p].CancelPending? ==> t.pending == s.pending
    decreases s.procs[p].CancelPending?, s.procs[p].CancelProcessing?
  {
    Here(s);
    if s.procs[p].CancelSet? {
      t := s;
    } else {
      RemoveFirstOf(s.pending, m);
      var u := Go(s, s, p, Proceed);
      t := ToCancelSet(u, p, m);
      Then(s, u, t);
    }
  }

  lemma SetCancel(s: State, p: nat, m: Id) returns (t: State)
    requires p < |s.procs| && s.procs[p].CancelSet? && s.procs[p].id == m
    ensures CanReach(s, t) && t.procs == s.procs[p := Idle] && t.pending == s.pending && Claims(t, m) == Claims(s, m)
    ensures Record(t, m, s.procs[p].job.attempts, s.procs[p].job.maxRetries)
  {
    Here(s);
    t := Go(s, s, p, Proceed);
  }

  lemma FinishCancel(s: State, p: nat, m: Id) returns (t: State)
    requires Safe(s) && p < |s.procs| && CancelCopy(s.procs[p], m)
    ensures CanReach(s, t) && t.procs == s.procs[p := Idle] && Claims(t, m) == Claims(s, m) && NoRepeat(t.pending)
    ensures Record(t, m, s.procs[p].job.attempts, s.procs[p].job.maxRetries)
    ensures m !in s.pending ==> m !in t.pending
    ensures !s.procs[p].CancelPending? ==> t.pending == s.pending
  {
    var u := ToCancelSet(s, p, m);
    t := SetCancel(u, p, m);
    Then(s, u, t);
  }

  // A live worker has the job in hand, its record is written, and it can still fail.
  predicate Handles(pc: Pc, m: Id) {
    pc == Working(m) || pc == CompleteGet(m) || (pc.CompleteSet? && pc.id == m) || pc == CompleteRem(m)
    || pc == FailGet(m, true)
  }

  lemma ToFailure(s: State, q: nat, m: Id) returns (t: State)
    requires q < |s.procs| && Handles(s.procs[q], m)
    ensures CanReach(s, t) && t == s.(procs := s.procs[q := FailGet(m, true)])
  {
    Here(s);
    if s.procs[q].Working? {
      t := Go(s, s, q, HandlerRaises);
    } else if s.procs[q].FailGet? {
      t := s;
      assert s.procs[q := FailGet(m, true)] == s.procs;
    } else {
      t := Go(s, s, q, RedisError);
    }
  }

  lemma HandledExceeds(s: State, p: nat, q: nat, m: Id)
    requires Safe(s) && Outdated(s, p, m) && q < |s.procs| && Handles(s.procs[q], m)
    ensures CanExceed(s, m)
  {
    assert Holder(s.procs[q]) == Some(m) && m !in s.pending;
    var t := FinishCancel(s, p, m);
    var u := ToFailure(t, q, m);
    RetryExceeds(u, q, m, s.procs[p].job.attempts, s.procs[p].job.maxRetries);
    Then(s, t, u);
    ExceedLater(s, u, m);
  }

  // The claim under way is stored first.
  lemma ClaimingExceeds(s: State, p: nat, q: nat, m: Id)
    requires Safe(s) && Outdated(s, p, m) && q < |s.procs| && s.procs[q].Claiming? && s.procs[q].id == m
    ensures CanExceed(s, m)
  {
    Here(s);
    var t := Go(s, s, q, Proceed);
    StepSafe(s, q, Proceed);
    HandledExceeds(t, p, q, m);
    ExceedLater(s, t, m);
  }

  lemma ClaimPopped(s: State, q: nat, m: Id, attempts: nat, limit: int) returns (t: State)
    requires q < |s.procs| && s.procs[q] == Popped(m) && Record(s, m, attempts, limit)
    ensures CanReach(s, t) && t.procs == s.procs[q := Working(m)] && Record(t, m, attempts + 1, limit)
    ensures Claims(t, m) == Claims(s, m) + 1 && t.pending == s.pending
  {
    Here(s);
    t := Go(s, s, q, Proceed);
    t := Go(s, t, q, Proceed);
  }

  // A worker whose record is behind lets the job fail, or has already exceeded the limit.
  lemma WorkingExceeds(s: State, q: nat, m: Id, attempts: nat, limit: int)
    requires q < |s.procs| && s.procs[q] == Working(m) && Record(s, m, attempts, limit)
    requires 1 <= attempts <= limit && attempts < Claims(s, m) && NoRepeat(s.pending) && m !in s.pending
    ensures CanExceed(s, m)
  {
    Here(s);
    if attempts < limit {
      var t := Go(s, s, q, HandlerRaises);
      RetryExceeds(t, q, m, attempts, limit);
      ExceedLater(s, t, m);
    } else {
      assert Exceeded(s, m);
    }
  }

  // A job just popped is claimed after the cancel has written its copy.
  lemma PoppedExceeds(s: State, p: nat, q: nat, m: Id)
    requires Safe(s) && Outdated(s, p, m) && q < |s.procs| && s.procs[q] == Popped(m)
    ensures CanExceed(s, m)
  {
    assert Holder(s.procs[q]) == Some(m) && m !in s.pending;
    var Job(_, attempts, limit) := s.procs[p].job;
    var t := FinishCancel(s, p, m);
    var u := ClaimPopped(t, q, m, attempts, limit);
    WorkingExceeds(u, q, m, attempts + 1, limit);
    Then(s, t, u);
    ExceedLater(s, u, m);
  }

  // A failure that is about to queue the job again.
  predicate Requeues(pc: Pc, m: Id) {
    match pc
    case FailRem(id, job, retry) => id == m && retry && job.attempts < job.maxRetries
    case FailSet(id, job, retry) => id == m && retry && job.attempts < job.maxRetries
    case FailPush(id, again) => id == m && again
    case _ => false
  }

  lemma PushIt(s: State, q: nat, m: Id) returns (t: State)
    requires q < |s.procs| && Requeues(s.procs[q], m) && NoRepeat(s.pending) && m !in s.pending
    ensures CanReach(s, t) && t.procs == s.procs[q := Idle] && Claims(t, m) == Claims(s, m)
    ensures m in t.pending && NoRepeat(t.pending)
    decreases s.procs[q].FailRem?, s.procs[q].FailSet?
  {
    Here(s);
    t := Go(s, s, q, Proceed);
    if !s.procs[q].FailPush? {
      var u := t;
      t := PushIt(u, q, m);
      Then(s, u, t);
    }
  }

  // It is queued before the cancel writes its copy.
  lemma RequeuedExceeds(s: State, p: nat, q: nat, m: Id)
    requires Safe(s) && Outdated(s, p, m) && q < |s.procs| && Requeues(s.procs[q], m)
    ensures CanExceed(s, m)
  {
    assert Holder(s.procs[q]) == Some(m) && m !in s.pending;
    var t := ToCancelSet(s, p, m);
    var u := PushIt(t, q, m);
    var v := SetCancel(u, p, m);
    QueuedExceeds(v, q, m, s.procs[p].job.attempts, s.procs[p].job.maxRetries);
    Then(s, t, u);
    Then(s, u, v);
    ExceedLater(s, v, m);
  }

  // A waiting job that the cancel has not withdrawn; the canceller itself may claim it.
  lemma WaitingExceeds(s: State, p: nat, m: Id)
    requires Safe(s) && Outdated(s, p, m) && m in s.pending && !s.procs[p].CancelPending?
    ensures CanExceed(s, m)
  {
    var t := FinishCancel(s, p, m);
    QueuedExceeds(t, p, m, s.procs[p].job.attempts, s.procs[p].job.maxRetries);
    ExceedLater(s, t, m);
  }

  // Somebody alive can still bring the job to another claim.
  predicate CanRetry(pc: Pc, m: Id) {
    pc == Popped(m) || (pc.Claiming? && pc.id == m) || Handles(pc, m) || Requeues(pc, m)
  }

  // From every safe state with an overtaken cancel, if the job is waiting, or in the hands of
  // a live worker that can still claim or retry it, some run claims it more often than
  // max(1, max_retries).
  lemma OvertakenCancelExceeds(s: State, p: nat, m: Id)
    requires Safe(s) && Outdated(s, p, m)
    requires (m in s.pending && !s.procs[p].CancelPending?) || exists q :: 0 <= q < |s.procs| && CanRetry(s.procs[q], m)
    ensures CanExceed(s, m)
  {
    if q :| 0 <= q < |s.procs| && CanRetry(s.procs[q], m) {
      if Handles(s.procs[q], m) {
        HandledExceeds(s, p, q, m);
      } else if s.procs[q].Claiming? {
        ClaimingExceeds(s, p, q, m);
      } else if s.procs[q].Popped? {
        PoppedExceeds(s, p, q, m);
      } else {
        RequeuedExceeds(s, p, q, m);
      }
    } else {
      WaitingExceeds(s, p, m);
    }
  }

  lemma SubmitIt(s: State, q: nat, m: Id, limit: int) returns (t: State)
    requires Initial(s) && q < |s.procs|
    ensures CanReach(s, t) && t.procs == s.procs && t.jobs == map[m := Job(Pending, 0, limit)]
    ensures t.pending == [m] && Claims(t, m) == 0
  {
    Here(s);
    t := Go(s, s, q, StartSubmit(m, limit));
    t := Go(s, t, q, Proceed);
    t := Go(s, t, q, Proceed);
  }

  lemma BeginCancel(s: State, p: nat, m: Id) returns (t: State)
    requires p < |s.procs| && s.procs[p].Idle? && m in s.jobs && s.jobs[m].status == Pending
    ensures CanReach(s, t) && t == s.(procs := s.procs[p := CancelPending(m, s.jobs[m])])
  {
    Here(s);
    t := Go(s, s, p, StartCancel(m));
    t := Go(s, t, p, Proceed);
  }

  // Such a state is reached from the start for every job that may be retried and any two
  // processes: a cancel reads the record while the job waits, and a worker claims it.
  lemma CancelForgetsClaim(s: State, p: nat, q: nat, m: Id, limit: int)
    requires Initial(s) && p < |s.procs| && q < |s.procs| && p != q && limit >= 1
    ensures CanExceed(s, m)
  {
    var t := SubmitIt(s, q, m, limit);
    var u := BeginCancel(t, p, m);
    var v := ClaimIt(u, q, m, 0, limit);
    Then(s, t, u);
    Then(s, u, v);
    InitialSafe(s);
    ReachSafe(s, v);
    HandledExceeds(v, p, q, m);
    ExceedLater(s, v, m);
  }
}
