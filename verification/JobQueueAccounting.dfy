// Where a job is. In every run that neither cancels nor expires one job, its record says
// where to find it, whatever happens to the other jobs and whichever calls fail, lose their
// replies or crash.
module JobQueueAccounting {
  import opened Wrappers
  import opened JobQueue
  import opened JobQueueSafety

  predicate Spares(a: Action, m: Id) {
    a != StartCancel(m) && a != Expire(m)
  }

  predicate SparingRun(run: seq<Event>, m: Id) {
    forall k :: 0 <= k < |run| ==> Spares(run[k].action, m)
  }

  predicate Stored(s: State, m: Id, status: Status) {
    m in s.jobs && s.jobs[m].status == status
  }

  // A job that failed after its completion was stored is still marked completed.
  predicate Ended(s: State, m: Id) {
    Stored(s, m, Running) || Stored(s, m, Completed)
  }

  // The stored status is the one that goes with what a process is about to do to the job.
  predicate InStep(s: State, pc: Pc, m: Id) {
    match pc
    case Submitting(id, job) => id == m ==> job.status == Pending
    case Submitted(id) => id == m ==> Stored(s, m, Pending)
    case Popped(id) => id == m ==> Stored(s, m, Pending)
    case PoppedGone(id) => id != m
    case Claiming(id, _) => id == m ==> Stored(s, m, Pending)
    case Working(id) => id == m ==> Stored(s, m, Running)
    case CompleteGet(id) => id == m ==> Stored(s, m, Running)
    case CompleteSet(id, _) => id == m ==> Stored(s, m, Running)
    case CompleteRem(id) => id == m ==> Stored(s, m, Completed)
    case FailGet(id, _) => id == m ==> Ended(s, m)
    case FailRem(id, _, _) => id == m ==> Ended(s, m)
    case FailSet(id, _, _) => id == m ==> Ended(s, m)
    case FailPush(id, again) => id == m ==> Stored(s, m, if again then Pending else Dead)
    case CancelGet(id) => id != m
    case CancelPending(id, _) => id != m
    case CancelProcessing(id, _) => id != m
    case CancelSet(id, _) => id != m
    case _ => true
  }

  predicate AllInStep(s: State, m: Id) {
    forall p :: 0 <= p < |s.procs| ==> InStep(s, s.procs[p], m)
  }

  // A job is where its status says, or on its way there in the hands of its owner.
  predicate Placed(s: State, m: Id) {
    && (m in s.pending ==> Stored(s, m, Pending))
    && (m in s.dlq ==> Stored(s, m, Dead))
    && (m in s.jobs ==>
          && m in s.used
          && (s.jobs[m].status == Pending ==> m in s.pending || Held(s, m))
          && (s.jobs[m].status == Running ==> Held(s, m))
          && (s.jobs[m].status == Dead ==> m in s.dlq || Held(s, m))
          && s.jobs[m].status != Cancelled)
  }

  predicate Accounted(s: State, m: Id) {
    AllInStep(s, m) && Placed(s, m) && m !in s.expired
  }

  // ---------------------------------------------------------------- one step

  // Process p has moved from s to t.
  predicate Moved(s: State, t: State, p: nat) {
    p < |s.procs| && |t.procs| == |s.procs| && t.procs == s.procs[p := t.procs[p]]
  }

  predicate SameRecord(s: State, t: State, m: Id) {
    (m in t.jobs <==> m in s.jobs) && (m in s.jobs ==> t.jobs[m] == s.jobs[m])
  }

  lemma HeldKept(s: State, t: State, p: nat, m: Id)
    requires Moved(s, t, p) && Held(s, m) && (Holder(s.procs[p]) == Some(m) ==> Holder(t.procs[p]) == Some(m))
    ensures Held(t, m)
  {
    var q :| 0 <= q < |s.procs| && Holder(s.procs[q]) == Some(m);
    assert Holder(t.procs[q]) == Some(m);
  }

  // Only the owner of a job changes its record.
  lemma OthersInStep(s: State, t: State, p: nat, m: Id)
    requires Safe(s) && AllInStep(s, m) && Moved(s, t, p) && InStep(t, t.procs[p], m)
    requires SameRecord(s, t, m) || Holder(s.procs[p]) == Some(m)
    ensures AllInStep(t, m)
  {
    forall q | 0 <= q < |t.procs| ensures InStep(t, t.procs[q], m) {
      if q != p {
        assert t.procs[q] == s.procs[q] && InStep(s, s.procs[q], m);
        assert Holder(s.procs[q]) == Some(m) ==> Holder(s.procs[p]) != Some(m);
      }
    }
  }

  // A step that leaves the job where it is.
  predicate Leaves(s: State, t: State, p: nat, m: Id) {
    && Moved(s, t, p) && SameRecord(s, t, m) && InStep(t, t.procs[p], m)
    && (m in t.pending <==> m in s.pending) && (m in t.dlq <==> m in s.dlq)
    && (m in s.used ==> m in t.used) && (m in t.expired <==> m in s.expired)
    && (Holder(s.procs[p]) == Some(m) ==> Holder(t.procs[p]) == Some(m))
  }

  lemma LeavesAccounted(s: State, t: State, p: nat, m: Id)
    requires Safe(s) && Accounted(s, m) && Leaves(s, t, p, m)
    ensures Accounted(t, m)
  {
    OthersInStep(s, t, p, m);
    if Held(s, m) {
      HeldKept(s, t, p, m);
    }
  }

  // Everything but the commands of a call and a claim.
  lemma MoveLeaves(s: State, p: nat, a: Action, m: Id)
    requires Safe(s) && Accounted(s, m) && Enabled(s, p, a) && Spares(a, m) && !a.Proceed? && !a.StartClaim?
    ensures Leaves(s, Next(s, p, a), p, m)
  {
    assert InStep(s, s.procs[p], m);
  }

  // The commands of calls on other jobs.
  predicate OnOther(s: State, p: nat, m: Id) {
    Enabled(s, p, Proceed) && s.procs[p].id != m
  }

  lemma OtherLeaves(s: State, p: nat, m: Id)
    requires Safe(s) && Accounted(s, m) && OnOther(s, p, m)
    ensures Leaves(s, Next(s, p, Proceed), p, m)
  {
    RemoveFirstOf(s.pending, s.procs[p].id);
  }

  // The commands that only read the record, or only leave processing.
  predicate Looks(pc: Pc) {
    pc.Popped? || pc.CompleteGet? || pc.FailGet? || pc.FailRem?
  }

  lemma LookLeaves(s: State, p: nat, m: Id)
    requires Safe(s) && Accounted(s, m) && Enabled(s, p, Proceed) && Looks(s.procs[p]) && s.procs[p].id == m
    ensures Leaves(s, Next(s, p, Proceed), p, m)
  {
    assert InStep(s, s.procs[p], m);
  }

  lemma ClaimAccounted(s: State, p: nat, m: Id)
    requires Safe(s) && Accounted(s, m) && Enabled(s, p, StartClaim)
    ensures Accounted(Next(s, p, StartClaim), m)
  {
    var t := Next(s, p, StartClaim);
    var id := s.pending[|s.pending| - 1];
    assert id in s.pending && id !in t.pending;
    if id == m {
      OthersInStep(s, t, p, m);
      assert Holder(t.procs[p]) == Some(m);
    } else {
      assert m in s.pending ==> m in t.pending;
      LeavesAccounted(s, t, p, m);
    }
  }

  predicate Writes(s: State, p: nat, m: Id) {
    Enabled(s, p, Proceed) && s.procs[p].id == m
    && (s.procs[p].Submitting? || s.procs[p].Claiming? || s.procs[p].CompleteSet? || s.procs[p].FailSet?)
  }

  // SET of the record by its owner.
  lemma WriteAccounted(s: State, p: nat, m: Id)
    requires Safe(s) && Accounted(s, m) && Writes(s, p, m)
    ensures Accounted(Next(s, p, Proceed), m)
  {
    var t := Next(s, p, Proceed);
    assert Holder(s.procs[p]) == Some(m) && InStep(s, s.procs[p], m);
    OthersInStep(s, t, p, m);
    assert Holder(t.procs[p]) == Some(m);
  }

  // The owner lets go of the job: finished, or pushed to a list.
  lemma HandoverAccounted(s: State, p: nat, m: Id)
    requires Safe(s) && Accounted(s, m) && Enabled(s, p, Proceed) && s.procs[p].id == m
    requires s.procs[p].CompleteRem? || s.procs[p].Submitted? || s.procs[p].FailPush?
    ensures Accounted(Next(s, p, Proceed), m)
  {
    assert Holder(s.procs[p]) == Some(m) && InStep(s, s.procs[p], m);
    OthersInStep(s, Next(s, p, Proceed), p, m);
  }

  lemma StepAccounted(s: State, p: nat, a: Action, m: Id)
    requires Safe(s) && Accounted(s, m) && Enabled(s, p, a) && Spares(a, m)
    ensures Accounted(Next(s, p, a), m)
  {
    assert InStep(s, s.procs[p], m);
    if a.StartClaim? {
      ClaimAccounted(s, p, m);
    } else if !a.Proceed? {
      MoveLeaves(s, p, a, m);
      LeavesAccounted(s, Next(s, p, a), p, m);
    } else if OnOther(s, p, m) {
      OtherLeaves(s, p, m);
      LeavesAccounted(s, Next(s, p, a), p, m);
    } else if Looks(s.procs[p]) {
      LookLeaves(s, p, m);
      LeavesAccounted(s, Next(s, p, a), p, m);
    } else if Writes(s, p, m) {
      WriteAccounted(s, p, m);
    } else {
      HandoverAccounted(s, p, m);
    }
  }

  lemma {:induction false} RunAccounted(s: State, run: seq<Event>, m: Id)
    requires Safe(s) && Accounted(s, m) && ValidRun(s, run) && SparingRun(run, m)
    ensures Safe(After(s, run)) && Accounted(After(s, run), m)
    decreases |run|
  {
    if run != [] {
      assert Spares(run[0].action, m);
      StepSafe(s, run[0].p, run[0].action);
      StepAccounted(s, run[0].p, run[0].action, m);
      RunAccounted(Next(s, run[0].p, run[0].action), run[1..], m);
    }
  }

  // ---------------------------------------------------------------- every run

  predicate AtPlace(s: State, m: Id) {
    m in s.jobs ==>
      && (s.jobs[m].status == Pending <==> m in s.pending)
      && (s.jobs[m].status == Dead <==> m in s.dlq)
      && (s.jobs[m].status == Completed <==> m !in s.pending && m !in s.dlq)
  }

  // When nobody owns it, a job that was neither cancelled nor expired is in exactly the
  // place its status says.
  lemma AtRest(s: State, run: seq<Event>, m: Id)
    requires Initial(s) && ValidRun(s, run) && SparingRun(run, m)
    requires !Held(After(s, run), m)
    ensures AtPlace(After(s, run), m) && m !in After(s, run).processing
  {
    InitialSafe(s);
    RunAccounted(s, run, m);
  }
}
