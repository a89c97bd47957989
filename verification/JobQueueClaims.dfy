// Claims of one job over every run, with cancels, Redis errors, lost replies and expiry: the
// record counts them, and they stay within their bound, exactly as long as no cancel writes
// back a record that it read before a claim. The pending list keeps its order regardless.
module JobQueueClaims {
  import opened Wrappers
  import opened Sequences
  import opened JobQueue
  import opened JobQueueSafety

  // ---------------------------------------------------------------- the invariant for one job

  // max(1, max_retries)
  function Bound(limit: int): int {
    if limit > 1 then limit else 1
  }

  // One more claim stays within the bound.
  predicate MayRun(s: State, m: Id, limit: int) {
    Claims(s, m) < Bound(limit)
  }

  predicate Counts(s: State, m: Id, job: Job, limit: int) {
    job.maxRetries == limit && job.attempts == Claims(s, m)
  }

  // The copy of the record that a process holds, if it is one of this job; cancellers may
  // hold an old one.
  predicate CopyFits(s: State, pc: Pc, m: Id, limit: int) {
    match pc
    case Submitting(id, job) => id == m ==> Counts(s, m, job, limit) && MayRun(s, m, limit)
    case Submitted(id) => id == m ==> MayRun(s, m, limit)
    case Popped(id) => id == m ==> MayRun(s, m, limit)
    case Claiming(id, job) => id == m ==> Counts(s, m, job, limit) && MayRun(s, m, limit)
    case CompleteSet(id, job) => id == m ==> Counts(s, m, job, limit)
    case FailRem(id, job, _) => id == m ==> Counts(s, m, job, limit)
    case FailSet(id, job, _) => id == m ==> Counts(s, m, job, limit)
    case FailPush(id, again) => id == m && again ==> MayRun(s, m, limit)
    case CancelPending(id, job) => id == m ==> job.maxRetries == limit
    case CancelProcessing(id, job) => id == m ==> job.maxRetries == limit
    case CancelSet(id, job) => id == m ==> job.maxRetries == limit
    case _ => true
  }

  predicate CancelCopy(pc: Pc, m: Id) {
    (pc.CancelPending? || pc.CancelProcessing? || pc.CancelSet?) && pc.id == m
  }

  // Before its submission a job has left no trace.
  predicate Untouched(s: State, m: Id) {
    m !in s.jobs && m !in s.claims && forall p :: 0 <= p < |s.procs| ==> !CancelCopy(s.procs[p], m)
  }

  predicate Tracked(s: State, m: Id, limit: int) {
    && Claims(s, m) <= Bound(limit)
    && (m in s.jobs ==> Counts(s, m, s.jobs[m], limit))
    && (m in s.pending ==> MayRun(s, m, limit))
    && (forall p :: 0 <= p < |s.procs| ==> CopyFits(s, s.procs[p], m, limit))
    && (m !in s.used ==> Untouched(s, m))
  }

  // A cancel that overwrites the record with one it read before a claim.
  predicate StaleCancel(s: State, p: nat, a: Action, m: Id) {
    p < |s.procs| && a.Proceed? && s.procs[p].CancelSet? && s.procs[p].id == m
    && s.procs[p].job.attempts != Claims(s, m)
  }

  // ---------------------------------------------------------------- one step

  // The processes that do not move keep fitting copies as long as the claims do not change.
  lemma OthersFit(s: State, t: State, p: nat, m: Id, limit: int)
    requires Tracked(s, m, limit) && p < |s.procs| && |t.procs| == |s.procs| && t.procs == s.procs[p := t.procs[p]]
    requires Claims(t, m) == Claims(s, m) && CopyFits(t, t.procs[p], m, limit)
    ensures forall q :: 0 <= q < |t.procs| ==> CopyFits(t, t.procs[q], m, limit)
  {
    forall q | 0 <= q < |t.procs| ensures CopyFits(t, t.procs[q], m, limit) {
      if q != p {
        assert t.procs[q] == s.procs[q] && CopyFits(s, s.procs[q], m, limit);
      }
    }
  }

  // Everything but the commands of a call.
  lemma MoveTracked(s: State, p: nat, a: Action, m: Id, limit: int)
    requires Safe(s) && Enabled(s, p, a) && Tracked(s, m, limit) && !a.Proceed?
    requires a.StartSubmit? && a.id == m ==> a.maxRetries == limit
    ensures Tracked(Next(s, p, a), m, limit)
  {
    var t := Next(s, p, a);
    if a.LostReply? {
      RemoveFirstOf(s.processing, s.procs[p].id);
    }
    if a.StartClaim? {
      assert s.pending[|s.pending| - 1] in s.pending;
    }
    OthersFit(s, t, p, m, limit);
  }

  predicate WritesRecord(pc: Pc) {
    pc.Submitting? || pc.Claiming? || pc.CompleteSet? || pc.FailSet? || pc.CancelSet?
  }

  predicate ReadsRecord(pc: Pc) {
    pc.Popped? || pc.CompleteGet? || pc.FailGet? || pc.CancelGet?
  }

  lemma ReadTracked(s: State, p: nat, m: Id, limit: int)
    requires Safe(s) && Enabled(s, p, Proceed) && Tracked(s, m, limit) && ReadsRecord(s.procs[p])
    ensures Tracked(Next(s, p, Proceed), m, limit)
  {
    var t := Next(s, p, Proceed);
    assert CopyFits(s, s.procs[p], m, limit);
    assert CopyFits(t, t.procs[p], m, limit);
    OthersFit(s, t, p, m, limit);
  }

  lemma ListTracked(s: State, p: nat, m: Id, limit: int)
    requires Safe(s) && Enabled(s, p, Proceed) && Tracked(s, m, limit)
    requires !ReadsRecord(s.procs[p]) && !WritesRecord(s.procs[p])
    ensures Tracked(Next(s, p, Proceed), m, limit)
  {
    var t := Next(s, p, Proceed);
    assert CopyFits(s, s.procs[p], m, limit);
    if m in t.pending {
      PendingAfter(s, p, m);
    }
    OthersFit(s, t, p, m, limit);
  }

  // Only a push makes a job pending.
  lemma PendingAfter(s: State, p: nat, m: Id)
    requires Enabled(s, p, Proceed) && m in Next(s, p, Proceed).pending
    ensures m in s.pending || s.procs[p] == Submitted(m) || s.procs[p] == FailPush(m, true)
  {
    if s.procs[p].CancelPending? {
      RemoveFirstOf(s.pending, s.procs[p].id);
    }
  }

  lemma WriteTracked(s: State, p: nat, m: Id, limit: int)
    requires Safe(s) && Enabled(s, p, Proceed) && Tracked(s, m, limit)
    requires WritesRecord(s.procs[p]) && !s.procs[p].Claiming? && !StaleCancel(s, p, Proceed, m)
    ensures Tracked(Next(s, p, Proceed), m, limit)
  {
    assert CopyFits(s, s.procs[p], m, limit);
    OthersFit(s, Next(s, p, Proceed), p, m, limit);
  }

  // A claim raises the count; nobody else has a copy that it makes old, except cancellers.
  lemma ClaimTracked(s: State, p: nat, m: Id, limit: int)
    requires Safe(s) && Enabled(s, p, Proceed) && Tracked(s, m, limit) && s.procs[p].Claiming?
    ensures Tracked(Next(s, p, Proceed), m, limit)
  {
    var t := Next(s, p, Proceed);
    assert CopyFits(s, s.procs[p], m, limit);
    if s.procs[p].id == m {
      assert Holder(s.procs[p]) == Some(m);
      forall q | 0 <= q < |t.procs| ensures CopyFits(t, t.procs[q], m, limit) {
        if q != p {
          assert t.procs[q] == s.procs[q] && CopyFits(s, s.procs[q], m, limit);
          assert Holder(s.procs[q]) != Some(m);
        }
      }
    } else {
      OthersFit(s, t, p, m, limit);
    }
  }

  lemma StepTracked(s: State, p: nat, a: Action, m: Id, limit: int)
    requires Safe(s) && Enabled(s, p, a) && Tracked(s, m, limit) && !StaleCancel(s, p, a, m)
    requires a.StartSubmit? && a.id == m ==> a.maxRetries == limit
    ensures Tracked(Next(s, p, a), m, limit)
  {
    if !a.Proceed? {
      MoveTracked(s, p, a, m, limit);
    } else if s.procs[p].Claiming? {
      ClaimTracked(s, p, m, limit);
    } else if WritesRecord(s.procs[p]) {
      WriteTracked(s, p, m, limit);
    } else if ReadsRecord(s.procs[p]) {
      ReadTracked(s, p, m, limit);
    } else {
      ListTracked(s, p, m, limit);
    }
  }

  // The retry limit of a job is fixed by its submission.
  ghost predicate TrackedJob(s: State, m: Id) {
    exists limit :: Tracked(s, m, limit)
  }

  predicate Counted(s: State, m: Id) {
    m in s.jobs ==> s.jobs[m].attempts == Claims(s, m)
  }

  // Every step of every process keeps the record counting the claims, if and only if it is
  // not a cancel with an old copy.
  lemma CountedExactly(s: State, p: nat, a: Action, m: Id)
    requires Safe(s) && Enabled(s, p, a) && TrackedJob(s, m)
    ensures Counted(Next(s, p, a), m) <==> !StaleCancel(s, p, a, m)
    ensures !StaleCancel(s, p, a, m) ==> TrackedJob(Next(s, p, a), m)
  {
    var limit :| Tracked(s, m, limit);
    if !StaleCancel(s, p, a, m) {
      if a.StartSubmit? && a.id == m {
        assert m !in s.pending && Tracked(s, m, a.maxRetries);
        limit := a.maxRetries;
      }
      StepTracked(s, p, a, m, limit);
    }
  }

  // ---------------------------------------------------------------- claims behind the back of a cancel

  predicate StoresClaim(s: State, p: nat, a: Action, m: Id) {
    p < |s.procs| && a.Proceed? && s.procs[p].Claiming? && s.procs[p].id == m
  }

  predicate ReadsForCancel(s: State, p: nat, a: Action, m: Id) {
    p < |s.procs| && a.Proceed? && s.procs[p].CancelGet? && s.procs[p].id == m
  }

  // The processes whose cancel has read the record before the last claim: a claim overtakes
  // every cancel that is under way, and a new cancel starts afresh.
  function Overtaken(s: State, p: nat, a: Action, m: Id, old_: set<nat>): set<nat> {
    if StoresClaim(s, p, a, m) then set q | 0 <= q < |s.procs| && CancelCopy(s.procs[q], m)
    else if ReadsForCancel(s, p, a, m) then old_ - {p}
    else old_
  }

  // The copies of the overtaken cancels are behind, the others are not.
  predicate Ages(s: State, m: Id, old_: set<nat>) {
    forall p :: 0 <= p < |s.procs| && CancelCopy(s.procs[p], m) ==>
      if p in old_ then s.procs[p].job.attempts < Claims(s, m) else s.procs[p].job.attempts == Claims(s, m)
  }

  lemma ClaimsAfter(s: State, p: nat, a: Action, m: Id)
    requires Enabled(s, p, a)
    ensures Claims(Next(s, p, a), m) == Claims(s, m) + if StoresClaim(s, p, a, m) then 1 else 0
  {
  }

  // A process that now holds a copy for a cancel has just read it, or held it before.
  predicate CopyComes(s: State, t: State, p: nat, a: Action, m: Id) {
    && p < |s.procs| == |t.procs|
    && (CancelCopy(t.procs[p], m) ==>
          if ReadsForCancel(s, p, a, m) then m in s.jobs && t.procs[p].job == s.jobs[m]
          else CancelCopy(s.procs[p], m) && t.procs[p].job == s.procs[p].job)
  }

  lemma CommandCopies(s: State, p: nat, m: Id)
    requires Enabled(s, p, Proceed)
    ensures CopyComes(s, Next(s, p, Proceed), p, Proceed, m)
  {
    var pc := Next(s, p, Proceed).procs[p];
    if CancelCopy(s.procs[p], m) {
      assert CancelCopy(pc, m) ==> pc.job == s.procs[p].job;
    }
  }

  lemma CopiesAfter(s: State, p: nat, a: Action, m: Id)
    requires Enabled(s, p, a)
    ensures CopyComes(s, Next(s, p, a), p, a, m)
  {
    if a.Proceed? {
      CommandCopies(s, p, m);
    }
  }

  predicate OthersSame(s: State, t: State, p: nat) {
    |t.procs| == |s.procs| && forall q :: 0 <= q < |s.procs| && q != p ==> t.procs[q] == s.procs[q]
  }

  lemma CommandOthers(s: State, p: nat)
    requires Enabled(s, p, Proceed)
    ensures OthersSame(s, Next(s, p, Proceed), p)
  {
    var t := Next(s, p, Proceed);
    assert t.procs == s.procs[p := t.procs[p]];
  }

  lemma OthersStay(s: State, p: nat, a: Action)
    requires Enabled(s, p, a)
    ensures OthersSame(s, Next(s, p, a), p)
  {
    if a.Proceed? {
      CommandOthers(s, p);
    }
  }

  lemma StepAges(s: State, p: nat, a: Action, m: Id, old_: set<nat>)
    requires Enabled(s, p, a) && Counted(s, m) && Ages(s, m, old_)
    ensures Ages(Next(s, p, a), m, Overtaken(s, p, a, m, old_))
  {
    var t, now := Next(s, p, a), Overtaken(s, p, a, m, old_);
    ClaimsAfter(s, p, a, m);
    CopiesAfter(s, p, a, m);
    OthersStay(s, p, a);
    forall q | 0 <= q < |t.procs| && CancelCopy(t.procs[q], m)
      ensures if q in now then t.procs[q].job.attempts < Claims(t, m) else t.procs[q].job.attempts == Claims(t, m)
    {
      assert q != p ==> t.procs[q] == s.procs[q];
    }
  }

  // A cancel that writes its copy although a claim has been stored since it read it.
  predicate UndoesClaim(s: State, p: nat, a: Action, m: Id, old_: set<nat>) {
    p in old_ && p < |s.procs| && a.Proceed? && s.procs[p].CancelSet? && s.procs[p].id == m
  }

  lemma StaleIsOvertaken(s: State, p: nat, a: Action, m: Id, old_: set<nat>)
    requires Ages(s, m, old_)
    ensures StaleCancel(s, p, a, m) <==> UndoesClaim(s, p, a, m, old_)
  {
  }

  // ---------------------------------------------------------------- every run

  // No cancel writes its copy after a claim that was stored since its GET.
  predicate NoClaimUndone(s: State, run: seq<Event>, m: Id, old_: set<nat>)
    requires ValidRun(s, run)
    decreases |run|
  {
    run != [] ==>
      && !UndoesClaim(s, run[0].p, run[0].action, m, old_)
      && NoClaimUndone(Next(s, run[0].p, run[0].action), run[1..], m,
                       Overtaken(s, run[0].p, run[0].action, m, old_))
  }

  function OvertakenBy(s: State, run: seq<Event>, m: Id, old_: set<nat>): set<nat>
    requires ValidRun(s, run)
    decreases |run|
  {
    if run == [] then old_
    else
      OvertakenBy(Next(s, run[0].p, run[0].action), run[1..], m, Overtaken(s, run[0].p, run[0].action, m, old_))
  }

  // In every state of the run the record counts the claims.
  predicate AlwaysCounted(s: State, run: seq<Event>, m: Id)
    requires ValidRun(s, run)
    decreases |run|
  {
    Counted(s, m) && (run != [] ==> AlwaysCounted(Next(s, run[0].p, run[0].action), run[1..], m))
  }

  lemma {:induction false} RunCounted(s: State, run: seq<Event>, m: Id, old_: set<nat>)
    requires Safe(s) && ValidRun(s, run) && TrackedJob(s, m) && Ages(s, m, old_)
    ensures AlwaysCounted(s, run, m) <==> NoClaimUndone(s, run, m, old_)
    ensures NoClaimUndone(s, run, m, old_) ==>
              TrackedJob(After(s, run), m) && Ages(After(s, run), m, OvertakenBy(s, run, m, old_))
    decreases |run|
  {
    if run != [] {
      var p, a := run[0].p, run[0].action;
      StepSafe(s, p, a);
      CountedExactly(s, p, a, m);
      StaleIsOvertaken(s, p, a, m, old_);
      if !StaleCancel(s, p, a, m) {
        StepAges(s, p, a, m, old_);
        RunCounted(Next(s, p, a), run[1..], m, Overtaken(s, p, a, m, old_));
      }
    }
  }

  lemma InitialTracked(s: State, m: Id)
    requires Initial(s)
    ensures TrackedJob(s, m) && Ages(s, m, {})
  {
    assert Tracked(s, m, 0);
  }

  // After every run without such a cancel, the copy that a cancel is about to write is out
  // of step with the claims if and only if a claim was stored since that cancel read it.
  lemma StaleExactly(s: State, run: seq<Event>, p: nat, a: Action, m: Id)
    requires Initial(s) && ValidRun(s, run) && NoClaimUndone(s, run, m, {})
    ensures var t := After(s, run); StaleCancel(t, p, a, m) <==> UndoesClaim(t, p, a, m, OvertakenBy(s, run, m, {}))
  {
    InitialSafe(s);
    InitialTracked(s, m);
    RunCounted(s, run, m, {});
    StaleIsOvertaken(After(s, run), p, a, m, OvertakenBy(s, run, m, {}));
  }

  // Throughout a run `attempts` is the number of claims, if and only if no cancel writes its
  // copy back after a claim was stored between its GET and its SET.
  lemma AttemptsCountClaims(s: State, run: seq<Event>, m: Id)
    requires Initial(s) && ValidRun(s, run)
    ensures AlwaysCounted(s, run, m) <==> NoClaimUndone(s, run, m, {})
  {
    InitialSafe(s);
    InitialTracked(s, m);
    RunCounted(s, run, m, {});
  }

  // And then there are never more than max(1, max_retries) claims, whatever else is
  // cancelled, expires, crashes or fails.
  lemma ClaimsBounded(s: State, run: seq<Event>, m: Id)
    requires Initial(s) && ValidRun(s, run) && NoClaimUndone(s, run, m, {})
    ensures var t := After(s, run); m in t.jobs ==> t.jobs[m].attempts == Claims(t, m) <= Bound(t.jobs[m].maxRetries)
  {
    InitialSafe(s);
    InitialTracked(s, m);
    RunCounted(s, run, m, {});
  }

  // ---------------------------------------------------------------- order of the pending list

  function Reverse(s: seq<Id>): (r: seq<Id>)
    ensures |r| == |s|
  {
    if s == [] then [] else Reverse(s[1..]) + [s[0]]
  }

  lemma {:induction false} ReverseSnoc(s: seq<Id>, id: Id)
    ensures Reverse(s + [id]) == [id] + Reverse(s)
  {
    if s == [] {
      assert s + [id] == [id];
    } else {
      assert (s + [id])[1..] == s[1..] + [id];
      ReverseSnoc(s[1..], id);
    }
  }

  // a is b with some entries left out.
  predicate Within(a: seq<Id>, b: seq<Id>)
    decreases |b|
  {
    a == [] || (b != [] && ((a[0] == b[0] && Within(a[1..], b[1..])) || Within(a, b[1..])))
  }

  lemma {:induction false} WithinSnoc(a: seq<Id>, b: seq<Id>, x: Id)
    requires Within(a, b)
    ensures Within(a + [x], b + [x])
    decreases |b|
  {
    if b == [] {
      assert a + [x] == b + [x] == [x] && [x][1..] == [];
    } else {
      TailOfAppend(b, [x]);
      if a == [] {
        WithinSnoc(a, b[1..], x);
      } else {
        TailOfAppend(a, [x]);
        if a[0] == b[0] && Within(a[1..], b[1..]) {
          WithinSnoc(a[1..], b[1..], x);
        } else {
          WithinSnoc(a, b[1..], x);
        }
      }
    }
  }

  lemma {:induction false} WithinDrop(a: seq<Id>, i: nat, b: seq<Id>)
    requires i < |a| && Within(a, b)
    ensures Within(Without(a, i), b)
    decreases |b|
  {
    if a[0] == b[0] && Within(a[1..], b[1..]) {
      if i == 0 {
        assert Without(a, 0) == a[1..];
      } else {
        WithinDrop(a[1..], i - 1, b[1..]);
        assert Without(a, i)[1..] == Without(a[1..], i - 1);
      }
    } else {
      WithinDrop(a, i, b[1..]);
    }
  }

  lemma {:induction false} WithinLength(a: seq<Id>, b: seq<Id>)
    requires Within(a, b)
    ensures |a| <= |b| && (|a| == |b| ==> a == b)
    decreases |b|
  {
    if a != [] {
      if a[0] == b[0] && Within(a[1..], b[1..]) {
        WithinLength(a[1..], b[1..]);
        HeadAndTail(a);
        HeadAndTail(b);
      } else {
        WithinLength(a, b[1..]);
      }
    }
  }

  lemma {:induction false} ReverseRemoved(ids: seq<Id>, id: Id) returns (k: nat)
    requires id in ids
    ensures k < |Reverse(ids)| && Reverse(RemoveFirst(ids, id)) == Without(Reverse(ids), k)
  {
    var tail := Reverse(ids[1..]);
    if ids[0] == id {
      k := |tail|;
      assert Without(tail + [id], k) == tail;
    } else {
      HeadAndTail(ids);
      k := ReverseRemoved(ids[1..], id);
      TailOfAppend([ids[0]], RemoveFirst(ids[1..], id));
      assert Without(tail + [ids[0]], k) == Without(tail, k) + [ids[0]];
    }
  }

  // The ids claimed so far and then those waiting, the next one first.
  function Line(s: State): seq<Id> {
    s.popped + Reverse(s.pending)
  }

  // A cancel takes a waiting job out of the line.
  predicate Withdraws(s: State, p: nat, a: Action) {
    p < |s.procs| && a.Proceed? && s.procs[p].CancelPending? && s.procs[p].id in s.pending
  }

  lemma WithdrawLine(s: State, p: nat)
    requires Enabled(s, p, Proceed) && Withdraws(s, p, Proceed) && Within(Line(s), s.pushed)
    ensures var t := Next(s, p, Proceed);
            t.pushed == s.pushed && Within(Line(t), s.pushed) && |Line(t)| + 1 == |Line(s)|
  {
    var k := ReverseRemoved(s.pending, s.procs[p].id);
    WithoutBehind(s.popped, Reverse(s.pending), k);
    WithinDrop(Line(s), |s.popped| + k, s.pushed);
  }

  lemma WithoutBehind(a: seq<Id>, b: seq<Id>, k: nat)
    requires k < |b|
    ensures Without(a + b, |a| + k) == a + Without(b, k)
  {
  }

  lemma PushLine(s: State, id: Id)
    requires Within(Line(s), s.pushed)
    ensures s.popped + Reverse([id] + s.pending) == Line(s) + [id] && Within(Line(s) + [id], s.pushed + [id])
  {
    TailOfAppend([id], s.pending);
    AppendNothing(s.pending);
    Associative(s.popped, Reverse(s.pending), [id]);
    WithinSnoc(Line(s), s.pushed, id);
  }

  lemma ClaimLine(s: State, p: nat)
    requires Enabled(s, p, StartClaim)
    ensures Line(Next(s, p, StartClaim)) == Line(s)
  {
    var n := |s.pending| - 1;
    TakeAndDrop(s.pending, n);
    ReverseSnoc(s.pending[..n], s.pending[n]);
    assert s.pending[n..] == [s.pending[n]];
    Associative(s.popped, [s.pending[n]], Reverse(s.pending[..n]));
  }

  lemma StepLine(s: State, p: nat, a: Action)
    requires Enabled(s, p, a) && Within(Line(s), s.pushed)
    ensures var t := Next(s, p, a);
            && Within(Line(t), t.pushed)
            && |t.pushed| + |Line(s)| == |s.pushed| + |Line(t)| + if Withdraws(s, p, a) then 1 else 0
  {
    if a.StartClaim? {
      ClaimLine(s, p);
    } else if Withdraws(s, p, a) {
      WithdrawLine(s, p);
    } else if Pushes(s, p, a) {
      PushLine(s, s.procs[p].id);
    } else {
      OtherLine(s, p, a);
    }
  }

  predicate Pushes(s: State, p: nat, a: Action) {
    p < |s.procs| && a.Proceed? && (s.procs[p].Submitted? || (s.procs[p].FailPush? && s.procs[p].again))
  }

  lemma OtherLine(s: State, p: nat, a: Action)
    requires Enabled(s, p, a) && !a.StartClaim? && !Withdraws(s, p, a) && !Pushes(s, p, a)
    ensures var t := Next(s, p, a); t.pending == s.pending && t.popped == s.popped && t.pushed == s.pushed
  {
    if a.Proceed? && s.procs[p].CancelPending? {
      RemoveFirstOf(s.pending, s.procs[p].id);
    }
  }

  function Withdrawn(s: State, run: seq<Event>): nat
    requires ValidRun(s, run)
    decreases |run|
  {
    if run == [] then 0
    else
      (if Withdraws(s, run[0].p, run[0].action) then 1 else 0)
      + Withdrawn(Next(s, run[0].p, run[0].action), run[1..])
  }

  lemma {:induction false} RunLine(s: State, run: seq<Event>)
    requires ValidRun(s, run) && Within(Line(s), s.pushed)
    ensures var t := After(s, run);
            Within(Line(t), t.pushed) && |t.pushed| + |Line(s)| == |s.pushed| + |Line(t)| + Withdrawn(s, run)
    decreases |run|
  {
    if run != [] {
      StepLine(s, run[0].p, run[0].action);
      RunLine(Next(s, run[0].p, run[0].action), run[1..]);
    }
  }

  // In every run the jobs claimed and then those waiting are the pushed ones in their order,
  // retries included, with nothing left out if and only if no cancel withdrew a waiting job.
  lemma FirstInFirstOut(s: State, run: seq<Event>)
    requires Initial(s) && ValidRun(s, run)
    ensures var t := After(s, run);
            && Within(Line(t), t.pushed)
            && |t.pushed| == |Line(t)| + Withdrawn(s, run)
            && (Line(t) == t.pushed <==> Withdrawn(s, run) == 0)
  {
    RunLine(s, run);
    WithinLength(Line(After(s, run)), After(s, run).pushed);
  }
}
