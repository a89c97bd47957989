// leader_only functions: each call tries once to take the lock under a fresh instance id,
// runs its body when it got the lock, and releases the lock at the end. Nothing renews the
// lock, so only the lease protects a body.
module LeaderOnly {
  import opened Wrappers

  datatype Lock = Lock(owner: nat, expiresAt: int)

  datatype Pc =
    | Outside          // before __aenter__
    | Acquired         // SET NX EX succeeded, the body has not begun
    | Body
    | Leaving          // the body has returned or raised, compare-and-delete comes next
    | Gone             // finished, not elected, or crashed

  // One call: where it is, and (history) when the lease ends that it obtained.
  datatype Call = Call(pc: Pc, leaseEnd: int)

  datatype State = State(now: int, lock: Option<Lock>, ttl: seq<nat>, calls: seq<Call>)

  datatype Action =
    | Tick(delay: nat)
    | TryAcquire
    | EnterBody
    | LeaveBody
    | Release
    | Crash

  predicate Enabled(s: State, i: nat, a: Action) {
    && i < |s.calls| == |s.ttl| && 0 < s.ttl[i]
    && match a
       case Tick(_) => true
       case TryAcquire => s.calls[i].pc.Outside?
       case EnterBody => s.calls[i].pc.Acquired?
       case LeaveBody => s.calls[i].pc.Body?
       case Release => s.calls[i].pc.Leaving?
       case Crash => !s.calls[i].pc.Gone?
  }

  predicate Owns(s: State, i: nat) {
    s.lock.Some? && s.lock.value.owner == i
  }

  function Goto(s: State, i: nat, pc: Pc): State
    requires i < |s.calls|
  {
    s.(calls := s.calls[i := s.calls[i].(pc := pc)])
  }

  function Next(s: State, i: nat, a: Action): State
    requires Enabled(s, i, a)
  {
    match a
    case Tick(delay) =>
      s.(now := s.now + delay,
         lock := if s.lock.Some? && s.lock.value.expiresAt <= s.now + delay then None else s.lock)
    case TryAcquire =>
      if s.lock.Some? then Goto(s, i, Gone)
      else
        var end := s.now + s.ttl[i];
        s.(lock := Some(Lock(i, end)), calls := s.calls[i := Call(Acquired, end)])
    case EnterBody => Goto(s, i, Body)
    case LeaveBody => Goto(s, i, Leaving)
    case Release => Goto(s, i, Gone).(lock := if Owns(s, i) then None else s.lock)
    case Crash => Goto(s, i, Gone)
  }

  predicate Initial(s: State) {
    s.lock.None? && forall i :: 0 <= i < |s.calls| ==> s.calls[i].pc.Outside?
  }

  datatype Event = Event(i: nat, action: Action)

  predicate ValidRun(s: State, run: seq<Event>)
    decreases |run|
  {
    run != [] ==>
      Enabled(s, run[0].i, run[0].action) && ValidRun(Next(s, run[0].i, run[0].action), run[1..])
  }

  function After(s: State, run: seq<Event>): State
    requires ValidRun(s, run)
    decreases |run|
  {
    if run == [] then s else After(Next(s, run[0].i, run[0].action), run[1..])
  }

  // From acquiring to releasing.
  predicate Inside(pc: Pc) {
    pc.Acquired? || pc.Body? || pc.Leaving?
  }

  predicate WithinLease(s: State, i: nat)
    requires i < |s.calls|
  {
    s.now < s.calls[i].leaseEnd
  }

  // Whoever is inside and within its lease owns the lock until that lease ends; nobody
  // else can free or extend it.
  predicate Safe(s: State) {
    && (forall i :: 0 <= i < |s.calls| && Inside(s.calls[i].pc) && WithinLease(s, i) ==>
          Owns(s, i) && s.lock.value.expiresAt == s.calls[i].leaseEnd)
    && (s.lock.Some? ==> s.now < s.lock.value.expiresAt)
  }

  lemma StepSafe(s: State, i: nat, a: Action)
    requires Safe(s) && Enabled(s, i, a)
    ensures Safe(Next(s, i, a))
  {
    var t := Next(s, i, a);
    forall k | 0 <= k < |t.calls| && Inside(t.calls[k].pc) && WithinLease(t, k)
      ensures Owns(t, k) && t.lock.value.expiresAt == t.calls[k].leaseEnd
    {
      assert k != i ==> t.calls[k] == s.calls[k];
    }
  }

  lemma {:induction false} RunSafe(s: State, run: seq<Event>)
    requires Safe(s) && ValidRun(s, run)
    ensures Safe(After(s, run))
    decreases |run|
  {
    if run != [] {
      StepSafe(s, run[0].i, run[0].action);
      RunSafe(Next(s, run[0].i, run[0].action), run[1..]);
    }
  }

  // Two bodies that are both still within their leases are one and the same, in every
  // run, however late any call begins its body or releases the lock.
  lemma BodiesNeverOverlap(s: State, run: seq<Event>, i: nat, k: nat)
    requires Initial(s) && ValidRun(s, run) && i < |After(s, run).calls| && k < |After(s, run).calls|
    requires After(s, run).calls[i].pc.Body? && WithinLease(After(s, run), i)
    requires After(s, run).calls[k].pc.Body? && WithinLease(After(s, run), k)
    ensures i == k
  {
    RunSafe(s, run);
    var t := After(s, run);
    assert Owns(t, i) && Owns(t, k);
  }

  // A call that finds the lock free holds it for one lease while its body runs, and frees it
  // afterwards; one that finds it taken ends without a body and without touching it.
  lemma CallAlone(s: State, i: nat)
    requires Enabled(s, i, TryAcquire)
    ensures var t := Next(s, i, TryAcquire);
            if s.lock.Some? then
              t == s.(calls := s.calls[i := s.calls[i].(pc := Gone)])
            else
              && Enabled(t, i, EnterBody)
              && var body := Next(t, i, EnterBody);
              && body.calls[i].pc.Body? && body.lock == Some(Lock(i, s.now + s.ttl[i])) && body.now == s.now
              && body.calls[i].leaseEnd == s.now + s.ttl[i] && Enabled(body, i, LeaveBody)
              && Enabled(Next(body, i, LeaveBody), i, Release)
              && var last := Next(Next(body, i, LeaveBody), i, Release);
              last.lock.None? && last.calls == s.calls[i := last.calls[i]] && last.calls[i].pc.Gone?
  {
  }

  // After its lease is over, a call does not free the lock of another.
  lemma LateReleaseAlone(s: State, i: nat)
    requires Enabled(s, i, Release) && !Owns(s, i)
    ensures Next(s, i, Release) == s.(calls := s.calls[i := s.calls[i].(pc := Gone)])
  {
  }

  // A call that crashes inside leaves the lock to its lease: it is free exactly from then on.
  lemma CrashAlone(s: State, i: nat, k: nat, delay: nat)
    requires Safe(s) && Enabled(s, i, Crash) && Inside(s.calls[i].pc) && WithinLease(s, i)
    requires k < |s.calls| && 0 < s.ttl[k]
    ensures var t := Next(s, i, Crash);
            && t.lock == s.lock && t.calls[i].pc.Gone? && t.calls == s.calls[i := t.calls[i]]
            && Enabled(t, k, Tick(delay))
            && (Next(t, k, Tick(delay)).lock.None? <==> s.calls[i].leaseEnd <= s.now + delay)
  {
    assert Owns(s, i);
  }

  // ---------------------------------------------------------------- how long a body may run

  // Nobody inside has overrun its lease.
  predicate AllWithin(s: State) {
    forall i :: 0 <= i < |s.calls| && Inside(s.calls[i].pc) ==> WithinLease(s, i)
  }

  predicate NoDelay(run: seq<Event>) {
    forall n :: 0 <= n < |run| ==> !run[n].action.Tick?
  }

  // A run after which two bodies are running.
  predicate Overlaps(s: State, run: seq<Event>, i: nat, k: nat) {
    && ValidRun(s, run) && NoDelay(run) && k != i
    && i < |After(s, run).calls| && k < |After(s, run).calls|
    && After(s, run).calls[i].pc.Body? && After(s, run).calls[k].pc.Body?
  }

  // Another call can begin its body, without any further delay, while i is in its own.
  ghost predicate CanOverlap(s: State, i: nat) {
    exists run, k :: Overlaps(s, run, i, k)
  }

  lemma {:induction false} StillWithin(s: State, run: seq<Event>)
    requires AllWithin(s) && ValidRun(s, run) && NoDelay(run)
    ensures AllWithin(After(s, run))
    decreases |run|
  {
    if run != [] {
      var t := Next(s, run[0].i, run[0].action);
      assert !run[0].action.Tick?;
      forall k | 0 <= k < |t.calls| && Inside(t.calls[k].pc) ensures WithinLease(t, k) {
        assert k != run[0].i ==> t.calls[k] == s.calls[k];
      }
      StillWithin(t, run[1..]);
    }
  }

  lemma WithinCannotOverlap(s: State, run: seq<Event>, i: nat, k: nat)
    requires Safe(s) && AllWithin(s)
    ensures !Overlaps(s, run, i, k)
  {
    if ValidRun(s, run) && NoDelay(run) {
      StillWithin(s, run);
      RunSafe(s, run);
    }
  }

  // With the lock free, a call that has not begun takes it and begins its body.
  lemma FreeLockOverlaps(s: State, i: nat, k: nat)
    requires i < |s.calls| && s.calls[i].pc.Body? && s.lock.None?
    requires k < |s.calls| == |s.ttl| && 0 < s.ttl[k] && s.calls[k].pc.Outside?
    ensures CanOverlap(s, i)
  {
    var s1 := Next(s, k, TryAcquire);
    var s2 := Next(s1, k, EnterBody);
    var last, run := [Event(k, EnterBody)], [Event(k, TryAcquire)] + [Event(k, EnterBody)];
    assert last[1..] == [] && run[1..] == last;
    assert After(s1, last) == s2 && After(s, run) == s2;
    assert Overlaps(s, run, i, k);
  }

  // While some call has not begun, a body may go on for a delay without being overlapped if
  // and only if the delay ends within its lease.
  lemma OverlapExactly(s: State, i: nat, k: nat, delay: nat)
    requires Safe(s) && AllWithin(s) && i < |s.calls| && s.calls[i].pc.Body?
    requires Enabled(s, k, TryAcquire)
    ensures CanOverlap(Next(s, k, Tick(delay)), i) <==> s.calls[i].leaseEnd <= s.now + delay
  {
    var t := Next(s, k, Tick(delay));
    assert Owns(s, i);
    if s.calls[i].leaseEnd <= s.now + delay {
      FreeLockOverlaps(t, i, k);
    } else {
      StepSafe(s, k, Tick(delay));
      forall j | 0 <= j < |t.calls| && Inside(t.calls[j].pc) ensures WithinLease(t, j) {
        assert Owns(s, j);
      }
      forall run, j: nat ensures !Overlaps(t, run, i, j) {
        WithinCannotOverlap(t, run, i, j);
      }
    }
  }
}
