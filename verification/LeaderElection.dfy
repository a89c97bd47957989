// Leader election over one Redis key with a time to live, as a timed state machine. Each
// step is one Redis command of one instance, one local assignment after its reply, or the
// passage of time. Replies may be lost, and a turn of the loop may be cut short by stop.
module LeaderElection {
  import opened Wrappers

  // The lock key while it exists: who holds it and when it expires.
  datatype Lock = Lock(owner: nat, expiresAt: int)

  // What an instance is about to do.
  datatype Pc =
    | Loop            // top of the election loop, or outside any call
    | GotLock         // SET NX EX succeeded, _is_leader not yet set
    | RenewChecked    // GET returned our id, EXPIRE comes next
    | Demoting        // renewal or __aenter__ was refused, _is_leader not yet cleared
    | Releasing       // the key was deleted, _is_leader not yet cleared
    | Gone            // crashed or stopped for good

  // One instance: what it believes, where it is, and (history) when the lease ends that
  // it last obtained or renewed, and whether it has deleted its lock since it obtained it.
  datatype Instance = Instance(isLeader: bool, pc: Pc, leaseEnd: int, released: bool)

  datatype State = State(
    now: int,
    lock: Option<Lock>,
    ttl: seq<nat>,              // lease_ttl of each instance
    instances: seq<Instance>,
    crashedAt: map<nat, int>)   // history: when each crashed instance crashed

  datatype Action =
    | Tick(delay: nat)
    | TryAcquire      // SET NX EX, also __aenter__
    | BecomeLeader    // _is_leader = True
    | CheckOwner      // GET of _renew_lock
    | Extend          // EXPIRE of _renew_lock
    | Demote          // _is_leader = False after a failed renewal
    | Fail            // an exception in the loop: _is_leader = False, the lock stays
    | Interrupt       // stop cancels a turn of the loop, or __aenter__ raises
    | Release         // EVAL: compare-and-delete of stop and __aexit__
    | NoteRelease     // _is_leader = False after the reply that the key was deleted
    | LoseReply       // that reply is lost: stop or __aexit__ raises
    | Crash

  function Live(lock: Option<Lock>, now: int): Option<Lock> {
    if lock.Some? && lock.value.expiresAt <= now then None else lock
  }

  predicate WellFormed(s: State) {
    |s.ttl| == |s.instances| && forall i :: 0 <= i < |s.ttl| ==> 0 < s.ttl[i]
  }

  // An instance that holds, or believes to hold, the leadership and has not given it up.
  predicate Leading(i: Instance) {
    !i.pc.Gone? && !i.released && (i.isLeader || i.pc.GotLock?)
  }

  // It has given up the lock, and is_leader does not know yet.
  predicate Unnoticed(i: Instance) {
    i.isLeader && i.released
  }

  // The assumption on timing: no leader lets its lease run out between two renewals.
  predicate Timely(s: State, delay: nat) {
    forall i :: 0 <= i < |s.instances| && Leading(s.instances[i]) ==> s.now + delay < s.instances[i].leaseEnd
  }

  // What the program text allows; time passes without any assumption here.
  predicate Enabled(s: State, i: nat, a: Action) {
    && WellFormed(s) && i < |s.instances|
    && (a.Tick? || !s.instances[i].pc.Gone?)
    && match a
       case Tick(_) => true
       case TryAcquire => s.instances[i].pc.Loop?
       case BecomeLeader => s.instances[i].pc.GotLock?
       case CheckOwner => s.instances[i].pc.Loop? && s.instances[i].isLeader
       case Extend => s.instances[i].pc.RenewChecked?
       case Demote => s.instances[i].pc.Demoting?
       case Fail => !s.instances[i].pc.Releasing?
       case Interrupt => s.instances[i].pc.GotLock? || s.instances[i].pc.RenewChecked? || s.instances[i].pc.Demoting?
       case Release => s.instances[i].pc.Loop? && s.instances[i].isLeader
       case NoteRelease => s.instances[i].pc.Releasing?
       case LoseReply => s.instances[i].pc.Releasing?
       case Crash => true
  }

  predicate Owns(s: State, i: nat) {
    s.lock.Some? && s.lock.value.owner == i
  }

  function Next(s: State, i: nat, a: Action): State
    requires Enabled(s, i, a)
  {
    var me := s.instances[i];
    match a
    case Tick(delay) => s.(now := s.now + delay, lock := Live(s.lock, s.now + delay))
    case TryAcquire =>
      // the loop does not ask while it leads; __aenter__ does, and a refusal clears is_leader
      if s.lock.Some? then s.(instances := s.instances[i := me.(pc := if me.isLeader then Demoting else Loop)])
      else
        var end := s.now + s.ttl[i];
        s.(lock := Some(Lock(i, end)),
           instances := s.instances[i := me.(pc := GotLock, leaseEnd := end, released := false)])
    case BecomeLeader => s.(instances := s.instances[i := me.(pc := Loop, isLeader := true)])
    case CheckOwner => s.(instances := s.instances[i := me.(pc := if Owns(s, i) then RenewChecked else Demoting)])
    case Extend =>
      // EXPIRE acts on whatever lock is there; a missing key is ignored
      var end := s.now + s.ttl[i];
      s.(lock := if s.lock.None? then None else Some(s.lock.value.(expiresAt := end)),
         instances := s.instances[i := me.(pc := Loop, leaseEnd := if Owns(s, i) then end else me.leaseEnd)])
    case Demote => s.(instances := s.instances[i := me.(pc := Loop, isLeader := false)])
    case Fail => s.(instances := s.instances[i := me.(pc := Loop, isLeader := false)])
    case Interrupt => s.(instances := s.instances[i := me.(pc := Loop)])
    case Release =>
      // the reply that nothing was deleted leaves is_leader as it is
      if Owns(s, i) then s.(lock := None, instances := s.instances[i := me.(pc := Releasing, released := true)])
      else s
    case NoteRelease => s.(instances := s.instances[i := me.(pc := Loop, isLeader := false)])
    case LoseReply => s.(instances := s.instances[i := me.(pc := Loop)])
    case Crash =>
      s.(instances := s.instances[i := me.(pc := Gone, isLeader := false)], crashedAt := s.crashedAt[i := s.now])
  }

  predicate Initial(s: State) {
    && WellFormed(s) && s.lock.None? && s.crashedAt == map[]
    && forall i :: 0 <= i < |s.instances| ==>
         !s.instances[i].isLeader && !s.instances[i].released && s.instances[i].pc.Loop?
  }

  // ---------------------------------------------------------------- the invariant

  // Every leader owns the lock, for exactly the lease it knows about.
  predicate LeadersOwn(s: State) {
    forall i :: 0 <= i < |s.instances| && Leading(s.instances[i]) ==>
      Owns(s, i) && s.lock.value.expiresAt == s.instances[i].leaseEnd
  }

  // Only leaders are inside a renewal, and a lock just obtained has not been given up.
  predicate RenewersLead(s: State) {
    forall i :: 0 <= i < |s.instances| ==>
      && (s.instances[i].pc.RenewChecked? ==> s.instances[i].isLeader && !s.instances[i].released)
      && (s.instances[i].pc.GotLock? ==> !s.instances[i].released)
  }

  // Who has deleted its lock does not own one.
  predicate ReleasedOwnNothing(s: State) {
    forall i :: 0 <= i < |s.instances| && s.instances[i].released ==> !Owns(s, i)
  }

  // The lock is live, belongs to an instance, and was granted no longer than its owner's lease ago.
  predicate LockFresh(s: State) {
    s.lock.Some? ==>
      && s.now < s.lock.value.expiresAt
      && s.lock.value.owner < |s.ttl|
      && s.lock.value.expiresAt <= s.now + s.ttl[s.lock.value.owner]
  }

  predicate CrashedLeave(s: State) {
    forall i :: i in s.crashedAt ==>
      && i < |s.instances| && i < |s.ttl| && s.instances[i].pc.Gone?
      && (Owns(s, i) ==> s.lock.value.expiresAt <= s.crashedAt[i] + s.ttl[i])
  }

  predicate GoneLeadNothing(s: State) {
    forall i :: 0 <= i < |s.instances| && s.instances[i].pc.Gone? ==> !s.instances[i].isLeader
  }

  predicate Safe(s: State) {
    && WellFormed(s) && LeadersOwn(s) && RenewersLead(s) && ReleasedOwnNothing(s)
    && LockFresh(s) && CrashedLeave(s) && GoneLeadNothing(s)
  }

  lemma StepSafe(s: State, i: nat, a: Action)
    requires Safe(s) && Enabled(s, i, a)
    requires a.Tick? ==> Timely(s, a.delay)
    ensures Safe(Next(s, i, a))
  {
    var t := Next(s, i, a);
    forall k | 0 <= k < |s.instances| && Leading(s.instances[k]) && Leading(s.instances[i]) ensures k == i {
      assert Owns(s, k) && Owns(s, i);
    }
    assert forall k :: 0 <= k < |t.instances| && k != i ==> t.instances[k] == s.instances[k];
  }

  // ---------------------------------------------------------------- every timely run

  datatype Event = Event(i: nat, action: Action)

  predicate ValidRun(s: State, run: seq<Event>)
    decreases |run|
  {
    run != [] ==>
      Enabled(s, run[0].i, run[0].action) && ValidRun(Next(s, run[0].i, run[0].action), run[1..])
  }

  function After(s: State, run: seq<Event>): State
    requires ValidRun(s, run)
    decreases |run|
  {
    if run == [] then s else After(Next(s, run[0].i, run[0].action), run[1..])
  }

  // Every leader renews, or stops leading, before its lease runs out.
  predicate TimelyRun(s: State, run: seq<Event>)
    requires ValidRun(s, run)
    decreases |run|
  {
    run != [] ==>
      && (run[0].action.Tick? ==> Timely(s, run[0].action.delay))
      && TimelyRun(Next(s, run[0].i, run[0].action), run[1..])
  }

  lemma {:induction false} RunSafe(s: State, run: seq<Event>)
    requires Safe(s) && ValidRun(s, run) && TimelyRun(s, run)
    ensures Safe(After(s, run))
    decreases |run|
  {
    if run != [] {
      StepSafe(s, run[0].i, run[0].action);
      RunSafe(Next(s, run[0].i, run[0].action), run[1..]);
    }
  }

  lemma InitialSafe(s: State)
    requires Initial(s)
    ensures Safe(s)
  {
  }

  // No two instances are ever leader together, although renewal is two commands and
  // instances acquire, fail, release and crash at any point, unless one of them has given
  // up the lock and its is_leader does not know yet.
  lemma MutualExclusion(s: State, run: seq<Event>, i: nat, k: nat)
    requires Initial(s) && ValidRun(s, run) && TimelyRun(s, run)
    requires i < |After(s, run).instances| && k < |After(s, run).instances|
    requires After(s, run).instances[i].isLeader && After(s, run).instances[k].isLeader
    ensures i == k || Unnoticed(After(s, run).instances[i]) || Unnoticed(After(s, run).instances[k])
  {
    InitialSafe(s);
    RunSafe(s, run);
    SafeExclusive(After(s, run), i, k);
  }

  lemma SafeExclusive(s: State, i: nat, k: nat)
    requires Safe(s) && i < |s.instances| && k < |s.instances|
    requires s.instances[i].isLeader && s.instances[k].isLeader
    ensures i == k || Unnoticed(s.instances[i]) || Unnoticed(s.instances[k])
  {
    if !s.instances[i].released && !s.instances[k].released {
      assert Leading(s.instances[i]) && Leading(s.instances[k]);
      assert Owns(s, i) && Owns(s, k);
    }
  }

  // The lock of a crashed instance is gone within its lease.
  lemma CrashedLockExpires(s: State, run: seq<Event>, i: nat)
    requires Initial(s) && ValidRun(s, run) && TimelyRun(s, run)
    requires i in After(s, run).crashedAt && i < |After(s, run).ttl|
    requires After(s, run).crashedAt[i] + After(s, run).ttl[i] <= After(s, run).now
    ensures !Owns(After(s, run), i)
  {
    InitialSafe(s);
    RunSafe(s, run);
  }

  // ---------------------------------------------------------------- the exact delay

  // Some run without further delays beyond a lease reaches two leaders neither of which has
  // given up the lock.
  ghost predicate CanDouble(s: State) {
    exists run, i, k :: Doubles(s, run, i, k)
  }

  predicate Doubles(s: State, run: seq<Event>, i: nat, k: nat) {
    && ValidRun(s, run) && TimelyRun(s, run)
    && i != k && i < |After(s, run).instances| && k < |After(s, run).instances|
    && After(s, run).instances[i].isLeader && !Unnoticed(After(s, run).instances[i])
    && After(s, run).instances[k].isLeader && !Unnoticed(After(s, run).instances[k])
  }

  // An instance that is ready to acquire.
  predicate Contends(s: State, k: nat) {
    k < |s.instances| && s.instances[k].pc.Loop? && !s.instances[k].isLeader
  }

  lemma SafeCannotDouble(s: State, run: seq<Event>, i: nat, k: nat)
    requires Safe(s)
    ensures !Doubles(s, run, i, k)
  {
    if ValidRun(s, run) && TimelyRun(s, run) {
      RunSafe(s, run);
      if Doubles(s, run, i, k) {
        SafeExclusive(After(s, run), i, k);
      }
    }
  }

  // When a leader's lease has run out, the lock is free and a contender takes it.
  lemma ContenderDoubles(s: State, i: nat, k: nat)
    requires WellFormed(s) && s.lock.None? && i < |s.instances| && Leading(s.instances[i]) && Contends(s, k)
    ensures CanDouble(s)
  {
    if s.instances[i].isLeader {
      TakeOver(s, i, k);
    } else {
      // it has the lock but has not yet noticed
      var t := Next(s, i, BecomeLeader);
      TakeOver(t, i, k);
      var run :| Doubles(t, run, i, k);
      PrefixedTimely(s, i, BecomeLeader, run, i, k);
    }
  }

  lemma TakeOver(s: State, i: nat, k: nat)
    requires WellFormed(s) && s.lock.None? && Contends(s, k)
    requires i < |s.instances| && s.instances[i].isLeader && !Unnoticed(s.instances[i])
    ensures exists run :: Doubles(s, run, i, k)
  {
    var s1 := Next(s, k, TryAcquire);
    var s2 := Next(s1, k, BecomeLeader);
    assert Doubles(s2, [], i, k);
    PrefixedTimely(s1, k, BecomeLeader, [], i, k);
    var run :| Doubles(s1, run, i, k);
    PrefixedTimely(s, k, TryAcquire, run, i, k);
  }

  lemma PrefixedTimely(s: State, c: nat, a: Action, rest: seq<Event>, i: nat, k: nat)
    requires Enabled(s, c, a) && !a.Tick? && Doubles(Next(s, c, a), rest, i, k)
    ensures exists run :: Doubles(s, run, i, k)
  {
    var run := [Event(c, a)] + rest;
    assert run[1..] == rest;
    assert Doubles(s, run, i, k);
  }

  // While some instance is ready to acquire, a delay is harmless if and only if every
  // leader's lease outlasts it: a longer one lets a second leader in, and a shorter one
  // never does, as long as later delays are short as well.
  lemma DelayIsSafeExactly(s: State, delay: nat, k: nat)
    requires Safe(s) && Contends(s, k)
    ensures Timely(s, delay) <==> !CanDouble(Next(s, k, Tick(delay)))
  {
    var t := Next(s, k, Tick(delay));
    if Timely(s, delay) {
      StepSafe(s, k, Tick(delay));
      forall run, i: nat, j: nat ensures !Doubles(t, run, i, j) {
        SafeCannotDouble(t, run, i, j);
      }
    } else {
      var i :| 0 <= i < |s.instances| && Leading(s.instances[i]) && s.now + delay >= s.instances[i].leaseEnd;
      assert Owns(s, i);
      ContenderDoubles(t, i, k);
    }
  }

  // ---------------------------------------------------------------- is_leader itself

  // At most one instance says that it is the leader.
  predicate OneFlag(s: State) {
    forall i, k :: 0 <= i < |s.instances| && 0 <= k < |s.instances| ==>
      s.instances[i].isLeader && s.instances[k].isLeader ==> i == k
  }

  // c becomes leader while the release of another instance has not been noticed there.
  predicate Overtakes(s: State, c: nat, a: Action) {
    a.BecomeLeader? && exists i :: 0 <= i < |s.instances| && i != c && Unnoticed(s.instances[i])
  }

  // A step that no lease runs out in keeps is_leader exclusive, if and only if nobody
  // becomes leader between the release of another and its reply.
  lemma FlagExactly(s: State, c: nat, a: Action)
    requires Safe(s) && OneFlag(s) && Enabled(s, c, a) && (a.Tick? ==> Timely(s, a.delay))
    ensures OneFlag(Next(s, c, a)) <==> !Overtakes(s, c, a)
  {
    var t := Next(s, c, a);
    if Overtakes(s, c, a) {
      var i :| 0 <= i < |s.instances| && i != c && Unnoticed(s.instances[i]);
      assert t.instances[i].isLeader && t.instances[c].isLeader;
    } else if a.BecomeLeader? {
      forall i | 0 <= i < |s.instances| && s.instances[i].isLeader ensures i == c {
        OnlyOwner(s, c, i);
      }
    }
  }

  // Next to an instance that just obtained the lock, only unnoticed releases remain.
  lemma OnlyOwner(s: State, c: nat, i: nat)
    requires Safe(s) && c < |s.instances| && s.instances[c].pc.GotLock?
    requires i < |s.instances| && s.instances[i].isLeader
    ensures i == c || Unnoticed(s.instances[i])
  {
    assert Leading(s.instances[c]) && Owns(s, c);
    assert Leading(s.instances[i]) ==> Owns(s, i);
  }

  predicate AlwaysOneFlag(s: State, run: seq<Event>)
    requires ValidRun(s, run)
    decreases |run|
  {
    OneFlag(s) && (run != [] ==> AlwaysOneFlag(Next(s, run[0].i, run[0].action), run[1..]))
  }

  predicate NeverOvertaken(s: State, run: seq<Event>)
    requires ValidRun(s, run)
    decreases |run|
  {
    run != [] ==>
      !Overtakes(s, run[0].i, run[0].action) && NeverOvertaken(Next(s, run[0].i, run[0].action), run[1..])
  }

  lemma {:induction false} RunFlags(s: State, run: seq<Event>)
    requires Safe(s) && OneFlag(s) && ValidRun(s, run) && TimelyRun(s, run)
    ensures AlwaysOneFlag(s, run) <==> NeverOvertaken(s, run)
    decreases |run|
  {
    if run != [] {
      var t := Next(s, run[0].i, run[0].action);
      StepSafe(s, run[0].i, run[0].action);
      FlagExactly(s, run[0].i, run[0].action);
      if OneFlag(t) {
        RunFlags(t, run[1..]);
      }
    }
  }

  // In a timely run is_leader is exclusive throughout, if and only if nobody becomes leader
  // between the release of another instance and the moment its is_leader is cleared.
  lemma FlagExclusiveExactly(s: State, run: seq<Event>)
    requires Initial(s) && ValidRun(s, run) && TimelyRun(s, run)
    ensures AlwaysOneFlag(s, run) <==> NeverOvertaken(s, run)
  {
    InitialSafe(s);
    RunFlags(s, run);
  }

  // A timely run after which both say that they lead, some time later.
  predicate BothFlagged(s: State, run: seq<Event>, i: nat, k: nat, delay: nat) {
    && ValidRun(s, run) && TimelyRun(s, run) && After(s, run).now == s.now + delay
    && i != k && i < |After(s, run).instances| && k < |After(s, run).instances|
    && After(s, run).instances[i].isLeader && After(s, run).instances[k].isLeader
  }

  lemma PrefixedFlags(s: State, c: nat, a: Action, rest: seq<Event>, i: nat, k: nat, delay: nat)
    returns (run: seq<Event>)
    requires Enabled(s, c, a) && !a.Tick? && BothFlagged(Next(s, c, a), rest, i, k, delay)
    requires Next(s, c, a).now == s.now
    ensures BothFlagged(s, run, i, k, delay)
  {
    run := [Event(c, a)] + rest;
    assert run[1..] == rest;
  }

  // With the lock free and every leader's release unnoticed, k takes the lock and keeps it.
  lemma OvertakeAndStay(s: State, i: nat, k: nat, delay: nat) returns (run: seq<Event>)
    requires WellFormed(s) && s.lock.None? && Contends(s, k) && delay < s.ttl[k]
    requires i < |s.instances| && s.instances[i].isLeader
    requires forall j :: 0 <= j < |s.instances| ==> !Leading(s.instances[j])
    ensures BothFlagged(s, run, i, k, delay)
  {
    var s1 := Next(s, k, TryAcquire);
    var s2 := Next(s1, k, BecomeLeader);
    assert forall j :: 0 <= j < |s.instances| && j != k ==> s2.instances[j] == s.instances[j];
    run := [Event(k, Tick(delay))];
    assert run[1..] == [] && Timely(s2, delay);
    assert After(s2, run) == Next(s2, k, Tick(delay));
    assert BothFlagged(s2, run, i, k, delay);
    run := PrefixedFlags(s1, k, BecomeLeader, run, i, k, delay);
    run := PrefixedFlags(s, k, TryAcquire, run, i, k, delay);
  }

  lemma ReleaseLosesReply(s: State, i: nat)
    requires Safe(s) && i < |s.instances| && s.instances[i].pc.Loop? && s.instances[i].isLeader
    requires !Unnoticed(s.instances[i])
    ensures var t := Next(s, i, Release);
            && Enabled(t, i, LoseReply) && Next(t, i, LoseReply).lock.None?
            && Next(t, i, LoseReply).instances == s.instances[i := s.instances[i].(released := true)]
            && forall j :: 0 <= j < |s.instances| ==> !Leading(Next(t, i, LoseReply).instances[j])
  {
    assert Leading(s.instances[i]) && Owns(s, i);
    forall j | 0 <= j < |s.instances| && Leading(s.instances[j]) ensures j == i {
      assert Owns(s, j);
    }
  }

  ghost predicate CanFlagBoth(s: State, i: nat, k: nat, delay: nat) {
    exists run :: BothFlagged(s, run, i, k, delay)
  }

  // A release whose reply is lost: from every safe state with a leader and an instance that
  // is ready to acquire, both say that they lead, at once and for as long as the other keeps
  // its lease, although no lease has run out.
  lemma LostReplyMakesTwoFlags(s: State, i: nat, k: nat, delay: nat)
    requires Safe(s) && i < |s.instances| && s.instances[i].pc.Loop? && s.instances[i].isLeader
    requires !Unnoticed(s.instances[i]) && Contends(s, k) && delay < s.ttl[k]
    ensures CanFlagBoth(s, i, k, delay)
  {
    ReleaseLosesReply(s, i);
    var s1 := Next(s, i, Release);
    var s2 := Next(s1, i, LoseReply);
    var run := OvertakeAndStay(s2, i, k, delay);
    run := PrefixedFlags(s1, i, LoseReply, run, i, k, delay);
    run := PrefixedFlags(s, i, Release, run, i, k, delay);
  }

  // ---------------------------------------------------------------- a lease that runs out in a renewal

  // Both i and k lead, and i set the expiry of the lock of k.
  predicate TwoLeaders(s: State, i: nat, k: nat, end: int) {
    && i < |s.instances| && k < |s.instances| && i != k && s.instances[i].isLeader && s.instances[k].isLeader
    && s.lock == Some(Lock(k, end))
  }

  predicate Hijacks(s: State, run: seq<Event>, i: nat, k: nat, end: int) {
    ValidRun(s, run) && TwoLeaders(After(s, run), i, k, end)
  }

  ghost predicate CanHijack(s: State, i: nat, k: nat, end: int) {
    exists run :: Hijacks(s, run, i, k, end)
  }

  // With the lock free, a contender becomes leader before the first leader's EXPIRE.
  lemma ExtendOfAnother(s: State, i: nat, k: nat) returns (run: seq<Event>)
    requires WellFormed(s) && s.lock.None? && i < |s.instances| && s.instances[i].pc.RenewChecked?
    requires s.instances[i].isLeader && Contends(s, k)
    ensures ValidRun(s, run) && TwoLeaders(After(s, run), i, k, s.now + s.ttl[i])
  {
    var s1 := Next(s, k, TryAcquire);
    var s2 := Next(s1, k, BecomeLeader);
    assert s2.instances[i] == s.instances[i] && s2.lock == Some(Lock(k, s.now + s.ttl[k]));
    run := Prefixed(s2, i, Extend, []);
    run := Prefixed(s1, k, BecomeLeader, run);
    run := Prefixed(s, k, TryAcquire, run);
  }

  lemma LeaseFreesLock(s: State, i: nat, k: nat, delay: nat)
    requires Safe(s) && i < |s.instances| && Leading(s.instances[i]) && k < |s.instances|
    requires s.instances[i].leaseEnd <= s.now + delay
    ensures Next(s, k, Tick(delay)).lock.None? && Next(s, k, Tick(delay)).instances == s.instances
  {
    assert Owns(s, i);
  }

  // A lease that runs out between GET and EXPIRE: a second leader appears, and the first one
  // then extends the other's lock.
  lemma LateRenewalMakesTwoLeaders(s: State, i: nat, k: nat, delay: nat)
    requires Safe(s) && i < |s.instances| && s.instances[i].pc.RenewChecked? && Contends(s, k)
    requires s.instances[i].leaseEnd <= s.now + delay
    ensures CanHijack(s, i, k, s.now + delay + s.ttl[i])
  {
    LeaseFreesLock(s, i, k, delay);
    var rest := ExtendOfAnother(Next(s, k, Tick(delay)), i, k);
    var run := Prefixed(s, k, Tick(delay), rest);
    assert Hijacks(s, run, i, k, s.now + delay + s.ttl[i]);
  }

  // A run with one more event in front.
  lemma Prefixed(s: State, i: nat, a: Action, rest: seq<Event>) returns (run: seq<Event>)
    requires Enabled(s, i, a) && ValidRun(Next(s, i, a), rest)
    ensures ValidRun(s, run) && After(s, run) == After(Next(s, i, a), rest)
  {
    run := [Event(i, a)] + rest;
    assert run[1..] == rest;
  }
}
