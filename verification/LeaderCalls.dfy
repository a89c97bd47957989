// What the calls of an instance achieve when nobody comes in between, and renewals over any
// length of time.
module LeaderCalls {
  import opened Wrappers
  import opened Sequences
  import opened LeaderElection

  // ---------------------------------------------------------------- runs of one instance

  function Total(delays: seq<nat>): nat {
    if delays == [] then 0 else delays[0] + Total(delays[1..])
  }

  // Sleep, GET, EXPIRE.
  function Round(i: nat, delay: nat): seq<Event> {
    [Event(i, Tick(delay)), Event(i, CheckOwner), Event(i, Extend)]
  }

  function Rounds(i: nat, delays: seq<nat>): seq<Event> {
    if delays == [] then [] else Round(i, delays[0]) + Rounds(i, delays[1..])
  }

  // The first sleep ends within the current lease, and every later one is shorter than a lease.
  predicate Prompt(s: State, i: nat, delays: seq<nat>)
    requires i < |s.instances| && i < |s.ttl|
  {
    && (delays != [] ==> s.now + delays[0] < s.instances[i].leaseEnd)
    && forall k :: 0 < k < |delays| ==> delays[k] < s.ttl[i]
  }

  // A leader between two rounds.
  predicate AtTheTop(s: State, i: nat) {
    i < |s.instances| && s.instances[i].pc.Loop? && s.instances[i].isLeader && !s.instances[i].released
  }

  // The lock renewed at the present time.
  function Renewed(s: State, i: nat): State
    requires i < |s.instances| && i < |s.ttl|
  {
    var end := s.now + s.ttl[i];
    s.(lock := Some(Lock(i, end)), instances := s.instances[i := s.instances[i].(leaseEnd := end)])
  }

  lemma OneMore(s: State, e: Event, rest: seq<Event>)
    requires Enabled(s, e.i, e.action) && (e.action.Tick? ==> Timely(s, e.action.delay))
    requires ValidRun(Next(s, e.i, e.action), rest) && TimelyRun(Next(s, e.i, e.action), rest)
    ensures ValidRun(s, [e] + rest) && TimelyRun(s, [e] + rest)
    ensures After(s, [e] + rest) == After(Next(s, e.i, e.action), rest)
  {
    assert ([e] + rest)[1..] == rest;
  }

  // In a safe state only the leader has a lease to lose.
  lemma LoneLeaderTimely(s: State, i: nat, delay: nat)
    requires Safe(s) && AtTheTop(s, i) && s.now + delay < s.instances[i].leaseEnd
    ensures Timely(s, delay) && s.lock == Some(Lock(i, s.instances[i].leaseEnd))
  {
    assert Leading(s.instances[i]) && Owns(s, i);
    forall k | 0 <= k < |s.instances| && Leading(s.instances[k]) ensures k == i {
      assert Owns(s, k);
    }
  }

  // The GET and the EXPIRE of a renewal.
  lemma RenewAlone(s: State, i: nat)
    requires WellFormed(s) && AtTheTop(s, i) && Owns(s, i)
    ensures Enabled(s, i, CheckOwner) && Enabled(Next(s, i, CheckOwner), i, Extend)
    ensures Next(Next(s, i, CheckOwner), i, Extend) == Renewed(s, i)
  {
    var t := Next(Next(s, i, CheckOwner), i, Extend);
    assert t.instances == Renewed(s, i).instances;
  }

  lemma OneRound(s: State, i: nat, delay: nat)
    requires Safe(s) && AtTheTop(s, i) && s.now + delay < s.instances[i].leaseEnd
    ensures ValidRun(s, Round(i, delay)) && TimelyRun(s, Round(i, delay))
    ensures After(s, Round(i, delay)) == Renewed(s.(now := s.now + delay), i)
  {
    LoneLeaderTimely(s, i, delay);
    var s1 := s.(now := s.now + delay);
    assert Next(s, i, Tick(delay)) == s1;
    RenewAlone(s1, i);
    var last, later := [Event(i, Extend)], [Event(i, CheckOwner)] + [Event(i, Extend)];
    OneMore(Next(s1, i, CheckOwner), last[0], []);
    AppendNothing(last);
    OneMore(s1, later[0], last);
    OneMore(s, Event(i, Tick(delay)), later);
    assert [Event(i, Tick(delay))] + later == Round(i, delay);
  }

  lemma {:induction false} RunsJoin(s: State, a: seq<Event>, b: seq<Event>)
    requires ValidRun(s, a) && TimelyRun(s, a) && ValidRun(After(s, a), b) && TimelyRun(After(s, a), b)
    ensures ValidRun(s, a + b) && TimelyRun(s, a + b) && After(s, a + b) == After(After(s, a), b)
    decreases |a|
  {
    if a == [] {
      AppendNothing(b);
    } else {
      TailOfAppend(a, b);
      RunsJoin(Next(s, a[0].i, a[0].action), a[1..], b);
    }
  }

  // After a round the others are as prompt.
  lemma RoundKeepsPrompt(s: State, i: nat, delays: seq<nat>)
    requires Safe(s) && AtTheTop(s, i) && delays != [] && Prompt(s, i, delays)
    ensures var t := Renewed(s.(now := s.now + delays[0]), i);
            Safe(t) && AtTheTop(t, i) && Prompt(t, i, delays[1..])
  {
    OneRound(s, i, delays[0]);
    RunSafe(s, Round(i, delays[0]));
    forall k | 0 <= k < |delays[1..]| ensures delays[1..][k] < s.ttl[i] {
      assert delays[1..][k] == delays[k + 1];
    }
  }

  // A leader that renews within every lease leads for as long as it likes: after any number
  // of rounds it still owns the lock, whose lease starts at the last renewal.
  lemma {:induction false} RenewalsKeepLeading(s: State, i: nat, delays: seq<nat>)
    requires Safe(s) && AtTheTop(s, i) && delays != [] && Prompt(s, i, delays)
    ensures ValidRun(s, Rounds(i, delays)) && TimelyRun(s, Rounds(i, delays))
    ensures After(s, Rounds(i, delays)) == Renewed(s.(now := s.now + Total(delays)), i)
    decreases |delays|
  {
    var first, rest := Round(i, delays[0]), delays[1..];
    var t := Renewed(s.(now := s.now + delays[0]), i);
    OneRound(s, i, delays[0]);
    if rest == [] {
      AppendNothing(first);
    } else {
      RoundKeepsPrompt(s, i, delays);
      RenewalsKeepLeading(t, i, rest);
      RunsJoin(s, first, Rounds(i, rest));
      RenewedTwice(s, i, delays[0], Total(rest));
    }
  }

  lemma RenewedTwice(s: State, i: nat, first: nat, more: nat)
    requires i < |s.instances| && i < |s.ttl|
    ensures var t := Renewed(s.(now := s.now + first), i);
            i < |t.instances| && i < |t.ttl|
            && Renewed(t.(now := t.now + more), i) == Renewed(s.(now := s.now + (first + more)), i)
  {
  }

  // And the lock is then alive exactly until a lease after the last renewal.
  lemma RenewedLockExpires(s: State, i: nat, delays: seq<nat>, later: nat)
    requires Safe(s) && AtTheTop(s, i) && delays != [] && Prompt(s, i, delays)
    ensures ValidRun(s, Rounds(i, delays))
    ensures var t := After(s, Rounds(i, delays));
            && AtTheTop(t, i) && Owns(t, i) && Enabled(t, i, Tick(later))
            && (Owns(Next(t, i, Tick(later)), i) <==> later < s.ttl[i])
  {
    RenewalsKeepLeading(s, i, delays);
  }

  // ---------------------------------------------------------------- when the lease was granted

  // SET and EXPIRE by the owner grant a lease.
  predicate Grants(s: State, c: nat, a: Action, i: nat) {
    c == i && ((a.TryAcquire? && s.lock.None?) || (a.Extend? && Owns(s, i)))
  }

  // When a run last granted instance i a lease, if it did.
  function LastGrant(s: State, run: seq<Event>, i: nat): Option<int>
    requires ValidRun(s, run)
    decreases |run|
  {
    if run == [] then None
    else
      match LastGrant(Next(s, run[0].i, run[0].action), run[1..], i)
      case Some(time) => Some(time)
      case None => if Grants(s, run[0].i, run[0].action, i) then Some(s.now) else None
  }

  lemma {:induction false} LeaseIsGranted(s: State, run: seq<Event>, i: nat)
    requires ValidRun(s, run) && i < |s.instances| && i < |s.ttl|
    ensures After(s, run).ttl == s.ttl && i < |After(s, run).instances|
    ensures After(s, run).instances[i].leaseEnd ==
            match LastGrant(s, run, i)
            case None => s.instances[i].leaseEnd
            case Some(time) => time + s.ttl[i]
    decreases |run|
  {
    if run != [] {
      LeaseIsGranted(Next(s, run[0].i, run[0].action), run[1..], i);
    }
  }

  // In every timely run, whatever the other instances do in between, the lock of a leader
  // expires one lease after its last successful SET or EXPIRE.
  lemma LeaderLeaseIsFresh(s: State, run: seq<Event>, i: nat)
    requires Initial(s) && ValidRun(s, run) && TimelyRun(s, run)
    requires i < |s.instances| && i < |After(s, run).instances| && Leading(After(s, run).instances[i])
    requires LastGrant(s, run, i).Some?
    ensures After(s, run).lock == Some(Lock(i, LastGrant(s, run, i).value + s.ttl[i]))
  {
    InitialSafe(s);
    RunSafe(s, run);
    LeaseIsGranted(s, run, i);
    assert Owns(After(s, run), i);
  }

  // ---------------------------------------------------------------- the other calls, alone

  // _acquire_lock and _handle_election
  lemma AcquireAlone(s: State, k: nat)
    requires WellFormed(s) && Contends(s, k)
    ensures Enabled(s, k, TryAcquire)
    ensures s.lock.Some? ==> Next(s, k, TryAcquire) == s
    ensures s.lock.None? ==>
              && Enabled(Next(s, k, TryAcquire), k, BecomeLeader)
              && var t := Next(Next(s, k, TryAcquire), k, BecomeLeader);
              && AtTheTop(t, k) && t.lock == Some(Lock(k, s.now + s.ttl[k])) && t.now == s.now
              && t.instances[k].leaseEnd == s.now + s.ttl[k]
              && t.instances == s.instances[k := t.instances[k]]
  {
    assert s.instances[k := s.instances[k]] == s.instances;
  }

  // _renew_lock and _handle_demotion of an instance that has lost its lock
  lemma DemoteAlone(s: State, i: nat)
    requires WellFormed(s) && AtTheTop(s, i) && !Owns(s, i)
    ensures Enabled(s, i, CheckOwner) && Enabled(Next(s, i, CheckOwner), i, Demote)
    ensures var t := Next(Next(s, i, CheckOwner), i, Demote);
            && t.lock == s.lock && Contends(t, i) && t.instances == s.instances[i := t.instances[i]]
  {
  }

  // __aenter__ of an instance that already leads: it is refused, even by its own lock, and
  // stops leading.
  lemma RefusedAlone(s: State, i: nat)
    requires WellFormed(s) && AtTheTop(s, i) && s.lock.Some?
    ensures Enabled(s, i, TryAcquire) && Enabled(Next(s, i, TryAcquire), i, Demote)
    ensures var t := Next(Next(s, i, TryAcquire), i, Demote);
            && t.lock == s.lock && Contends(t, i) && t.instances == s.instances[i := t.instances[i]]
  {
  }

  // stop and __aexit__
  lemma ReleaseAlone(s: State, i: nat)
    requires WellFormed(s) && AtTheTop(s, i)
    ensures Enabled(s, i, Release)
    ensures !Owns(s, i) ==> Next(s, i, Release) == s
    ensures Owns(s, i) ==>
              && Enabled(Next(s, i, Release), i, NoteRelease)
              && var t := Next(Next(s, i, Release), i, NoteRelease);
              t.lock.None? && Contends(t, i) && t.instances == s.instances[i := t.instances[i]]
  {
  }

  // An exception in the loop and a crash: the lock stays until its lease is over, and then
  // any waiting instance gets it.
  lemma FailureAlone(s: State, i: nat, k: nat, a: Action, delay: nat)
    requires Safe(s) && AtTheTop(s, i) && Contends(s, k) && (a.Fail? || a.Crash?)
    ensures Enabled(s, i, a)
    ensures var t := Next(s, i, a);
            && t.lock == s.lock && !t.instances[i].isLeader && t.instances == s.instances[i := t.instances[i]]
            && (a.Fail? ==> Contends(t, i))
            && (a.Crash? ==> t.instances[i].pc.Gone? && t.crashedAt == s.crashedAt[i := s.now])
            && Contends(Next(t, k, Tick(delay)), k)
            && (Next(t, k, Tick(delay)).lock.None? <==> s.instances[i].leaseEnd <= s.now + delay)
  {
    assert Leading(s.instances[i]) && Owns(s, i);
  }

  // A turn of the loop that is cut short leaves the lock and the flag as they are.
  lemma InterruptAlone(s: State, i: nat)
    requires WellFormed(s) && i < |s.instances| && Enabled(s, i, Interrupt)
    ensures var t := Next(s, i, Interrupt);
            && t.lock == s.lock && t.instances[i].pc.Loop? && t.instances[i].isLeader == s.instances[i].isLeader
            && t.instances[i].leaseEnd == s.instances[i].leaseEnd && t.instances == s.instances[i := t.instances[i]]
  {
  }
}
