// The Redis job queue and its clients as a state machine: each step is one Redis command
// of one process, so submitters, workers and cancellers interleave freely and may crash
// between any two commands.
module JobQueue {
  import opened Wrappers
  import opened Sequences

  // Job identifiers.
  type Id = int

  datatype Status = Pending | Running | Completed | Cancelled | Dead

  // The parts of a job record that the queue decides by.
  datatype Job = Job(status: Status, attempts: nat, maxRetries: int)

  // What a process is about to do. A job record in a program counter was read earlier
  // and may be stale.
  datatype Pc =
    | Idle
    | Submitting(id: Id, job: Job)           // SET job
    | Submitted(id: Id)                      // LPUSH pending
    | Popped(id: Id)                         // GET job, after BRPOPLPUSH
    | PoppedGone(id: Id)                     // LREM processing, the record is gone
    | Claiming(id: Id, job: Job)             // SET job running
    | Working(id: Id)                        // the handler runs
    | CompleteGet(id: Id)
    | CompleteSet(id: Id, job: Job)
    | CompleteRem(id: Id)                    // LREM processing
    | FailGet(id: Id, retry: bool)
    | FailRem(id: Id, job: Job, retry: bool) // LREM processing
    | FailSet(id: Id, job: Job, retry: bool)
    | FailPush(id: Id, again: bool)          // LPUSH pending or dead letters
    | CancelGet(id: Id)
    | CancelPending(id: Id, job: Job)        // LREM pending
    | CancelProcessing(id: Id, job: Job)     // LREM processing
    | CancelSet(id: Id, job: Job)
    | Crashed(held: Option<Id>)

  // The three lists and the job records in Redis, the processes, and history variables:
  // ids ever created, ids whose record ever expired, ids pushed to and popped from
  // pending in order, and how often each job was claimed.
  datatype State = State(
    jobs: map<Id, Job>,
    pending: seq<Id>,
    processing: seq<Id>,
    dlq: seq<Id>,
    procs: seq<Pc>,
    used: set<Id>,
    expired: set<Id>,
    pushed: seq<Id>,
    popped: seq<Id>,
    claims: map<Id, nat>)

  datatype Action =
    | StartSubmit(id: Id, maxRetries: int)
    | StartClaim
    | StartCancel(target: Id)
    | Proceed            // the next Redis command of the current call
    | HandlerReturns
    | HandlerRaises
    | NoHandler
    | RedisError         // complete_job raises before its next command
    | LostReply          // LREM of complete_job runs, but the reply is lost
    | Crash
    | Expire(gone: Id)   // the TTL of a job record runs out

  // LREM key 1 id
  function RemoveFirst(s: seq<Id>, id: Id): seq<Id> {
    if s == [] then [] else if s[0] == id then s[1..] else [s[0]] + RemoveFirst(s[1..], id)
  }

  // Who owns the next move of a job: its submitter until it is queued, then the worker
  // that popped it. Cancellers own nothing; a crashed owner keeps its job forever.
  function Holder(pc: Pc): Option<Id> {
    match pc
    case Idle => None
    case CancelGet(_) => None
    case CancelPending(_, _) => None
    case CancelProcessing(_, _) => None
    case CancelSet(_, _) => None
    case Crashed(held) => held
    case Submitting(id, _) => Some(id)
    case Submitted(id) => Some(id)
    case Popped(id) => Some(id)
    case PoppedGone(id) => Some(id)
    case Claiming(id, _) => Some(id)
    case Working(id) => Some(id)
    case CompleteGet(id) => Some(id)
    case CompleteSet(id, _) => Some(id)
    case CompleteRem(id) => Some(id)
    case FailGet(id, _) => Some(id)
    case FailRem(id, _, _) => Some(id)
    case FailSet(id, _, _) => Some(id)
    case FailPush(id, _) => Some(id)
  }

  predicate Enabled(s: State, p: nat, a: Action) {
    && p < |s.procs|
    && match a
       case StartSubmit(id, _) => s.procs[p].Idle? && id !in s.used
       case StartClaim => s.procs[p].Idle? && s.pending != []
       case StartCancel(_) => s.procs[p].Idle?
       case Proceed => !s.procs[p].Idle? && !s.procs[p].Working? && !s.procs[p].Crashed?
       case HandlerReturns => s.procs[p].Working?
       case HandlerRaises => s.procs[p].Working?
       case NoHandler => s.procs[p].Working?
       case RedisError => s.procs[p].CompleteGet? || s.procs[p].CompleteSet? || s.procs[p].CompleteRem?
       case LostReply => s.procs[p].CompleteRem?
       case Crash => !s.procs[p].Crashed?
       case Expire(_) => true
  }

  function Goto(s: State, p: nat, pc: Pc): State
    requires p < |s.procs|
  {
    s.(procs := s.procs[p := pc])
  }

  function Next(s: State, p: nat, a: Action): State
    requires Enabled(s, p, a)
  {
    match a
    case StartSubmit(id, maxRetries) =>
      Goto(s, p, Submitting(id, Job(Pending, 0, maxRetries))).(used := s.used + {id})
    case StartClaim =>
      // BRPOPLPUSH takes the oldest id
      var id := s.pending[|s.pending| - 1];
      Goto(s, p, Popped(id)).(pending := s.pending[..|s.pending| - 1],
                              processing := [id] + s.processing,
                              popped := s.popped + [id])
    case StartCancel(id) => Goto(s, p, CancelGet(id))
    case HandlerReturns => Goto(s, p, CompleteGet(s.procs[p].id))
    case HandlerRaises => Goto(s, p, FailGet(s.procs[p].id, true))
    case NoHandler => Goto(s, p, FailGet(s.procs[p].id, false))
    case RedisError => Goto(s, p, FailGet(s.procs[p].id, true))
    case LostReply =>
      Goto(s, p, FailGet(s.procs[p].id, true)).(processing := RemoveFirst(s.processing, s.procs[p].id))
    case Crash => Goto(s, p, Crashed(Holder(s.procs[p])))
    case Expire(id) => s.(jobs := s.jobs - {id}, expired := s.expired + {id})
    case Proceed => NextCommand(s, p)
  }

  function Claims(s: State, id: Id): nat {
    if id in s.claims then s.claims[id] else 0
  }

  function NextCommand(s: State, p: nat): State
    requires Enabled(s, p, Proceed)
  {
    match s.procs[p]
    // submit
    case Submitting(id, job) => Goto(s, p, Submitted(id)).(jobs := s.jobs[id := job])
    case Submitted(id) => Goto(s, p, Idle).(pending := [id] + s.pending, pushed := s.pushed + [id])
    // claim_jobs
    case Popped(id) =>
      if id in s.jobs then Goto(s, p, Claiming(id, s.jobs[id])) else Goto(s, p, PoppedGone(id))
    case PoppedGone(id) => Goto(s, p, Idle).(processing := RemoveFirst(s.processing, id))
    case Claiming(id, job) =>
      Goto(s, p, Working(id)).(jobs := s.jobs[id := job.(status := Running, attempts := job.attempts + 1)],
                               claims := s.claims[id := Claims(s, id) + 1])
    // complete_job
    case CompleteGet(id) =>
      if id in s.jobs then Goto(s, p, CompleteSet(id, s.jobs[id])) else Goto(s, p, Idle)
    case CompleteSet(id, job) => Goto(s, p, CompleteRem(id)).(jobs := s.jobs[id := job.(status := Completed)])
    case CompleteRem(id) => Goto(s, p, Idle).(processing := RemoveFirst(s.processing, id))
    // fail_job
    case FailGet(id, retry) =>
      if id in s.jobs then Goto(s, p, FailRem(id, s.jobs[id], retry)) else Goto(s, p, Idle)
    case FailRem(id, job, retry) =>
      Goto(s, p, FailSet(id, job, retry)).(processing := RemoveFirst(s.processing, id))
    case FailSet(id, job, retry) =>
      var again := retry && job.attempts < job.maxRetries;
      Goto(s, p, FailPush(id, again)).(jobs := s.jobs[id := job.(status := if again then Pending else Dead)])
    case FailPush(id, again) =>
      if again then Goto(s, p, Idle).(pending := [id] + s.pending, pushed := s.pushed + [id])
      else Goto(s, p, Idle).(dlq := [id] + s.dlq)
    // cancel_job
    case CancelGet(id) =>
      if id in s.jobs && (s.jobs[id].status == Pending || s.jobs[id].status == Running)
      then Goto(s, p, CancelPending(id, s.jobs[id]))
      else Goto(s, p, Idle)
    case CancelPending(id, job) =>
      Goto(s, p, CancelProcessing(id, job)).(pending := RemoveFirst(s.pending, id))
    case CancelProcessing(id, job) =>
      Goto(s, p, CancelSet(id, job)).(processing := RemoveFirst(s.processing, id))
    case CancelSet(id, job) => Goto(s, p, Idle).(jobs := s.jobs[id := job.(status := Cancelled)])
  }

  predicate Initial(s: State) {
    && s.jobs == map[] && s.pending == [] && s.processing == [] && s.dlq == []
    && (forall p :: 0 <= p < |s.procs| ==> s.procs[p] == Idle)
    && s.used == {} && s.expired == {} && s.pushed == [] && s.popped == [] && s.claims == map[]
  }

  // ---------------------------------------------------------------- runs

  datatype Event = Event(p: nat, action: Action)

  predicate ValidRun(s: State, run: seq<Event>)
    decreases |run|
  {
    run != [] ==>
      Enabled(s, run[0].p, run[0].action) && ValidRun(Next(s, run[0].p, run[0].action), run[1..])
  }

  function After(s: State, run: seq<Event>): State
    requires ValidRun(s, run)
    decreases |run|
  {
    if run == [] then s else After(Next(s, run[0].p, run[0].action), run[1..])
  }

  // ---------------------------------------------------------------- lists without repetitions

  predicate NoRepeat(s: seq<Id>) {
    forall i, k :: 0 <= i < k < |s| ==> s[i] != s[k]
  }

  lemma NoRepeatTail(s: seq<Id>)
    requires NoRepeat(s) && s != []
    ensures NoRepeat(s[1..]) && s[0] !in s[1..]
  {
    assert forall i :: 0 <= i < |s[1..]| ==> s[1..][i] == s[i + 1];
  }

  lemma NoRepeatCons(id: Id, s: seq<Id>)
    requires NoRepeat(s) && id !in s
    ensures NoRepeat([id] + s)
  {
  }

  lemma {:induction false} RemoveFirstOf(s: seq<Id>, id: Id)
    ensures forall x :: x in RemoveFirst(s, id) ==> x in s
    ensures forall x :: x in s && x != id ==> x in RemoveFirst(s, id)
    ensures id !in s ==> RemoveFirst(s, id) == s
    ensures NoRepeat(s) ==> NoRepeat(RemoveFirst(s, id)) && id !in RemoveFirst(s, id)
  {
    if s != [] {
      RemoveFirstOf(s[1..], id);
      HeadAndTail(s);
      if NoRepeat(s) {
        NoRepeatTail(s);
        if s[0] != id {
          NoRepeatCons(s[0], RemoveFirst(s[1..], id));
        }
      }
    }
  }

  lemma {:induction false} OnceInMultiset(s: seq<Id>, id: Id)
    requires NoRepeat(s)
    ensures multiset(s)[id] == if id in s then 1 else 0
  {
    if s != [] {
      assert forall i :: 0 <= i < |s[1..]| ==> s[1..][i] == s[i + 1];
      OnceInMultiset(s[1..], id);
      assert s == [s[0]] + s[1..];
    }
  }
}
