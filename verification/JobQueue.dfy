/** The persistent job queue (api/src/jobs/queue.ts): rows of the table `jobs`, and one worker process
    with its in-memory counters. Every database statement or transaction is one atomic step; a process
    can die between any two, and a statement can fail, whether or not it was carried out. */
module JobQueue {
  import opened Wrappers

  datatype Status = Queued | Running | Retry | Completed | Failed | Cancelled

  /** A row. As history, `owner` numbers its last execution, and the last three fields count how often
      it was claimed, how often a failure was not counted, and how often it was recovered. */
  datatype Job = Job(
    jobType: int, resource: int, key: int, priority: int, createdAt: int, status: Status,
    attempts: int, maxAttempts: int, nextRetry: Option<int>, lockedAt: Option<int>,
    owner: int, executions: int, refunds: int, recoveries: int)

  datatype Request = Request(jobType: int, resource: int, key: int, priority: int, maxAttempts: int)

  /** How an execution fails: the circuit of its provider is open, the provider rejects the request for good
      (a 4xx status), or anything else. */
  datatype Failure = CircuitOpen(cooldownUntil: Option<int>) | Rejected | Other

  /** What is left to do in an execution: run the handler and complete the row, enqueue the continuation,
      record a failure, or only the `finally`. */
  datatype Phase = Handling | Continuing(next: Request) | Failing(failure: Failure) | Settled

  /** An execution in flight, with the values of the record that `claim` returned. */
  datatype Execution = Execution(job: int, attempts: int, maxAttempts: int, phase: Phase)

  /** Where the one `tick` is: not running, at the loop's guard, awaiting `claim`, or with its result. */
  datatype Tick = Idle | Polling | Claiming | Claimed(number: int, execution: Execution)

  /** The table and the process. As history, `lost` are the rows that a failing statement or a crash left
      running without an execution since the last recovery. */
  datatype State = State(
    rows: map<int, Job>, executions: map<int, Execution>, active: int, stopped: bool, tick: Tick, next: int,
    lost: set<int>)

  const Init := State(map[], map[], 0, true, Idle, 0, {})

  datatype Step =
    | Enqueue(request: Request, now: int)
    | RunTick
    | CheckCapacity
    | Claim(choice: Option<int>, now: int)
    | ClaimThrows
    | ClaimLost(job: int, now: int)
    | Launch
    | CancelOwn(number: int)
    | Complete(number: int, continuation: Option<Request>)
    | Continue(number: int, now: int)
    | HandlerThrows(number: int, failure: Failure)
    | CompletionThrows(number: int, written: bool, failure: Failure)
    | EnqueueThrows(number: int, written: bool, now: int, failure: Failure)
    | Fail(number: int, now: int)
    | FailThrows(number: int)
    | Finish(number: int)
    | CancelWaiting(jobs: set<int>)
    | Purge(job: int)
    | Start
    | Recover(now: int)
    | Stop
    | Crash

  const LOCK_MS := 900_000
  const HOUR_MS := 3_600_000

  // ---- reading the table ----

  predicate Waiting(j: Job) {
    j.status == Queued || j.status == Retry
  }

  predicate Active(j: Job) {
    Waiting(j) || j.status == Running
  }

  predicate SamePair(a: Job, b: Job) {
    a.jobType == b.jobType && a.resource == b.resource
  }

  predicate Ready(j: Job, now: int) {
    Waiting(j) && (j.nextRetry.None? || j.nextRetry.value <= now)
  }

  // The WHERE clause of claim.
  predicate Due(j: Job, now: int) {
    Ready(j, now) && (j.lockedAt.None? || j.lockedAt.value < now - LOCK_MS)
  }

  // ORDER BY priority, created_at_ms: a may come before b.
  predicate NotAfter(a: Job, b: Job) {
    a.priority < b.priority || (a.priority == b.priority && a.createdAt <= b.createdAt)
  }

  predicate Picks(rows: map<int, Job>, choice: Option<int>, now: int) {
    match choice
    case None => forall k <- rows :: !Due(rows[k], now)
    case Some(j) =>
      j in rows && Due(rows[j], now) && forall k <- rows :: Due(rows[k], now) ==> NotAfter(rows[j], rows[k])
  }

  function RunningRows(rows: map<int, Job>): set<int> {
    set j | j in rows && rows[j].status == Running
  }

  predicate Coalesces(rows: map<int, Job>, r: Request) {
    exists k <- rows :: (Active(rows[k]) && rows[k].jobType == r.jobType && rows[k].resource == r.resource)
                        || rows[k].key == r.key
  }

  // ---- the steps ----

  predicate Handles(s: State, number: int) {
    number in s.executions && s.executions[number].phase == Handling
  }

  predicate Continues(s: State, number: int) {
    number in s.executions && s.executions[number].phase.Continuing?
  }

  predicate Fails(s: State, number: int) {
    number in s.executions && s.executions[number].phase.Failing?
  }

  predicate Enabled(s: State, step: Step) {
    match step
    case RunTick => s.tick == Idle && !s.stopped
    case CheckCapacity => s.tick == Polling
    case Claim(choice, now) => s.tick == Claiming && Picks(s.rows, choice, now)
    case ClaimThrows => s.tick == Claiming
    case ClaimLost(j, now) => s.tick == Claiming && Picks(s.rows, Some(j), now)
    case Launch => s.tick.Claimed?
    case CancelOwn(n) => Handles(s, n)
    case Complete(n, _) => Handles(s, n)
    case Continue(n, _) => Continues(s, n)
    case HandlerThrows(n, _) => Handles(s, n)
    case CompletionThrows(n, _, _) => Handles(s, n)
    case EnqueueThrows(n, _, _, _) => Continues(s, n)
    case Fail(n, _) => Fails(s, n)
    case FailThrows(n) => Fails(s, n)
    case Finish(n) => n in s.executions && s.executions[n].phase == Settled
    case Purge(j) => j in s.rows && s.rows[j].status == Failed
    case Start => s.stopped
    case _ => true
  }

  function Pow2(n: int): int {
    if n <= 0 then 1 else 2 * Pow2(n - 1)
  }

  function Max(a: int, b: int): int {
    if a < b then b else a
  }

  function Min(a: int, b: int): int {
    if a < b then a else b
  }

  predicate Terminal(x: Execution, failure: Failure) {
    failure.Rejected? || (!failure.CircuitOpen? && x.attempts >= x.maxAttempts)
  }

  function NextRetry(x: Execution, failure: Failure, now: int): Option<int> {
    if Terminal(x, failure) then None
    else if failure.CircuitOpen? && failure.cooldownUntil.Some? then Some(Max(now + 1_000, failure.cooldownUntil.value))
    else Some(now + Min(HOUR_MS, 1_000 * Pow2(x.attempts - 1)))
  }

  // The UPDATE of `fail`, which asks nothing of the row's status.
  function AfterFailure(j: Job, x: Execution, failure: Failure, now: int): Job {
    var refund := failure.CircuitOpen? && j.attempts > 0;
    j.(status := if Terminal(x, failure) then Failed else Retry,
       nextRetry := NextRetry(x, failure, now), lockedAt := None,
       attempts := if refund then j.attempts - 1 else j.attempts,
       refunds := if refund then j.refunds + 1 else j.refunds)
  }

  function Inserted(s: State, r: Request, now: int): State {
    if Coalesces(s.rows, r) then s
    else
      s.(rows := s.rows[s.next := Job(r.jobType, r.resource, r.key, r.priority, now, Queued, 0, r.maxAttempts,
                                      None, None, 0, 0, 0, 0)],
         next := s.next + 1)
  }

  // The UPDATE .. WHERE id = ? AND status = 'running' of a completion and of a handler that cancels its own row.
  function Ended(rows: map<int, Job>, j: int, status: Status): map<int, Job> {
    if j in rows && rows[j].status == Running then rows[j := rows[j].(status := status, lockedAt := None)] else rows
  }

  function FailedRows(rows: map<int, Job>, x: Execution, failure: Failure, now: int): map<int, Job> {
    if x.job in rows then rows[x.job := AfterFailure(rows[x.job], x, failure, now)] else rows
  }

  function ToPhase(s: State, n: int, phase: Phase): State
    requires n in s.executions
  {
    s.(executions := s.executions[n := s.executions[n].(phase := phase)])
  }

  function Recovered(j: Job, now: int): Job {
    if j.status == Running
    then j.(status := Retry, lockedAt := None, nextRetry := Some(now), recoveries := j.recoveries + 1)
    else j
  }

  function Cancelling(j: Job): Job {
    if Waiting(j) then j.(status := Cancelled, lockedAt := None) else j
  }

  function Taken(j: Job, n: int, now: int): Job {
    j.(status := Running, lockedAt := Some(now), attempts := j.attempts + 1, owner := n, executions := j.executions + 1)
  }

  function Effect(s: State, step: Step, concurrency: int): State
    requires Enabled(s, step)
  {
    match step
    case Enqueue(r, now) => Inserted(s, r, now)
    case RunTick => s.(tick := Polling)
    case CheckCapacity => s.(tick := if !s.stopped && s.active < concurrency then Claiming else Idle)
    case Claim(None, _) => s.(tick := Idle)
    case Claim(Some(j), now) =>
      var row := Taken(s.rows[j], s.next, now);
      s.(rows := s.rows[j := row], next := s.next + 1,
         tick := Claimed(s.next, Execution(j, row.attempts, row.maxAttempts, Handling)))
    case ClaimThrows => s.(tick := Idle)
    case ClaimLost(j, now) =>
      s.(rows := s.rows[j := Taken(s.rows[j], s.next, now)], next := s.next + 1, tick := Idle, lost := s.lost + {j})
    case Launch =>
      s.(executions := s.executions[s.tick.number := s.tick.execution], active := s.active + 1, tick := Polling)
    case CancelOwn(n) => s.(rows := Ended(s.rows, s.executions[n].job, Cancelled))
    case Complete(n, continuation) =>
      ToPhase(s.(rows := Ended(s.rows, s.executions[n].job, Completed)), n,
              if continuation.Some? then Continuing(continuation.value) else Settled)
    case Continue(n, now) => Inserted(ToPhase(s, n, Settled), s.executions[n].phase.next, now)
    case HandlerThrows(n, failure) => ToPhase(s, n, Failing(failure))
    case CompletionThrows(n, written, failure) =>
      ToPhase(s.(rows := if written then Ended(s.rows, s.executions[n].job, Completed) else s.rows), n,
              Failing(failure))
    case EnqueueThrows(n, written, now, failure) =>
      var s' := ToPhase(s, n, Failing(failure));
      if written then Inserted(s', s.executions[n].phase.next, now) else s'
    case Fail(n, now) =>
      var x := s.executions[n];
      ToPhase(s.(rows := FailedRows(s.rows, x, x.phase.failure, now)), n, Settled)
    case FailThrows(n) => ToPhase(s.(lost := s.lost + {s.executions[n].job}), n, Settled)
    case Finish(n) => s.(executions := map k | k in s.executions && k != n :: s.executions[k], active := s.active - 1)
    case CancelWaiting(jobs) =>
      s.(rows := map k | k in s.rows :: if k in jobs then Cancelling(s.rows[k]) else s.rows[k])
    case Purge(j) => s.(rows := map k | k in s.rows && k != j :: s.rows[k])
    case Start => s.(stopped := false)
    case Recover(now) => s.(rows := map k | k in s.rows :: Recovered(s.rows[k], now), lost := {})
    case Stop => s.(stopped := true)
    case Crash =>
      s.(executions := map[], active := 0, stopped := true, tick := Idle, lost := s.lost + RunningRows(s.rows))
  }

  function Next(s: State, step: Step, concurrency: int): State {
    if Enabled(s, step) then Effect(s, step, concurrency) else s
  }

  function Run(steps: seq<Step>, concurrency: int): State {
    if steps == [] then Init else Next(Run(steps[..|steps| - 1], concurrency), steps[|steps| - 1], concurrency)
  }

  lemma RunSnoc(steps: seq<Step>, step: Step, concurrency: int)
    ensures Run(steps + [step], concurrency) == Next(Run(steps, concurrency), step, concurrency)
  {
    hide Next;
    assert (steps + [step])[..|steps|] == steps;
  }

  /** States that each come from the one before by a step, as those between two calls of the worker's methods do,
      are states of a run. */
  lemma {:induction false} StatesOfARun(states: seq<State>, steps: seq<Step>, concurrency: int)
    requires |states| == |steps| + 1 && states[0] == Init
    requires forall i :: 0 <= i < |steps| ==> states[i + 1] == Next(states[i], steps[i], concurrency)
    ensures states[|steps|] == Run(steps, concurrency)
  {
    hide Next;
    if steps != [] {
      StatesOfARun(states[..|steps|], steps[..|steps| - 1], concurrency);
    }
  }
}
