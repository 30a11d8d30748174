/** What the runs of the job queue keep. */
module JobQueueLaws {
  import opened Wrappers
  import opened JobQueue

  // ---- the table ----

  /** A row is locked exactly while it runs. */
  predicate Locks(j: Job) {
    j.lockedAt.Some? <==> j.status == Running
  }

  ghost predicate UniqueKeys(rows: map<int, Job>) {
    forall i <- rows, k <- rows :: rows[i].key == rows[k].key ==> i == k
  }

  ghost predicate TableInv(rows: map<int, Job>, next: int) {
    (forall k <- rows :: Locks(rows[k]) && k < next) && UniqueKeys(rows)
  }

  /** At most one active row for each type and resource. */
  ghost predicate UniqueActive(rows: map<int, Job>) {
    forall i <- rows, k <- rows :: Active(rows[i]) && Active(rows[k]) && SamePair(rows[i], rows[k]) ==> i == k
  }

  // ---- who runs a row ----

  // The handler of an execution runs, or its failure is about to be recorded.
  predicate Busy(x: Execution) {
    x.phase == Handling || x.phase.Failing?
  }

  predicate Handled(executions: map<int, Execution>, tick: Tick, n: int, j: int) {
    || (n in executions && executions[n].job == j && Busy(executions[n]))
    || (tick.Claimed? && tick.number == n && tick.execution.job == j)
  }

  /** A running row is run by the execution it names, unless a fault left it behind. */
  ghost predicate Covered(rows: map<int, Job>, lost: set<int>, executions: map<int, Execution>, tick: Tick) {
    forall j <- rows :: rows[j].status == Running ==> j in lost || Handled(executions, tick, rows[j].owner, j)
  }

  predicate Reserves(tick: Tick) {
    tick.Claiming? || tick.Claimed?
  }

  ghost predicate CountInv(s: State, concurrency: int) {
    && s.active == |s.executions|
    && s.active + (if Reserves(s.tick) then 1 else 0) <= concurrency
    && (forall n <- s.executions :: n < s.next)
    && (s.tick.Claimed? ==> s.tick.number !in s.executions && s.tick.number < s.next && Busy(s.tick.execution))
  }

  ghost predicate Inv(s: State, concurrency: int) {
    TableInv(s.rows, s.next) && Covered(s.rows, s.lost, s.executions, s.tick) && CountInv(s, concurrency)
  }

  // ---- counting the running rows ----

  function Jobs(executions: map<int, Execution>): set<int> {
    set n | n in executions :: executions[n].job
  }

  lemma {:induction false} JobsSize(executions: map<int, Execution>)
    ensures |Jobs(executions)| <= |executions|
    decreases |executions|
  {
    if n :| n in executions {
      var rest := executions - {n};
      assert rest.Keys == executions.Keys - {n};
      JobsSize(rest);
      assert Jobs(executions) == Jobs(rest) + {executions[n].job} by {
        forall j | j in Jobs(executions)
          ensures j in Jobs(rest) + {executions[n].job}
        {
          var m :| m in executions && executions[m].job == j;
          assert m == n || m in rest;
        }
        forall j | j in Jobs(rest)
          ensures j in Jobs(executions)
        {
          var m :| m in rest && rest[m].job == j;
        }
      }
    } else {
      assert Jobs(executions) == {};
    }
  }

  lemma RunningAreFew(s: State, concurrency: int)
    requires Inv(s, concurrency)
    ensures |RunningRows(s.rows) - s.lost| <= concurrency
  {
    JobsSize(s.executions);
    var claimed := if s.tick.Claimed? then {s.tick.execution.job} else {};
    forall j | j in RunningRows(s.rows) - s.lost
      ensures j in Jobs(s.executions) + claimed
    {
      assert Handled(s.executions, s.tick, s.rows[j].owner, j);
    }
    SubsetSize(RunningRows(s.rows) - s.lost, Jobs(s.executions) + claimed);
  }

  // ---- how a step changes the table ----

  /** Rows are deleted, or change without starting to run. */
  ghost predicate Updated(rows: map<int, Job>, rows': map<int, Job>) {
    forall k <- rows' ::
      && k in rows && rows'[k].key == rows[k].key && Locks(rows'[k])
      && (rows'[k].status == Running ==> rows'[k] == rows[k])
  }

  /** No row becomes active. */
  ghost predicate Narrower(rows: map<int, Job>, rows': map<int, Job>) {
    forall k <- rows' :: k in rows && SamePair(rows'[k], rows[k]) && (Active(rows'[k]) ==> Active(rows[k]))
  }

  lemma NarrowerKeepsUnique(rows: map<int, Job>, rows': map<int, Job>)
    requires Narrower(rows, rows') && UniqueActive(rows)
    ensures UniqueActive(rows')
  {
  }

  lemma EndedUpdates(rows: map<int, Job>, next: int, j: int, status: Status)
    requires TableInv(rows, next) && status != Running && status != Queued && status != Retry
    ensures Updated(rows, Ended(rows, j, status)) && Narrower(rows, Ended(rows, j, status))
    ensures j !in RunningRows(Ended(rows, j, status))
  {
  }

  lemma FailedUpdates(rows: map<int, Job>, next: int, x: Execution, failure: Failure, now: int)
    requires TableInv(rows, next)
    ensures Updated(rows, FailedRows(rows, x, failure, now)) && x.job !in RunningRows(FailedRows(rows, x, failure, now))
  {
  }

  // The rows are updated, and execution n goes on to a phase in which it leaves no row running.
  lemma PhaseKeeps(s: State, rows: map<int, Job>, lost: set<int>, n: int, phase: Phase, concurrency: int)
    requires Inv(s, concurrency) && n in s.executions && Updated(s.rows, rows) && s.lost <= lost
    requires phase == Handling || phase.Failing? || !Busy(s.executions[n])
             || s.executions[n].job !in RunningRows(rows) - lost
    ensures Inv(ToPhase(s.(rows := rows, lost := lost), n, phase), concurrency)
  {
    var s' := ToPhase(s.(rows := rows, lost := lost), n, phase);
    assert s'.executions.Keys == s.executions.Keys;
    assert |s'.executions| == |s.executions|;
    forall j <- rows | rows[j].status == Running
      ensures j in lost || Handled(s'.executions, s'.tick, rows[j].owner, j)
    {
      assert j in s.lost || Handled(s.executions, s.tick, s.rows[j].owner, j);
    }
  }

  lemma InsertKeeps(s: State, r: Request, now: int, concurrency: int)
    requires Inv(s, concurrency)
    ensures Inv(Inserted(s, r, now), concurrency)
  {
  }

  lemma InsertKeepsUnique(s: State, r: Request, now: int)
    requires UniqueActive(s.rows) && forall k <- s.rows :: k < s.next
    ensures UniqueActive(Inserted(s, r, now).rows)
  {
  }

  lemma RowsKeep(s: State, rows: map<int, Job>, concurrency: int)
    requires Inv(s, concurrency) && Updated(s.rows, rows)
    ensures Inv(s.(rows := rows), concurrency)
  {
    forall j <- rows | rows[j].status == Running
      ensures j in s.lost || Handled(s.executions, s.tick, rows[j].owner, j)
    {
      assert j in s.lost || Handled(s.executions, s.tick, s.rows[j].owner, j);
    }
  }

  // ---- the steps of an execution ----

  lemma InvExecution(s: State, step: Step, concurrency: int)
    requires Inv(s, concurrency) && Enabled(s, step)
    requires step.CancelOwn? || step.Complete? || step.Continue? || step.HandlerThrows? || step.CompletionThrows?
             || step.EnqueueThrows? || step.Fail? || step.FailThrows?
    ensures Inv(Effect(s, step, concurrency), concurrency)
  {
    hide Inv, Inserted, AfterFailure;
    var n := step.number;
    var x := s.executions[n];
    match step
    case CancelOwn(_) =>
      EndedKeeps(s, n, Cancelled, Handling, concurrency);
      assert s.executions == s.executions[n := x.(phase := Handling)];
    case Complete(_, c) => EndedKeeps(s, n, Completed, if c.Some? then Continuing(c.value) else Settled, concurrency);
    case HandlerThrows(_, failure) => SameRowsKeep(s, n, Failing(failure), concurrency);
    case CompletionThrows(_, written, failure) =>
      if written {
        EndedKeeps(s, n, Completed, Failing(failure), concurrency);
      } else {
        SameRowsKeep(s, n, Failing(failure), concurrency);
      }
    case Continue(_, now) =>
      SameRowsKeep(s, n, Settled, concurrency);
      InsertKeeps(ToPhase(s, n, Settled), x.phase.next, now, concurrency);
    case EnqueueThrows(_, written, now, failure) =>
      SameRowsKeep(s, n, Failing(failure), concurrency);
      InsertKeeps(ToPhase(s, n, Failing(failure)), x.phase.next, now, concurrency);
    case Fail(_, now) => FailedKeeps(s, n, now, concurrency);
    case FailThrows(_) => LostKeeps(s, n, concurrency);
  }

  lemma SameRowsKeep(s: State, n: int, phase: Phase, concurrency: int)
    requires Inv(s, concurrency) && n in s.executions
    requires phase == Handling || phase.Failing? || !Busy(s.executions[n])
    ensures Inv(ToPhase(s, n, phase), concurrency)
  {
    PhaseKeeps(s, s.rows, s.lost, n, phase, concurrency);
  }

  lemma EndedKeeps(s: State, n: int, status: Status, phase: Phase, concurrency: int)
    requires Inv(s, concurrency) && n in s.executions && (status == Completed || status == Cancelled)
    ensures Inv(ToPhase(s.(rows := Ended(s.rows, s.executions[n].job, status)), n, phase), concurrency)
  {
    EndedUpdates(s.rows, s.next, s.executions[n].job, status);
    PhaseKeeps(s, Ended(s.rows, s.executions[n].job, status), s.lost, n, phase, concurrency);
  }

  lemma FailedKeeps(s: State, n: int, now: int, concurrency: int)
    requires Inv(s, concurrency) && Fails(s, n)
    ensures Inv(Effect(s, Fail(n, now), concurrency), concurrency)
  {
    var x := s.executions[n];
    FailedUpdates(s.rows, s.next, x, x.phase.failure, now);
    PhaseKeeps(s, FailedRows(s.rows, x, x.phase.failure, now), s.lost, n, Settled, concurrency);
  }

  lemma LostKeeps(s: State, n: int, concurrency: int)
    requires Inv(s, concurrency) && Fails(s, n)
    ensures Inv(Effect(s, FailThrows(n), concurrency), concurrency)
  {
    PhaseKeeps(s, s.rows, s.lost + {s.executions[n].job}, n, Settled, concurrency);
  }

  // ---- the steps of the tick ----

  lemma TakenKeepsTable(s: State, j: int, now: int, concurrency: int)
    requires Inv(s, concurrency) && j in s.rows
    ensures TableInv(s.rows[j := Taken(s.rows[j], s.next, now)], s.next + 1)
  {
  }

  lemma InvClaim(s: State, j: int, now: int, concurrency: int)
    requires Inv(s, concurrency) && Enabled(s, Claim(Some(j), now))
    ensures Inv(Effect(s, Claim(Some(j), now), concurrency), concurrency)
  {
    var s' := Effect(s, Claim(Some(j), now), concurrency);
    TakenKeepsTable(s, j, now, concurrency);
    forall k <- s'.rows | s'.rows[k].status == Running
      ensures k in s'.lost || Handled(s'.executions, s'.tick, s'.rows[k].owner, k)
    {
      assert k == j || k in s.lost || Handled(s.executions, s.tick, s.rows[k].owner, k);
    }
  }

  lemma InvClaimLost(s: State, j: int, now: int, concurrency: int)
    requires Inv(s, concurrency) && Enabled(s, ClaimLost(j, now))
    ensures Inv(Effect(s, ClaimLost(j, now), concurrency), concurrency)
  {
    var s' := Effect(s, ClaimLost(j, now), concurrency);
    TakenKeepsTable(s, j, now, concurrency);
    forall k <- s'.rows | s'.rows[k].status == Running
      ensures k in s'.lost || Handled(s'.executions, s'.tick, s'.rows[k].owner, k)
    {
      assert k == j || k in s.lost || Handled(s.executions, s.tick, s.rows[k].owner, k);
    }
  }

  lemma LaunchCovers(rows: map<int, Job>, lost: set<int>, executions: map<int, Execution>, n: int, x: Execution)
    requires Covered(rows, lost, executions, Claimed(n, x)) && n !in executions && Busy(x)
    ensures Covered(rows, lost, executions[n := x], Polling)
  {
    forall k <- rows | rows[k].status == Running
      ensures k in lost || Handled(executions[n := x], Polling, rows[k].owner, k)
    {
      assert k in lost || Handled(executions, Claimed(n, x), rows[k].owner, k);
    }
  }

  lemma InvLaunch(s: State, concurrency: int)
    requires Inv(s, concurrency) && s.tick.Claimed?
    ensures Inv(Effect(s, Launch, concurrency), concurrency)
  {
    var n, x := s.tick.number, s.tick.execution;
    LaunchCovers(s.rows, s.lost, s.executions, n, x);
    hide TableInv, Covered;
    assert s.executions[n := x].Keys == s.executions.Keys + {n};
    assert |s.executions[n := x]| == |s.executions| + 1;
  }

  lemma InvFinish(s: State, n: int, concurrency: int)
    requires Inv(s, concurrency) && Enabled(s, Finish(n))
    ensures Inv(Effect(s, Finish(n), concurrency), concurrency)
  {
    var s' := Effect(s, Finish(n), concurrency);
    assert s'.executions.Keys == s.executions.Keys - {n};
    forall k <- s'.rows | s'.rows[k].status == Running
      ensures k in s'.lost || Handled(s'.executions, s'.tick, s'.rows[k].owner, k)
    {
      assert k in s.lost || Handled(s.executions, s.tick, s.rows[k].owner, k);
    }
  }

  lemma InvControl(s: State, step: Step, concurrency: int)
    requires Inv(s, concurrency) && 0 <= concurrency
    requires step.RunTick? || step.CheckCapacity? || step.ClaimThrows? || step.Start? || step.Stop? || step.Crash?
             || (step.Claim? && step.choice.None?)
    ensures Inv(Next(s, step, concurrency), concurrency)
  {
    if step.Crash? {
      assert forall j <- s.rows :: s.rows[j].status == Running ==> j in RunningRows(s.rows);
    } else {
      var s' := Next(s, step, concurrency);
      forall k <- s'.rows | s'.rows[k].status == Running
        ensures k in s'.lost || Handled(s'.executions, s'.tick, s'.rows[k].owner, k)
      {
        assert k in s.lost || Handled(s.executions, s.tick, s.rows[k].owner, k);
      }
    }
  }

  // ---- the statements from outside ----

  lemma OutsideUpdates(s: State, step: Step, concurrency: int)
    requires TableInv(s.rows, s.next) && (step.CancelWaiting? || step.Purge? || step.Recover?)
    ensures Updated(s.rows, Next(s, step, concurrency).rows)
    ensures Narrower(s.rows, Next(s, step, concurrency).rows)
  {
    assert forall k <- s.rows :: Locks(s.rows[k]);
  }

  lemma InvOutside(s: State, step: Step, concurrency: int)
    requires Inv(s, concurrency) && Enabled(s, step) && (step.CancelWaiting? || step.Purge? || step.Recover?)
    ensures Inv(Effect(s, step, concurrency), concurrency)
  {
    var rows := Effect(s, step, concurrency).rows;
    OutsideUpdates(s, step, concurrency);
    RowsKeep(s, rows, concurrency);
    if step.Recover? {
      assert forall j <- rows :: rows[j] == Recovered(s.rows[j], step.now);
    }
  }

  lemma InvEffect(s: State, step: Step, concurrency: int)
    requires Inv(s, concurrency) && 0 <= concurrency && Enabled(s, step)
    ensures Inv(Effect(s, step, concurrency), concurrency)
  {
    assert step == Launch ==> s.tick.Claimed?;
    hide Inv, Enabled, Inserted;
    match step
    case Enqueue(r, now) => InsertKeeps(s, r, now, concurrency);
    case Claim(Some(j), now) => InvClaim(s, j, now, concurrency);
    case ClaimLost(j, now) => InvClaimLost(s, j, now, concurrency);
    case Launch => InvLaunch(s, concurrency);
    case Finish(n) => InvFinish(s, n, concurrency);
    case CancelWaiting(_) => InvOutside(s, step, concurrency);
    case Purge(_) => InvOutside(s, step, concurrency);
    case Recover(_) => InvOutside(s, step, concurrency);
    case Claim(None, _) => InvControl(s, step, concurrency);
    case RunTick => InvControl(s, step, concurrency);
    case CheckCapacity => InvControl(s, step, concurrency);
    case ClaimThrows => InvControl(s, step, concurrency);
    case Start => InvControl(s, step, concurrency);
    case Stop => InvControl(s, step, concurrency);
    case Crash => InvControl(s, step, concurrency);
    case _ => InvExecution(s, step, concurrency);
  }

  lemma {:induction false} InvRun(steps: seq<Step>, concurrency: int)
    requires 0 <= concurrency
    ensures Inv(Run(steps, concurrency), concurrency)
  {
    if steps != [] {
      var s, step := Run(steps[..|steps| - 1], concurrency), steps[|steps| - 1];
      InvRun(steps[..|steps| - 1], concurrency);
      if Enabled(s, step) {
        InvEffect(s, step, concurrency);
      }
    }
  }

  // ---- what holds of every run ----

  /** Whatever happens: idempotency keys are unique, a row is locked exactly while it runs, every running row is
      run by the execution it names or was left behind by a failed statement or a crash since the last recovery,
      and neither the rows that are run nor the executions under way exceed the concurrency. */
  lemma RowsAreLockedAndFew(steps: seq<Step>, concurrency: int)
    requires 0 <= concurrency
    ensures var s := Run(steps, concurrency);
            && UniqueKeys(s.rows)
            && (forall j <- s.rows :: s.rows[j].lockedAt.Some? <==> s.rows[j].status == Running)
            && Covered(s.rows, s.lost, s.executions, s.tick)
            && |RunningRows(s.rows) - s.lost| <= concurrency
            && |s.executions| <= concurrency
  {
    InvRun(steps, concurrency);
    RunningAreFew(Run(steps, concurrency), concurrency);
    assert forall j <- Run(steps, concurrency).rows :: Locks(Run(steps, concurrency).rows[j]);
  }

  predicate MayRun(row: Job, now: int) {
    (row.status == Queued || row.status == Retry) && (row.nextRetry == None || row.nextRetry.value <= now)
  }

  /** A claim takes a first one in the order of priority and age of ALL waiting rows whose time has come, and
      comes back empty only if there is none: the condition on the lock excludes nothing. */
  lemma ClaimTakesAFirst(steps: seq<Step>, choice: Option<int>, now: int, concurrency: int)
    requires 0 <= concurrency && Enabled(Run(steps, concurrency), Claim(choice, now))
    ensures var rows := Run(steps, concurrency).rows;
            match choice
            case None => forall k <- rows :: !MayRun(rows[k], now)
            case Some(j) =>
              && j in rows && MayRun(rows[j], now)
              && forall k <- rows :: MayRun(rows[k], now) ==>
                   || rows[j].priority < rows[k].priority
                   || (rows[j].priority == rows[k].priority && rows[j].createdAt <= rows[k].createdAt)
  {
    InvRun(steps, concurrency);
    var rows := Run(steps, concurrency).rows;
    forall k <- rows
      ensures MayRun(rows[k], now) <==> Due(rows[k], now)
    {
      assert Locks(rows[k]);
    }
  }

  // ---- when active rows stay unique ----

  /** The failure of an execution touches a row that is still active, or makes it final, or its type and resource
      have no other active row. */
  predicate SafeFailure(s: State, n: int)
    requires Fails(s, n)
  {
    var x := s.executions[n];
    x.job in s.rows ==>
      Active(s.rows[x.job]) || Terminal(x, x.phase.failure)
      || forall k <- s.rows :: Active(s.rows[k]) ==> !SamePair(s.rows[k], s.rows[x.job])
  }

  /** `fail` asks nothing of the row it updates, so it can reopen one that has been completed or cancelled. This
      keeps active rows unique exactly if the failure is safe. */
  lemma ReopeningIsSafeIff(s: State, n: int, now: int, concurrency: int)
    requires Fails(s, n) && UniqueActive(s.rows)
    ensures UniqueActive(Effect(s, Fail(n, now), concurrency).rows) <==> SafeFailure(s, n)
  {
    var x := s.executions[n];
    var rows' := FailedRows(s.rows, x, x.phase.failure, now);
    if x.job in s.rows && !Active(s.rows[x.job]) && !Terminal(x, x.phase.failure) {
      if k :| k in s.rows && Active(s.rows[k]) && SamePair(s.rows[k], s.rows[x.job]) {
        assert Active(rows'[k]) && Active(rows'[x.job]) && SamePair(rows'[k], rows'[x.job]);
      }
    }
  }

  // Every other step keeps them unique.
  lemma UniqueNext(s: State, step: Step, concurrency: int)
    requires Inv(s, concurrency) && Enabled(s, step) && UniqueActive(s.rows) && !step.Fail?
    ensures UniqueActive(Effect(s, step, concurrency).rows)
  {
    hide UniqueActive, Inserted;
    if step.Enqueue? {
      InsertKeepsUnique(s, step.request, step.now);
    } else if step.Continue? {
      InsertKeepsUnique(ToPhase(s, step.number, Settled), s.executions[step.number].phase.next, step.now);
    } else if step.EnqueueThrows? {
      InsertKeepsUnique(ToPhase(s, step.number, Failing(step.failure)), s.executions[step.number].phase.next, step.now);
    } else {
      StepNarrows(s, step, concurrency);
      NarrowerKeepsUnique(s.rows, Effect(s, step, concurrency).rows);
    }
  }

  lemma StepNarrows(s: State, step: Step, concurrency: int)
    requires TableInv(s.rows, s.next) && Enabled(s, step)
    requires !step.Fail? && !step.Enqueue? && !step.Continue? && !step.EnqueueThrows?
    ensures Narrower(s.rows, Effect(s, step, concurrency).rows)
  {
    hide UniqueKeys;
    match step
    case CancelOwn(n) => EndedUpdates(s.rows, s.next, s.executions[n].job, Cancelled);
    case Complete(n, _) => EndedUpdates(s.rows, s.next, s.executions[n].job, Completed);
    case CompletionThrows(n, _, _) => EndedUpdates(s.rows, s.next, s.executions[n].job, Completed);
    case CancelWaiting(_) => OutsideUpdates(s, step, concurrency);
    case Purge(_) => OutsideUpdates(s, step, concurrency);
    case Recover(_) => OutsideUpdates(s, step, concurrency);
    case _ =>
  }

  /** Active rows are unique at every moment of the run. */
  ghost predicate AlwaysUnique(steps: seq<Step>, concurrency: int) {
    UniqueActive(Run(steps, concurrency).rows) && (steps != [] ==> AlwaysUnique(steps[..|steps| - 1], concurrency))
  }

  /** Every failure that is recorded is safe when it is. */
  predicate FailsSafely(steps: seq<Step>, concurrency: int) {
    steps != [] ==>
      var before, step := steps[..|steps| - 1], steps[|steps| - 1];
      FailsSafely(before, concurrency)
      && (step.Fail? && Fails(Run(before, concurrency), step.number)
          ==> SafeFailure(Run(before, concurrency), step.number))
  }

  /** There is never more than one queued, running or retrying row for a type and resource, exactly in the runs
      that never record an unsafe failure. */
  lemma {:induction false} ActiveRowsAreUnique(steps: seq<Step>, concurrency: int)
    requires 0 <= concurrency
    ensures AlwaysUnique(steps, concurrency) <==> FailsSafely(steps, concurrency)
  {
    if steps != [] {
      var before, step := steps[..|steps| - 1], steps[|steps| - 1];
      var s := Run(before, concurrency);
      ActiveRowsAreUnique(before, concurrency);
      if AlwaysUnique(before, concurrency) && Enabled(s, step) {
        hide UniqueActive, SafeFailure, Effect, Inv, SamePair;
        if step.Fail? {
          ReopeningIsSafeIff(s, step.number, step.now, concurrency);
        } else {
          InvRun(before, concurrency);
          UniqueNext(s, step, concurrency);
        }
      }
    }
  }
}
