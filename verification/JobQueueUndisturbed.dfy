/** Runs of the job queue in which nothing fails at the wrong moment: active rows are unique there, and open
    circuits cost nothing. */
module JobQueueUndisturbed {
  import opened Wrappers
  import opened JobQueue
  import Laws = JobQueueLaws

  // ---- which events are excluded ----

  predicate Runs(s: State, n: int)
    requires n in s.executions
  {
    s.executions[n].job in s.rows && s.rows[s.executions[n].job].status == Running
  }

  // No execution is under way.
  predicate Quiet(s: State) {
    !s.tick.Claimed? && forall n <- s.executions :: s.executions[n].phase == Settled
  }

  /** A handler or a completion throws only while the row runs, a completion only if it was not carried out, and an
      enqueue of a continuation never, unless the failure is final at once; rows are recovered only while no
      execution is under way. Enqueues, retries, cancellations, purges, lost claims, lost failures, stops and
      crashes may come at any moment. */
  predicate Timely(s: State, step: Step) {
    Enabled(s, step) ==>
      match step
      case HandlerThrows(n, failure) => Runs(s, n) || Terminal(s.executions[n], failure)
      case CompletionThrows(n, written, failure) => (Runs(s, n) && !written) || Terminal(s.executions[n], failure)
      case EnqueueThrows(n, _, _, failure) => Terminal(s.executions[n], failure)
      case Recover(_) => Quiet(s)
      case _ => true
  }

  predicate Undisturbed(steps: seq<Step>, concurrency: int) {
    steps != [] ==>
      var before := steps[..|steps| - 1];
      Undisturbed(before, concurrency) && Timely(Run(before, concurrency), steps[|steps| - 1])
  }

  // ---- the inductive invariant ----

  /** An unfinished execution is the last one of its row, which is not waiting and counts its attempts; if it is to
      record a failure that is not final, the row still runs. */
  predicate Holds(rows: map<int, Job>, next: int, n: int, x: Execution) {
    && n < next && x.job < next
    && (x.phase != Settled && x.job in rows ==>
          && rows[x.job].owner == n && !Waiting(rows[x.job])
          && 1 <= rows[x.job].attempts == x.attempts)
    && (x.phase.Failing? && !Terminal(x, x.phase.failure) ==> x.job in rows && rows[x.job].status == Running)
  }

  ghost predicate Inv(s: State) {
    && (forall j <- s.rows :: j < s.next && 0 <= s.rows[j].attempts)
    && (forall n <- s.executions :: Holds(s.rows, s.next, n, s.executions[n]))
    && (s.tick.Claimed? ==> Holds(s.rows, s.next, s.tick.number, s.tick.execution)
                            && s.tick.number !in s.executions)
  }

  // ---- how a step changes the table ----

  // A row keeps what its unfinished execution knows of it.
  predicate Steady(j: Job, j': Job) {
    && j'.owner == j.owner && j'.attempts == j.attempts
    && (Waiting(j') ==> Waiting(j)) && (j.status == Running ==> j'.status == Running)
  }

  ghost predicate Harmless(rows: map<int, Job>, rows': map<int, Job>) {
    && (forall k <- rows' :: k in rows && Steady(rows[k], rows'[k]))
    && (forall k <- rows :: k in rows' || rows[k].status != Running)
  }

  lemma HarmlessKeeps(s: State, rows: map<int, Job>)
    requires Inv(s) && Harmless(s.rows, rows)
    ensures Inv(s.(rows := rows))
  {
    forall n <- s.executions
      ensures Holds(rows, s.next, n, s.executions[n])
    {
      assert Holds(s.rows, s.next, n, s.executions[n]);
    }
  }

  lemma InsertKeeps(s: State, r: Request, now: int)
    requires Inv(s)
    ensures Inv(Inserted(s, r, now))
  {
    forall n <- s.executions
      ensures Holds(Inserted(s, r, now).rows, Inserted(s, r, now).next, n, s.executions[n])
    {
      assert Holds(s.rows, s.next, n, s.executions[n]);
    }
  }

  lemma PhaseKeeps(s: State, n: int, phase: Phase)
    requires Inv(s) && n in s.executions && (s.executions[n].phase != Settled || phase == Settled)
    requires phase.Failing? ==> Runs(s, n) || Terminal(s.executions[n], phase.failure)
    ensures Inv(ToPhase(s, n, phase))
  {
    var s' := ToPhase(s, n, phase);
    forall m <- s'.executions
      ensures Holds(s.rows, s.next, m, s'.executions[m])
    {
      assert Holds(s.rows, s.next, m, s.executions[m]);
    }
  }

  // The row of a handler that is at work ends; no other execution has it.
  lemma EndedKeeps(s: State, n: int, status: Status)
    requires Inv(s) && Handles(s, n) && (status == Completed || status == Cancelled)
    ensures Inv(s.(rows := Ended(s.rows, s.executions[n].job, status)))
  {
    var rows := Ended(s.rows, s.executions[n].job, status);
    assert Holds(s.rows, s.next, n, s.executions[n]);
    forall m <- s.executions
      ensures Holds(rows, s.next, m, s.executions[m])
    {
      assert Holds(s.rows, s.next, m, s.executions[m]);
    }
  }

  lemma FailureKeeps(s: State, n: int, now: int)
    requires Inv(s) && Fails(s, n)
    ensures Inv(Effect(s, Fail(n, now), 0))
  {
    hide NextRetry, Terminal;
    var s' := Effect(s, Fail(n, now), 0);
    assert Holds(s.rows, s.next, n, s.executions[n]);
    forall m <- s'.executions
      ensures Holds(s'.rows, s.next, m, s'.executions[m])
    {
      assert Holds(s.rows, s.next, m, s.executions[m]);
    }
  }

  lemma TakenKeeps(s: State, j: int, now: int)
    requires Inv(s) && s.tick == Claiming && j in s.rows && Waiting(s.rows[j])
    ensures var rows := s.rows[j := Taken(s.rows[j], s.next, now)];
            && (forall n <- s.executions :: Holds(rows, s.next + 1, n, s.executions[n]))
            && (forall k <- rows :: k < s.next + 1 && 0 <= rows[k].attempts)
  {
    var rows := s.rows[j := Taken(s.rows[j], s.next, now)];
    forall n <- s.executions
      ensures Holds(rows, s.next + 1, n, s.executions[n])
    {
      assert Holds(s.rows, s.next, n, s.executions[n]);
    }
  }

  // ---- the steps ----

  lemma InvExecution(s: State, step: Step, concurrency: int)
    requires Inv(s) && Enabled(s, step) && Timely(s, step)
    requires step.CancelOwn? || step.Complete? || step.Continue? || step.HandlerThrows? || step.CompletionThrows?
             || step.EnqueueThrows? || step.Fail? || step.FailThrows?
    ensures Inv(Effect(s, step, concurrency))
  {
    hide Inserted, AfterFailure, Inv, Terminal;
    var n := step.number;
    var x := s.executions[n];
    match step
    case CancelOwn(_) => EndedKeeps(s, n, Cancelled);
    case Complete(_, c) =>
      EndedKeeps(s, n, Completed);
      PhaseKeeps(s.(rows := Ended(s.rows, x.job, Completed)), n, if c.Some? then Continuing(c.value) else Settled);
    case HandlerThrows(_, failure) => PhaseKeeps(s, n, Failing(failure));
    case CompletionThrows(_, written, failure) =>
      EndedKeeps(s, n, Completed);
      PhaseKeeps(if written then s.(rows := Ended(s.rows, x.job, Completed)) else s, n, Failing(failure));
    case Continue(_, now) =>
      PhaseKeeps(s, n, Settled);
      InsertKeeps(ToPhase(s, n, Settled), x.phase.next, now);
    case EnqueueThrows(_, _, now, failure) =>
      PhaseKeeps(s, n, Failing(failure));
      InsertKeeps(ToPhase(s, n, Failing(failure)), x.phase.next, now);
    case Fail(_, now) => FailureKeeps(s, n, now);
    case FailThrows(_) =>
      PhaseKeeps(s, n, Settled);
      LostKeeps(ToPhase(s, n, Settled), s.lost + {x.job});
  }

  lemma LostKeeps(s: State, lost: set<int>)
    requires Inv(s)
    ensures Inv(s.(lost := lost))
  {
  }

  lemma InvOutside(s: State, step: Step, concurrency: int)
    requires Inv(s) && Enabled(s, step) && (step.CancelWaiting? || step.Purge?)
    ensures Inv(Effect(s, step, concurrency))
  {
    HarmlessKeeps(s, Effect(s, step, concurrency).rows);
  }

  lemma InvRecover(s: State, now: int, concurrency: int)
    requires Inv(s) && Quiet(s)
    ensures Inv(Effect(s, Recover(now), concurrency))
  {
    forall n <- s.executions
      ensures n < s.next && s.executions[n].job < s.next
    {
      assert Holds(s.rows, s.next, n, s.executions[n]);
    }
  }

  lemma InvTick(s: State, step: Step, concurrency: int)
    requires Inv(s) && Enabled(s, step)
    requires step.RunTick? || step.CheckCapacity? || step.Claim? || step.ClaimThrows? || step.ClaimLost?
             || step.Launch? || step.Finish? || step.Start? || step.Stop? || step.Crash?
    ensures Inv(Effect(s, step, concurrency))
  {
    hide RunningRows;
    if step.Claim? && step.choice.Some? {
      TakenKeeps(s, step.choice.value, step.now);
    } else if step.ClaimLost? {
      TakenKeeps(s, step.job, step.now);
    } else {
      hide Holds;
    }
  }

  lemma InvNext(s: State, step: Step, concurrency: int)
    requires Inv(s) && Enabled(s, step) && Timely(s, step)
    ensures Inv(Effect(s, step, concurrency))
  {
    hide Inv, Enabled, Inserted;
    match step
    case Enqueue(r, now) => InsertKeeps(s, r, now);
    case CancelWaiting(_) => InvOutside(s, step, concurrency);
    case Purge(_) => InvOutside(s, step, concurrency);
    case Recover(now) => InvRecover(s, now, concurrency);
    case CancelOwn(_) => InvExecution(s, step, concurrency);
    case Complete(_, _) => InvExecution(s, step, concurrency);
    case Continue(_, _) => InvExecution(s, step, concurrency);
    case HandlerThrows(_, _) => InvExecution(s, step, concurrency);
    case CompletionThrows(_, _, _) => InvExecution(s, step, concurrency);
    case EnqueueThrows(_, _, _, _) => InvExecution(s, step, concurrency);
    case Fail(_, _) => InvExecution(s, step, concurrency);
    case FailThrows(_) => InvExecution(s, step, concurrency);
    case _ => InvTick(s, step, concurrency);
  }

  lemma {:induction false} InvRun(steps: seq<Step>, concurrency: int)
    requires Undisturbed(steps, concurrency)
    ensures Inv(Run(steps, concurrency))
  {
    if steps != [] {
      var s, step := Run(steps[..|steps| - 1], concurrency), steps[|steps| - 1];
      InvRun(steps[..|steps| - 1], concurrency);
      if Enabled(s, step) {
        InvNext(s, step, concurrency);
      }
    }
  }

  // ---- what holds of every such run ----

  /** In an undisturbed run every failure that is recorded is safe, and so there is never more than one queued,
      running or retrying row for a type and resource. */
  lemma {:induction false} UndisturbedRunsStayUnique(steps: seq<Step>, concurrency: int)
    requires 0 <= concurrency && Undisturbed(steps, concurrency)
    ensures Laws.FailsSafely(steps, concurrency) && Laws.AlwaysUnique(steps, concurrency)
  {
    UndisturbedRunsFailSafely(steps, concurrency);
    Laws.ActiveRowsAreUnique(steps, concurrency);
  }

  lemma {:induction false} UndisturbedRunsFailSafely(steps: seq<Step>, concurrency: int)
    requires Undisturbed(steps, concurrency)
    ensures Laws.FailsSafely(steps, concurrency)
  {
    if steps != [] {
      var before, step := steps[..|steps| - 1], steps[|steps| - 1];
      UndisturbedRunsFailSafely(before, concurrency);
      InvRun(before, concurrency);
      if step.Fail? && Fails(Run(before, concurrency), step.number) {
        var s := Run(before, concurrency);
        assert Holds(s.rows, s.next, step.number, s.executions[step.number]);
      }
    }
  }

  /** There an open circuit costs a row none of its attempts: the failure leaves it waiting with one less than the
      claim made it, and so with as many as before. */
  lemma OpenCircuitsAreFree(steps: seq<Step>, n: int, now: int, concurrency: int)
    requires Undisturbed(steps, concurrency) && Fails(Run(steps, concurrency), n)
    requires Run(steps, concurrency).executions[n].phase.failure.CircuitOpen?
    ensures var s, s' := Run(steps, concurrency), Run(steps + [Fail(n, now)], concurrency);
            var x := s.executions[n];
            && x.job in s'.rows && s'.rows[x.job].status == Retry && s'.rows[x.job].nextRetry.Some?
            && s'.rows[x.job].attempts == x.attempts - 1
  {
    InvRun(steps, concurrency);
    RunSnoc(steps, Fail(n, now), concurrency);
    var s := Run(steps, concurrency);
    assert Holds(s.rows, s.next, n, s.executions[n]);
  }
}
