/** When rows of the job queue may be claimed: what the clock and the failures of a job say, in plain numbers. */
module JobQueueSchedule {
  import opened Wrappers
  import opened JobQueue

  // Waiting, and neither delayed nor locked within the last 15 minutes.
  predicate IsDue(row: Job, now: int) {
    && (row.status == Queued || row.status == Retry)
    && (row.nextRetry.Some? ==> row.nextRetry.value <= now)
    && (row.lockedAt.Some? ==> row.lockedAt.value < now - 15 * 60_000)
  }

  /** What a failure makes of its row. It is final if the provider rejects the request, or the attempts are used up
      and the circuit is not open; otherwise the row waits, for an open circuit as long as that says, but at least a
      second, and else for a delay that doubles with the attempts, up to an hour. An open circuit costs no attempt. */
  predicate Scheduled(row: Job, row': Job, x: Execution, now: int) {
    && row' == row.(status := row'.status, nextRetry := row'.nextRetry, lockedAt := None, attempts := row'.attempts,
                    refunds := row'.refunds)
    && match x.phase
       case Failing(CircuitOpen(until)) =>
         && row'.status == Retry && row'.nextRetry.Some?
         && (until.Some? ==> row'.nextRetry.value >= now + 1_000 && row'.nextRetry.value >= until.value
                             && row'.nextRetry.value in {now + 1_000, until.value})
         && (until.None? ==> IsDelay(row'.nextRetry.value - now, x.attempts))
         && row'.attempts == (if row.attempts > 0 then row.attempts - 1 else row.attempts)
         && row'.refunds == (if row.attempts > 0 then row.refunds + 1 else row.refunds)
       case Failing(Rejected) =>
         && row'.attempts == row.attempts && row'.refunds == row.refunds
         && row'.status == Failed && row'.nextRetry == None
       case Failing(Other) =>
         && row'.attempts == row.attempts && row'.refunds == row.refunds
         && (if x.maxAttempts <= x.attempts then row'.status == Failed && row'.nextRetry == None
             else row'.status == Retry && row'.nextRetry.Some? && IsDelay(row'.nextRetry.value - now, x.attempts))
       case _ => false
  }

  // One second after the first attempt, doubling until it would exceed an hour.
  predicate IsDelay(delay: int, attempts: int) {
    if attempts <= 1 then delay == 1_000
    else if attempts >= 13 then delay == 3_600_000
    else
      delay == [2_000, 4_000, 8_000, 16_000, 32_000, 64_000, 128_000, 256_000, 512_000, 1_024_000,
                2_048_000][attempts - 2]
  }

  lemma DelayIs(attempts: int)
    ensures IsDelay(Min(HOUR_MS, 1_000 * Pow2(attempts - 1)), attempts)
  {
    if attempts >= 13 {
      Grows(attempts - 1);
    } else if attempts >= 2 {
      Powers();
    }
  }

  lemma {:induction false} Grows(n: int)
    requires n >= 12
    ensures Pow2(n) >= 4_096
    decreases n
  {
    if n == 12 {
      Powers();
    } else {
      Grows(n - 1);
    }
  }

  lemma Powers()
    ensures Pow2(1) == 2 && Pow2(2) == 4 && Pow2(3) == 8 && Pow2(4) == 16 && Pow2(5) == 32
    ensures Pow2(6) == 64 && Pow2(7) == 128 && Pow2(8) == 256 && Pow2(9) == 512 && Pow2(10) == 1_024
    ensures Pow2(11) == 2_048 && Pow2(12) == 4_096
  {
  }

  lemma FailureIsScheduled(row: Job, x: Execution, now: int)
    requires x.phase.Failing?
    ensures Scheduled(row, AfterFailure(row, x, x.phase.failure, now), x, now)
  {
    hide Pow2, IsDelay;
    DelayIs(x.attempts);
  }

  /** In every run a failure that is recorded schedules its row and touches no other. */
  lemma FailuresAreScheduled(steps: seq<Step>, n: int, now: int, concurrency: int)
    requires Fails(Run(steps, concurrency), n)
    ensures var s, s' := Run(steps, concurrency), Run(steps + [Fail(n, now)], concurrency);
            var x := s.executions[n];
            && s'.rows.Keys == s.rows.Keys
            && (x.job in s.rows ==> Scheduled(s.rows[x.job], s'.rows[x.job], x, now))
            && (forall k <- s.rows :: k != x.job ==> s'.rows[k] == s.rows[k])
            && s'.executions == s.executions[n := x.(phase := Settled)]
  {
    hide Scheduled, AfterFailure;
    RunSnoc(steps, Fail(n, now), concurrency);
    var s := Run(steps, concurrency);
    if s.executions[n].job in s.rows {
      FailureIsScheduled(s.rows[s.executions[n].job], s.executions[n], now);
    }
  }

  /** What comes from outside: waiting rows are cancelled and failed ones deleted, a claim that throws ends the tick,
      and a crash ends the tick and every execution, and leaves the table as it is. */
  lemma OutsideSteps(s: State, jobs: set<int>, j: int, concurrency: int)
    ensures var s' := Next(s, CancelWaiting(jobs), concurrency);
            && s' == s.(rows := s'.rows) && s'.rows.Keys == s.rows.Keys
            && forall k <- s.rows ::
                 s'.rows[k] == if k in jobs && (s.rows[k].status == Queued || s.rows[k].status == Retry)
                               then s.rows[k].(status := Cancelled, lockedAt := None) else s.rows[k]
    ensures var s' := Next(s, Purge(j), concurrency);
            s' == s.(rows := if j in s.rows && s.rows[j].status == Failed then s.rows - {j} else s.rows)
    ensures s.tick == Claiming ==> Next(s, ClaimThrows, concurrency) == s.(tick := Idle)
    ensures var s' := Next(s, Crash, concurrency);
            && s'.rows == s.rows && s'.executions == map[] && s'.active == 0 && s'.stopped && s'.tick == Idle
            && s'.lost == s.lost + (set k | k in s.rows && s.rows[k].status == Running)
  {
  }

  // The row of an execution, if it still runs, has ended.
  function EndedRow(s: State, n: int, status: Status): map<int, Job>
    requires n in s.executions
  {
    var j := s.executions[n].job;
    if j in s.rows && s.rows[j].status == Running then s.rows[j := s.rows[j].(status := status, lockedAt := None)]
    else s.rows
  }

  /** A handler may cancel its own row and goes on. If it throws, or the completion does, a failure is to be recorded;
      the row is completed all the same if the statement was carried out. */
  lemma HandlersEnd(s: State, n: int, failure: Failure, concurrency: int)
    requires n in s.executions && s.executions[n].phase == Handling
    ensures var failing := s.executions[n := s.executions[n].(phase := Failing(failure))];
            && Next(s, CancelOwn(n), concurrency) == s.(rows := EndedRow(s, n, Cancelled))
            && Next(s, HandlerThrows(n, failure), concurrency) == s.(executions := failing)
            && Next(s, CompletionThrows(n, false, failure), concurrency) == s.(executions := failing)
            && Next(s, CompletionThrows(n, true, failure), concurrency)
               == s.(rows := EndedRow(s, n, Completed), executions := failing)
  {
  }

  /** The enqueue of a continuation is the one of its request; if it throws, a failure is to be recorded, whether or
      not it was carried out. */
  lemma ContinuationsAreEnqueued(s: State, n: int, now: int, failure: Failure, concurrency: int)
    requires n in s.executions && s.executions[n].phase.Continuing?
    ensures var x := s.executions[n];
            var settled := s.(executions := s.executions[n := x.(phase := Settled)]);
            var failing := s.(executions := s.executions[n := x.(phase := Failing(failure))]);
            && Next(s, Continue(n, now), concurrency) == Next(settled, Enqueue(x.phase.next, now), concurrency)
            && Next(s, EnqueueThrows(n, false, now, failure), concurrency) == failing
            && Next(s, EnqueueThrows(n, true, now, failure), concurrency)
               == Next(failing, Enqueue(x.phase.next, now), concurrency)
  {
    hide Coalesces;
  }

  /** A claim that is lost leaves its row running without an execution, and a failure that is lost its row as it
      was. */
  lemma LossesLeave(s: State, j: int, now: int, n: int, concurrency: int)
    ensures s.tick == Claiming && Picks(s.rows, Some(j), now) ==>
              var s', row := Next(s, ClaimLost(j, now), concurrency), s.rows[j];
              && s' == s.(rows := s'.rows, next := s.next + 1, tick := Idle, lost := s.lost + {j})
              && s'.rows == s.rows[j := row.(status := Running, lockedAt := Some(now), attempts := row.attempts + 1,
                                             owner := s.next, executions := row.executions + 1)]
    ensures n in s.executions && s.executions[n].phase.Failing? ==>
              var x := s.executions[n];
              Next(s, FailThrows(n), concurrency)
              == s.(executions := s.executions[n := x.(phase := Settled)], lost := s.lost + {x.job})
  {
  }

  // ---- an undisturbed job ----

  /** A tick of a started queue below its concurrency claims a due row: it runs, locked, with one attempt more, and
      its execution has its slot. */
  lemma ATickClaims(s: State, j: int, now: int, concurrency: int)
    requires s.tick == Idle && !s.stopped && s.active < concurrency && Picks(s.rows, Some(j), now)
    ensures var claimed := Next(Next(Next(s, RunTick, concurrency), CheckCapacity, concurrency), Claim(Some(j), now),
                                concurrency);
            var s' := Next(claimed, Launch, concurrency);
            && j in s.rows && j in s'.rows && s'.rows == s.rows[j := s'.rows[j]]
            && s'.rows[j] == s.rows[j].(status := Running, lockedAt := Some(now), attempts := s.rows[j].attempts + 1,
                                        owner := s.next, executions := s.rows[j].executions + 1)
            && s'.executions == s.executions[s.next := Execution(j, s.rows[j].attempts + 1, s.rows[j].maxAttempts,
                                                                 Handling)]
            && s'.active == s.active + 1 && s'.next == s.next + 1 && s'.tick == Polling && !s'.stopped
  {
    var s1 := s.(tick := Polling);
    assert Next(s, RunTick, concurrency) == s1;
    var s2 := s.(tick := Claiming);
    assert Next(s1, CheckCapacity, concurrency) == s2;
    assert Enabled(s2, Claim(Some(j), now));
  }

  /** Without a due row, at its concurrency, or once stopped, it claims nothing. */
  lemma OrNothing(s: State, now: int, concurrency: int)
    ensures s.tick == Polling && (s.stopped || s.active >= concurrency) ==>
              Next(s, CheckCapacity, concurrency) == s.(tick := Idle)
    ensures s.tick == Claiming && Picks(s.rows, None, now) ==>
              Next(s, Claim(None, now), concurrency) == s.(tick := Idle)
    ensures s.stopped ==> Next(s, RunTick, concurrency) == s && Next(s, Start, concurrency) == s.(stopped := false)
    ensures !s.stopped ==> Next(s, Start, concurrency) == s && Next(s, Stop, concurrency) == s.(stopped := true)
  {
  }

  /** A handler that succeeds completes its row, if it still runs, and frees its slot; a continuation is enqueued
      before. */
  lemma ASuccessCompletes(s: State, n: int, continuation: Option<Request>, concurrency: int)
    requires n in s.executions && s.executions[n].phase == Handling
    ensures var x, s' := s.executions[n], Next(s, Complete(n, continuation), concurrency);
            && s' == s.(rows := s'.rows, executions := s'.executions)
            && s'.rows == (if x.job in s.rows && s.rows[x.job].status == Running
                           then s.rows[x.job := s.rows[x.job].(status := Completed, lockedAt := None)] else s.rows)
            && s'.executions == s.executions[n := x.(
                 phase := match continuation case None => Settled case Some(next) => Continuing(next))]
    ensures s.executions[n].job in s.rows && s.rows[s.executions[n].job].status == Running && continuation == None ==>
              var end := Next(Next(s, Complete(n, continuation), concurrency), Finish(n), concurrency);
              end.active == s.active - 1 && end.executions == s.executions - {n}
  {
  }

  /** A request becomes a new queued row without attempts, unless an active row of its type and resource or a row of
      its key exists. */
  lemma EnqueueInserts(s: State, r: Request, now: int, concurrency: int)
    requires s.next !in s.rows
    ensures var s' := Next(s, Enqueue(r, now), concurrency);
            if exists k <- s.rows :: s.rows[k].key == r.key
                                     || (s.rows[k].jobType == r.jobType && s.rows[k].resource == r.resource
                                         && s.rows[k].status in {Queued, Running, Retry})
            then s' == s
            else
              && s' == s.(rows := s'.rows, next := s.next + 1) && s.next in s'.rows
              && s'.rows == s.rows[s.next := s'.rows[s.next]]
              && var row := s'.rows[s.next];
                 && row.jobType == r.jobType && row.resource == r.resource && row.key == r.key
                 && row.priority == r.priority && row.maxAttempts == r.maxAttempts && row.createdAt == now
                 && row.status == Queued && row.attempts == 0 && row.nextRetry == None && row.lockedAt == None
  {
  }

  /** After a crash or a stop every row that was running waits again, at once. */
  lemma RecoveryReleases(s: State, now: int, concurrency: int)
    ensures var s' := Next(s, Recover(now), concurrency);
            && s' == s.(rows := s'.rows, lost := {}) && s'.rows.Keys == s.rows.Keys
            && forall k <- s.rows ::
                 s'.rows[k] == if s.rows[k].status != Running then s.rows[k]
                               else s.rows[k].(status := Retry, lockedAt := None, nextRetry := Some(now),
                                               recoveries := s.rows[k].recoveries + 1)
  {
  }
}
