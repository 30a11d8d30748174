/** The worker as the source runs it: one method for what the code does between two `await`s, each proved
    to take exactly the step of JobQueue that it names. The states that a sequence of calls on a new queue
    passes through are therefore those of a run, by JobQueue.StatesOfARun. */
module JobQueueWorker {
  import opened Wrappers
  import Q = JobQueue
  import opened JobQueueSchedule

  class Queue {
    // the database
    var rows: map<int, Q.Job>
    // the process: `active`, `stopped`, `tickPromise`, and the executions that nobody awaits
    var active: int
    var stopped: bool
    var tick: Q.Tick
    var executions: map<int, Q.Execution>
    // the source of ids, and the rows that a fault left running
    var next: int
    ghost var lost: set<int>
    const concurrency: int

    ghost function View(): Q.State
      reads this
    {
      Q.State(rows, executions, active, stopped, tick, next, lost)
    }

    constructor (concurrency: int)
      ensures View() == Q.Init && this.concurrency == concurrency
      ensures rows == map[] && executions == map[] && active == 0 && stopped && tick == Q.Idle
    {
      this.concurrency := concurrency;
      rows, executions := map[], map[];
      active, stopped, tick, next, lost := 0, true, Q.Idle, 0, {};
    }

    // ---- enqueue ----

    // The oldest active row of a type and resource.
    method SelectActive(jobType: int, resource: int) returns (found: Option<int>)
      ensures found.Some? ==>
                && found.value in rows && Q.Active(rows[found.value])
                && rows[found.value].jobType == jobType && rows[found.value].resource == resource
                && forall k <- rows :: Q.Active(rows[k]) && rows[k].jobType == jobType && rows[k].resource == resource
                                       ==> rows[found.value].createdAt <= rows[k].createdAt
      ensures found.None? ==>
                forall k <- rows :: !(Q.Active(rows[k]) && rows[k].jobType == jobType && rows[k].resource == resource)
    {
      var left := rows.Keys;
      found := None;
      while left != {}
        invariant left <= rows.Keys
        invariant found.Some? ==>
                    && found.value in rows && Q.Active(rows[found.value])
                    && rows[found.value].jobType == jobType && rows[found.value].resource == resource
        invariant forall k <- rows :: k !in left && Q.Active(rows[k]) && rows[k].jobType == jobType
                                      && rows[k].resource == resource
                                      ==> found.Some? && rows[found.value].createdAt <= rows[k].createdAt
        decreases |left|
      {
        HasElement(left);
        var k :| k in left;
        left := left - {k};
        if Q.Active(rows[k]) && rows[k].jobType == jobType && rows[k].resource == resource {
          if found.None? || rows[k].createdAt < rows[found.value].createdAt {
            found := Some(k);
          }
        }
      }
    }

    method Enqueue(r: Q.Request, now: int) returns (job: int, coalesced: bool)
      modifies this`rows, this`next
      ensures View() == Q.Next(old(View()), Q.Enqueue(r, now), concurrency)
      ensures coalesced == Q.Coalesces(old(rows), r) && job in rows
      ensures old(next !in rows) ==> (coalesced <==> job in old(rows))
      ensures rows[job].key == r.key
              || (Q.Active(rows[job]) && rows[job].jobType == r.jobType && rows[job].resource == r.resource)
      ensures coalesced <==>
                exists k :: k in old(rows)
                            && (old(rows)[k].key == r.key
                                || (old(rows)[k].jobType == r.jobType && old(rows)[k].resource == r.resource
                                    && old(rows)[k].status in {Q.Queued, Q.Running, Q.Retry}))
      ensures rows == if coalesced then old(rows) else old(rows)[job := rows[job]]
      ensures !coalesced ==>
                var row := rows[job];
                && job == old(next) && row.status == Q.Queued && row.attempts == 0 && row.createdAt == now
                && row.jobType == r.jobType && row.resource == r.resource && row.key == r.key
                && row.priority == r.priority && row.maxAttempts == r.maxAttempts
                && row.nextRetry == None && row.lockedAt == None
    {
      var found := SelectActive(r.jobType, r.resource);
      if found.Some? {
        assert Q.Active(rows[found.value]);
        return found.value, true;
      }
      if k :| k in rows && rows[k].key == r.key {
        return k, true;
      }
      assert !Q.Coalesces(rows, r);
      job, coalesced := next, false;
      rows := rows[job := Q.Job(r.jobType, r.resource, r.key, r.priority, now, Q.Queued, 0, r.maxAttempts,
                                None, None, 0, 0, 0, 0)];
      next := next + 1;
    }

    // ---- tick ----

    // The SELECT of claim.
    method SelectDue(now: int) returns (candidate: Option<int>)
      ensures Q.Picks(rows, candidate, now)
      ensures match candidate
              case None => forall k <- rows :: !IsDue(rows[k], now)
              case Some(j) =>
                && j in rows && IsDue(rows[j], now)
                && forall k <- rows :: IsDue(rows[k], now) ==>
                     || rows[j].priority < rows[k].priority
                     || (rows[j].priority == rows[k].priority && rows[j].createdAt <= rows[k].createdAt)
    {
      var left := rows.Keys;
      candidate := None;
      while left != {}
        invariant left <= rows.Keys
        invariant candidate.Some? ==> candidate.value in rows && Q.Due(rows[candidate.value], now)
        invariant forall k <- rows :: k !in left && Q.Due(rows[k], now)
                                      ==> candidate.Some? && Q.NotAfter(rows[candidate.value], rows[k])
        decreases |left|
      {
        HasElement(left);
        var k :| k in left;
        left := left - {k};
        if Q.Due(rows[k], now) && (candidate.None? || !Q.NotAfter(rows[candidate.value], rows[k])) {
          candidate := Some(k);
        }
      }
    }

    // scheduleTick: there is at most one tick at a time, and none begins once the queue is stopped.
    method RunTick()
      modifies this`tick
      ensures View() == Q.Next(old(View()), Q.RunTick, concurrency)
      ensures tick == if old(tick) == Q.Idle && !stopped then Q.Polling else old(tick)
    {
      if !stopped && tick == Q.Idle {
        tick := Q.Polling;
      }
    }

    // The guard of tick's loop.
    method CheckCapacity()
      requires tick == Q.Polling
      modifies this`tick
      ensures View() == Q.Next(old(View()), Q.CheckCapacity, concurrency)
      ensures tick == if stopped || active >= concurrency then Q.Idle else Q.Claiming
    {
      if !stopped && active < concurrency {
        tick := Q.Claiming;
      } else {
        tick := Q.Idle;
      }
    }

    method Claim(now: int) returns (choice: Option<int>)
      requires tick == Q.Claiming
      modifies this`rows, this`tick, this`next
      ensures Q.Enabled(old(View()), Q.Claim(choice, now))
      ensures View() == Q.Next(old(View()), Q.Claim(choice, now), concurrency)
      ensures choice.None? ==> rows == old(rows) && tick == Q.Idle
      ensures choice.Some? ==>
                var j := choice.value;
                && j in old(rows) && IsDue(old(rows)[j], now) && rows == old(rows)[j := rows[j]]
                && rows[j] == old(rows)[j].(status := Q.Running, lockedAt := Some(now), owner := old(next),
                                            attempts := old(rows)[j].attempts + 1,
                                            executions := old(rows)[j].executions + 1)
                && tick == Q.Claimed(old(next), Q.Execution(j, rows[j].attempts, rows[j].maxAttempts, Q.Handling))
    {
      choice := SelectDue(now);
      if choice.None? {
        tick := Q.Idle;
        return;
      }
      var row := rows[choice.value];
      row := row.(status := Q.Running, lockedAt := Some(now), attempts := row.attempts + 1,
                  owner := next, executions := row.executions + 1);
      rows := rows[choice.value := row];
      tick := Q.Claimed(next, Q.Execution(choice.value, row.attempts, row.maxAttempts, Q.Handling));
      next := next + 1;
    }

    method Launch()
      requires tick.Claimed?
      modifies this`active, this`executions, this`tick
      ensures View() == Q.Next(old(View()), Q.Launch, concurrency)
      ensures active == old(active) + 1 && tick == Q.Polling
      ensures executions == old(executions)[old(tick).number := old(tick).execution]
    {
      active := active + 1;
      executions := executions[tick.number := tick.execution];
      tick := Q.Polling;
    }

    // The transaction was committed, but nobody learns of it: tick ends with an error.
    method ClaimLost(now: int) returns (choice: Option<int>)
      requires tick == Q.Claiming
      modifies this`rows, this`tick, this`next, this`lost
      ensures choice.Some? ==> View() == Q.Next(old(View()), Q.ClaimLost(choice.value, now), concurrency)
                               && Q.Enabled(old(View()), Q.ClaimLost(choice.value, now))
      ensures choice.None? ==> View() == Q.Next(old(View()), Q.ClaimThrows, concurrency)
      ensures tick == Q.Idle && (choice.None? ==> rows == old(rows))
      ensures choice.Some? ==>
                var j := choice.value;
                && j in old(rows) && IsDue(old(rows)[j], now) && rows == old(rows)[j := rows[j]]
                && rows[j].status == Q.Running && rows[j].attempts == old(rows)[j].attempts + 1
    {
      choice := Claim(now);
      if choice.Some? {
        lost := lost + {choice.value};
      }
      tick := Q.Idle;
    }

    // ---- execute, fail and the `finally` ----

    // The UPDATE of a completion, and that of a handler which cancels its own row.
    method End(job: int, status: Q.Status)
      modifies this`rows
      ensures rows == Q.Ended(old(rows), job, status)
      ensures rows == if job in old(rows) && old(rows)[job].status == Q.Running
                      then old(rows)[job := old(rows)[job].(status := status, lockedAt := None)] else old(rows)
    {
      if job in rows && rows[job].status == Q.Running {
        rows := rows[job := rows[job].(status := status, lockedAt := None)];
      }
    }

    method CancelOwn(n: int)
      requires n in executions && executions[n].phase == Q.Handling
      modifies this`rows
      ensures View() == Q.Next(old(View()), Q.CancelOwn(n), concurrency)
      ensures var j := executions[n].job;
              rows == if j in old(rows) && old(rows)[j].status == Q.Running
                      then old(rows)[j := old(rows)[j].(status := Q.Cancelled, lockedAt := None)] else old(rows)
    {
      End(executions[n].job, Q.Cancelled);
    }

    method Complete(n: int, continuation: Option<Q.Request>)
      requires n in executions && executions[n].phase == Q.Handling
      modifies this`rows, this`executions
      ensures View() == Q.Next(old(View()), Q.Complete(n, continuation), concurrency)
      ensures var j := old(executions[n]).job;
              rows == if j in old(rows) && old(rows)[j].status == Q.Running
                      then old(rows)[j := old(rows)[j].(status := Q.Completed, lockedAt := None)] else old(rows)
      ensures executions == old(executions)[n := old(executions[n]).(
                              phase := match continuation case None => Q.Settled case Some(next) => Q.Continuing(next))]
    {
      var x := executions[n];
      End(x.job, Q.Completed);
      executions := executions[n := x.(
        phase := if continuation.Some? then Q.Continuing(continuation.value) else Q.Settled)];
    }

    method Continue(n: int, now: int) returns (job: int, coalesced: bool)
      requires n in executions && executions[n].phase.Continuing?
      modifies this`rows, this`next, this`executions
      ensures View() == Q.Next(old(View()), Q.Continue(n, now), concurrency)
      ensures executions == old(executions)[n := old(executions[n]).(phase := Q.Settled)]
      ensures var r := old(executions[n]).phase.next;
              && job in rows
              && (rows[job].key == r.key || (rows[job].jobType == r.jobType && rows[job].resource == r.resource))
    {
      var r := executions[n].phase.next;
      executions := executions[n := executions[n].(phase := Q.Settled)];
      job, coalesced := Enqueue(r, now);
    }

    // The handler, the completion or the enqueue throws; the last two may have been carried out all the same.
    method Throw(n: int, written: bool, now: int, failure: Q.Failure)
      requires n in executions && (executions[n].phase == Q.Handling || executions[n].phase.Continuing?)
      modifies this`rows, this`next, this`executions
      ensures old(executions[n]).phase == Q.Handling ==>
                View() == Q.Next(old(View()), if written then Q.CompletionThrows(n, true, failure)
                                              else Q.HandlerThrows(n, failure), concurrency)
      ensures old(executions[n]).phase.Continuing? ==>
                View() == Q.Next(old(View()), Q.EnqueueThrows(n, written, now, failure), concurrency)
      ensures executions == old(executions)[n := old(executions[n]).(phase := Q.Failing(failure))]
      ensures !written ==> rows == old(rows)
      ensures var x := old(executions[n]);
              written && x.phase == Q.Handling ==>
                rows == if x.job in old(rows) && old(rows)[x.job].status == Q.Running
                        then old(rows)[x.job := old(rows)[x.job].(status := Q.Completed, lockedAt := None)]
                        else old(rows)
      ensures var x := old(executions[n]);
              written && x.phase.Continuing? ==>
                && (forall k <- old(rows) :: k != old(next) ==> k in rows && rows[k] == old(rows)[k])
                && exists k <- rows :: rows[k].key == x.phase.next.key
                                       || (Q.Active(rows[k]) && rows[k].jobType == x.phase.next.jobType
                                           && rows[k].resource == x.phase.next.resource)
    {
      var x := executions[n];
      executions := executions[n := x.(phase := Q.Failing(failure))];
      if written {
        if x.phase.Continuing? {
          var _, _ := Enqueue(x.phase.next, now);
        } else {
          End(x.job, Q.Completed);
        }
      }
    }

    method Fail(n: int, now: int)
      requires n in executions && executions[n].phase.Failing?
      modifies this`rows, this`executions
      ensures View() == Q.Next(old(View()), Q.Fail(n, now), concurrency)
      ensures executions == old(executions)[n := old(executions[n]).(phase := Q.Settled)]
      ensures var x := old(executions[n]);
              rows == if x.job in old(rows) then old(rows)[x.job := rows[x.job]] else old(rows)
      ensures var x := old(executions[n]);
              x.job in old(rows) ==> Scheduled(old(rows)[x.job], rows[x.job], x, now)
    {
      hide Scheduled;
      var x := executions[n];
      var failure := x.phase.failure;
      if x.job in rows {
        FailureIsScheduled(rows[x.job], x, now);
      }
      var circuitOpen := failure.CircuitOpen?;
      var terminal := failure.Rejected? || (!circuitOpen && x.attempts >= x.maxAttempts);
      var retryDelay := Q.Min(Q.HOUR_MS, 1_000 * Q.Pow2(x.attempts - 1));
      var nextRetry :=
        if terminal then None
        else if circuitOpen && failure.cooldownUntil.Some? then Some(Q.Max(now + 1_000, failure.cooldownUntil.value))
        else Some(now + retryDelay);
      if x.job in rows {
        var row := rows[x.job];
        row := row.(status := if terminal then Q.Failed else Q.Retry, nextRetry := nextRetry, lockedAt := None);
        if circuitOpen && row.attempts > 0 {
          row := row.(attempts := row.attempts - 1, refunds := row.refunds + 1);
        }
        rows := rows[x.job := row];
      }
      executions := executions[n := x.(phase := Q.Settled)];
    }

    // The UPDATE of `fail` throws, and nobody catches it.
    method FailThrows(n: int)
      requires n in executions && executions[n].phase.Failing?
      modifies this`executions, this`lost
      ensures View() == Q.Next(old(View()), Q.FailThrows(n), concurrency)
      ensures executions == old(executions)[n := old(executions[n]).(phase := Q.Settled)]
    {
      lost := lost + {executions[n].job};
      executions := executions[n := executions[n].(phase := Q.Settled)];
    }

    method Finish(n: int)
      requires n in executions && executions[n].phase == Q.Settled
      modifies this`executions, this`active
      ensures View() == Q.Next(old(View()), Q.Finish(n), concurrency)
      ensures active == old(active) - 1 && executions == old(executions) - {n}
    {
      active := active - 1;
      executions := map k | k in executions && k != n :: executions[k];
    }

    // ---- start and stop ----

    // Then `start` awaits RecoverInterrupted.
    method Start()
      modifies this`stopped
      ensures View() == Q.Next(old(View()), Q.Start, concurrency)
      ensures !stopped
    {
      if !stopped {
        return;
      }
      stopped := false;
    }

    method RecoverInterrupted(now: int)
      modifies this`rows, this`lost
      ensures View() == Q.Next(old(View()), Q.Recover(now), concurrency)
      ensures rows.Keys == old(rows).Keys
      ensures forall k <- rows ::
                var row := old(rows)[k];
                rows[k] == if row.status != Q.Running then row
                           else row.(status := Q.Retry, lockedAt := None, nextRetry := Some(now),
                                     recoveries := row.recoveries + 1)
    {
      rows := map k | k in rows :: Q.Recovered(rows[k], now);
      lost := {};
    }

    method Stop()
      modifies this`stopped
      ensures View() == Q.Next(old(View()), Q.Stop, concurrency)
      ensures stopped
    {
      stopped := true;
    }
  }
}
