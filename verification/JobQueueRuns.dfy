/** Runs in which a failure reopens a row that no longer runs, and another active row of its type and resource
    stands beside it. */
module JobQueueRuns {
  import opened Wrappers
  import opened JobQueue
  import opened JobQueueLaws

  lemma RunTwo(before: seq<Step>, a: Step, b: Step, concurrency: int)
    ensures Run(before + [a, b], concurrency) == Next(Next(Run(before, concurrency), a, concurrency), b, concurrency)
  {
    hide Next, Run;
    RunSnoc(before, a, concurrency);
    RunSnoc(before + [a], b, concurrency);
    assert before + [a] + [b] == before + [a, b];
  }

  const REQUEST := Request(1, 1, 10, 0, 5)
  const AGAIN := Request(1, 1, 11, 0, 5)
  const FOLLOW_UP := Request(2, 2, 20, 0, 5)

  const ROW := Job(1, 1, 10, 0, 0, Queued, 0, 5, None, None, 0, 0, 0, 0)
  const OTHER := Job(1, 1, 11, 0, 2, Queued, 0, 5, None, None, 0, 0, 0, 0)

  // Row 0 is enqueued and claimed by execution 1.
  const CLAIMED := [Enqueue(REQUEST, 0), Start] + [RunTick, CheckCapacity] + [Claim(Some(0), 1), Launch]

  function Running(row: Job, phase: Phase): State {
    State(map[0 := row], map[1 := Execution(0, 1, 5, phase)], 1, false, Polling, 2, {})
  }

  function Beside(row: Job, phase: Phase): State {
    State(map[0 := row, 2 := OTHER], map[1 := Execution(0, 1, 5, phase)], 1, false, Polling, 3, {})
  }

  lemma StartedState(concurrency: int)
    ensures Next(Next(Init, Enqueue(REQUEST, 0), concurrency), Start, concurrency)
            == State(map[0 := ROW], map[], 0, false, Idle, 1, {})
  {
    assert !Coalesces(map[], REQUEST);
  }

  lemma LaunchedState(s: State, concurrency: int)
    requires s == State(map[0 := ROW], map[], 0, false, Claiming, 1, {})
    ensures Next(Next(s, Claim(Some(0), 1), concurrency), Launch, concurrency) == Running(Taken(ROW, 1, 1), Handling)
  {
    assert Picks(s.rows, Some(0), 1);
    var s' := Next(s, Claim(Some(0), 1), concurrency);
    assert s'.rows == map[0 := Taken(ROW, 1, 1)];
  }

  lemma ClaimedRun(concurrency: int)
    requires 0 < concurrency
    ensures Run(CLAIMED, concurrency) == Running(Taken(ROW, 1, 1), Handling)
  {
    RunTwo([], Enqueue(REQUEST, 0), Start, concurrency);
    RunTwo([] + [Enqueue(REQUEST, 0), Start], RunTick, CheckCapacity, concurrency);
    RunTwo([] + [Enqueue(REQUEST, 0), Start] + [RunTick, CheckCapacity], Claim(Some(0), 1), Launch, concurrency);
    assert [] + [Enqueue(REQUEST, 0), Start] == [Enqueue(REQUEST, 0), Start];
    StartedState(concurrency);
    var s := State(map[0 := ROW], map[], 0, false, Idle, 1, {});
    var s' := State(map[0 := ROW], map[], 0, false, Claiming, 1, {});
    assert Next(Next(s, RunTick, concurrency), CheckCapacity, concurrency) == s';
    hide Next, Running;
    LaunchedState(s', concurrency);
  }

  // The row ends, row 2 is enqueued for the same type and resource, and something throws, or has thrown (then the
  // timer fires, which does nothing while a tick is under way).
  predicate Reopens(end: Step, throw: Step) {
    || (end == Complete(1, Some(FOLLOW_UP)) && throw == EnqueueThrows(1, false, 3, Other))
    || (end == CancelOwn(1) && throw == CompletionThrows(1, false, Other))
    || (end == CancelOwn(1) && throw == HandlerThrows(1, Other))
    || (end == CompletionThrows(1, true, Other) && throw == RunTick)
  }

  function RowAfter(end: Step): Job {
    Taken(ROW, 1, 1).(status := if end.CancelOwn? then Cancelled else Completed, lockedAt := None)
  }

  function PhaseAfter(end: Step): Phase {
    if end.CancelOwn? then Handling else if end.Complete? then Continuing(FOLLOW_UP) else Failing(Other)
  }

  lemma EndedState(end: Step, throw: Step)
    requires Reopens(end, throw)
    ensures Next(Running(Taken(ROW, 1, 1), Handling), end, 1) == Running(RowAfter(end), PhaseAfter(end))
  {
  }

  lemma BesideState(row: Job, phase: Phase)
    requires !Active(row) && row.key == 10
    ensures Next(Running(row, phase), Enqueue(AGAIN, 2), 1) == Beside(row, phase)
  {
    assert !Coalesces(map[0 := row], AGAIN);
  }

  lemma ThrownState(end: Step, throw: Step, row: Job)
    requires Reopens(end, throw)
    ensures Next(Beside(row, PhaseAfter(end)), throw, 1) == Beside(row, Failing(Other))
  {
  }

  lemma FailedState(row: Job)
    requires row.jobType == 1 && row.resource == 1
    ensures !UniqueActive(Next(Beside(row, Failing(Other)), Fail(1, 4), 1).rows)
  {
    var rows := Next(Beside(row, Failing(Other)), Fail(1, 4), 1).rows;
    assert Active(rows[0]) && Active(rows[2]) && SamePair(rows[0], rows[2]);
  }

  lemma ReopenedRun(end: Step, throw: Step)
    requires Reopens(end, throw)
    ensures !UniqueActive(Run(CLAIMED + [end, Enqueue(AGAIN, 2)] + [throw, Fail(1, 4)], 1).rows)
  {
    hide Run, Next, Running, Beside, UniqueActive, PhaseAfter;
    ClaimedRun(1);
    RunTwo(CLAIMED, end, Enqueue(AGAIN, 2), 1);
    RunTwo(CLAIMED + [end, Enqueue(AGAIN, 2)], throw, Fail(1, 4), 1);
    EndedState(end, throw);
    BesideState(RowAfter(end), PhaseAfter(end));
    ThrownState(end, throw, RowAfter(end));
    FailedState(RowAfter(end));
  }

  /** An enqueue that throws after a completion can leave two active rows for one type and resource. */
  lemma AThrowingEnqueueReopensARow()
    ensures !UniqueActive(
              Run(CLAIMED + [Complete(1, Some(FOLLOW_UP)), Enqueue(AGAIN, 2)]
                  + [EnqueueThrows(1, false, 3, Other), Fail(1, 4)], 1).rows)
  {
    ReopenedRun(Complete(1, Some(FOLLOW_UP)), EnqueueThrows(1, false, 3, Other));
  }

  /** So can a completion that throws after the handler cancelled its own row. */
  lemma ACancelledRowIsReopened()
    ensures !UniqueActive(
              Run(CLAIMED + [CancelOwn(1), Enqueue(AGAIN, 2)]
                  + [CompletionThrows(1, false, Other), Fail(1, 4)], 1).rows)
  {
    ReopenedRun(CancelOwn(1), CompletionThrows(1, false, Other));
  }

  /** So can a handler that throws after it cancelled its own row, */
  lemma ACancellingHandlerReopensItsRow()
    ensures !UniqueActive(
              Run(CLAIMED + [CancelOwn(1), Enqueue(AGAIN, 2)] + [HandlerThrows(1, Other), Fail(1, 4)], 1).rows)
  {
    ReopenedRun(CancelOwn(1), HandlerThrows(1, Other));
  }

  /** and a completion that is carried out, but throws all the same. */
  lemma AWrittenCompletionIsReopened()
    ensures !UniqueActive(
              Run(CLAIMED + [CompletionThrows(1, true, Other), Enqueue(AGAIN, 2)] + [RunTick, Fail(1, 4)], 1).rows)
  {
    ReopenedRun(CompletionThrows(1, true, Other), RunTick);
  }

  // ---- a recovery during an execution ----

  // The queue stops and starts while row 0 is executed, and execution 2 takes the recovered row and completes it.
  const RESTARTED := [Stop, Start] + [Recover(2), CheckCapacity] + [Claim(Some(0), 2), Launch]
  // Row 3 is enqueued for the same type and resource, and then the handler of execution 1 fails.
  const OVERTAKEN := [Complete(2, None), Enqueue(AGAIN, 3)] + [HandlerThrows(1, Other), Fail(1, 4)]

  const RETAKEN := Recovered(Taken(ROW, 1, 1), 2)

  function Restarted(phase1: Phase, phase2: Phase, row: Job): State {
    State(map[0 := row],
          map[1 := Execution(0, 1, 5, phase1), 2 := Execution(0, 2, 5, phase2)], 2, false, Polling, 3, {})
  }

  lemma RestartedState()
    ensures var s := Running(Taken(ROW, 1, 1), Handling); Next(Next(s, Stop, 2), Start, 2) == s
  {
  }

  lemma RecoveredState()
    ensures Next(Next(Running(Taken(ROW, 1, 1), Handling), Recover(2), 2), CheckCapacity, 2)
            == Running(RETAKEN, Handling).(tick := Claiming)
  {
    assert Next(Running(Taken(ROW, 1, 1), Handling), Recover(2), 2) == Running(RETAKEN, Handling);
  }

  lemma RetakenState()
    ensures Next(Next(Running(RETAKEN, Handling).(tick := Claiming), Claim(Some(0), 2), 2), Launch, 2)
            == Restarted(Handling, Handling, Taken(RETAKEN, 2, 2))
  {
    var s := Running(RETAKEN, Handling).(tick := Claiming);
    assert Picks(s.rows, Some(0), 2);
    var s' := Next(s, Claim(Some(0), 2), 2);
    assert s'.rows == map[0 := Taken(RETAKEN, 2, 2)];
  }

  lemma RestartedRun()
    ensures Run(CLAIMED + RESTARTED, 2) == Restarted(Handling, Handling, Taken(RETAKEN, 2, 2))
  {
    hide Next, Run, Running, Restarted;
    ClaimedRun(2);
    RunTwo(CLAIMED, Stop, Start, 2);
    RunTwo(CLAIMED + [Stop, Start], Recover(2), CheckCapacity, 2);
    RunTwo(CLAIMED + [Stop, Start] + [Recover(2), CheckCapacity], Claim(Some(0), 2), Launch, 2);
    assert CLAIMED + [Stop, Start] + [Recover(2), CheckCapacity] + [Claim(Some(0), 2), Launch] == CLAIMED + RESTARTED;
    RestartedState();
    RecoveredState();
    RetakenState();
  }

  lemma CompletedBySecond(row: Job)
    requires row == Taken(RETAKEN, 2, 2).(status := Completed, lockedAt := None)
    ensures Next(Next(Restarted(Handling, Handling, Taken(RETAKEN, 2, 2)), Complete(2, None), 2), Enqueue(AGAIN, 3), 2)
            == Restarted(Handling, Settled, row).(rows := map[0 := row, 3 := OTHER.(createdAt := 3)], next := 4)
  {
    var s := Next(Restarted(Handling, Handling, Taken(RETAKEN, 2, 2)), Complete(2, None), 2);
    assert s == Restarted(Handling, Settled, row);
    assert !Coalesces(s.rows, AGAIN);
  }

  lemma ReopenedByFirst(s: State, row: Job)
    requires s.executions == Restarted(Handling, Settled, row).executions
    requires s.rows == map[0 := row, 3 := OTHER.(createdAt := 3)] && row.jobType == 1 && row.resource == 1
    ensures !UniqueActive(Next(Next(s, HandlerThrows(1, Other), 2), Fail(1, 4), 2).rows)
  {
    var s' := Next(s, HandlerThrows(1, Other), 2);
    assert s'.rows == s.rows && s'.executions[1] == Execution(0, 1, 5, Failing(Other));
    var rows := Next(s', Fail(1, 4), 2).rows;
    assert Active(rows[0]) && Active(rows[3]) && SamePair(rows[0], rows[3]);
  }

  /** Without any failing statement, a row that is recovered while it is executed can be reopened by the failure of
      its first handler after a second execution has completed it. */
  lemma ARecoveredRowIsReopened()
    ensures !UniqueActive(Run(CLAIMED + RESTARTED + OVERTAKEN, 2).rows)
  {
    hide Next, Run, Restarted, UniqueActive;
    var row := Taken(RETAKEN, 2, 2).(status := Completed, lockedAt := None);
    RestartedRun();
    CompletedBySecond(row);
    var before := CLAIMED + RESTARTED;
    RunTwo(before, Complete(2, None), Enqueue(AGAIN, 3), 2);
    RunTwo(before + [Complete(2, None), Enqueue(AGAIN, 3)], HandlerThrows(1, Other), Fail(1, 4), 2);
    assert before + [Complete(2, None), Enqueue(AGAIN, 3)] + [HandlerThrows(1, Other), Fail(1, 4)]
        == before + OVERTAKEN;
    ReopenedByFirst(Run(before + [Complete(2, None), Enqueue(AGAIN, 3)], 2), row);
  }
}
