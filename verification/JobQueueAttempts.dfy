/** How often a row is executed, in every run of the job queue. */
module JobQueueAttempts {
  import opened Wrappers
  import opened JobQueue

  function Limit(j: Job): int {
    Max(1, j.maxAttempts)
  }

  // ---- the executions of a row ----

  /** The executions under way, with the one that was claimed but not yet launched. */
  function UnderWay(s: State): map<int, Execution> {
    if s.tick.Claimed? then s.executions[s.tick.number := s.tick.execution] else s.executions
  }

  // Whether the execution may still fail the row j, and, unless `all`, need not be its last attempt.
  predicate May(x: Execution, j: int, all: bool) {
    x.job == j && x.phase != Settled && (all || x.attempts < x.maxAttempts)
  }

  function Those(xs: map<int, Execution>, j: int, all: bool): set<int> {
    set n | n in xs && May(xs[n], j, all)
  }

  /** The executions that may still fail the row j. */
  function Live(xs: map<int, Execution>, j: int): set<int> {
    Those(xs, j, true)
  }

  /** Those whose failure, of whatever kind, need not be final. */
  function Open(xs: map<int, Execution>, j: int): set<int> {
    Those(xs, j, false)
  }

  function Count(b: bool): int {
    if b then 1 else 0
  }

  /** Attempts count the executions that were not refunded. A recovery is what allows a row one more execution at
      a time, and so one more attempt beyond the limit. */
  predicate Counts(j: Job, live: int, open: int) {
    && 0 <= j.attempts == j.executions - j.refunds && 0 <= j.refunds && 0 <= j.recoveries
    && 0 <= open <= live
    && live + Count(Waiting(j)) <= 1 + j.recoveries
    && Max(0, j.attempts - (Limit(j) - 1)) + open + Count(Waiting(j)) <= 1 + j.recoveries
  }

  ghost predicate RowsCount(rows: map<int, Job>, xs: map<int, Execution>) {
    forall j <- rows :: Counts(rows[j], |Live(xs, j)|, |Open(xs, j)|)
  }

  ghost predicate Known(rows: map<int, Job>, xs: map<int, Execution>, next: int) {
    && (forall j <- rows :: j < next)
    && (forall n <- xs :: n < next && xs[n].job < next)
    && (forall n <- xs :: xs[n].job in rows ==> xs[n].maxAttempts == rows[xs[n].job].maxAttempts)
  }

  ghost predicate Inv(s: State) {
    && RowsCount(s.rows, UnderWay(s)) && Known(s.rows, UnderWay(s), s.next)
    && (s.tick.Claimed? ==> s.tick.number !in s.executions)
  }

  // ---- executions end, or go on to another phase ----

  /** No execution becomes live. */
  ghost predicate Fewer(xs: map<int, Execution>, xs': map<int, Execution>) {
    forall n <- xs' :: n in xs && xs'[n].job == xs[n].job && xs'[n].maxAttempts == xs[n].maxAttempts
                       && xs'[n].attempts == xs[n].attempts && (xs[n].phase == Settled ==> xs'[n].phase == Settled)
  }

  lemma FewerSubset(xs: map<int, Execution>, xs': map<int, Execution>, j: int, all: bool)
    requires Fewer(xs, xs')
    ensures |Those(xs', j, all)| <= |Those(xs, j, all)|
  {
    forall n | n in Those(xs', j, all)
      ensures n in Those(xs, j, all)
    {
      assert xs'[n].job == xs[n].job;
    }
    SubsetSize(Those(xs', j, all), Those(xs, j, all));
  }

  lemma OpenAreLive(xs: map<int, Execution>, j: int)
    ensures |Open(xs, j)| <= |Live(xs, j)|
  {
    forall n | n in Open(xs, j)
      ensures n in Live(xs, j)
    {
      assert May(xs[n], j, true);
    }
    SubsetSize(Open(xs, j), Live(xs, j));
  }

  lemma FewerCount(xs: map<int, Execution>, xs': map<int, Execution>, row: Job, j: int)
    requires Fewer(xs, xs') && Counts(row, |Live(xs, j)|, |Open(xs, j)|)
    ensures Counts(row, |Live(xs', j)|, |Open(xs', j)|)
  {
    FewerSubset(xs, xs', j, true);
    FewerSubset(xs, xs', j, false);
    OpenAreLive(xs', j);
  }

  lemma FewerKeep(rows: map<int, Job>, xs: map<int, Execution>, xs': map<int, Execution>, next: int)
    requires RowsCount(rows, xs) && Known(rows, xs, next) && Fewer(xs, xs')
    ensures RowsCount(rows, xs') && Known(rows, xs', next)
  {
    forall j <- rows {
      FewerCount(xs, xs', rows[j], j);
    }
  }

  lemma PhaseKeeps(s: State, n: int, phase: Phase)
    requires Inv(s) && n in s.executions && (s.executions[n].phase == Settled ==> phase == Settled)
    ensures Inv(ToPhase(s, n, phase))
  {
    FewerKeep(s.rows, UnderWay(s), UnderWay(ToPhase(s, n, phase)), s.next);
  }

  // ---- rows change, executions do not ----

  /** Whatever is under way for the rows, they count as before. */
  ghost predicate Updated(rows: map<int, Job>, rows': map<int, Job>) {
    forall j <- rows' :: j in rows && rows'[j].maxAttempts == rows[j].maxAttempts
                         && forall live, open :: Counts(rows[j], live, open) ==> Counts(rows'[j], live, open)
  }

  lemma UpdateKeeps(s: State, rows: map<int, Job>)
    requires Inv(s) && Updated(s.rows, rows)
    ensures Inv(s.(rows := rows))
  {
  }

  lemma NoneYet(xs: map<int, Execution>, j: int, all: bool)
    requires forall n <- xs :: xs[n].job < j
    ensures Those(xs, j, all) == {}
  {
    forall n <- xs
      ensures !May(xs[n], j, all)
    {
      assert xs[n].job < j;
    }
  }

  lemma InsertKeeps(s: State, r: Request, now: int)
    requires Inv(s)
    ensures Inv(Inserted(s, r, now))
  {
    NoneYet(UnderWay(s), s.next, true);
    NoneYet(UnderWay(s), s.next, false);
  }

  lemma EndedKeeps(s: State, j: int, status: Status)
    requires Inv(s) && (status == Completed || status == Cancelled)
    ensures Inv(s.(rows := Ended(s.rows, j, status)))
  {
    assert Updated(s.rows, Ended(s.rows, j, status));
    UpdateKeeps(s, Ended(s.rows, j, status));
  }

  // ---- a claim ----

  lemma TakenCounts(j: Job, n: int, now: int, live: int, open: int)
    requires Counts(j, live, open) && Waiting(j)
    ensures Counts(Taken(j, n, now), live, open)
    ensures Counts(Taken(j, n, now), live + 1, open + Count(j.attempts + 1 < j.maxAttempts))
  {
  }

  lemma ClaimedSet(xs: map<int, Execution>, n: int, x: Execution, j: int, all: bool)
    requires n !in xs
    ensures |Those(xs[n := x], j, all)| == |Those(xs, j, all)| + Count(May(x, j, all))
  {
    hide May;
    var added := if May(x, j, all) then {n} else {};
    assert Those(xs[n := x], j, all) == Those(xs, j, all) + added;
  }

  lemma ClaimKeeps(s: State, j: int, now: int)
    requires Inv(s) && Enabled(s, Claim(Some(j), now))
    ensures Inv(Effect(s, Claim(Some(j), now), 0))
  {
    var row := Taken(s.rows[j], s.next, now);
    var x := Execution(j, row.attempts, row.maxAttempts, Handling);
    var xs := s.executions[s.next := x];
    assert Counts(s.rows[j], |Live(s.executions, j)|, |Open(s.executions, j)|);
    TakenCounts(s.rows[j], s.next, now, |Live(s.executions, j)|, |Open(s.executions, j)|);
    assert row.maxAttempts == s.rows[j].maxAttempts;
    hide Taken, Counts, Those;
    forall k <- s.rows
      ensures Counts(s.rows[j := row][k], |Live(xs, k)|, |Open(xs, k)|)
    {
      ClaimedSet(s.executions, s.next, x, k, true);
      ClaimedSet(s.executions, s.next, x, k, false);
      assert Counts(s.rows[k], |Live(s.executions, k)|, |Open(s.executions, k)|);
    }
  }

  // ---- a failure ----

  lemma FailureCounts(j: Job, x: Execution, failure: Failure, now: int, live: int, open: int)
    requires Counts(j, live, open) && x.maxAttempts == j.maxAttempts && 1 <= live
    requires var open' := open - Count(x.attempts < x.maxAttempts); 0 <= open' <= live - 1
    ensures Counts(AfterFailure(j, x, failure, now), live - 1, open - Count(x.attempts < x.maxAttempts))
  {
    hide NextRetry;
  }

  lemma SettledSet(xs: map<int, Execution>, n: int, j: int, all: bool)
    requires n in xs
    ensures |Those(xs[n := xs[n].(phase := Settled)], j, all)| == |Those(xs, j, all)| - Count(May(xs[n], j, all))
  {
    var x' := xs[n].(phase := Settled);
    assert !May(x', j, all);
    hide May;
    assert Those(xs[n := x'], j, all) == Those(xs, j, all) - {n};
    assert May(xs[n], j, all) <==> n in Those(xs, j, all);
  }

  lemma FailureKeeps(s: State, n: int, now: int)
    requires Inv(s) && Fails(s, n)
    ensures Inv(Effect(s, Fail(n, now), 0))
  {
    var x := s.executions[n];
    var s' := Effect(s, Fail(n, now), 0);
    var xs := UnderWay(s);
    assert UnderWay(s') == xs[n := x.(phase := Settled)];
    forall j <- s.rows
      ensures Counts(s'.rows[j], |Live(UnderWay(s'), j)|, |Open(UnderWay(s'), j)|)
    {
      SettledSet(xs, n, j, true);
      SettledSet(xs, n, j, false);
      OpenAreLive(UnderWay(s'), j);
      assert Counts(s.rows[j], |Live(xs, j)|, |Open(xs, j)|);
      hide Counts, AfterFailure, Those;
      if j == x.job {
        FailureCounts(s.rows[j], x, x.phase.failure, now, |Live(xs, j)|, |Open(xs, j)|);
      }
    }
  }

  // ---- the steps ----

  lemma InvExecution(s: State, step: Step, concurrency: int)
    requires Inv(s) && Enabled(s, step)
    requires step.CancelOwn? || step.Complete? || step.Continue? || step.HandlerThrows? || step.CompletionThrows?
             || step.EnqueueThrows? || step.Fail? || step.FailThrows?
    ensures Inv(Effect(s, step, concurrency))
  {
    hide Inserted, AfterFailure, Inv;
    var n := step.number;
    var x := s.executions[n];
    match step
    case CancelOwn(_) => EndedKeeps(s, x.job, Cancelled);
    case Complete(_, c) =>
      EndedKeeps(s, x.job, Completed);
      PhaseKeeps(s.(rows := Ended(s.rows, x.job, Completed)), n,
                 if c.Some? then Continuing(c.value) else Settled);
    case HandlerThrows(_, failure) => PhaseKeeps(s, n, Failing(failure));
    case CompletionThrows(_, written, failure) =>
      EndedKeeps(s, x.job, Completed);
      PhaseKeeps(if written then s.(rows := Ended(s.rows, x.job, Completed)) else s, n, Failing(failure));
    case Continue(_, now) =>
      PhaseKeeps(s, n, Settled);
      InsertKeeps(ToPhase(s, n, Settled), x.phase.next, now);
    case EnqueueThrows(_, _, now, failure) =>
      PhaseKeeps(s, n, Failing(failure));
      InsertKeeps(ToPhase(s, n, Failing(failure)), x.phase.next, now);
    case Fail(_, now) => FailureKeeps(s, n, now);
    case FailThrows(_) =>
      PhaseKeeps(s, n, Settled);
      LostKeeps(ToPhase(s, n, Settled), s.lost + {x.job});
  }

  lemma LostKeeps(s: State, lost: set<int>)
    requires Inv(s)
    ensures Inv(s.(lost := lost))
  {
  }

  lemma InvOutside(s: State, step: Step, concurrency: int)
    requires Inv(s) && Enabled(s, step) && (step.CancelWaiting? || step.Purge? || step.Recover?)
    ensures Inv(Effect(s, step, concurrency))
  {
    assert Updated(s.rows, Effect(s, step, concurrency).rows);
    UpdateKeeps(s, Effect(s, step, concurrency).rows);
  }

  lemma InvClaimLost(s: State, j: int, now: int, concurrency: int)
    requires Inv(s) && Enabled(s, ClaimLost(j, now))
    ensures Inv(Effect(s, ClaimLost(j, now), concurrency))
  {
    forall live, open | Counts(s.rows[j], live, open)
      ensures Counts(Taken(s.rows[j], s.next, now), live, open)
    {
      TakenCounts(s.rows[j], s.next, now, live, open);
    }
    assert Updated(s.rows, s.rows[j := Taken(s.rows[j], s.next, now)]) by { hide Counts; }
    UpdateKeeps(s, s.rows[j := Taken(s.rows[j], s.next, now)]);
  }

  lemma InvTick(s: State, step: Step, concurrency: int)
    requires Inv(s) && Enabled(s, step)
    requires step.RunTick? || step.CheckCapacity? || step.ClaimThrows? || step.Launch? || step.Finish?
             || step.Start? || step.Stop? || step.Crash? || (step.Claim? && step.choice.None?)
    ensures Inv(Effect(s, step, concurrency))
  {
    FewerKeep(s.rows, UnderWay(s), UnderWay(Effect(s, step, concurrency)), s.next);
  }

  lemma InvEffect(s: State, step: Step, concurrency: int)
    requires Inv(s) && Enabled(s, step)
    ensures Inv(Effect(s, step, concurrency))
  {
    hide Inv, Inserted;
    match step
    case Enqueue(r, now) => InsertKeeps(s, r, now);
    case CancelWaiting(_) => InvOutside(s, step, concurrency);
    case Purge(_) => InvOutside(s, step, concurrency);
    case Recover(_) => InvOutside(s, step, concurrency);
    case Claim(Some(j), now) => ClaimKeeps(s, j, now);
    case ClaimLost(j, now) => InvClaimLost(s, j, now, concurrency);
    case Claim(None, _) => InvTick(s, step, concurrency);
    case RunTick => InvTick(s, step, concurrency);
    case CheckCapacity => InvTick(s, step, concurrency);
    case ClaimThrows => InvTick(s, step, concurrency);
    case Launch => InvTick(s, step, concurrency);
    case Finish(_) => InvTick(s, step, concurrency);
    case Start => InvTick(s, step, concurrency);
    case Stop => InvTick(s, step, concurrency);
    case Crash => InvTick(s, step, concurrency);
    case _ => InvExecution(s, step, concurrency);
  }

  lemma {:induction false} InvRun(steps: seq<Step>, concurrency: int)
    ensures Inv(Run(steps, concurrency))
  {
    if steps != [] {
      var s, step := Run(steps[..|steps| - 1], concurrency), steps[|steps| - 1];
      InvRun(steps[..|steps| - 1], concurrency);
      if Enabled(s, step) {
        InvEffect(s, step, concurrency);
      }
    }
  }

  // ---- what holds of every run ----

  /** A row's attempts never exceed its limit by more than its recoveries, even if rows are recovered while they
      are executed; they count every claim except those whose failure was an open circuit, and a row that is
      waiting has one to spare. */
  lemma AttemptsAreBounded(steps: seq<Step>, concurrency: int, j: int)
    requires j in Run(steps, concurrency).rows
    ensures var row := Run(steps, concurrency).rows[j];
            && row.attempts <= Limit(row) + row.recoveries
            && row.executions == row.attempts + row.refunds
            && (Waiting(row) ==> row.executions < Limit(row) + row.recoveries + row.refunds)
  {
    InvRun(steps, concurrency);
    var s := Run(steps, concurrency);
    assert Counts(s.rows[j], |Live(UnderWay(s), j)|, |Open(UnderWay(s), j)|);
  }

  /** Without recoveries no row is executed twice at the same time. */
  lemma OneExecutionAtATime(steps: seq<Step>, concurrency: int, j: int, m: int, n: int)
    requires var s := Run(steps, concurrency);
             && j in s.rows && s.rows[j].recoveries == 0
             && m in Live(UnderWay(s), j) && n in Live(UnderWay(s), j)
    ensures m == n && !Waiting(Run(steps, concurrency).rows[j])
  {
    InvRun(steps, concurrency);
    var s := Run(steps, concurrency);
    assert Counts(s.rows[j], |Live(UnderWay(s), j)|, |Open(UnderWay(s), j)|);
    SubsetSize({m, n}, Live(UnderWay(s), j));
  }

  /** So, without recoveries and open circuits, a row that was executed as often as its limit allows is done. */
  lemma RetriesEnd(steps: seq<Step>, concurrency: int, j: int)
    requires j in Run(steps, concurrency).rows
    requires var row := Run(steps, concurrency).rows[j]; row.recoveries == 0 && row.refunds == 0
    ensures var row := Run(steps, concurrency).rows[j];
            row.executions <= Limit(row) && (row.executions == Limit(row) ==> !Waiting(row))
  {
    AttemptsAreBounded(steps, concurrency, j);
  }
}
