/** What every run of the pagination keeps. */
module PaginationLaws {
  import opened Wrappers
  import opened Pagination

  // ---- the inductive invariant ----

  predicate Stored(remote: seq<Record>, rows: set<Record>, lo: int, hi: int) {
    forall i :: 0 <= i < |remote| && lo <= i < hi ==> remote[i] in rows
  }

  // Every row is one of the first `reach` records, and with them the last.
  predicate Reaches(remote: seq<Record>, rows: set<Record>, reach: int) {
    && 0 <= reach <= |remote|
    && (forall r <- rows :: r in remote[..reach])
    && (reach > 0 ==> remote[reach - 1] in rows)
  }

  // `start` lies before the newest record kept by completed runs.
  predicate Covers(remote: seq<Record>, kept: int, startSeconds: Option<int>) {
    startSeconds.Some? ==> 0 < kept <= |remote| && startSeconds.value * 1000 < remote[kept - 1].timeMs
  }

  predicate ProgressInv(remote: seq<Record>, rows: set<Record>, p: Progress) {
    && p.kept <= p.base <= p.top <= |remote| && p.low <= p.top
    && Stored(remote, rows, p.low, p.top)
  }

  // How far the rows reach: to what is kept between runs, to `top` during one.
  function Reach(s: State): int {
    if s.cursor.Some? && !s.cursor.value.complete then s.progress.top else s.progress.kept
  }

  predicate CursorInv(s: State)
    requires 0 <= Reach(s) <= |s.remote|
  {
    match s.cursor
    case None => s.rows == {} && s.progress.kept == 0
    case Some(c) =>
      && c.newest == (if Reach(s) == 0 then None else Some(s.remote[Reach(s) - 1].timeMs))
      && (if c.complete then c.offset == 0
          else
            && 0 < c.offset && s.progress.low <= |s.remote| - c.offset
            && Covers(s.remote, s.progress.kept, c.startSeconds)
            && ProgressInv(s.remote, s.rows, s.progress))
  }

  predicate NotAbove(a: Option<int>, b: Option<int>) {
    a.Some? ==> b.Some? && a.value <= b.value
  }

  predicate CallInv(s: State, c: Call) {
    && Covers(s.remote, s.progress.kept, c.startSeconds)
    && c.offset == (if s.cursor.Some? then s.cursor.value.offset else 0)
    && NotAbove(c.previousNewest, if s.cursor.Some? then s.cursor.value.newest else None)
  }

  // The entries are the ones at that offset when the page was served.
  predicate Serves(remote: seq<Record>, offset: int, page: Page) {
    && page.served <= |remote| && 0 <= offset
    && (page.entries != [] ==> offset + |page.entries| <= page.served)
    && (forall k :: 0 <= k < |page.entries| ==> page.entries[k] == remote[page.served - 1 - offset - k])
  }

  // An empty page comes only after everything that earlier runs had not kept.
  predicate PageInv(s: State, c: Call, page: Page) {
    && Serves(s.remote, c.offset, page)
    && s.progress.kept <= page.served
    && (c.offset > 0 ==> s.progress.low <= page.served - c.offset)
    && (page.entries == [] ==> page.served - c.offset <= s.progress.kept)
  }

  /** Every record older than those of the pending page has been stored. */
  predicate Closes(s: State)
    requires s.call.Some? && s.call.value.pending.Some?
  {
    forall i :: 0 <= i < |s.remote| && i < s.call.value.pending.value.served - NextOffset(s.call.value)
                ==> s.remote[i] in s.rows
  }

  // The step ends a run.
  predicate Ending(s: State, step: Step) {
    step == Commit && Enabled(s, Commit) && Completes(s.call.value)
  }

  predicate Inv(s: State) {
    && Sorted(s.remote)
    && 0 <= s.progress.kept <= |s.remote| && Stored(s.remote, s.rows, 0, s.progress.kept)
    && Reaches(s.remote, s.rows, Reach(s))
    && CursorInv(s)
    && (s.call.Some? ==> CallInv(s, s.call.value))
    && (s.call.Some? && s.call.value.pending.Some? ==> PageInv(s, s.call.value, s.call.value.pending.value))
  }

  // ---- what the steps keep ----

  lemma VisibleIsSuffix(remote: seq<Record>, startSeconds: Option<int>, inclusive: bool, i: int)
    requires 0 <= i < |remote|
    requires forall j :: i <= j < |remote| ==> Visible(remote[j], startSeconds, inclusive)
    ensures |remote| - i <= VisibleCount(remote, startSeconds, inclusive)
  {
    if i < |remote| - 1 {
      VisibleIsSuffix(remote[..|remote| - 1], startSeconds, inclusive, i);
    }
  }

  lemma {:induction false} SortedAt(remote: seq<Record>, i: int, j: int)
    requires Sorted(remote) && 0 <= i <= j < |remote|
    ensures 0 < remote[i].timeMs <= remote[j].timeMs
    decreases |remote|
  {
    var last := |remote| - 1;
    if j < last {
      SortedAt(remote[..last], i, j);
    } else if i < last {
      SortedAt(remote[..last], i, last - 1);
    }
  }

  lemma CoversAll(remote: seq<Record>, kept: int, startSeconds: Option<int>, inclusive: bool)
    requires Sorted(remote) && Covers(remote, kept, startSeconds) && 0 <= kept <= |remote|
    ensures |remote| - kept <= VisibleCount(remote, startSeconds, inclusive)
    ensures forall i :: kept <= i < |remote| ==> Visible(remote[i], startSeconds, inclusive)
  {
    forall i | kept <= i < |remote|
      ensures Visible(remote[i], startSeconds, inclusive)
    {
      if startSeconds.Some? {
        SortedAt(remote, kept - 1, i);
      }
    }
    if kept < |remote| {
      VisibleIsSuffix(remote, startSeconds, inclusive, kept);
    }
  }

  // What holds of the log holds of any longer log.
  lemma LogGrows(remote: seq<Record>, remote': seq<Record>, rows: set<Record>, lo: int, hi: int, reach: int)
    requires remote <= remote' && hi <= |remote|
    ensures Stored(remote, rows, lo, hi) ==> Stored(remote', rows, lo, hi)
    ensures Reaches(remote, rows, reach) ==> Reaches(remote', rows, reach)
  {
    if 0 <= reach <= |remote| {
      assert remote'[..reach] == remote[..reach];
    }
  }

  lemma PageGrows(remote: seq<Record>, remote': seq<Record>, offset: int, page: Page)
    requires remote <= remote' && Serves(remote, offset, page)
    ensures Serves(remote', offset, page)
  {
  }

  lemma CursorGrows(s: State, remote': seq<Record>)
    requires s.remote <= remote' && 0 <= Reach(s) <= |s.remote| && CursorInv(s)
    ensures CursorInv(s.(remote := remote'))
  {
    if s.cursor.Some? && !s.cursor.value.complete {
      LogGrows(s.remote, remote', s.rows, s.progress.low, s.progress.top, 0);
    }
  }

  lemma InvGrow(s: State, remote': seq<Record>)
    requires Inv(s) && s.remote <= remote' && Sorted(remote')
    ensures Inv(s.(remote := remote'))
  {
    var s' := s.(remote := remote');
    LogGrows(s.remote, remote', s.rows, 0, s.progress.kept, Reach(s));
    CursorGrows(s, remote');
    assert Stored(remote', s.rows, 0, s.progress.kept) && Reaches(remote', s.rows, Reach(s'));
    if s.call.Some? && s.call.value.pending.Some? {
      PageGrows(s.remote, remote', s.call.value.offset, s.call.value.pending.value);
    }
  }

  lemma InvBegin(s: State)
    requires Inv(s) && Enabled(s, Begin)
    ensures Inv(Effect(s, Begin))
  {
    if Reach(s) > 0 {
      SortedAt(s.remote, Reach(s) - 1, Reach(s) - 1);
    }
  }

  lemma WindowServes(remote: seq<Record>, offset: int, size: int, total: int)
    requires 0 <= offset && 0 < size && offset + size <= |remote|
    ensures Serves(remote, offset, Page(Window(remote, offset, size), total, |remote|))
  {
  }

  lemma FetchServes(s: State, size: int, counted: bool, inclusive: bool)
    requires Inv(s) && Enabled(s, Fetch(size, counted, inclusive))
    ensures PageInv(s, s.call.value, Served(s, size, counted, inclusive))
  {
    var c := s.call.value;
    CoversAll(s.remote, s.progress.kept, c.startSeconds, inclusive);
    hide Reaches, Stored, Sorted, CursorInv, VisibleCount;
    if size > 0 {
      WindowServes(s.remote, c.offset, size, Served(s, size, counted, inclusive).total);
    }
  }

  lemma PendingKeeps(s: State, page: Page)
    requires Inv(s) && s.call.Some? && PageInv(s, s.call.value, page)
    ensures Inv(s.(call := Some(s.call.value.(pending := Some(page)))))
  {
    hide Reaches, Stored, Sorted, Serves, Covers;
  }

  lemma InvFetch(s: State, size: int, counted: bool, inclusive: bool)
    requires Inv(s) && Enabled(s, Fetch(size, counted, inclusive))
    ensures Inv(Effect(s, Fetch(size, counted, inclusive)))
  {
    FetchServes(s, size, counted, inclusive);
    hide Inv, PageInv, Served;
    PendingKeeps(s, Served(s, size, counted, inclusive));
  }

  lemma {:induction false} NewestIsFirst(entries: seq<Record>)
    requires entries != [] && forall k :: 0 <= k < |entries| ==> entries[k].timeMs <= entries[0].timeMs
    ensures NewestTime(entries) == entries[0].timeMs
  {
    if |entries| > 1 {
      NewestIsFirst(entries[..|entries| - 1]);
    }
  }

  // The newest record of a page.
  lemma PageNewest(remote: seq<Record>, offset: int, page: Page)
    requires Sorted(remote) && Serves(remote, offset, page) && page.entries != []
    ensures NewestTime(page.entries) == remote[page.served - 1 - offset].timeMs
  {
    forall k | 0 <= k < |page.entries|
      ensures page.entries[k].timeMs <= page.entries[0].timeMs
    {
      SortedAt(remote, page.served - 1 - offset - k, page.served - 1 - offset);
    }
    NewestIsFirst(page.entries);
  }

  // The rows after a page has been stored.
  lemma PageStores(remote: seq<Record>, rows: set<Record>, offset: int, page: Page)
    requires Serves(remote, offset, page)
    ensures var rows' := rows + (set r | r in page.entries);
            && Stored(remote, rows', page.served - offset - |page.entries|, page.served - offset)
            && forall r <- rows' :: r in rows || (page.entries != [] && r in remote[..page.served - offset])
  {
    var rows' := rows + (set r | r in page.entries);
    var low := page.served - offset - |page.entries|;
    forall i | 0 <= i < |remote| && low <= i < page.served - offset
      ensures remote[i] in rows'
    {
      assert page.entries[page.served - 1 - offset - i] == remote[i];
    }
    forall r <- page.entries
      ensures r in remote[..page.served - offset]
    {
      var k :| 0 <= k < |page.entries| && page.entries[k] == r;
      assert remote[..page.served - offset][page.served - 1 - offset - k] == r;
    }
  }

  // How a page extends what the rows reach.
  lemma PageReaches(remote: seq<Record>, rows: set<Record>, reach: int, offset: int, page: Page, top: int)
    requires Reaches(remote, rows, reach) && Serves(remote, offset, page)
    requires reach <= top <= |remote|
    requires top == reach || (page.entries != [] && top == page.served - offset)
    requires page.entries != [] ==> page.served - offset <= top
    ensures Reaches(remote, rows + (set r | r in page.entries), top)
  {
    var rows' := rows + (set r | r in page.entries);
    PageStores(remote, rows, offset, page);
    forall r <- rows'
      ensures r in remote[..top]
    {
      if r in rows {
        assert remote[..reach] == remote[..top][..reach];
      } else {
        assert remote[..page.served - offset] == remote[..top][..page.served - offset];
      }
    }
  }

  // The run's progress: what is stored.
  lemma CommitStores(s: State)
    requires Inv(s) && Enabled(s, Commit)
    ensures var s' := Effect(s, Commit);
            && ProgressInv(s'.remote, s'.rows, s'.progress.(kept := s.progress.kept))
            && Reach(s') == s'.progress.top >= Reach(s)
            && Reach(s') == (if s.call.value.pending.value.entries == [] then Reach(s)
                             else Max(Reach(s), s.call.value.pending.value.served - s.call.value.offset))
  {
    var c := s.call.value;
    PageStores(s.remote, s.rows, c.offset, c.pending.value);
  }

  lemma CommitReaches(s: State)
    requires Inv(s) && Enabled(s, Commit)
    ensures var s' := Effect(s, Commit); Reaches(s'.remote, s'.rows, Reach(s'))
  {
    var c := s.call.value;
    CommitStores(s);
    PageReaches(s.remote, s.rows, Reach(s), c.offset, c.pending.value, Reach(Effect(s, Commit)));
  }

  predicate NewestAt(remote: seq<Record>, reach: int, newest: Option<int>) {
    && 0 <= reach <= |remote|
    && newest == (if reach == 0 then None else Some(remote[reach - 1].timeMs))
  }

  // The upsert keeps newest_at_ms at the newest row.
  lemma PageRaisesNewest(remote: seq<Record>, reach: int, newest: Option<int>, offset: int, page: Page)
    requires Sorted(remote) && NewestAt(remote, reach, newest) && Serves(remote, offset, page) && page.entries != []
    ensures NewestAt(remote, Max(reach, page.served - offset), Higher(newest, Some(NewestTime(page.entries))))
  {
    var at := page.served - offset - 1;
    PageNewest(remote, offset, page);
    if reach > 0 {
      if at < reach {
        SortedAt(remote, at, reach - 1);
      } else {
        SortedAt(remote, reach - 1, at);
      }
    }
  }

  function CursorNewest(s: State): Option<int> {
    if s.cursor.Some? then s.cursor.value.newest else None
  }

  lemma NewestFact(s: State)
    requires Inv(s)
    ensures NewestAt(s.remote, Reach(s), CursorNewest(s))
  {
  }

  lemma CommitNewest(s: State, c: Call, reach: int)
    requires Sorted(s.remote) && s.call == Some(c) && c.pending.Some? && Enabled(s, Commit)
    requires NewestAt(s.remote, Reach(s), CursorNewest(s)) && NotAbove(c.previousNewest, CursorNewest(s))
    requires Serves(s.remote, c.offset, c.pending.value)
    requires reach == (if c.pending.value.entries == [] then Reach(s)
                       else Max(Reach(s), c.pending.value.served - c.offset))
    ensures NewestAt(s.remote, reach, UpdateCursor(s.cursor, c).newest)
  {
    if c.pending.value.entries != [] {
      PageRaisesNewest(s.remote, Reach(s), CursorNewest(s), c.offset, c.pending.value);
    }
  }

  lemma CommitKeeps(s: State)
    requires Inv(s) && Enabled(s, Commit) && (Completes(s.call.value) ==> Closes(s))
    ensures var s' := Effect(s, Commit); Stored(s'.remote, s'.rows, 0, s'.progress.kept)
  {
    CommitStores(s);
  }

  lemma CommitRaisesNewest(s: State)
    requires Inv(s) && Enabled(s, Commit)
    ensures var s' := Effect(s, Commit); NewestAt(s'.remote, Reach(s'), s'.cursor.value.newest)
  {
    CommitStores(s);
    NewestFact(s);
    CommitNewest(s, s.call.value, Reach(Effect(s, Commit)));
  }

  lemma CommitCursor(s: State)
    requires Inv(s) && Enabled(s, Commit)
    ensures var s' := Effect(s, Commit); 0 <= Reach(s') <= |s'.remote| && CursorInv(s')
  {
    CommitStores(s);
    CommitRaisesNewest(s);
  }

  lemma InvCommit(s: State)
    requires Inv(s) && Enabled(s, Commit) && (Completes(s.call.value) ==> Closes(s))
    ensures Inv(Effect(s, Commit))
  {
    hide Stored, Reaches, Sorted, Serves, Closes, OldestTime, NewestTime;
    CommitKeeps(s);
    CommitReaches(s);
    CommitCursor(s);
  }

  lemma InvCrash(s: State)
    requires Inv(s)
    ensures Inv(Effect(s, Crash))
  {
    hide Reaches, Stored, Sorted, Covers;
  }

  lemma AppendIs(s: State, records: seq<Record>)
    requires Inv(s) && Enabled(s, Append(records))
    ensures Effect(s, Append(records)) == s.(remote := s.remote + records) && Sorted(s.remote + records)
  {
  }

  lemma InvNext(s: State, step: Step)
    requires Inv(s) && (Ending(s, step) ==> Closes(s))
    ensures Inv(Next(s, step))
  {
    hide Inv, Closes, Effect;
    if Enabled(s, step) {
      match step
      case Append(records) =>
        AppendIs(s, records);
        InvGrow(s, s.remote + records);
      case Begin => InvBegin(s);
      case Fetch(size, counted, inclusive) => InvFetch(s, size, counted, inclusive);
      case Commit => InvCommit(s);
      case Crash => InvCrash(s);
    }
  }

  /** Whenever a page ends a run, every older record has been stored, by this run or by earlier ones. */
  predicate Closing(steps: seq<Step>) {
    steps != [] ==>
      var before := steps[..|steps| - 1];
      Closing(before) && (Ending(Run(before), steps[|steps| - 1]) ==> Closes(Run(before)))
  }

  lemma {:induction false} InvRun(steps: seq<Step>)
    requires Closing(steps)
    ensures Inv(Run(steps))
  {
    if steps != [] {
      InvRun(steps[..|steps| - 1]);
      InvNext(Run(steps[..|steps| - 1]), steps[|steps| - 1]);
    }
  }

  lemma ClosingSnoc(steps: seq<Step>, step: Step)
    ensures Closing(steps + [step]) <==> Closing(steps) && (Ending(Run(steps), step) ==> Closes(Run(steps)))
  {
    assert (steps + [step])[..|steps|] == steps;
  }

  lemma {:induction false} ClosingPrefix(before: seq<Step>, steps: seq<Step>)
    requires Closing(before + steps)
    ensures Closing(before)
  {
    if steps == [] {
      assert before + steps == before;
    } else {
      assert (before + steps)[..|before + steps| - 1] == before + steps[..|steps| - 1];
      ClosingPrefix(before, steps[..|steps| - 1]);
    }
  }

  // ---- when runs close ----

  /** Every response reports the total, or reaches the last record behind `start`. */
  predicate Telling(steps: seq<Step>) {
    steps != [] ==>
      var before, step := steps[..|steps| - 1], steps[|steps| - 1];
      Telling(before) && (step.Fetch? && Enabled(Run(before), step) ==> Tells(Run(before), step))
  }

  predicate Tells(s: State, step: Step)
    requires step.Fetch? && Enabled(s, step)
  {
    var c := s.call.value;
    step.counted || VisibleCount(s.remote, c.startSeconds, step.inclusive) <= c.offset + step.size
  }

  // A pending page that ends the run comes after everything that earlier runs had not kept.
  predicate ReachesKept(s: State) {
    s.call.Some? && s.call.value.pending.Some? && Completes(s.call.value)
    ==> s.call.value.pending.value.served - NextOffset(s.call.value) <= s.progress.kept
  }

  lemma TellingNext(s: State, step: Step)
    requires Inv(s) && ReachesKept(s) && (step.Fetch? && Enabled(s, step) ==> Tells(s, step))
    ensures ReachesKept(Next(s, step)) && (Ending(s, step) ==> Closes(s))
  {
    if Enabled(s, step) && step.Fetch? {
      CoversAll(s.remote, s.progress.kept, s.call.value.startSeconds, step.inclusive);
    }
  }

  /** With the total on every page, or without it only on last pages, every run closes. */
  lemma {:induction false} TellingRunsClose(steps: seq<Step>)
    requires Telling(steps)
    ensures Closing(steps) && ReachesKept(Run(steps))
  {
    if steps != [] {
      var before, step := steps[..|steps| - 1], steps[|steps| - 1];
      TellingRunsClose(before);
      InvRun(before);
      TellingNext(Run(before), step);
    }
  }

  // ---- what holds of every run ----

  // Whatever was in the log, n records long, when a run began is dealt with by that run.
  predicate Promised(s: State, n: int) {
    && n <= |s.remote|
    && (s.call.Some? && s.call.value.pending.Some? && s.call.value.offset == 0 ==>
          n <= s.call.value.pending.value.served)
    && (s.cursor.Some? && !s.cursor.value.complete ==> n <= s.progress.base)
  }

  lemma PromiseKept(s: State, step: Step, n: int)
    requires Inv(s) && Promised(s, n)
    ensures Promised(Next(s, step), n) || (Enabled(s, step) && step == Commit && Completes(s.call.value))
  {
  }

  // No page of the steps ends a run.
  predicate Unfinished(s: State, steps: seq<Step>)
    decreases |steps|
  {
    steps != [] ==>
      && !(steps[0] == Commit && Enabled(s, Commit) && Completes(s.call.value))
      && Unfinished(Next(s, steps[0]), steps[1..])
  }

  lemma {:induction false} PromiseStands(before: seq<Step>, steps: seq<Step>, n: int)
    requires Closing(before + steps) && Promised(Run(before), n) && Unfinished(Run(before), steps)
    ensures Promised(Run(before + steps), n)
    decreases |steps|
  {
    if steps == [] {
      assert before + steps == before;
    } else {
      assert before + [steps[0]] + steps[1..] == before + steps;
      ClosingPrefix(before, steps);
      InvRun(before);
      RunSnoc(before, steps[0]);
      PromiseKept(Run(before), steps[0], n);
      PromiseStands(before + [steps[0]], steps[1..], n);
    }
  }

  /** Completeness. A call starts a run (offset 0) after the steps `before`; then, through any
      further appends, pages, crashes and resumed calls, some commit is the first to end a run.
      By then every record that existed when the run began is stored, if runs close. */
  lemma CompletedRunsMissNothing(before: seq<Step>, during: seq<Step>, r: Record)
    requires var all := before + during;
             && Closing(all + [Commit])
             && Enabled(Run(all), Commit) && Completes(Run(all).call.value)
    requires Run(before).call.Some? && Run(before).call.value.pending.None? && Run(before).call.value.offset == 0
    requires Unfinished(Run(before), during)
    requires r in Run(before).remote
    ensures r in Run(before + during + [Commit]).rows
  {
    var all := before + during;
    ClosingSnoc(all, Commit);
    ClosingPrefix(before, during);
    InvRun(before);
    InvRun(all);
    PromiseStands(before, during, |Run(before).remote|);
    RunSnoc(all, Commit);
    InvCommit(Run(all));
    CommitStores(Run(all));
    RemoteGrows(before, during);
    var s := Run(all + [Commit]);
    var i :| 0 <= i < |Run(before).remote| && Run(before).remote[i] == r;
    assert s.remote[i] == r && i < s.progress.kept;
  }

  /** So it is if every response reports the total, or reaches the last record behind `start`. */
  lemma ToldRunsMissNothing(before: seq<Step>, during: seq<Step>, r: Record)
    requires Telling(before + during)
    requires Enabled(Run(before + during), Commit) && Completes(Run(before + during).call.value)
    requires Run(before).call.Some? && Run(before).call.value.pending.None? && Run(before).call.value.offset == 0
    requires Unfinished(Run(before), during)
    requires r in Run(before).remote
    ensures r in Run(before + during + [Commit]).rows
  {
    var all := before + during;
    assert (all + [Commit])[..|all|] == all;
    assert Telling(all + [Commit]);
    TellingRunsClose(all + [Commit]);
    CompletedRunsMissNothing(before, during, r);
  }

  lemma {:induction false} RemoteGrows(before: seq<Step>, steps: seq<Step>)
    ensures Run(before).remote <= Run(before + steps).remote
  {
    if steps == [] {
      assert before + steps == before;
    } else {
      var last := |steps| - 1;
      assert before + steps[..last] + [steps[last]] == before + steps;
      RunSnoc(before + steps[..last], steps[last]);
      RemoteGrows(before, steps[..last]);
    }
  }

  /** Between runs the rows are exactly the oldest records of the log: whatever was missed
      because it arrived during the run is newer than everything read. */
  lemma MissedRecordsAreNewest(steps: seq<Step>, i: int, j: int)
    requires Closing(steps) && Run(steps).cursor.Some? && Run(steps).cursor.value.complete
    requires 0 <= i < j < |Run(steps).remote| && Run(steps).remote[j] in Run(steps).rows
    ensures Run(steps).remote[i] in Run(steps).rows
  {
    InvRun(steps);
    DistinctRun(steps);
    var s := Run(steps);
    var k :| 0 <= k < s.progress.kept && s.remote[..s.progress.kept][k] == s.remote[j];
    assert s.remote[k] == s.remote[j];
  }

  lemma {:induction false} DistinctRun(steps: seq<Step>)
    ensures DistinctIds(Run(steps).remote)
  {
    if steps != [] {
      DistinctRun(steps[..|steps| - 1]);
    }
  }

  /** And the next run asks for all of it: its start, one hour before the newest record read,
      leaves every missed record visible, and so does every later resumption of that run. */
  lemma NextRunCoversMissed(steps: seq<Step>, i: int, inclusive: bool)
    requires Closing(steps) && Run(steps).call.None?
    requires 0 <= i < |Run(steps).remote| && Run(steps).remote[i] !in Run(steps).rows
    requires Run(steps).cursor.Some? ==> Run(steps).cursor.value.complete
    ensures Visible(Run(steps).remote[i], Run(steps + [Begin]).call.value.startSeconds, inclusive)
  {
    var s := Run(steps);
    InvRun(steps);
    RunSnoc(steps, Begin);
    InvBegin(s);
    CoversAll(s.remote, s.progress.kept, BeginCall(s.cursor).startSeconds, inclusive);
  }

  // ---- exactly when ----

  /** No record is missing that is older than a stored one. */
  predicate Gapless(remote: seq<Record>, rows: set<Record>) {
    forall i, j :: 0 <= i < j < |remote| && remote[j] in rows ==> remote[i] in rows
  }

  lemma StoredIsGapless(remote: seq<Record>, rows: set<Record>, reach: int)
    requires DistinctIds(remote) && Reaches(remote, rows, reach) && Stored(remote, rows, 0, reach)
    ensures Gapless(remote, rows)
  {
    forall i, j | 0 <= i < j < |remote| && remote[j] in rows
      ensures remote[i] in rows
    {
      var k :| 0 <= k < reach && remote[..reach][k] == remote[j];
      assert remote[k] == remote[j];
    }
  }

  lemma GapStays(remote: seq<Record>, rows: set<Record>, offset: int, page: Page, i: int)
    requires DistinctIds(remote) && Serves(remote, offset, page) && page.entries != []
    requires 0 <= i < page.served - offset - |page.entries| && remote[i] !in rows
    ensures !Gapless(remote, rows + (set r | r in page.entries))
  {
    assert page.entries[0] == remote[page.served - 1 - offset];
    forall k | 0 <= k < |page.entries|
      ensures page.entries[k] != remote[i]
    {
      assert page.entries[k] == remote[page.served - 1 - offset - k];
    }
  }

  /** A commit that ends a run leaves no gap exactly if every record older than its page had been stored. */
  lemma CommitIsGaplessIff(s: State)
    requires Inv(s) && DistinctIds(s.remote) && Ending(s, Commit)
    ensures Gapless(s.remote, Effect(s, Commit).rows) <==> Closes(s)
  {
    var c := s.call.value;
    if Closes(s) {
      CommitStores(s);
      CommitReaches(s);
      CommitKeeps(s);
      hide Inv, Closes, Serves, Gapless;
      StoredIsGapless(s.remote, Effect(s, Commit).rows, Reach(Effect(s, Commit)));
    } else {
      var i :| 0 <= i < |s.remote| && i < c.pending.value.served - NextOffset(c) && s.remote[i] !in s.rows;
      GapStays(s.remote, s.rows, c.offset, c.pending.value, i);
    }
  }

  /** At every moment between runs nothing is missing that is older than a stored record. */
  predicate AlwaysGapless(steps: seq<Step>) {
    && (Run(steps).cursor.Some? && Run(steps).cursor.value.complete ==> Gapless(Run(steps).remote, Run(steps).rows))
    && (steps != [] ==> AlwaysGapless(steps[..|steps| - 1]))
  }

  /** So the runs that never leave a gap are exactly those that close. */
  lemma {:induction false} GaplessIffClosing(steps: seq<Step>)
    ensures AlwaysGapless(steps) <==> Closing(steps)
  {
    if steps != [] {
      var before, step := steps[..|steps| - 1], steps[|steps| - 1];
      GaplessIffClosing(before);
      if Closing(before) {
        InvRun(before);
        DistinctRun(before);
        if Ending(Run(before), step) {
          CommitIsGaplessIff(Run(before));
        } else {
          ClosedRunsAreGapless(steps);
        }
      }
    }
  }

  lemma ClosedRunsAreGapless(steps: seq<Step>)
    requires Closing(steps)
    ensures Run(steps).cursor.Some? && Run(steps).cursor.value.complete ==> Gapless(Run(steps).remote, Run(steps).rows)
  {
    var s := Run(steps);
    if s.cursor.Some? && s.cursor.value.complete {
      forall i, j | 0 <= i < j < |s.remote| && s.remote[j] in s.rows
        ensures s.remote[i] in s.rows
      {
        MissedRecordsAreNewest(steps, i, j);
      }
    }
  }

  const TWO := [Record(1, 1), Record(2, 2)]
  const UNCOUNTED := [Append(TWO), Begin, Fetch(1, false, false)]

  lemma TwoRecords()
    ensures Sorted(TWO) && DistinctIds(TWO) && VisibleCount(TWO, None, false) == 2
    ensures Window(TWO, 0, 1) == [Record(2, 2)]
  {
    assert TWO[..1] == [Record(1, 1)] && TWO[..1][..0] == [];
    assert Sorted(TWO[..1]);
    assert VisibleCount(TWO, None, false) == 2 by {
      assert VisibleCount(TWO[..1], None, false) == 1;
    }
  }

  lemma UncountedRequest()
    ensures Run(UNCOUNTED)
            == Init.(remote := TWO, call := Some(Call(0, None, 0, None, None, Some(Page([Record(2, 2)], 1, 2)))))
  {
    hide Sorted, DistinctIds, VisibleCount, Window;
    TwoRecords();
    assert [] + TWO == TWO;
    RunSnoc([], Append(TWO));
    RunSnoc([] + [Append(TWO)], Begin);
    RunSnoc([] + [Append(TWO)] + [Begin], Fetch(1, false, false));
    assert [] + [Append(TWO)] + [Begin] + [Fetch(1, false, false)] == UNCOUNTED;
  }

  /** A response that leaves out `count` ends the run after its page, here with the older of two records
      never read. */
  lemma AnUncountedPageEndsTheRun()
    ensures var s := Run(UNCOUNTED + [Commit]);
            s.cursor.Some? && s.cursor.value.complete && TWO[0] in s.remote && s.rows == {TWO[1]}
  {
    UncountedRequest();
    RunSnoc(UNCOUNTED, Commit);
  }
}
