/** Resumable pagination over Kraken's trade and ledger history: syncTrades, syncLedgers,
    cursorState and updateCursor (api/src/services/kraken.ts).

    The remote history is an append-only log that the API serves newest first, from an offset,
    while it keeps growing; a process may stop between any two steps and a later one resumes
    from the cursor that was written in the same transaction as the rows. */
module Pagination {
  import opened Wrappers

  /** A trade or a ledger entry: its Kraken identifier and its time in milliseconds. */
  datatype Record = Record(krakenId: int, timeMs: int)

  /** The row of kraken_sync_cursors for one endpoint. */
  datatype Cursor = Cursor(
    complete: bool, offset: int, startSeconds: Option<int>, oldest: Option<int>, newest: Option<int>)

  /** A response on its way: the entries, newest first, the reported total, and, as history,
      the length of the remote log when it was served. */
  datatype Page = Page(entries: seq<Record>, total: int, served: int)

  /** The variables of one call: `previous` is what it read from the cursor. */
  datatype Call = Call(
    offset: int, startSeconds: Option<int>, page: int,
    previousOldest: Option<int>, previousNewest: Option<int>, pending: Option<Page>)

  /** History of the run in progress, as positions in the remote log: `base` is its length at the
      run's first request, `kept` what earlier runs had completed, and everything from `low` up
      to `top` has been stored by this run. */
  datatype Progress = Progress(kept: int, base: int, low: int, top: int)

  datatype State = State(
    remote: seq<Record>, rows: set<Record>, cursor: Option<Cursor>, call: Option<Call>, progress: Progress)

  const Init := State([], {}, None, None, Progress(0, 0, 0, 0))

  const MAX_PAGES := 10_000
  const OVERLAP_MS := 3_600_000

  // ---- the remote side ----

  // The API treats `start` as exclusive or inclusive; the theorems hold for both.
  predicate Visible(r: Record, startSeconds: Option<int>, inclusive: bool) {
    startSeconds.None? || startSeconds.value * 1000 < r.timeMs || (inclusive && startSeconds.value * 1000 == r.timeMs)
  }

  // How many of the records, taken from the newest, lie behind `start`.
  function VisibleCount(remote: seq<Record>, startSeconds: Option<int>, inclusive: bool): (n: int)
    ensures 0 <= n <= |remote|
  {
    if remote == [] || !Visible(remote[|remote| - 1], startSeconds, inclusive) then 0
    else 1 + VisibleCount(remote[..|remote| - 1], startSeconds, inclusive)
  }

  // The records at positions offset .. offset + size of the newest-first list.
  function Window(remote: seq<Record>, offset: int, size: int): seq<Record>
    requires 0 <= offset && 0 <= size && offset + size <= |remote|
  {
    seq(size, k requires 0 <= k < size => remote[|remote| - 1 - offset - k])
  }

  // ---- the steps ----

  datatype Step =
    | Append(records: seq<Record>)
    | Begin
    | Fetch(size: int, counted: bool, inclusive: bool)
    | Commit
    | Crash

  // Times never decrease in the order of arrival.
  predicate Sorted(remote: seq<Record>) {
    remote == [] ||
    (var last := |remote| - 1;
     && Sorted(remote[..last])
     && 0 < remote[last].timeMs
     && (last > 0 ==> remote[last - 1].timeMs <= remote[last].timeMs))
  }

  predicate DistinctIds(remote: seq<Record>) {
    forall i, j :: 0 <= i < j < |remote| ==> remote[i].krakenId != remote[j].krakenId
  }

  predicate Enabled(s: State, step: Step) {
    match step
    case Append(records) => Sorted(s.remote + records) && DistinctIds(s.remote + records)
    case Begin => s.call.None?
    case Fetch(size, _, inclusive) =>
      && s.call.Some? && s.call.value.pending.None? && s.call.value.page < MAX_PAGES && 0 <= s.call.value.offset
      && var left := VisibleCount(s.remote, s.call.value.startSeconds, inclusive) - s.call.value.offset;
         if left <= 0 then size == 0 else 0 < size <= left
    case Commit => s.call.Some? && s.call.value.pending.Some?
    case Crash => true
  }

  // cursorState, and the choice of offset and start at the top of syncTrades.
  function BeginCall(cursor: Option<Cursor>): Call {
    match cursor
    case None => Call(0, None, 0, None, None, None)
    case Some(c) =>
      if !c.complete then
        Call(c.offset, if c.startSeconds == Some(0) then None else c.startSeconds, 0, c.oldest, c.newest, None)
      else
        Call(0, if c.newest.None? then None else Some(Max(0, (c.newest.value - OVERLAP_MS) / 1000)), 0,
             c.oldest, c.newest, None)
  }

  function Max(a: int, b: int): int {
    if a < b then b else a
  }

  function Min(a: int, b: int): int {
    if a < b then a else b
  }

  // `total` falls back to what has been seen when the response carries no count.
  function Served(s: State, size: int, counted: bool, inclusive: bool): Page
    requires Enabled(s, Fetch(size, counted, inclusive))
  {
    var c := s.call.value;
    var visible := VisibleCount(s.remote, c.startSeconds, inclusive);
    Page(if size == 0 then [] else Window(s.remote, c.offset, size),
         if counted then visible else c.offset + size, |s.remote|)
  }

  function NextOffset(c: Call): int
    requires c.pending.Some?
  {
    c.offset + |c.pending.value.entries|
  }

  predicate Completes(c: Call)
    requires c.pending.Some?
  {
    c.pending.value.entries == [] || NextOffset(c) >= c.pending.value.total
  }

  function OldestTime(entries: seq<Record>): int
    requires entries != []
  {
    if |entries| == 1 then entries[0].timeMs
    else Min(OldestTime(entries[..|entries| - 1]), entries[|entries| - 1].timeMs)
  }

  function NewestTime(entries: seq<Record>): int
    requires entries != []
  {
    if |entries| == 1 then entries[0].timeMs
    else Max(NewestTime(entries[..|entries| - 1]), entries[|entries| - 1].timeMs)
  }

  // The upsert of updateCursor never raises oldest_at_ms and never lowers newest_at_ms.
  function Lower(old_: Option<int>, new_: Option<int>): Option<int> {
    if new_.None? then old_ else if old_.None? || new_.value < old_.value then new_ else old_
  }

  function Higher(old_: Option<int>, new_: Option<int>): Option<int> {
    if new_.None? then old_ else if old_.None? || new_.value > old_.value then new_ else old_
  }

  function UpdateCursor(cursor: Option<Cursor>, c: Call): Cursor
    requires c.pending.Some?
  {
    var entries := c.pending.value.entries;
    var complete := Completes(c);
    var oldest := if entries == [] then c.previousOldest else Some(OldestTime(entries));
    var newest := if entries == [] then c.previousNewest else Some(NewestTime(entries));
    Cursor(complete, if complete then 0 else NextOffset(c), c.startSeconds,
           Lower(if cursor.Some? then cursor.value.oldest else None, oldest),
           Higher(if cursor.Some? then cursor.value.newest else None, newest))
  }

  function AfterCommit(c: Call): Option<Call>
    requires c.pending.Some?
  {
    if Completes(c) || c.page + 1 >= MAX_PAGES then None
    else Some(c.(offset := NextOffset(c), page := c.page + 1, pending := None))
  }

  function Advance(p: Progress, c: Call): Progress
    requires c.pending.Some?
  {
    var page := c.pending.value;
    var low := page.served - NextOffset(c);
    var p' := if c.offset == 0 then p.(base := page.served, low := low, top := page.served)
              else p.(low := low, top := Max(p.top, page.served - c.offset));
    if Completes(c) then p'.(kept := p'.top) else p'
  }

  function Effect(s: State, step: Step): State
    requires Enabled(s, step)
  {
    match step
    case Append(records) => s.(remote := s.remote + records)
    case Begin => s.(call := Some(BeginCall(s.cursor)))
    case Fetch(size, counted, inclusive) =>
      s.(call := Some(s.call.value.(pending := Some(Served(s, size, counted, inclusive)))))
    case Commit =>
      var c := s.call.value;
      s.(rows := s.rows + (set r | r in c.pending.value.entries),
         cursor := Some(UpdateCursor(s.cursor, c)),
         call := AfterCommit(c),
         progress := Advance(s.progress, c))
    case Crash => s.(call := None)
  }

  function Next(s: State, step: Step): State {
    if Enabled(s, step) then Effect(s, step) else s
  }

  function Run(steps: seq<Step>): State {
    if steps == [] then Init else Next(Run(steps[..|steps| - 1]), steps[|steps| - 1])
  }

  lemma RunSnoc(steps: seq<Step>, step: Step)
    ensures Run(steps + [step]) == Next(Run(steps), step)
  {
    assert (steps + [step])[..|steps|] == steps;
  }

  /** States that each come from the one before by a step, as those of the loop of PaginationSync do, are states
      of a run. */
  lemma {:induction false} StatesOfARun(states: seq<State>, steps: seq<Step>)
    requires |states| == |steps| + 1 && states[0] == Init
    requires forall i :: 0 <= i < |steps| ==> states[i + 1] == Next(states[i], steps[i])
    ensures states[|steps|] == Run(steps)
  {
    hide Next;
    if steps != [] {
      StatesOfARun(states[..|steps|], steps[..|steps| - 1]);
    }
  }
}
