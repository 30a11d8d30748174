/** What a page holds, where a call begins, and what the cursor says of the stored records. */
module PaginationCursors {
  import opened Wrappers
  import opened Pagination

  // ---- pages ----

  /** Behind `start`, which is in seconds; one of the same moment only if `start` is inclusive. */
  predicate Behind(r: Record, start: Option<int>, inclusive: bool) {
    start.Some? ==> r.timeMs > 1_000 * start.value || (inclusive && r.timeMs == 1_000 * start.value)
  }

  lemma {:induction false} CountIs(remote: seq<Record>, start: Option<int>, inclusive: bool)
    ensures CountsBehind(VisibleCount(remote, start, inclusive), remote, start, inclusive)
  {
    if remote != [] {
      CountIs(remote[..|remote| - 1], start, inclusive);
    }
  }

  /** The newest n records lie behind `start`, and no more. */
  predicate CountsBehind(n: int, remote: seq<Record>, start: Option<int>, inclusive: bool) {
    && 0 <= n <= |remote|
    && (forall i :: |remote| - n <= i < |remote| ==> Behind(remote[i], start, inclusive))
    && (n < |remote| ==> !Behind(remote[|remote| - 1 - n], start, inclusive))
  }

  lemma ServedIs(s: State, size: int, counted: bool, inclusive: bool)
    requires Enabled(s, Fetch(size, counted, inclusive))
    ensures var c, page := s.call.value, Served(s, size, counted, inclusive);
            var n := VisibleCount(s.remote, c.startSeconds, inclusive);
            && c.page < 10_000 && 0 <= c.offset && |page.entries| == size && page.served == |s.remote|
            && (size == 0 <==> n <= c.offset) && (size > 0 ==> c.offset + size <= n)
            && (forall k :: 0 <= k < size && size > 0 ==>
                  0 <= |s.remote| - 1 - c.offset - k < |s.remote|
                  && page.entries[k] == s.remote[|s.remote| - 1 - c.offset - k])
            && page.total == (if counted then n else c.offset + size)
  {
  }

  /** A page holds the records from the offset on, newest first, all of them behind `start`, and none only if there is
      none; the total, if it is reported, counts all that are. */
  lemma PageIs(s: State, size: int, counted: bool, inclusive: bool) returns (page: Page, n: int)
    requires Enabled(s, Fetch(size, counted, inclusive))
    ensures Next(s, Fetch(size, counted, inclusive)) == s.(call := Some(s.call.value.(pending := Some(page))))
    ensures CountsBehind(n, s.remote, s.call.value.startSeconds, inclusive)
    ensures var c := s.call.value;
            && c.page < 10_000 && |page.entries| == size && page.served == |s.remote|
            && (size == 0 <==> n <= c.offset) && page.total == (if counted then n else c.offset + size)
            && forall k :: 0 <= k < size ==>
                 && 0 <= |s.remote| - 1 - c.offset - k < |s.remote|
                 && page.entries[k] == s.remote[|s.remote| - 1 - c.offset - k]
                 && Behind(page.entries[k], c.startSeconds, inclusive)
  {
    var c := s.call.value;
    page := Served(s, size, counted, inclusive);
    n := VisibleCount(s.remote, c.startSeconds, inclusive);
    ServedIs(s, size, counted, inclusive);
    CountIs(s.remote, c.startSeconds, inclusive);
    hide VisibleCount, Served, Behind;
  }

  // ---- where a call begins ----

  /** An unfinished run is resumed where it stood; another one begins at the newest record, one hour before the newest
      that was read, in whole seconds and not before 0, or without a start if none was. */
  lemma BeginsWhere(s: State)
    requires s.call.None?
    ensures Next(s, Begin) == s.(call := Next(s, Begin).call) && Next(s, Begin).call.Some?
    ensures var c := Next(s, Begin).call.value;
            c.page == 0 && c.pending == None
            && match s.cursor
               case None => c.offset == 0 && c.startSeconds == None && c.previousOldest == c.previousNewest == None
               case Some(cursor) =>
                 && c.previousOldest == cursor.oldest && c.previousNewest == cursor.newest
                 && (!cursor.complete ==>
                       c.offset == cursor.offset && (c.startSeconds == cursor.startSeconds
                                                     || (c.startSeconds == None && cursor.startSeconds == Some(0))))
                 && (!cursor.complete ==> c.startSeconds != Some(0))
                 && (cursor.complete ==> c.offset == 0 && (c.startSeconds.None? <==> cursor.newest.None?))
                 && (cursor.complete && cursor.newest.Some? ==>
                       var start, newest := c.startSeconds.value, cursor.newest.value;
                       if newest < 3_600_000 then start == 0
                       else start * 1_000 <= newest - 3_600_000 < start * 1_000 + 1_000)
  {
  }

  /** A committed page ends the call if it was empty or reached the total, or was the last of 10,000; otherwise the call
      goes on behind it. The cursor says which, and keeps `start`. */
  lemma CommitGoesOn(s: State)
    requires Enabled(s, Commit)
    ensures var c, page, s' := s.call.value, s.call.value.pending.value, Next(s, Commit);
            var next := c.offset + |page.entries|;
            var done := |page.entries| == 0 || next >= page.total;
            && s'.remote == s.remote && s'.rows == s.rows + (set r | r in page.entries)
            && s'.cursor.Some? && s'.cursor.value.complete == done
            && s'.cursor.value.offset == (if done then 0 else next) && s'.cursor.value.startSeconds == c.startSeconds
            && (s'.call.None? <==> done || c.page >= 9_999)
            && (s'.call.Some? ==> s'.call.value == c.(offset := next, page := c.page + 1, pending := None))
  {
  }

  /** A process that stops forgets its call and nothing else; what arrives is newer than all there was. */
  lemma OutsideSteps(s: State, records: seq<Record>)
    ensures Next(s, Crash) == s.(call := None)
    ensures Enabled(s, Append(records)) ==>
              && Next(s, Append(records)) == s.(remote := s.remote + records)
              && forall i, j :: 0 <= i < |records| && i <= j < |records| ==> records[i].timeMs <= records[j].timeMs
  {
    if Enabled(s, Append(records)) {
      SortedIs(s.remote + records);
      forall i, j | 0 <= i < |records| && i <= j < |records|
        ensures records[i].timeMs <= records[j].timeMs
      {
        var all := s.remote + records;
        assert all[|s.remote| + i] == records[i] && all[|s.remote| + j] == records[j];
      }
    }
  }

  lemma {:induction false} SortedIs(remote: seq<Record>)
    requires Sorted(remote)
    ensures forall i, j :: 0 <= i <= j < |remote| ==> remote[i].timeMs <= remote[j].timeMs
    ensures forall i :: 0 <= i < |remote| ==> 0 < remote[i].timeMs
  {
    if remote != [] {
      SortedIs(remote[..|remote| - 1]);
    }
  }

  // ---- what the cursor says of the stored records ----

  ghost predicate Least(t: Option<int>, rows: set<Record>) {
    && (t.None? <==> rows == {})
    && (t.Some? ==> (exists r <- rows :: r.timeMs == t.value) && forall r <- rows :: t.value <= r.timeMs)
  }

  ghost predicate Greatest(t: Option<int>, rows: set<Record>) {
    && (t.None? <==> rows == {})
    && (t.Some? ==> (exists r <- rows :: r.timeMs == t.value) && forall r <- rows :: r.timeMs <= t.value)
  }

  // What a call read from the cursor is the time of some stored record.
  ghost predicate Known(t: Option<int>, rows: set<Record>) {
    t.Some? ==> exists r <- rows :: r.timeMs == t.value
  }

  ghost predicate Spans(s: State) {
    && Least(if s.cursor.Some? then s.cursor.value.oldest else None, s.rows)
    && Greatest(if s.cursor.Some? then s.cursor.value.newest else None, s.rows)
    && (s.call.Some? ==> Known(s.call.value.previousOldest, s.rows) && Known(s.call.value.previousNewest, s.rows))
  }

  lemma {:induction false} TimesOf(entries: seq<Record>)
    requires entries != []
    ensures exists r <- entries :: r.timeMs == OldestTime(entries)
    ensures exists r <- entries :: r.timeMs == NewestTime(entries)
    ensures forall r <- entries :: OldestTime(entries) <= r.timeMs <= NewestTime(entries)
  {
    var last := entries[|entries| - 1];
    assert last in entries;
    if |entries| == 1 {
      assert entries == [last];
    } else {
      var front := entries[..|entries| - 1];
      TimesOf(front);
      assert entries == front + [last];
      var o :| o in front && o.timeMs == OldestTime(front);
      var n :| n in front && n.timeMs == NewestTime(front);
      assert o in entries && n in entries;
    }
  }

  // The upsert joins what was known with what a page, or else the call, knows.
  lemma LowerIsLeast(old_: Option<int>, rows: set<Record>, new_: Option<int>, page: set<Record>)
    requires Least(old_, rows) && (if page == {} then Known(new_, rows) else Least(new_, page))
    ensures Least(Lower(old_, new_), rows + page)
  {
    if page == {} {
      assert rows + page == rows;
    }
  }

  lemma HigherIsGreatest(old_: Option<int>, rows: set<Record>, new_: Option<int>, page: set<Record>)
    requires Greatest(old_, rows) && (if page == {} then Known(new_, rows) else Greatest(new_, page))
    ensures Greatest(Higher(old_, new_), rows + page)
  {
    if page == {} {
      assert rows + page == rows;
    }
  }

  lemma CommitSpans(s: State)
    requires Spans(s) && Enabled(s, Commit)
    ensures Spans(Next(s, Commit))
  {
    hide Lower, Higher, Least, Greatest;
    var c := s.call.value;
    var entries := c.pending.value.entries;
    var page := set r | r in entries;
    var oldest := if entries == [] then c.previousOldest else Some(OldestTime(entries));
    var newest := if entries == [] then c.previousNewest else Some(NewestTime(entries));
    if entries != [] {
      TimesOf(entries);
      assert entries[0] in page;
      PageSpans(entries, page);
    }
    LowerIsLeast(if s.cursor.Some? then s.cursor.value.oldest else None, s.rows, oldest, page);
    HigherIsGreatest(if s.cursor.Some? then s.cursor.value.newest else None, s.rows, newest, page);
  }

  lemma PageSpans(entries: seq<Record>, page: set<Record>)
    requires entries != [] && page == set r | r in entries
    ensures Least(Some(OldestTime(entries)), page) && Greatest(Some(NewestTime(entries)), page)
  {
    TimesOf(entries);
    assert entries[0] in page;
    var o :| o in entries && o.timeMs == OldestTime(entries);
    var n :| n in entries && n.timeMs == NewestTime(entries);
    assert o in page && n in page;
  }

  lemma BeginSpans(s: State)
    requires Spans(s) && Enabled(s, Begin)
    ensures Spans(Next(s, Begin))
  {
  }

  /** In every run the cursor's oldest and newest moments are those of the oldest and the newest stored record, and
      missing exactly while nothing is stored. */
  lemma {:induction false} CursorSpansRows(steps: seq<Step>)
    ensures Spans(Run(steps))
  {
    if steps != [] {
      var before, step := Run(steps[..|steps| - 1]), steps[|steps| - 1];
      CursorSpansRows(steps[..|steps| - 1]);
      if Enabled(before, step) {
        if step.Commit? {
          CommitSpans(before);
        } else if step.Begin? {
          BeginSpans(before);
        } else {
          hide Least, Greatest, Known;
        }
      }
    }
  }
}
