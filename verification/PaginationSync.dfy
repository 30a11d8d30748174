/** The loop of syncTrades and syncLedgers as the source runs it. */
module PaginationSync {
  import opened Wrappers
  import opened Pagination

  /** What happens around one request: records arrive, then the page is served. */
  datatype Turn = Turn(arrivals: seq<Record>, size: int, counted: bool, inclusive: bool)

  function TakeTurn(s: State, t: Turn): State {
    Next(Next(Next(s, Append(t.arrivals)), Fetch(t.size, t.counted, t.inclusive)), Commit)
  }

  // The turns of one call; when they run out before the call returns, the process has stopped.
  function TakeTurns(s: State, turns: seq<Turn>): State
    decreases |turns|
  {
    if s.call.None? then s
    else if turns == [] then Next(s, Crash)
    else TakeTurns(TakeTurn(s, turns[0]), turns[1..])
  }

  predicate TurnsFit(s: State, turns: seq<Turn>)
    decreases |turns|
  {
    s.call.Some? && turns != [] ==>
      && Enabled(s, Append(turns[0].arrivals))
      && Enabled(Next(s, Append(turns[0].arrivals)), Fetch(turns[0].size, turns[0].counted, turns[0].inclusive))
      && TurnsFit(TakeTurn(s, turns[0]), turns[1..])
  }

  class KrakenSync {
    var remote: seq<Record>
    var rows: set<Record>
    var cursor: Option<Cursor>
    var progress: Progress

    ghost function View(call: Option<Call>): State
      reads this
    {
      State(remote, rows, cursor, call, progress)
    }

    // The inserts of one transaction, each of which leaves an existing row in place.
    method StoreRows(entries: seq<Record>)
      modifies this`rows
      ensures rows == old(rows) + (set r | r in entries)
    {
      for k := 0 to |entries|
        invariant rows == old(rows) + (set r | r in entries[..k])
      {
        assert entries[..k + 1] == entries[..k] + [entries[k]];
        rows := rows + {entries[k]};
      }
      assert entries[..|entries|] == entries;
    }

    // One request, and the transaction that stores what it brought.
    method SyncPage(call: Call, t: Turn) returns (next: Option<Call>)
      requires call.pending.None? && Enabled(View(Some(call)), Append(t.arrivals))
      requires Enabled(Next(View(Some(call)), Append(t.arrivals)), Fetch(t.size, t.counted, t.inclusive))
      modifies this
      ensures View(next) == TakeTurn(old(View(Some(call))), t)
      ensures next.Some? ==> next.value.pending.None? && next.value.page < MAX_PAGES
    {
      remote := remote + t.arrivals;
      var entries := if t.size == 0 then [] else Window(remote, call.offset, t.size);
      var total := if t.counted then VisibleCount(remote, call.startSeconds, t.inclusive)
                   else call.offset + |entries|;
      var nextOffset := call.offset + |entries|;
      var complete := entries == [] || nextOffset >= total;
      var answered := call.(pending := Some(Page(entries, total, |remote|)));
      StoreRows(entries);
      cursor := Some(UpdateCursor(cursor, answered));
      progress := Advance(progress, answered);
      next := if complete || call.page + 1 >= MAX_PAGES then None
              else Some(call.(offset := nextOffset, page := call.page + 1));
    }

    method SyncRecords(turns: seq<Turn>)
      requires TurnsFit(Next(View(None), Begin), turns)
      modifies this
      ensures View(None) == TakeTurns(Next(old(View(None)), Begin), turns)
    {
      var call := Some(BeginCall(cursor));
      ghost var start := View(call);
      var i := 0;
      while call.Some? && i < |turns|
        invariant 0 <= i <= |turns| && (call.Some? ==> call.value.pending.None?)
        invariant TurnsFit(View(call), turns[i..])
        invariant TakeTurns(View(call), turns[i..]) == TakeTurns(start, turns)
      {
        call := SyncPage(call.value, turns[i]);
        i := i + 1;
      }
    }
  }
}
