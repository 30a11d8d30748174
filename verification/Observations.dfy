/** The change-only observation history (recordObservation and markMissingObservations of
    api/src/services/kraken.ts): it stores a row only when something changed, and still tells what every
    poll saw. The rows are those of one endpoint. */
module Observations {
  import opened Wrappers

  /** A row of kraken_account_observations; payloads are compared by their hash. */
  datatype Row = Row(observedAt: int, lastSeen: int, present: bool, payload: int)

  /** What one poll of the endpoint returns. */
  datatype Poll = Poll(at: int, entities: map<int, int>)

  // The payload of a missing entity: {}.
  const NOTHING := 0

  // ---- one entity's rows, by the time of observation ----

  predicate Matches(log: seq<Row>, present: bool, payload: int) {
    log != [] && log[|log| - 1].present == present && log[|log| - 1].payload == payload
  }

  function Confirm(log: seq<Row>, at: int): seq<Row>
    requires log != []
  {
    var last := log[|log| - 1];
    log[|log| - 1 := last.(lastSeen := if last.lastSeen < at then at else last.lastSeen)]
  }

  // INSERT .. ON CONFLICT: a row of the same time is replaced.
  function Upsert(log: seq<Row>, row: Row): seq<Row> {
    if log == [] || log[|log| - 1].observedAt < row.observedAt then log + [row]
    else if log[|log| - 1].observedAt == row.observedAt then log[..|log| - 1] + [row]
    else Upsert(log[..|log| - 1], row) + [log[|log| - 1]]
  }

  function Record(log: seq<Row>, at: int, present: bool, payload: int): seq<Row> {
    if Matches(log, present, payload) then Confirm(log, at) else Upsert(log, Row(at, at, present, payload))
  }

  predicate LatestPresent(log: seq<Row>) {
    log != [] && log[|log| - 1].present
  }

  /** What one poll does to an entity's rows: entities that were present and are not returned are missing. */
  function AfterPoll(log: seq<Row>, entity: int, p: Poll): seq<Row> {
    if entity in p.entities then Record(log, p.at, true, p.entities[entity])
    else if LatestPresent(log) then Record(log, p.at, false, NOTHING)
    else log
  }

  function Log(history: seq<Poll>, entity: int): seq<Row> {
    if history == [] then []
    else AfterPoll(Log(history[..|history| - 1], entity), entity, history[|history| - 1])
  }

  // ---- the table ----

  class Observatory {
    // the rows of every entity, as the index on the time of observation lists them
    var logs: map<int, seq<Row>>

    function LogOf(entity: int): seq<Row>
      reads this
    {
      if entity in logs then logs[entity] else []
    }

    constructor ()
      ensures forall entity :: LogOf(entity) == []
    {
      logs := map[];
    }

    method RecordObservation(entity: int, at: int, present: bool, payload: int) returns (inserted: bool)
      modifies this
      ensures LogOf(entity) == Record(old(LogOf(entity)), at, present, payload)
      ensures inserted == !Matches(old(LogOf(entity)), present, payload)
      ensures forall other :: other != entity ==> LogOf(other) == old(LogOf(other))
      ensures forall other :: other in logs <==> other == entity || other in old(logs)
    {
      var log := LogOf(entity);
      inserted := !Matches(log, present, payload);
      if inserted {
        logs := logs[entity := Upsert(log, Row(at, at, present, payload))];
      } else {
        logs := logs[entity := Confirm(log, at)];
      }
    }

    method MarkMissing(present: set<int>, at: int)
      modifies this
      ensures forall entity ::
                LogOf(entity) == if entity !in present && LatestPresent(old(LogOf(entity)))
                                 then Record(old(LogOf(entity)), at, false, NOTHING) else old(LogOf(entity))
    {
      hide Record, LatestPresent;
      var latestPresent := set entity | entity in logs && LatestPresent(logs[entity]);
      var left := latestPresent;
      NoRows();
      while left != {}
        invariant left <= latestPresent
        invariant forall entity ::
                    LogOf(entity) == if entity in latestPresent && entity !in left && entity !in present
                                     then Record(old(LogOf(entity)), at, false, NOTHING) else old(LogOf(entity))
        decreases |left|
      {
        HasElement(left);
        var entity :| entity in left;
        left := left - {entity};
        if entity !in present {
          var _ := RecordObservation(entity, at, false, NOTHING);
        }
      }
    }

    // A complete poll of an endpoint that also marks missing entities.
    method Synchronize(p: Poll)
      modifies this
      ensures forall entity :: LogOf(entity) == AfterPoll(old(LogOf(entity)), entity, p)
    {
      hide Record, LatestPresent;
      var left := p.entities.Keys;
      while left != {}
        invariant left <= p.entities.Keys
        invariant forall entity ::
                    LogOf(entity) == if entity in p.entities && entity !in left
                                     then Record(old(LogOf(entity)), p.at, true, p.entities[entity])
                                     else old(LogOf(entity))
        decreases |left|
      {
        HasElement(left);
        var entity :| entity in left;
        left := left - {entity};
        var _ := RecordObservation(entity, p.at, true, p.entities[entity]);
      }
      MarkMissing(p.entities.Keys, p.at);
    }

    /** A table that starts empty and sees a history of polls holds the log of every entity. */
    method SynchronizeAll(history: seq<Poll>)
      requires forall entity :: LogOf(entity) == []
      modifies this
      ensures forall entity :: LogOf(entity) == Log(history, entity)
    {
      for i := 0 to |history|
        invariant forall entity :: LogOf(entity) == Log(history[..i], entity)
      {
        assert history[..i + 1][..i] == history[..i];
        Synchronize(history[i]);
      }
      assert history[..|history|] == history;
    }
  }

  lemma NoRows()
    ensures !LatestPresent([])
  {
  }

  // ---- what the log tells ----

  // Times never decrease in the order of the polls.
  predicate InOrder(history: seq<Poll>) {
    forall i, j :: 0 <= i < j < |history| ==> history[i].at <= history[j].at
  }

  // The latest row at or before a time.
  function RowAt(log: seq<Row>, t: int): Option<Row> {
    if log == [] then None
    else if log[|log| - 1].observedAt <= t then Some(log[|log| - 1])
    else RowAt(log[..|log| - 1], t)
  }

  // The last poll at or before a time.
  function LastPoll(history: seq<Poll>, t: int): Option<Poll> {
    if history == [] then None
    else if history[|history| - 1].at <= t then Some(history[|history| - 1])
    else LastPoll(history[..|history| - 1], t)
  }

  // What a poll saw of an entity.
  function Seen(p: Poll, entity: int): Option<int> {
    if entity in p.entities then Some(p.entities[entity]) else None
  }

  function Tells(row: Option<Row>): Option<int> {
    if row.Some? && row.value.present then Some(row.value.payload) else None
  }

  predicate NoLaterThan(log: seq<Row>, t: int) {
    forall k :: 0 <= k < |log| ==> log[k].observedAt <= t && log[k].lastSeen <= t
  }

  // A row recorded now is the last one.
  lemma RecordNow(log: seq<Row>, at: int, present: bool, payload: int)
    requires NoLaterThan(log, at)
    ensures Record(log, at, present, payload)
            == if Matches(log, present, payload) then Confirm(log, at)
               else if log == [] || log[|log| - 1].observedAt < at then log + [Row(at, at, present, payload)]
               else log[..|log| - 1] + [Row(at, at, present, payload)]
    ensures NoLaterThan(Record(log, at, present, payload), at)
  {
  }

  lemma LogEndsBy(history: seq<Poll>, entity: int, t: int)
    requires forall i :: 0 <= i < |history| ==> history[i].at <= t
    requires InOrder(history)
    ensures NoLaterThan(Log(history, entity), t)
  {
    if history != [] {
      var front, p := history[..|history| - 1], history[|history| - 1];
      LogEndsBy(front, entity, p.at);
      if entity in p.entities {
        RecordNow(Log(front, entity), p.at, true, p.entities[entity]);
      } else {
        RecordNow(Log(front, entity), p.at, false, NOTHING);
      }
    }
  }

  // It changes what is told of its own moment and later ones, and nothing that was told before.
  lemma ToldAfter(log: seq<Row>, at: int, present: bool, payload: int, t: int)
    requires NoLaterThan(log, at)
    ensures Tells(RowAt(Record(log, at, present, payload), t))
            == if t < at then Tells(RowAt(log, t)) else if present then Some(payload) else None
  {
    RecordNow(log, at, present, payload);
    var row := Row(at, at, present, payload);
    if Matches(log, present, payload) {
      assert Confirm(log, at)[..|log| - 1] == log[..|log| - 1];
    } else if log == [] || log[|log| - 1].observedAt < at {
      assert (log + [row])[..|log|] == log;
    } else {
      assert (log[..|log| - 1] + [row])[..|log| - 1] == log[..|log| - 1];
    }
  }

  /** At every moment the log tells, of every entity, what the last poll by then saw: the payload, or that the
      entity was missing. */
  lemma {:induction false} LogTellsTheLastPoll(history: seq<Poll>, entity: int, t: int)
    requires InOrder(history)
    ensures var poll := LastPoll(history, t);
            Tells(RowAt(Log(history, entity), t)) == if poll.None? then None else Seen(poll.value, entity)
  {
    if history == [] {
      assert RowAt([], t) == None;
    } else {
      var front, p := history[..|history| - 1], history[|history| - 1];
      LogEndsBy(front, entity, p.at);
      var log := Log(front, entity);
      if p.at <= t {
        NotPresentTellsNothing(log, p.at, t);
      }
      hide Record, InOrder, NoLaterThan, RowAt;
      LogTellsTheLastPoll(front, entity, t);
      if entity in p.entities {
        ToldAfter(log, p.at, true, p.entities[entity], t);
      } else if LatestPresent(log) {
        ToldAfter(log, p.at, false, NOTHING, t);
      }
    }
  }

  lemma NotPresentTellsNothing(log: seq<Row>, at: int, t: int)
    requires NoLaterThan(log, at) && at <= t
    ensures !LatestPresent(log) ==> Tells(RowAt(log, t)) == None
  {
  }

  // The last poll by the time of a poll is one of the same moment.
  lemma {:induction false} LastOfTheMoment(history: seq<Poll>, i: int)
    requires InOrder(history) && 0 <= i < |history|
    ensures exists j :: i <= j < |history| && history[j].at == history[i].at
                        && LastPoll(history, history[i].at) == Some(history[j])
  {
    var last := |history| - 1;
    if history[last].at <= history[i].at {
      assert history[last].at == history[i].at;
    } else {
      LastOfTheMoment(history[..last], i);
    }
  }

  predicate TellsAll(history: seq<Poll>, entity: int) {
    forall i :: 0 <= i < |history| ==> Tells(RowAt(Log(history, entity), history[i].at)) == Seen(history[i], entity)
  }

  /** Polls of one moment saw the same of the entity. */
  predicate Agree(history: seq<Poll>, entity: int) {
    forall i, j :: 0 <= i < j < |history| && history[i].at == history[j].at
                   ==> Seen(history[i], entity) == Seen(history[j], entity)
  }

  /** So the log tells what every single poll saw exactly if polls of one moment saw the same. */
  lemma LogTellsEveryPoll(history: seq<Poll>, entity: int)
    requires InOrder(history)
    ensures TellsAll(history, entity) <==> Agree(history, entity)
  {
    hide Log, Tells, Seen, InOrder;
    if Agree(history, entity) {
      forall i | 0 <= i < |history|
        ensures Tells(RowAt(Log(history, entity), history[i].at)) == Seen(history[i], entity)
      {
        LogTellsTheLastPoll(history, entity, history[i].at);
        LastOfTheMoment(history, i);
      }
    }
  }

  /** Of several polls of one moment, the log tells what the last one saw. */
  lemma PollsOfOneMomentOverwrite(history: seq<Poll>, entity: int, i: int, j: int)
    requires InOrder(history) && 0 <= i <= j < |history| && history[i].at == history[j].at
    requires j + 1 < |history| ==> history[j].at < history[j + 1].at
    ensures Tells(RowAt(Log(history, entity), history[i].at)) == Seen(history[j], entity)
  {
    LogTellsTheLastPoll(history, entity, history[i].at);
    LastOfTheMoment(history, j);
    var k :| j <= k < |history| && history[k].at == history[j].at
             && LastPoll(history, history[j].at) == Some(history[k]);
    assert k == j;
  }

  /** Polls of different moments in particular. */
  predicate Increasing(history: seq<Poll>) {
    forall i, j :: 0 <= i < j < |history| ==> history[i].at < history[j].at
  }

  lemma IncreasingHistoriesAreTold(history: seq<Poll>, entity: int)
    requires Increasing(history)
    ensures TellsAll(history, entity)
  {
    LogTellsEveryPoll(history, entity);
  }

  // ---- how long the log is ----

  predicate Differ(a: Row, b: Row) {
    a.present != b.present || a.payload != b.payload
  }

  predicate NoRepetition(log: seq<Row>) {
    forall k :: 0 <= k < |log| - 1 ==> Differ(log[k], log[k + 1]) && log[k].observedAt < log[k + 1].observedAt
  }

  // A row that matches, or comes later, repeats nothing.
  lemma RecordRepeatsNothing(log: seq<Row>, at: int, present: bool, payload: int)
    requires NoRepetition(log) && NoLaterThan(log, at)
    requires log != [] && log[|log| - 1].observedAt == at ==> Matches(log, present, payload)
    ensures NoRepetition(Record(log, at, present, payload))
  {
    RecordNow(log, at, present, payload);
    var after := Record(log, at, present, payload);
    forall k | 0 <= k < |after| - 1
      ensures Differ(after[k], after[k + 1]) && after[k].observedAt < after[k + 1].observedAt
    {
      assert after[k].observedAt == log[k].observedAt;
      if k + 1 < |log| {
        assert Differ(log[k], log[k + 1]);
      }
    }
  }

  // Where polls of one moment agree, recording replaces no row.
  lemma AgreeingPollMatches(history: seq<Poll>, entity: int)
    requires InOrder(history) && Agree(history, entity) && history != []
    requires var log := Log(history[..|history| - 1], entity);
             log != [] && log[|log| - 1].observedAt == history[|history| - 1].at
    ensures var log := Log(history[..|history| - 1], entity);
            Tells(Some(log[|log| - 1])) == Seen(history[|history| - 1], entity)
  {
    var front, p := history[..|history| - 1], history[|history| - 1];
    var last := front[|front| - 1];
    LogEndsBy(front, entity, last.at);
    assert last == history[|front| - 1] && last.at == p.at;
    LogTellsTheLastPoll(front, entity, p.at);
  }

  /** No row repeats its predecessor: if polls of one moment agree, the log is as short as it can be. */
  lemma {:induction false} RowsDiffer(history: seq<Poll>, entity: int)
    requires InOrder(history) && Agree(history, entity)
    ensures NoRepetition(Log(history, entity))
  {
    if history != [] {
      var front, p := history[..|history| - 1], history[|history| - 1];
      RowsDiffer(front, entity);
      var log := Log(front, entity);
      LogEndsBy(front, entity, p.at);
      if log != [] && log[|log| - 1].observedAt == p.at {
        AgreeingPollMatches(history, entity);
      }
      hide Record, NoRepetition, NoLaterThan, InOrder, Agree;
      if entity in p.entities {
        RecordRepeatsNothing(log, p.at, true, p.entities[entity]);
      } else if LatestPresent(log) {
        RecordRepeatsNothing(log, p.at, false, NOTHING);
      }
    }
  }

  /** The last row of an entity was last seen at the last poll if it is present; a missing one is never
      confirmed again. */
  lemma {:induction false} LastSeenIsLastPoll(history: seq<Poll>, entity: int)
    requires InOrder(history) && history != []
    ensures var log := Log(history, entity);
            && (LatestPresent(log) ==> log[|log| - 1].lastSeen == history[|history| - 1].at)
            && (forall k :: 0 <= k < |log| && !log[k].present ==> log[k].lastSeen == log[k].observedAt)
  {
    var front, p := history[..|history| - 1], history[|history| - 1];
    var log := Log(front, entity);
    LogEndsBy(front, entity, p.at);
    if front != [] {
      LastSeenIsLastPoll(front, entity);
    }
    if entity in p.entities {
      RecordNow(log, p.at, true, p.entities[entity]);
    } else {
      RecordNow(log, p.at, false, NOTHING);
    }
  }
}
