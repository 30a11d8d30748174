/** reconcileAll (api/src/services/transfers.ts): each exchange movement in turn takes the best chain
    movement that is still free. */
module Transfers {
  import opened Text
  import opened Wrappers
  import opened Reconciliation

  /** A deposit or withdrawal of kraken_ledgers. */
  datatype Ledger = Ledger(
    id: int, deposit: bool, asset: int, at: int, amount: real, fee: Option<real>, transaction: Option<string>)

  /** A row of address_balance_events with its network; `negative` is the sign its quantity is written with. */
  datatype Event = Event(
    id: int, asset: int, at: int, negative: bool, quantity: real, fee: Option<real>,
    transaction: Option<string>, network: Option<string>)

  /** A row of internal_transfer_matches. */
  datatype Match = Match(ledger: Ledger, event: Event, confidence: Confidence)

  function KrakenSide(l: Ledger): Candidate {
    Candidate(Kraken, l.asset, if l.deposit then In else Out, l.amount, l.at, l.transaction, None, l.fee)
  }

  function ChainSide(e: Event): Candidate {
    Candidate(Chain, e.asset, if e.negative then Out else In, e.quantity, e.at, e.transaction, e.network, e.fee)
  }

  function ConfidenceOf(l: Ledger, e: Event): Confidence {
    ReconcileTransfer(KrakenSide(l), ChainSide(e))
  }

  predicate Compatible(l: Ledger, e: Event) {
    ConfidenceOf(l, e) != Unmatched
  }

  // ---- choosing a chain movement ----

  function Rank(c: Confidence): int {
    match c
    case Exact => 0
    case Likely => 1
    case Unmatched => 2
  }

  // The comparison of the sort: a comes strictly before b.
  predicate Better(l: Ledger, a: Event, b: Event) {
    || Rank(ConfidenceOf(l, a)) < Rank(ConfidenceOf(l, b))
    || (Rank(ConfidenceOf(l, a)) == Rank(ConfidenceOf(l, b)) && Distance(a.at, l.at) < Distance(b.at, l.at))
  }

  function Free(l: Ledger, events: seq<Event>, used: set<int>): seq<Event> {
    if events == [] then []
    else
      var rest, e := Free(l, events[..|events| - 1], used), events[|events| - 1];
      if e.asset == l.asset && e.id !in used then rest + [e] else rest
  }

  function Insert(l: Ledger, sorted: seq<Event>, e: Event): (r: seq<Event>)
    ensures |r| == |sorted| + 1
  {
    if sorted == [] || !Better(l, e, sorted[|sorted| - 1]) then sorted + [e]
    else Insert(l, sorted[..|sorted| - 1], e) + [sorted[|sorted| - 1]]
  }

  // A stable sort of the candidates.
  function Sort(l: Ledger, events: seq<Event>): (r: seq<Event>)
    ensures |r| == |events|
  {
    if events == [] then [] else Insert(l, Sort(l, events[..|events| - 1]), events[|events| - 1])
  }

  function Best(l: Ledger, events: seq<Event>, used: set<int>): Option<Event> {
    var candidates := Sort(l, Free(l, events, used));
    if candidates == [] || !Compatible(l, candidates[0]) then None else Some(candidates[0])
  }

  // ---- reconcileAll ----

  function Used(matches: seq<Match>): set<int> {
    set i | 0 <= i < |matches| :: matches[i].event.id
  }

  /** The rows after the loop. */
  function Matches(ledgers: seq<Ledger>, events: seq<Event>): seq<Match> {
    if ledgers == [] then []
    else
      var before, l := Matches(ledgers[..|ledgers| - 1], events), ledgers[|ledgers| - 1];
      match Best(l, events, Used(before))
      case None => before
      case Some(e) => before + [Match(l, e, ConfidenceOf(l, e))]
  }

  lemma NothingUsed()
    ensures Used([]) == {}
  {
  }

  lemma UsedSnoc(matches: seq<Match>, m: Match)
    ensures Used(matches + [m]) == Used(matches) + {m.event.id}
  {
    forall i | 0 <= i < |matches|
      ensures matches[i].event.id in Used(matches + [m])
    {
      assert (matches + [m])[i] == matches[i];
    }
    assert (matches + [m])[|matches|] == m;
  }

  class TransferService {
    // the table internal_transfer_matches
    var matches: seq<Match>

    method ReconcileAll(ledgers: seq<Ledger>, events: seq<Event>)
      modifies this
      ensures matches == Matches(ledgers, events)
    {
      hide Free, Sort, ConfidenceOf, Used;
      var used: set<int> := {};
      matches := [];
      assert used == Used([]) by {
        NothingUsed();
      }
      for i := 0 to |ledgers|
        invariant matches == Matches(ledgers[..i], events)
        invariant used == Used(matches)
      {
        assert ledgers[..i + 1][..i] == ledgers[..i];
        var l := ledgers[i];
        var candidates := Sort(l, Free(l, events, used));
        if candidates == [] || !Compatible(l, candidates[0]) {
          continue;
        }
        used := used + {candidates[0].id};
        UsedSnoc(matches, Match(l, candidates[0], ConfidenceOf(l, candidates[0])));
        matches := matches + [Match(l, candidates[0], ConfidenceOf(l, candidates[0]))];
      }
      assert ledgers[..|ledgers|] == ledgers;
    }
  }

  // ---- what is chosen ----

  lemma {:induction false} FreeIff(l: Ledger, events: seq<Event>, used: set<int>, e: Event)
    ensures e in Free(l, events, used) <==> e in events && e.asset == l.asset && e.id !in used
  {
    if events != [] {
      FreeIff(l, events[..|events| - 1], used, e);
      assert events == events[..|events| - 1] + [events[|events| - 1]];
    }
  }

  // The first element is at least as good as every other, and better than those that stood before it.
  ghost predicate FirstBest(l: Ledger, events: seq<Event>, best: Event) {
    exists h :: 0 <= h < |events| && events[h] == best && IsFirstBest(l, events, h)
  }

  predicate IsFirstBest(l: Ledger, events: seq<Event>, h: int)
    requires 0 <= h < |events|
  {
    && (forall i :: 0 <= i < h ==> Better(l, events[h], events[i]))
    && (forall i :: h <= i < |events| ==> !Better(l, events[i], events[h]))
  }

  lemma {:induction false} InsertHead(l: Ledger, sorted: seq<Event>, e: Event)
    requires forall i :: 0 <= i < |sorted| ==> !Better(l, sorted[i], sorted[0])
    ensures Insert(l, sorted, e)[0] == if sorted == [] || Better(l, e, sorted[0]) then e else sorted[0]
    ensures var r := Insert(l, sorted, e); forall i :: 0 <= i < |r| ==> !Better(l, r[i], r[0])
    decreases |sorted|
  {
    hide ConfidenceOf, Distance;
    if sorted != [] && Better(l, e, sorted[|sorted| - 1]) {
      InsertHead(l, sorted[..|sorted| - 1], e);
    }
  }

  lemma {:induction false} SortHead(l: Ledger, events: seq<Event>)
    ensures var r := Sort(l, events); forall i :: 0 <= i < |r| ==> !Better(l, r[i], r[0])
    ensures events != [] ==> FirstBest(l, events, Sort(l, events)[0])
  {
    hide ConfidenceOf, Distance;
    if events != [] {
      var front, e := events[..|events| - 1], events[|events| - 1];
      SortHead(l, front);
      InsertHead(l, Sort(l, front), e);
      if front == [] || Better(l, e, Sort(l, front)[0]) {
        assert IsFirstBest(l, events, |events| - 1);
      } else {
        var h :| 0 <= h < |front| && front[h] == Sort(l, front)[0] && IsFirstBest(l, front, h);
        assert IsFirstBest(l, events, h);
      }
    }
  }

  /** A movement gets the first best of the free ones: exact before likely, then the smallest distance in
      time, then their order; and none exactly if no free one is compatible. */
  lemma BestIsFirstBest(l: Ledger, events: seq<Event>, used: set<int>)
    ensures var best := Best(l, events, used);
            match best
            case None => forall e <- events :: e.id !in used ==> !Compatible(l, e)
            case Some(b) => b in events && b.id !in used && Compatible(l, b) && FirstBest(l, Free(l, events, used), b)
  {
    hide Distance, Sort, Free;
    var free := Free(l, events, used);
    SortHead(l, free);
    forall e <- events
      ensures e in free <==> e.asset == l.asset && e.id !in used
    {
      FreeIff(l, events, used, e);
    }
    if free != [] {
      var b := Sort(l, free)[0];
      var h :| 0 <= h < |free| && free[h] == b && IsFirstBest(l, free, h);
      FreeIff(l, events, used, b);
      forall e <- events | e.id !in used && Compatible(l, e)
        ensures Compatible(l, b)
      {
        var i :| 0 <= i < |free| && free[i] == e;
        assert i >= h ==> !Better(l, free[i], free[h]);
      }
    }
  }

  // A free event stands among the free ones behind those that stood before it.
  lemma {:induction false} FreePlace(l: Ledger, events: seq<Event>, used: set<int>, h: int)
    returns (place: int)
    requires 0 <= h < |Free(l, events, used)|
    ensures 0 <= place < |events| && events[place] == Free(l, events, used)[h]
    ensures forall i :: 0 <= i < place && events[i].asset == l.asset && events[i].id !in used
                        ==> exists k :: 0 <= k < h && Free(l, events, used)[k] == events[i]
  {
    var front := events[..|events| - 1];
    var rest := Free(l, front, used);
    if h < |rest| {
      place := FreePlace(l, front, used, h);
      forall i | 0 <= i < place && events[i].asset == l.asset && events[i].id !in used
        ensures exists k :: 0 <= k < h && Free(l, events, used)[k] == events[i]
      {
        assert front[i] == events[i];
        var k :| 0 <= k < h && rest[k] == front[i];
        assert Free(l, events, used)[k] == events[i];
      }
    } else {
      place := |events| - 1;
      forall i | 0 <= i < place && events[i].asset == l.asset && events[i].id !in used
        ensures exists k :: 0 <= k < h && Free(l, events, used)[k] == events[i]
      {
        FreeIff(l, front, used, front[i]);
        var k :| 0 <= k < |rest| && rest[k] == front[i];
        assert Free(l, events, used)[k] == events[i];
      }
    }
  }

  /** Nothing that is free is more certain than `b`, or as certain and nearer in time, or as certain and as near
      and in front of it. */
  ghost predicate Foremost(l: Ledger, events: seq<Event>, used: set<int>, h: int)
    requires 0 <= h < |events|
  {
    var b := events[h];
    forall i :: 0 <= i < |events| && events[i].id !in used ==>
      var e := events[i];
      && (ConfidenceOf(l, e) == Exact ==> ConfidenceOf(l, b) == Exact)
      && (ConfidenceOf(l, e) == ConfidenceOf(l, b) ==>
            if i < h then Distance(l.at, b.at) < Distance(l.at, e.at)
            else Distance(l.at, b.at) <= Distance(l.at, e.at))
  }

  /** So the choice is the foremost of the free movements that match. */
  lemma BestIsForemost(l: Ledger, events: seq<Event>, used: set<int>)
    ensures var best := Best(l, events, used);
            best.Some? ==> exists h :: 0 <= h < |events| && events[h] == best.value && Foremost(l, events, used, h)
  {
    var best := Best(l, events, used);
    if best.Some? {
      var free := Free(l, events, used);
      SortHead(l, free);
      var h :| 0 <= h < |free| && free[h] == best.value && IsFirstBest(l, free, h);
      var place := FreePlace(l, events, used, h);
      forall i | 0 <= i < |events| && events[i].id !in used && Compatible(l, events[i])
        ensures !Better(l, events[i], best.value) && (i < place ==> Better(l, best.value, events[i]))
      {
        ForemostBeats(l, events, used, h, place, i);
      }
      assert Foremost(l, events, used, place);
    }
  }

  lemma ForemostBeats(l: Ledger, events: seq<Event>, used: set<int>, h: int, place: int, i: int)
    requires 0 <= h < |Free(l, events, used)| && IsFirstBest(l, Free(l, events, used), h)
    requires 0 <= i < |events| && events[i].id !in used && Compatible(l, events[i])
    requires place <= |events|
    requires forall j :: 0 <= j < place && events[j].asset == l.asset && events[j].id !in used
                         ==> exists k :: 0 <= k < h && Free(l, events, used)[k] == events[j]
    ensures var b := Free(l, events, used)[h];
            !Better(l, events[i], b) && (i < place ==> Better(l, b, events[i]))
  {
    hide Free, Distance;
    var free := Free(l, events, used);
    FreeIff(l, events, used, events[i]);
    if i < place {
      var k :| 0 <= k < h && free[k] == events[i];
      assert Better(l, free[h], free[k]);
    } else {
      var k :| 0 <= k < |free| && free[k] == events[i];
      assert k < h ==> Better(l, free[h], free[k]);
    }
  }

  // ---- the whole table ----

  /** A matching: no ledger row twice, no chain event twice, and only compatible pairs. */
  ghost predicate Matching(matches: seq<Match>) {
    && (forall i, j :: 0 <= i < j < |matches| ==> matches[i].ledger.id != matches[j].ledger.id
                                                  && matches[i].event.id != matches[j].event.id)
    && (forall i :: 0 <= i < |matches| ==> Compatible(matches[i].ledger, matches[i].event))
  }

  predicate DistinctLedgers(ledgers: seq<Ledger>) {
    forall i, j :: 0 <= i < j < |ledgers| ==> ledgers[i].id != ledgers[j].id
  }

  function Matched(matches: seq<Match>): set<int> {
    set i | 0 <= i < |matches| :: matches[i].ledger.id
  }

  lemma BestIsFree(l: Ledger, events: seq<Event>, used: set<int>)
    ensures var best := Best(l, events, used);
            best.Some? ==> best.value in events && best.value.id !in used && Compatible(l, best.value)
  {
    BestIsFirstBest(l, events, used);
  }

  ghost predicate From(matches: seq<Match>, ledgers: seq<Ledger>, events: seq<Event>) {
    forall i :: 0 <= i < |matches| ==>
      && matches[i].ledger in ledgers && matches[i].event in events
      && matches[i].confidence == ConfidenceOf(matches[i].ledger, matches[i].event)
  }

  lemma MatchingSnoc(matches: seq<Match>, m: Match)
    requires Matching(matches) && Compatible(m.ledger, m.event) && m.event.id !in Used(matches)
    requires forall i :: 0 <= i < |matches| ==> matches[i].ledger.id != m.ledger.id
    ensures Matching(matches + [m])
  {
    hide ConfidenceOf;
    forall i | 0 <= i < |matches|
      ensures matches[i].event.id in Used(matches)
    {
    }
  }

  /** The table is a matching between the given rows, each with the confidence of its pair. */
  lemma {:induction false} TableIsMatching(ledgers: seq<Ledger>, events: seq<Event>)
    requires DistinctLedgers(ledgers)
    ensures Matching(Matches(ledgers, events)) && From(Matches(ledgers, events), ledgers, events)
  {
    hide ConfidenceOf, Best, Matching, Used;
    if ledgers == [] {
      EmptyMatching();
    } else {
      var front, l := ledgers[..|ledgers| - 1], ledgers[|ledgers| - 1];
      TableIsMatching(front, events);
      var before := Matches(front, events);
      var best := Best(l, events, Used(before));
      BestIsFree(l, events, Used(before));
      forall i | 0 <= i < |before|
        ensures before[i].ledger.id != l.id && before[i].ledger in ledgers
      {
        assert before[i].ledger in front;
      }
      if best.Some? {
        MatchingSnoc(before, Match(l, best.value, ConfidenceOf(l, best.value)));
      }
    }
  }

  /** What the recorded confidence says of the rows: exact if they name one transaction and their sizes differ by
      the fee or by at most half a percent; or if they name none in common, and their sizes differ by the fee
      within six hours; likely if, within six hours, the sizes differ otherwise, by at most half a percent. */
  lemma ConfidenceOfRows(l: Ledger, e: Event, k: real, c: real, fee: real)
    requires k >= 0.0 && (k == l.amount || k == -l.amount)
    requires c >= 0.0 && (c == e.quantity || c == -e.quantity)
    requires fee >= 0.0
    requires match (l.fee, e.fee)
             case (Some(f), _) => fee == f || fee == -f
             case (None, Some(f)) => fee == f || fee == -f
             case (None, None) => fee == 0.0
    ensures var opposite := l.asset == e.asset && (l.deposit <==> e.negative);
            var same := l.transaction.Some? && e.transaction.Some? && l.transaction.value != ""
                        && SameText(l.transaction.value, e.transaction.value);
            var near := -21_600_000 <= l.at - e.at <= 21_600_000;
            var byFee := k - c == fee || c - k == fee;
            var close := 200.0 * (k - c) <= k && 200.0 * (c - k) <= c;
            && (ConfidenceOf(l, e) == Exact <==> opposite && if same then byFee || close else near && byFee)
            && (ConfidenceOf(l, e) == Likely <==> opposite && !same && near && close && !byFee)
  {
    hide ReconcileTransfer;
    ConfidenceIff(KrakenSide(l), ChainSide(e), k, c, fee);
  }

  lemma EmptyMatching()
    ensures Matching([])
  {
  }

  /** No compatible pair is left over: the matching is maximal. */
  lemma {:induction false} TableIsMaximal(ledgers: seq<Ledger>, events: seq<Event>, l: Ledger, e: Event)
    requires l in ledgers && e in events && Compatible(l, e)
    ensures l.id in Matched(Matches(ledgers, events)) || e.id in Used(Matches(ledgers, events))
  {
    hide ConfidenceOf, Best;
    var front, last := ledgers[..|ledgers| - 1], ledgers[|ledgers| - 1];
    var before := Matches(front, events);
    var after := Matches(ledgers, events);
    BestIsFirstBest(last, events, Used(before));
    assert forall i :: 0 <= i < |before| ==> after[i] == before[i];
    if l in front {
      TableIsMaximal(front, events, l, e);
      if l.id in Matched(before) {
        var i :| 0 <= i < |before| && before[i].ledger.id == l.id;
        assert after[i].ledger.id == l.id;
      } else {
        var i :| 0 <= i < |before| && before[i].event.id == e.id;
        assert after[i].event.id == e.id;
      }
    } else if e.id in Used(before) {
      var i :| 0 <= i < |before| && before[i].event.id == e.id;
      assert after[i].event.id == e.id;
    } else {
      assert after[|before|].ledger == l;
    }
  }

  // ---- how many matches there are ----

  lemma OneMore(ids: set<int>, id: int)
    ensures |ids + {id}| <= |ids| + 1
  {
    if id in ids {
      assert ids + {id} == ids;
    }
  }

  lemma MatchedSnoc(matches: seq<Match>, m: Match)
    ensures Matched(matches + [m]) == Matched(matches) + {m.ledger.id}
  {
    forall i | 0 <= i < |matches|
      ensures matches[i].ledger.id in Matched(matches + [m])
    {
      assert (matches + [m])[i] == matches[i];
    }
    assert (matches + [m])[|matches|] == m;
  }

  lemma {:induction false} UsedSize(matches: seq<Match>)
    ensures |Used(matches)| <= |matches| && |Matched(matches)| <= |matches|
  {
    if matches != [] {
      hide Used, Matched;
      var front, last := matches[..|matches| - 1], matches[|matches| - 1];
      UsedSize(front);
      assert matches == front + [last];
      UsedSnoc(front, last);
      MatchedSnoc(front, last);
      OneMore(Used(front), last.event.id);
      OneMore(Matched(front), last.ledger.id);
    }
  }

  // How many of the matches have their ledger row, or their event, in a set.
  function WithLedger(matches: seq<Match>, ids: set<int>): int {
    if matches == [] then 0
    else WithLedger(matches[..|matches| - 1], ids) + (if matches[|matches| - 1].ledger.id in ids then 1 else 0)
  }

  function WithEvent(matches: seq<Match>, ids: set<int>): int {
    if matches == [] then 0
    else WithEvent(matches[..|matches| - 1], ids) + (if matches[|matches| - 1].event.id in ids then 1 else 0)
  }

  lemma {:induction false} AtMostOneEach(matches: seq<Match>, ledgers: set<int>, events: set<int>)
    requires Matching(matches)
    ensures WithLedger(matches, ledgers) <= |ledgers| && WithEvent(matches, events) <= |events|
  {
    if matches != [] {
      var front, last := matches[..|matches| - 1], matches[|matches| - 1];
      AtMostOneEach(front, ledgers - {last.ledger.id}, events - {last.event.id});
      SameCount(front, ledgers, last.ledger.id, events, last.event.id);
    }
  }

  lemma {:induction false} SameCount(matches: seq<Match>, ledgers: set<int>, l: int, events: set<int>, e: int)
    requires forall i :: 0 <= i < |matches| ==> matches[i].ledger.id != l && matches[i].event.id != e
    ensures WithLedger(matches, ledgers - {l}) == WithLedger(matches, ledgers)
    ensures WithEvent(matches, events - {e}) == WithEvent(matches, events)
  {
    if matches != [] {
      SameCount(matches[..|matches| - 1], ledgers, l, events, e);
    }
  }

  lemma {:induction false} EachTouches(matches: seq<Match>, ledgers: set<int>, events: set<int>)
    requires forall i :: 0 <= i < |matches| ==> matches[i].ledger.id in ledgers || matches[i].event.id in events
    ensures |matches| <= WithLedger(matches, ledgers) + WithEvent(matches, events)
  {
    if matches != [] {
      EachTouches(matches[..|matches| - 1], ledgers, events);
    }
  }

  /** The table has at least half as many rows as any matching of the given movements could have. */
  lemma TableIsHalfOfAnyMatching(ledgers: seq<Ledger>, events: seq<Event>, other: seq<Match>)
    requires Matching(other)
    requires From(other, ledgers, events)
    ensures |other| <= 2 * |Matches(ledgers, events)|
  {
    hide ConfidenceOf, Matches;
    var table := Matches(ledgers, events);
    forall i | 0 <= i < |other|
      ensures other[i].ledger.id in Matched(table) || other[i].event.id in Used(table)
    {
      TableIsMaximal(ledgers, events, other[i].ledger, other[i].event);
    }
    EachTouches(other, Matched(table), Used(table));
    AtMostOneEach(other, Matched(table), Used(table));
    UsedSize(table);
  }
}
