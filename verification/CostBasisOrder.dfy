/** calculateCostBasis puts the events in order and hands them to one of the engines; in that order
    FIFO has a closed form, and every asset can be computed on its own. */
module CostBasisOrder {
  import opened CostBasis
  import opened CostBasisTotals
  import opened CostBasisAssets
  import opened CostBasisRecords

  // ---- the order of the events ----

  // The comparison of calculateCostBasis: a must come strictly before b.
  predicate Precedes(a: Event, b: Event) {
    a.at < b.at || (a.at == b.at && a.id < b.id)
  }

  function InsertEvent(ordered: seq<Event>, e: Event): (r: seq<Event>)
    ensures multiset(r) == multiset(ordered) + multiset{e}
  {
    if ordered == [] || !Precedes(e, ordered[|ordered| - 1]) then ordered + [e]
    else
      var front, last := ordered[..|ordered| - 1], ordered[|ordered| - 1];
      assert ordered == front + [last];
      InsertEvent(front, e) + [last]
  }

  /** A stable sort. */
  function SortEvents(events: seq<Event>): (r: seq<Event>)
    ensures multiset(r) == multiset(events)
  {
    if events == [] then []
    else
      assert events == events[..|events| - 1] + [events[|events| - 1]];
      InsertEvent(SortEvents(events[..|events| - 1]), events[|events| - 1])
  }

  // In the order of time, and at one moment in that of the identifiers.
  predicate InOrder(events: seq<Event>) {
    forall i, j :: 0 <= i < j < |events| ==>
      events[i].at < events[j].at || (events[i].at == events[j].at && events[i].id <= events[j].id)
  }

  predicate NoneAfter(events: seq<Event>, e: Event) {
    forall i :: 0 <= i < |events| ==> !Precedes(e, events[i])
  }

  lemma {:induction false} InsertInOrder(ordered: seq<Event>, e: Event)
    requires InOrder(ordered)
    ensures InOrder(InsertEvent(ordered, e))
    ensures forall last :: NoneAfter(ordered, last) && !Precedes(last, e) ==> NoneAfter(InsertEvent(ordered, e), last)
    decreases |ordered|
  {
    if ordered != [] && Precedes(e, ordered[|ordered| - 1]) {
      var front, last := ordered[..|ordered| - 1], ordered[|ordered| - 1];
      InsertInOrder(front, e);
      assert NoneAfter(front, last);
      assert NoneAfter(InsertEvent(front, e), last);
      forall next | NoneAfter(ordered, next) && !Precedes(next, e)
        ensures NoneAfter(InsertEvent(ordered, e), next)
      {
        assert NoneAfter(front, next);
      }
    }
  }

  lemma {:induction false} SortedInOrder(events: seq<Event>)
    ensures InOrder(SortEvents(events))
  {
    if events != [] {
      SortedInOrder(events[..|events| - 1]);
      InsertInOrder(SortEvents(events[..|events| - 1]), events[|events| - 1]);
    }
  }

  /** The result of calculateCostBasis. */
  datatype Report = AcbReport(acb: AcbState) | LotReport(lots: LotState)

  function Engine(events: seq<Event>, m: Method): Report {
    if m == Acb then AcbReport(AcbRun(events)) else LotReport(LotRun(events, m))
  }

  method CalculateCostBasis(events: seq<Event>, m: Method) returns (r: Report)
    ensures r == Engine(SortEvents(events), m)
  {
    var ordered := SortEvents(events);
    if m == Acb {
      var s := CalculateAcb(ordered);
      r := AcbReport(s);
    } else {
      var s := CalculateLotMethod(ordered, m);
      r := LotReport(s);
    }
  }

  // ---- every asset on its own ----

  lemma InsertLast(ordered: seq<Event>, e: Event)
    requires NoneAfter(ordered, e)
    ensures InsertEvent(ordered, e) == ordered + [e]
  {
  }

  lemma EventsOfSnoc(events: seq<Event>, e: Event, asset: int)
    ensures EventsOf(events + [e], asset)
            == if e.asset == asset then EventsOf(events, asset) + [e] else EventsOf(events, asset)
  {
    assert (events + [e])[..|events|] == events;
  }

  lemma {:induction false} NoneAfterOf(events: seq<Event>, e: Event, asset: int)
    requires NoneAfter(events, e)
    ensures NoneAfter(EventsOf(events, asset), e)
  {
    if events != [] {
      NoneAfterOf(events[..|events| - 1], e, asset);
    }
  }

  lemma {:induction false} InsertByAsset(ordered: seq<Event>, e: Event, asset: int)
    requires InOrder(ordered)
    ensures EventsOf(InsertEvent(ordered, e), asset)
            == if e.asset == asset then InsertEvent(EventsOf(ordered, asset), e) else EventsOf(ordered, asset)
    decreases |ordered|
  {
    if ordered == [] || !Precedes(e, ordered[|ordered| - 1]) {
      assert NoneAfter(ordered, e);
      NoneAfterOf(ordered, e, asset);
      InsertLast(EventsOf(ordered, asset), e);
      EventsOfSnoc(ordered, e, asset);
    } else {
      var front, last := ordered[..|ordered| - 1], ordered[|ordered| - 1];
      InsertByAsset(front, e, asset);
      EventsOfSnoc(InsertEvent(front, e), last, asset);
      var own := EventsOf(front, asset);
      assert (own + [last])[..|own|] == own;
    }
  }

  lemma {:induction false} SortByAsset(events: seq<Event>, asset: int)
    ensures EventsOf(SortEvents(events), asset) == SortEvents(EventsOf(events, asset))
  {
    if events != [] {
      var before, e := events[..|events| - 1], events[|events| - 1];
      SortByAsset(before, asset);
      SortedInOrder(before);
      InsertByAsset(SortEvents(before), e, asset);
      var own := EventsOf(before, asset);
      assert (own + [e])[..|own|] == own;
    }
  }

  // What a report says of one asset.
  datatype Account = AcbAccount(holding: Holding, disposals: seq<Disposal>) | LotAccount(own: LotState)

  function AccountOf(r: Report, asset: int): Account {
    match r
    case AcbReport(s) => AcbAccount(HoldingOf(s, asset), DisposalsOf(s.disposals, asset))
    case LotReport(s) => LotAccount(Only(s, asset))
  }

  lemma {:induction false} EventsOfTwice(events: seq<Event>, asset: int)
    ensures EventsOf(EventsOf(events, asset), asset) == EventsOf(events, asset)
  {
    if events != [] {
      var before, e := events[..|events| - 1], events[|events| - 1];
      EventsOfTwice(before, asset);
      EventsOfSnoc(EventsOf(before, asset), e, asset);
    }
  }

  lemma EngineByAsset(events: seq<Event>, m: Method, asset: int)
    ensures AccountOf(Engine(events, m), asset) == AccountOf(Engine(EventsOf(events, asset), m), asset)
  {
    EventsOfTwice(events, asset);
    if m == Acb {
      AcbByAsset(events, asset);
      AcbByAsset(EventsOf(events, asset), asset);
    } else {
      LotsByAsset(events, m, asset);
      LotsByAsset(EventsOf(events, asset), m, asset);
    }
  }

  /** Whatever else is in the list, an asset's holding, lots and dispositions are those that its own events
      would give alone. */
  lemma AssetsAreIndependent(events: seq<Event>, m: Method, asset: int)
    ensures AccountOf(Engine(SortEvents(events), m), asset)
            == AccountOf(Engine(SortEvents(EventsOf(events, asset)), m), asset)
  {
    SortByAsset(events, asset);
    EngineByAsset(SortEvents(events), m, asset);
  }

  // ---- FIFO ----

  // The sizes of the lots of the asset before lot i.
  function SizeBefore(lots: seq<Lot>, asset: int, i: int): real
    requires 0 <= i <= |lots|
  {
    if i == 0 then 0.0
    else SizeBefore(lots, asset, i - 1) + (if lots[i - 1].asset == asset then lots[i - 1].quantity else 0.0)
  }

  function Clamp(x: real, low: real, high: real): real {
    Max(low, Min(x, high))
  }

  /** After `drawn` units have been taken, the lots are used up strictly in order. */
  predicate UsedInOrder(lots: seq<Lot>, asset: int, drawn: real) {
    forall i :: 0 <= i < |lots| && lots[i].asset == asset ==>
      lots[i].quantity - lots[i].remaining == Clamp(drawn - SizeBefore(lots, asset, i), 0.0, lots[i].quantity)
  }

  // What an event draws from `held`.
  function Draw(e: Event, asset: int, held: real): real {
    if e.asset == asset && !Adds(e) then Min(Abs(e.quantity), held) else 0.0
  }

  // What the disposals have taken so far: never more than there was.
  function Drawn(events: seq<Event>, asset: int): (d: real)
    ensures d >= 0.0
  {
    if events == [] then 0.0
    else
      var before, e := events[..|events| - 1], events[|events| - 1];
      Drawn(before, asset) + Draw(e, asset, Held(before, asset))
  }

  lemma {:induction false} TakeSameLots(lots: seq<Lot>, order: seq<int>, need: real)
    requires LotsInv(lots) && Positions(lots, order) && need >= 0.0
    ensures SameLots(lots, Take(lots, order, need).lots)
    decreases |order|
  {
    hide Part;
    if order != [] && need != 0.0 {
      var amount := Min(lots[order[0]].remaining, need);
      TakeSameLots(Reduce(lots, order[0], amount), order[1..], need - amount);
    }
  }

  lemma {:induction false} SizeUnchanged(lots: seq<Lot>, lots': seq<Lot>, asset: int, i: int)
    requires SameLots(lots, lots') && 0 <= i <= |lots|
    ensures SizeBefore(lots', asset, i) == SizeBefore(lots, asset, i)
  {
    if i > 0 {
      SizeUnchanged(lots, lots', asset, i - 1);
    }
  }

  lemma {:induction false} SizeUpTo(lots: seq<Lot>, asset: int, i: int, j: int)
    requires LotsInv(lots) && 0 <= i <= j <= |lots|
    ensures SizeBefore(lots, asset, i) <= SizeBefore(lots, asset, j)
    ensures i < j && lots[i].asset == asset ==>
              SizeBefore(lots, asset, i) + lots[i].quantity <= SizeBefore(lots, asset, j)
    decreases j
  {
    if i < j {
      SizeUpTo(lots, asset, i, j - 1);
    }
  }

  // The candidates of the asset, oldest first.
  predicate Oldest(lots: seq<Lot>, order: seq<int>, asset: int) {
    && (forall k, l :: 0 <= k < l < |order| ==> order[k] < order[l])
    && forall i :: 0 <= i < |lots| && IsCandidate(lots[i], asset) ==> i in order
  }

  // Nothing is left in the lots before the first candidate, so they are all drawn.
  lemma {:induction false} DrawnBefore(lots: seq<Lot>, asset: int, drawn: real, i: int)
    requires LotsInv(lots) && UsedInOrder(lots, asset, drawn) && 0 <= i <= |lots| && drawn >= 0.0
    requires forall j :: 0 <= j < i ==> !IsCandidate(lots[j], asset)
    ensures SizeBefore(lots, asset, i) <= drawn
  {
    if i > 0 {
      DrawnBefore(lots, asset, drawn, i - 1);
    }
  }

  lemma UseFirst(lots: seq<Lot>, asset: int, drawn: real, k: int, amount: real)
    requires LotsInv(lots) && UsedInOrder(lots, asset, drawn) && 0 <= k < |lots| && drawn >= 0.0
    requires IsCandidate(lots[k], asset) && 0.0 <= amount <= lots[k].remaining
    requires forall j :: 0 <= j < k ==> !IsCandidate(lots[j], asset)
    ensures UsedInOrder(Reduce(lots, k, amount), asset, drawn + amount)
  {
    var lots' := Reduce(lots, k, amount);
    DrawnBefore(lots, asset, drawn, k);
    forall i | 0 <= i < |lots'| && lots'[i].asset == asset
      ensures lots'[i].quantity - lots'[i].remaining
              == Clamp(drawn + amount - SizeBefore(lots', asset, i), 0.0, lots'[i].quantity)
    {
      SizeUnchanged(lots, lots', asset, i);
      if i < k {
        SizeUpTo(lots, asset, i, k);
      } else if k < i {
        SizeUpTo(lots, asset, k, i);
      }
    }
  }

  lemma OldestFirst(lots: seq<Lot>, order: seq<int>, asset: int)
    requires Oldest(lots, order, asset) && order != [] && 0 <= order[0] < |lots|
    ensures forall j :: 0 <= j < order[0] ==> !IsCandidate(lots[j], asset)
  {
    forall j | 0 <= j < order[0]
      ensures !IsCandidate(lots[j], asset)
    {
      assert j !in order;
    }
  }

  // Once the oldest candidate is used up, the others are the candidates.
  lemma OldestRest(lots: seq<Lot>, order: seq<int>, asset: int)
    requires LotsInv(lots) && Oldest(lots, order, asset) && order != [] && 0 <= order[0] < |lots|
    ensures Oldest(Reduce(lots, order[0], lots[order[0]].remaining), order[1..], asset)
  {
    var lots' := Reduce(lots, order[0], lots[order[0]].remaining);
    forall i | 0 <= i < |lots'| && IsCandidate(lots'[i], asset)
      ensures i in order[1..]
    {
      assert i in order && i != order[0];
    }
  }

  lemma {:induction false} TakeOldest(lots: seq<Lot>, order: seq<int>, need: real, asset: int, drawn: real)
    requires LotsInv(lots) && Positions(lots, order) && OfAsset(lots, order, asset) && need >= 0.0 && drawn >= 0.0
    requires Oldest(lots, order, asset) && UsedInOrder(lots, asset, drawn)
    ensures var t := Take(lots, order, need); UsedInOrder(t.lots, asset, drawn + (need - t.left))
    decreases |order|
  {
    hide Part, UsedInOrder, Oldest;
    if order != [] && need != 0.0 {
      var amount := Min(lots[order[0]].remaining, need);
      TakeFirst(lots, order, need);
      OldestFirst(lots, order, asset);
      UseFirst(lots, asset, drawn, order[0], amount);
      if need > amount {
        OldestRest(lots, order, asset);
        assert OfAsset(Reduce(lots, order[0], amount), order[1..], asset);
        TakeOldest(Reduce(lots, order[0], amount), order[1..], need - amount, asset, drawn + amount);
      }
    }
  }

  predicate InTime(lots: seq<Lot>) {
    forall i, j :: 0 <= i < j < |lots| ==> lots[i].acquiredAt <= lots[j].acquiredAt
  }

  // FIFO's candidates are the oldest lots.
  lemma {:induction false} FifoOrder(lots: seq<Lot>, asset: int, n: int)
    requires InTime(lots) && 0 <= n <= |lots|
    ensures Oldest(lots[..n], Order(lots, Fifo, asset, n), asset)
  {
    if n > 0 {
      FifoOrder(lots, asset, n - 1);
      OrderNext(lots, Fifo, asset, n - 1);
      var order := Order(lots, Fifo, asset, n - 1);
      if IsCandidate(lots[n - 1], asset) {
        assert Insert(lots, Fifo, order, n - 1) == order + [n - 1];
      }
      forall i | 0 <= i < n && IsCandidate(lots[i], asset)
        ensures i in Order(lots, Fifo, asset, n)
      {
        if i < n - 1 {
          assert lots[..n - 1][i] == lots[i];
          assert i in order;
        }
      }
    }
  }

  // ---- the run ----

  lemma BuyInOrder(lots: seq<Lot>, lot: Lot, asset: int, drawn: real)
    requires UsedInOrder(lots, asset, drawn) && drawn <= SizeBefore(lots, asset, |lots|)
    requires lot.remaining == lot.quantity >= 0.0
    ensures UsedInOrder(lots + [lot], asset, drawn)
  {
    var lots' := lots + [lot];
    forall i | 0 <= i < |lots'| && lots'[i].asset == asset
      ensures lots'[i].quantity - lots'[i].remaining
              == Clamp(drawn - SizeBefore(lots', asset, i), 0.0, lots'[i].quantity)
    {
      SizeOfPrefix(lots, lot, asset, i);
    }
  }

  lemma SellInOrder(s: LotState, e: Event, drawn: real)
    requires LotsInv(s.lots) && InTime(s.lots) && UsedInOrder(s.lots, e.asset, drawn) && drawn >= 0.0
    ensures UsedInOrder(TakeFor(s.lots, Fifo, e).lots, e.asset,
                        drawn + Min(Abs(e.quantity), Total(s.lots, e.asset, Units)))
  {
    hide Part, UsedInOrder, InTime, Oldest, Take, Order, Total;
    var order := Order(s.lots, Fifo, e.asset, |s.lots|);
    OrderPositions(s.lots, Fifo, e.asset, |s.lots|);
    FifoOrder(s.lots, e.asset, |s.lots|);
    assert s.lots[..|s.lots|] == s.lots;
    TakeOldest(s.lots, order, Abs(e.quantity), e.asset, drawn);
    StepLeaves(s, Fifo, e);
    UnitsNonNegative(s.lots, e.asset);
  }

  lemma FifoStep(s: LotState, e: Event, asset: int, drawn: real)
    requires LotsInv(s.lots) && InTime(s.lots) && UsedInOrder(s.lots, asset, drawn) && drawn >= 0.0
    requires drawn <= SizeBefore(s.lots, asset, |s.lots|)
    ensures UsedInOrder(LotStep(s, Fifo, e).lots, asset, drawn + Draw(e, asset, Total(s.lots, asset, Units)))
  {
    hide Part, UsedInOrder, InTime, Total, SizeBefore;
    if Adds(e) {
      BuyInOrder(s.lots, NewLot(e), asset, drawn);
    } else if e.asset == asset {
      SellInOrder(s, e, drawn);
    } else {
      OrderPositions(s.lots, Fifo, e.asset, |s.lots|);
      OthersUsed(s.lots, Order(s.lots, Fifo, e.asset, |s.lots|), Abs(e.quantity), e.asset, asset, drawn);
    }
  }

  lemma {:induction false} SizeOfPrefix(lots: seq<Lot>, lot: Lot, asset: int, i: int)
    requires 0 <= i <= |lots|
    ensures SizeBefore(lots + [lot], asset, i) == SizeBefore(lots, asset, i)
  {
    if i > 0 {
      SizeOfPrefix(lots, lot, asset, i - 1);
    }
  }

  lemma {:induction false} OthersUsed(lots: seq<Lot>, order: seq<int>, need: real, sold: int, asset: int, drawn: real)
    requires LotsInv(lots) && Positions(lots, order) && OfAsset(lots, order, sold) && need >= 0.0 && sold != asset
    requires UsedInOrder(lots, asset, drawn)
    ensures UsedInOrder(Take(lots, order, need).lots, asset, drawn)
    decreases |order|
  {
    hide Part;
    if order != [] && need != 0.0 {
      var amount := Min(lots[order[0]].remaining, need);
      var lots' := Reduce(lots, order[0], amount);
      forall i | 0 <= i < |lots'|
        ensures SizeBefore(lots', asset, i) == SizeBefore(lots, asset, i)
      {
        SizeUnchanged(lots, lots', asset, i);
      }
      OthersUsed(lots', order[1..], need - amount, sold, asset, drawn);
    }
  }

  predicate NotLater(lots: seq<Lot>, at: int) {
    forall i :: 0 <= i < |lots| ==> lots[i].acquiredAt <= at
  }

  // Events in order leave lots in order, whatever the method.
  lemma {:induction false} LotsInTime(events: seq<Event>, m: Method)
    requires InOrder(events)
    ensures InTime(LotRun(events, m).lots)
    ensures events != [] ==> NotLater(LotRun(events, m).lots, events[|events| - 1].at)
  {
    hide Part, Order, Take, LotDisposal, Cost;
    if events != [] {
      var before, e := events[..|events| - 1], events[|events| - 1];
      LotsInTime(before, m);
      var s := LotRun(before, m);
      if before != [] {
        assert events[|before| - 1].at <= e.at;
      }
      assert NotLater(s.lots, e.at);
      if !Adds(e) {
        OrderPositions(s.lots, m, e.asset, |s.lots|);
        TakeSameLots(s.lots, Order(s.lots, m, e.asset, |s.lots|), Abs(e.quantity));
      }
    }
  }

  // Whatever was bought is still held or was drawn.
  lemma {:induction false} BoughtIsHeldOrDrawn(events: seq<Event>, m: Method, asset: int)
    ensures var lots := LotRun(events, m).lots;
            SizeBefore(lots, asset, |lots|) == Held(events, asset) + Drawn(events, asset)
  {
    if events != [] {
      var before, e := events[..|events| - 1], events[|events| - 1];
      BoughtIsHeldOrDrawn(before, m, asset);
      var s := LotRun(before, m);
      if Adds(e) {
        SizeOfPrefix(s.lots, NewLot(e), asset, |s.lots|);
      } else {
        OrderPositions(s.lots, m, e.asset, |s.lots|);
        TakeSameLots(s.lots, Order(s.lots, m, e.asset, |s.lots|), Abs(e.quantity));
        SizeUnchanged(s.lots, TakeFor(s.lots, m, e).lots, asset, |s.lots|);
      }
    }
  }

  lemma NothingUsed(asset: int)
    ensures UsedInOrder(LotRun([], Fifo).lots, asset, Drawn([], asset))
  {
  }

  lemma OneMoreEvent(events: seq<Event>, asset: int)
    requires events != [] && InOrder(events)
    ensures var before, e := events[..|events| - 1], events[|events| - 1];
            && InOrder(before) && LotRun(events, Fifo) == LotStep(LotRun(before, Fifo), Fifo, e)
            && Drawn(events, asset) == Drawn(before, asset) + Draw(e, asset, Held(before, asset))
  {
    hide LotStep, Draw, Held;
  }

  /** The closed form of FIFO: of the i-th lot of an asset, the units taken are what was drawn in total beyond
      the sizes of the earlier lots, within 0 and the size of the lot. */
  lemma {:induction false} FifoClosedForm(events: seq<Event>, asset: int)
    requires InOrder(events)
    ensures UsedInOrder(LotRun(events, Fifo).lots, asset, Drawn(events, asset))
  {
    hide InOrder, InTime, LotStep, Total, UsedInOrder, Drawn, Draw, Held, LotRun, SizeBefore;
    if events == [] {
      NothingUsed(asset);
    } else {
      var before, e := events[..|events| - 1], events[|events| - 1];
      OneMoreEvent(events, asset);
      FifoClosedForm(before, asset);
      LotsInTime(before, Fifo);
      BoughtIsHeldOrDrawn(before, Fifo, asset);
      SameQuantityLeft(before, Fifo, asset);
      FifoStep(LotRun(before, Fifo), e, asset, Drawn(before, asset));
    }
  }

  /** So it is in every FIFO report: what the events draw in total decides what remains of each lot. */
  lemma ReportsUseLotsInOrder(events: seq<Event>, asset: int)
    ensures var ordered := SortEvents(events);
            UsedInOrder(Engine(ordered, Fifo).lots.lots, asset, Drawn(ordered, asset))
  {
    SortedInOrder(events);
    FifoClosedForm(SortEvents(events), asset);
  }
}
