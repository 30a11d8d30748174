/** Assets do not influence each other, and FIFO has a closed form: lots are used up strictly in order. */
module CostBasisAssets {
  import opened CostBasis

  // ---- what concerns one asset ----

  function EventsOf(events: seq<Event>, asset: int): seq<Event> {
    if events == [] then []
    else
      var rest, e := EventsOf(events[..|events| - 1], asset), events[|events| - 1];
      if e.asset == asset then rest + [e] else rest
  }

  function LotsOf(lots: seq<Lot>, asset: int): (own: seq<Lot>)
    ensures LotsInv(lots) ==> LotsInv(own)
  {
    if lots == [] then []
    else
      var rest, lot := LotsOf(lots[..|lots| - 1], asset), lots[|lots| - 1];
      if lot.asset == asset then rest + [lot] else rest
  }

  function DisposalsOf(disposals: seq<Disposal>, asset: int): seq<Disposal> {
    if disposals == [] then []
    else
      var rest, d := DisposalsOf(disposals[..|disposals| - 1], asset), disposals[|disposals| - 1];
      if d.asset == asset then rest + [d] else rest
  }

  lemma DisposalsOfSnoc(disposals: seq<Disposal>, d: Disposal, asset: int)
    ensures DisposalsOf(disposals + [d], asset)
            == if d.asset == asset then DisposalsOf(disposals, asset) + [d] else DisposalsOf(disposals, asset)
  {
    assert (disposals + [d])[..|disposals|] == disposals;
  }

  lemma LotsOfSnoc(lots: seq<Lot>, lot: Lot, asset: int)
    ensures LotsOf(lots + [lot], asset)
            == if lot.asset == asset then LotsOf(lots, asset) + [lot] else LotsOf(lots, asset)
  {
    assert (lots + [lot])[..|lots|] == lots;
  }

  // ---- average cost ----

  lemma AcbRunSnoc(events: seq<Event>, e: Event)
    ensures AcbRun(events + [e]) == AcbStep(AcbRun(events), e)
  {
    assert (events + [e])[..|events|] == events;
  }

  lemma AcbStepByAsset(s: AcbState, own: AcbState, e: Event, asset: int)
    requires HoldingOf(s, asset) == HoldingOf(own, asset) && DisposalsOf(s.disposals, asset) == own.disposals
    ensures var own' := if e.asset == asset then AcbStep(own, e) else own;
            && HoldingOf(AcbStep(s, e), asset) == HoldingOf(own', asset)
            && DisposalsOf(AcbStep(s, e).disposals, asset) == own'.disposals
  {
    hide AcbStep, HoldingOf, Add, Remove, KnownPart, BasisPart, Pnl, Proceeds;
    AcbStepAt(s, e, asset);
    AcbStepAt(own, e, asset);
    DisposalsOfSnoc(s.disposals, AcbDisposal(HoldingOf(s, e.asset), e), asset);
  }

  /** Average cost treats each asset as if its events were the only ones. */
  lemma {:induction false} AcbByAsset(events: seq<Event>, asset: int)
    ensures HoldingOf(AcbRun(events), asset) == HoldingOf(AcbRun(EventsOf(events, asset)), asset)
    ensures DisposalsOf(AcbRun(events).disposals, asset) == AcbRun(EventsOf(events, asset)).disposals
  {
    if events != [] {
      var before, e := events[..|events| - 1], events[|events| - 1];
      AcbByAsset(before, asset);
      AcbStepByAsset(AcbRun(before), AcbRun(EventsOf(before, asset)), e, asset);
      AcbRunSnoc(EventsOf(before, asset), e);
    }
  }

  // ---- lots: positions among all lots, and among those of the asset ----

  // The position that lot i has among the lots of the asset.
  function Rank(lots: seq<Lot>, asset: int, i: int): (r: int)
    requires 0 <= i <= |lots|
    ensures 0 <= r <= i
  {
    if i == 0 then 0 else Rank(lots, asset, i - 1) + (if lots[i - 1].asset == asset then 1 else 0)
  }

  lemma {:induction false} RankIsLength(lots: seq<Lot>, asset: int, i: int)
    requires 0 <= i <= |lots|
    ensures Rank(lots, asset, i) == |LotsOf(lots[..i], asset)|
  {
    if i > 0 {
      RankIsLength(lots, asset, i - 1);
      assert lots[..i][..i - 1] == lots[..i - 1];
    }
  }

  lemma {:induction false} LotsOfPrefix(lots: seq<Lot>, asset: int, i: int)
    requires 0 <= i <= |lots|
    ensures Rank(lots, asset, i) <= |LotsOf(lots, asset)|
    ensures LotsOf(lots[..i], asset) == LotsOf(lots, asset)[..Rank(lots, asset, i)]
    decreases |lots|
  {
    RankIsLength(lots, asset, i);
    if i < |lots| {
      var front := lots[..|lots| - 1];
      LotsOfPrefix(front, asset, i);
      RankIsLength(front, asset, i);
      assert front[..i] == lots[..i];
    } else {
      assert lots[..i] == lots;
    }
  }

  lemma LotAtRank(lots: seq<Lot>, asset: int, i: int)
    requires 0 <= i < |lots| && lots[i].asset == asset
    ensures Rank(lots, asset, i) < |LotsOf(lots, asset)|
    ensures LotsOf(lots, asset)[Rank(lots, asset, i)] == lots[i]
  {
    LotsOfPrefix(lots, asset, i + 1);
    RankIsLength(lots, asset, i);
    LotsOfSnoc(lots[..i], lots[i], asset);
    assert lots[..i + 1] == lots[..i] + [lots[i]];
  }

  function Ranks(lots: seq<Lot>, asset: int, order: seq<int>): (ranks: seq<int>)
    requires Within(order, |lots|)
    ensures |ranks| == |order|
    ensures forall k :: 0 <= k < |order| ==> ranks[k] == Rank(lots, asset, order[k])
  {
    seq(|order|, k requires 0 <= k < |order| => Rank(lots, asset, order[k]))
  }

  lemma {:induction false} RankUpTo(lots: seq<Lot>, asset: int, i: int, j: int)
    requires 0 <= i <= j <= |lots|
    ensures Rank(lots, asset, i) <= Rank(lots, asset, j)
    ensures i < j && lots[i].asset == asset ==> Rank(lots, asset, i) < Rank(lots, asset, j)
    decreases j
  {
    if i < j {
      RankUpTo(lots, asset, i, j - 1);
    }
  }

  lemma RanksWithin(lots: seq<Lot>, asset: int, order: seq<int>, n: int)
    requires 0 <= n <= |lots| && Within(order, n) && OfAsset(lots, order, asset)
    ensures Within(Ranks(lots, asset, order), Rank(lots, asset, n))
    ensures Rank(lots, asset, n) <= |LotsOf(lots, asset)|
  {
    LotsOfPrefix(lots, asset, n);
    forall k | 0 <= k < |order|
      ensures 0 <= Rank(lots, asset, order[k]) < Rank(lots, asset, n)
    {
      RankUpTo(lots, asset, order[k], n);
    }
  }

  // ---- sorting the candidates commutes with selecting the asset ----

  lemma RanksSnoc(lots: seq<Lot>, asset: int, order: seq<int>, i: int)
    requires Within(order, |lots|) && 0 <= i < |lots|
    ensures Ranks(lots, asset, order + [i]) == Ranks(lots, asset, order) + [Rank(lots, asset, i)]
  {
  }

  lemma {:induction false} InsertByAsset(lots: seq<Lot>, m: Method, asset: int, order: seq<int>, i: int)
    requires 0 <= i < |lots| && Within(order, i) && OfAsset(lots, order, asset) && lots[i].asset == asset
    ensures Rank(lots, asset, i) < |LotsOf(lots, asset)|
    ensures Within(Ranks(lots, asset, order), Rank(lots, asset, i))
    ensures Ranks(lots, asset, Insert(lots, m, order, i))
            == Insert(LotsOf(lots, asset), m, Ranks(lots, asset, order), Rank(lots, asset, i))
    decreases |order|
  {
    LotAtRank(lots, asset, i);
    RanksWithin(lots, asset, order, i);
    RanksSnoc(lots, asset, order, i);
    if order != [] {
      var front, last := order[..|order| - 1], order[|order| - 1];
      LotAtRank(lots, asset, last);
      if Before(m, lots[i], lots[last]) {
        InsertByAsset(lots, m, asset, front, i);
        assert Ranks(lots, asset, front) == Ranks(lots, asset, order)[..|order| - 1];
        RanksSnoc(lots, asset, Insert(lots, m, front, i), last);
      }
    }
  }

  lemma {:induction false} OrderByAsset(lots: seq<Lot>, m: Method, asset: int, n: int)
    requires 0 <= n <= |lots|
    ensures Rank(lots, asset, n) <= |LotsOf(lots, asset)|
    ensures Ranks(lots, asset, Order(lots, m, asset, n))
            == Order(LotsOf(lots, asset), m, asset, Rank(lots, asset, n))
  {
    hide Insert, LotsOf, Part;
    LotsOfPrefix(lots, asset, n);
    if n > 0 {
      OrderByAsset(lots, m, asset, n - 1);
      OrderNext(lots, m, asset, n - 1);
      if lots[n - 1].asset == asset {
        LotAtRank(lots, asset, n - 1);
        OrderNext(LotsOf(lots, asset), m, asset, Rank(lots, asset, n - 1));
        OrderPositions(lots, m, asset, n - 1);
        InsertByAsset(lots, m, asset, Order(lots, m, asset, n - 1), n - 1);
      }
    }
  }

  // ---- and so does taking from them ----

  lemma {:induction false} RankUnchanged(lots: seq<Lot>, lots': seq<Lot>, asset: int, i: int)
    requires 0 <= i <= |lots| == |lots'|
    requires forall k :: 0 <= k < |lots| ==> lots[k].asset == lots'[k].asset
    ensures Rank(lots', asset, i) == Rank(lots, asset, i)
  {
    if i > 0 {
      RankUnchanged(lots, lots', asset, i - 1);
    }
  }

  // Changing a lot of the asset changes it at its rank.
  lemma {:induction false} LotsOfUpdated(lots: seq<Lot>, asset: int, i: int, lot: Lot)
    requires 0 <= i < |lots| && lots[i].asset == asset == lot.asset
    ensures Rank(lots, asset, i) < |LotsOf(lots, asset)|
    ensures LotsOf(lots[i := lot], asset) == LotsOf(lots, asset)[Rank(lots, asset, i) := lot]
    decreases |lots|
  {
    var last := |lots| - 1;
    LotAtRank(lots, asset, i);
    RankIsLength(lots, asset, i);
    if i == last {
      assert lots[i := lot][..last] == lots[..last];
    } else {
      var front := lots[..last];
      LotsOfUpdated(front, asset, i, lot);
      RankIsLength(front, asset, i);
      assert front[..i] == lots[..i];
      assert lots[i := lot][..last] == front[i := lot];
    }
  }

  lemma ReduceByAsset(lots: seq<Lot>, asset: int, i: int, amount: real)
    requires LotsInv(lots) && 0 <= i < |lots| && 0.0 <= amount <= lots[i].remaining && lots[i].asset == asset
    ensures Rank(lots, asset, i) < |LotsOf(lots, asset)| && LotsOf(lots, asset)[Rank(lots, asset, i)] == lots[i]
    ensures LotsOf(Reduce(lots, i, amount), asset) == Reduce(LotsOf(lots, asset), Rank(lots, asset, i), amount)
  {
    LotAtRank(lots, asset, i);
    LotsOfUpdated(lots, asset, i, lots[i].(remaining := lots[i].remaining - amount));
  }

  lemma {:induction false} OthersUntouched(lots: seq<Lot>, sold: int, i: int, amount: real, asset: int)
    requires LotsInv(lots) && 0 <= i < |lots| && 0.0 <= amount <= lots[i].remaining && lots[i].asset == sold != asset
    ensures LotsOf(Reduce(lots, i, amount), asset) == LotsOf(lots, asset)
    decreases |lots|
  {
    var last := |lots| - 1;
    if i == last {
      assert Reduce(lots, i, amount)[..last] == lots[..last];
    } else {
      OthersUntouched(lots[..last], sold, i, amount, asset);
      assert Reduce(lots, i, amount)[..last] == Reduce(lots[..last], i, amount);
    }
  }

  lemma {:induction false} TakeElsewhere(lots: seq<Lot>, order: seq<int>, need: real, sold: int, asset: int)
    requires LotsInv(lots) && Positions(lots, order) && need >= 0.0 && OfAsset(lots, order, sold) && sold != asset
    ensures LotsOf(Take(lots, order, need).lots, asset) == LotsOf(lots, asset)
    decreases |order|
  {
    if order != [] && need != 0.0 {
      var amount := Min(lots[order[0]].remaining, need);
      OthersUntouched(lots, sold, order[0], amount, asset);
      TakeElsewhere(Reduce(lots, order[0], amount), order[1..], need - amount, sold, asset);
    }
  }

  lemma RanksPositions(lots: seq<Lot>, asset: int, order: seq<int>)
    requires Positions(lots, order) && OfAsset(lots, order, asset)
    ensures Positions(LotsOf(lots, asset), Ranks(lots, asset, order))
  {
    RanksWithin(lots, asset, order, |lots|);
    var ranks := Ranks(lots, asset, order);
    forall k, l | 0 <= k < l < |order|
      ensures ranks[k] != ranks[l]
    {
      if order[k] < order[l] {
        RankUpTo(lots, asset, order[k], order[l]);
      } else {
        RankUpTo(lots, asset, order[l], order[k]);
      }
    }
    forall k | 0 <= k < |order|
      ensures 0 <= ranks[k] < |LotsOf(lots, asset)| && LotsOf(lots, asset)[ranks[k]].remaining > 0.0
    {
      LotAtRank(lots, asset, order[k]);
    }
  }

  lemma RanksReduced(lots: seq<Lot>, asset: int, order: seq<int>, i: int, amount: real)
    requires LotsInv(lots) && Within(order, |lots|) && 0 <= i < |lots| && 0.0 <= amount <= lots[i].remaining
    ensures Ranks(Reduce(lots, i, amount), asset, order) == Ranks(lots, asset, order)
  {
    forall k | 0 <= k < |order|
      ensures Rank(Reduce(lots, i, amount), asset, order[k]) == Rank(lots, asset, order[k])
    {
      RankUnchanged(lots, Reduce(lots, i, amount), asset, order[k]);
    }
  }

  function OnlyTaken(t: Taken, asset: int): Taken {
    t.(lots := LotsOf(t.lots, asset))
  }

  lemma ServedOnly(lot: Lot, amount: real, rest: Taken, asset: int)
    requires lot.quantity != 0.0
    ensures Served(lot, amount, OnlyTaken(rest, asset)) == OnlyTaken(Served(lot, amount, rest), asset)
  {
  }

  /** A disposal sees only the lots of its asset. */
  lemma {:induction false} TakeByAsset(lots: seq<Lot>, order: seq<int>, need: real, asset: int)
    requires LotsInv(lots) && Positions(lots, order) && need >= 0.0 && OfAsset(lots, order, asset)
    ensures Positions(LotsOf(lots, asset), Ranks(lots, asset, order))
    ensures Take(LotsOf(lots, asset), Ranks(lots, asset, order), need) == OnlyTaken(Take(lots, order, need), asset)
    decreases |order|
  {
    hide Part, Served, LotsOf, Rank, Distinct;
    RanksPositions(lots, asset, order);
    if order != [] && need != 0.0 {
      var amount := Min(lots[order[0]].remaining, need);
      var lots' := Reduce(lots, order[0], amount);
      ReduceByAsset(lots, asset, order[0], amount);
      TakeFirst(lots, order, need);
      TakeFirst(LotsOf(lots, asset), Ranks(lots, asset, order), need);
      assert OfAsset(lots', order[1..], asset);
      TakeByAsset(lots', order[1..], need - amount, asset);
      RanksReduced(lots, asset, order[1..], order[0], amount);
      ServedOnly(lots[order[0]], amount, Take(lots', order[1..], need - amount), asset);
      assert Ranks(lots, asset, order)[1..] == Ranks(lots, asset, order[1..]);
    }
  }

  function Only(s: LotState, asset: int): (own: LotState)
    ensures LotsInv(s.lots) ==> LotsInv(own.lots)
  {
    LotState(LotsOf(s.lots, asset), DisposalsOf(s.disposals, asset))
  }

  lemma SaleByAsset(lots: seq<Lot>, m: Method, e: Event)
    requires LotsInv(lots)
    ensures TakeFor(LotsOf(lots, e.asset), m, e) == OnlyTaken(TakeFor(lots, m, e), e.asset)
  {
    OrderPositions(lots, m, e.asset, |lots|);
    OrderByAsset(lots, m, e.asset, |lots|);
    RankIsLength(lots, e.asset, |lots|);
    assert lots[..|lots|] == lots;
    TakeByAsset(lots, Order(lots, m, e.asset, |lots|), Abs(e.quantity), e.asset);
  }

  lemma StepByAsset(s: LotState, m: Method, e: Event, asset: int)
    requires LotsInv(s.lots)
    ensures Only(LotStep(s, m, e), asset) == if e.asset == asset then LotStep(Only(s, asset), m, e) else Only(s, asset)
  {
    hide Part, LotsOf, DisposalsOf, Pnl, Proceeds, Cost;
    if Adds(e) {
      LotsOfSnoc(s.lots, NewLot(e), asset);
    } else {
      DisposalsOfSnoc(s.disposals, LotDisposal(TakeFor(s.lots, m, e), e), asset);
      if e.asset == asset {
        SaleByAsset(s.lots, m, e);
      } else {
        OrderPositions(s.lots, m, e.asset, |s.lots|);
        TakeElsewhere(s.lots, Order(s.lots, m, e.asset, |s.lots|), Abs(e.quantity), e.asset, asset);
      }
    }
  }

  lemma LotRunSnoc(events: seq<Event>, m: Method, e: Event)
    ensures LotRun(events + [e], m) == LotStep(LotRun(events, m), m, e)
  {
    assert (events + [e])[..|events|] == events;
  }

  /** So do FIFO and LIFO: the lots and the disposals of an asset are those of its own events. */
  lemma {:induction false} LotsByAsset(events: seq<Event>, m: Method, asset: int)
    ensures Only(LotRun(events, m), asset) == LotRun(EventsOf(events, asset), m)
  {
    if events != [] {
      var before, e := events[..|events| - 1], events[|events| - 1];
      LotsByAsset(before, m, asset);
      StepByAsset(LotRun(before, m), m, e, asset);
      LotRunSnoc(EventsOf(before, asset), m, e);
    }
  }
}
