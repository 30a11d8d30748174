/** What a report says row by row: every sale is reported once and in order, every acquisition opens a lot, and
    what a sale consumes are shares of lots of its asset. */
module CostBasisRecords {
  import opened Wrappers
  import opened CostBasis

  predicate Sells(e: Event) {
    e.kind == Disposition || e.kind == InternalOut
  }

  function Sales(events: seq<Event>): seq<Event> {
    if events == [] then []
    else
      var rest, e := Sales(events[..|events| - 1]), events[|events| - 1];
      if Sells(e) then rest + [e] else rest
  }

  function Purchases(events: seq<Event>): seq<Event> {
    if events == [] then []
    else
      var rest, e := Purchases(events[..|events| - 1]), events[|events| - 1];
      if Sells(e) then rest else rest + [e]
  }

  // The size of an event, whatever its sign.
  predicate IsSize(size: real, e: Event) {
    size >= 0.0 && (size == e.quantity || size == -e.quantity)
  }

  // The value of an event with the fee added, or taken off; unknown without a value.
  predicate IsPaid(paid: Option<real>, e: Event) {
    match (e.value, e.fee)
    case (None, _) => paid == None
    case (Some(value), None) => paid == Some(value)
    case (Some(value), Some(fee)) => paid == Some(value + fee)
  }

  predicate IsReceived(received: Option<real>, e: Event) {
    match (e.value, e.fee)
    case (None, _) => received == None
    case (Some(value), None) => received == Some(value)
    case (Some(value), Some(fee)) => received == Some(value - fee)
  }

  predicate Reports(d: Disposal, e: Event) {
    d.event == e.id && d.asset == e.asset && IsSize(d.quantity, e) && IsReceived(d.proceeds, e)
  }

  /** Average cost consumes one entry, the pool of the asset. */
  predicate FromPool(d: Disposal) {
    |d.consumed| == 1 && d.consumed[0].lot == d.asset && d.consumed[0].basis == Some(d.knownBasis)
    && d.consumed[0].quantity + d.unknownQuantity == d.quantity
  }

  predicate AllReport(disposals: seq<Disposal>, sales: seq<Event>) {
    |disposals| == |sales| && forall i :: 0 <= i < |sales| ==> Reports(disposals[i], sales[i])
  }

  /** Under every method the dispositions are the sales, one for one and in their order; under average cost each
      consumes out of one pool. */
  lemma {:induction false} EverySaleIsReported(events: seq<Event>, m: Method)
    ensures AllReport(AcbRun(events).disposals, Sales(events)) && AllReport(LotRun(events, m).disposals, Sales(events))
    ensures forall i :: 0 <= i < |AcbRun(events).disposals| ==> FromPool(AcbRun(events).disposals[i])
  {
    hide KnownPart, BasisPart, Take, Order, Pnl, Reports, FromPool;
    if events != [] {
      var before, e := events[..|events| - 1], events[|events| - 1];
      EverySaleIsReported(before, m);
      OneReport(HoldingOf(AcbRun(before), e.asset), LotRun(before, m).lots, m, e);
    }
  }

  lemma OneReport(h: Holding, lots: seq<Lot>, m: Method, e: Event)
    requires LotsInv(lots)
    ensures FromPool(AcbDisposal(h, e)) && Reports(AcbDisposal(h, e), e)
    ensures Reports(LotDisposal(TakeFor(lots, m, e), e), e)
  {
    hide KnownPart, BasisPart, TakeFor, Pnl;
  }

  predicate Opens(lot: Lot, e: Event) {
    lot.id == e.id && lot.asset == e.asset && lot.acquiredAt == e.at && IsSize(lot.quantity, e) && IsPaid(lot.basis, e)
  }

  predicate AllOpen(lots: seq<Lot>, purchases: seq<Event>) {
    |lots| == |purchases| && forall i :: 0 <= i < |purchases| ==> Opens(lots[i], purchases[i])
  }

  // Lots that differ in what remains.
  predicate SameLots(lots: seq<Lot>, lots': seq<Lot>) {
    |lots'| == |lots| && forall i :: 0 <= i < |lots| ==> lots'[i] == lots[i].(remaining := lots'[i].remaining)
  }

  // ---- what a sale consumes ----

  /** A share of a lot of the asset: no more than the lot, for the same share of its basis. */
  predicate ShareOf(c: Consumed, lot: Lot, asset: int) {
    && c.lot == lot.id && lot.asset == asset && 0.0 < c.quantity <= lot.quantity
    && (c.basis.None? <==> lot.basis.None?)
    && (c.basis.Some? && lot.basis.Some? ==> c.basis.value * lot.quantity == lot.basis.value * c.quantity)
  }

  ghost predicate Share(c: Consumed, lots: seq<Lot>, asset: int) {
    exists i :: 0 <= i < |lots| && ShareOf(c, lots[i], asset)
  }

  ghost predicate Shares(consumed: seq<Consumed>, lots: seq<Lot>, asset: int) {
    forall k :: 0 <= k < |consumed| ==> Share(consumed[k], lots, asset)
  }

  lemma ShareStays(c: Consumed, lots: seq<Lot>, lots': seq<Lot>, asset: int)
    requires Share(c, lots, asset) && |lots| <= |lots'| && SameLots(lots, lots'[..|lots|])
    ensures Share(c, lots', asset)
  {
    var i :| 0 <= i < |lots| && ShareOf(c, lots[i], asset);
    assert lots'[..|lots|][i] == lots'[i];
    assert ShareOf(c, lots'[i], asset);
  }

  lemma SharesStay(consumed: seq<Consumed>, lots: seq<Lot>, lots': seq<Lot>, asset: int)
    requires Shares(consumed, lots, asset) && |lots| <= |lots'| && SameLots(lots, lots'[..|lots|])
    ensures Shares(consumed, lots', asset)
  {
    hide Share, SameLots;
    forall k | 0 <= k < |consumed| {
      ShareStays(consumed[k], lots, lots', asset);
    }
  }

  lemma PartIsShare(lot: Lot, amount: real)
    requires lot.quantity > 0.0
    ensures Part(lot, amount).None? <==> lot.basis.None?
    ensures Part(lot, amount).Some? ==> Part(lot, amount).value * lot.quantity == lot.basis.value * amount
  {
    var ratio := amount / lot.quantity;
    assert ratio * lot.quantity == amount;
    if lot.basis.Some? {
      assert lot.basis.value * ratio * lot.quantity == lot.basis.value * (ratio * lot.quantity);
    }
  }

  lemma SameItself(lots: seq<Lot>)
    ensures SameLots(lots, lots)
  {
  }

  // One more entry in front of those of the rest.
  lemma FirstShare(lots: seq<Lot>, i: int, amount: real, rest: Taken, asset: int)
    requires LotsInv(lots) && 0 <= i < |lots| && lots[i].asset == asset && 0.0 < amount <= lots[i].remaining
    requires SameLots(Reduce(lots, i, amount), rest.lots) && Shares(rest.consumed, Reduce(lots, i, amount), asset)
    ensures SameLots(lots, rest.lots) && Served(lots[i], amount, rest).lots == rest.lots
    ensures Shares(Served(lots[i], amount, rest).consumed, lots, asset)
  {
    var lot, lots' := lots[i], Reduce(lots, i, amount);
    PartIsShare(lot, amount);
    assert lots[..|lots'|] == lots && SameLots(lots', lots);
    var c := Consumed(lot.id, amount, Part(lot, amount));
    assert ShareOf(c, lot, asset);
    assert Share(c, lots, asset);
    hide Part, Share, SameLots;
    SharesStay(rest.consumed, lots', lots, asset);
    assert Served(lot, amount, rest).consumed == [c] + rest.consumed;
  }

  lemma {:induction false} TakesShares(lots: seq<Lot>, order: seq<int>, need: real, asset: int)
    requires LotsInv(lots) && Positions(lots, order) && OfAsset(lots, order, asset) && need >= 0.0
    ensures SameLots(lots, Take(lots, order, need).lots)
    ensures Shares(Take(lots, order, need).consumed, lots, asset)
    decreases |order|
  {
    hide Part, Distinct, Share, Served, SameLots;
    SameItself(lots);
    if order != [] && need != 0.0 {
      var lot := lots[order[0]];
      var amount := Min(lot.remaining, need);
      var lots' := Reduce(lots, order[0], amount);
      TakeFirst(lots, order, need);
      TakesShares(lots', order[1..], need - amount, asset);
      var rest := Take(lots', order[1..], need - amount);
      FirstShare(lots, order[0], amount, rest, asset);
    }
  }

  ghost predicate AllShares(disposals: seq<Disposal>, lots: seq<Lot>) {
    forall i :: 0 <= i < |disposals| ==> Shares(disposals[i].consumed, lots, disposals[i].asset)
  }

  /** Under FIFO and LIFO the lots are the acquisitions, one for one and in their order; and each entry that a sale
      consumed is a share of one of the lots of its asset. */
  lemma {:induction false} EveryPurchaseOpensALot(events: seq<Event>, m: Method)
    ensures AllOpen(LotRun(events, m).lots, Purchases(events))
    ensures AllShares(LotRun(events, m).disposals, LotRun(events, m).lots)
  {
    hide Take, Order, Pnl, Opens, Shares, SameLots, Proceeds;
    if events != [] {
      var before, e := events[..|events| - 1], events[|events| - 1];
      EveryPurchaseOpensALot(before, m);
      var s, s' := LotRun(before, m), LotRun(events, m);
      if Sells(e) {
        OrderPositions(s.lots, m, e.asset, |s.lots|);
        TakesShares(s.lots, Order(s.lots, m, e.asset, |s.lots|), Abs(e.quantity), e.asset);
        SharesAfterSale(s, s', e);
        OpensStay(s.lots, s'.lots, Purchases(before));
      } else {
        OneLot(e);
        NothingTaken(s.lots, NewLot(e));
        AllSharesStay(s.disposals, s.lots, s'.lots);
      }
    }
  }

  lemma OneLot(e: Event)
    ensures Opens(NewLot(e), e)
  {
  }

  lemma NothingTaken(lots: seq<Lot>, lot: Lot)
    ensures SameLots(lots, (lots + [lot])[..|lots|])
  {
    assert (lots + [lot])[..|lots|] == lots;
  }

  lemma OpensStay(lots: seq<Lot>, lots': seq<Lot>, purchases: seq<Event>)
    requires AllOpen(lots, purchases) && SameLots(lots, lots')
    ensures AllOpen(lots', purchases)
  {
    forall i | 0 <= i < |purchases|
      ensures Opens(lots'[i], purchases[i])
    {
      assert Opens(lots[i], purchases[i]);
    }
  }

  lemma AllSharesStay(disposals: seq<Disposal>, lots: seq<Lot>, lots': seq<Lot>)
    requires AllShares(disposals, lots) && |lots| <= |lots'| && SameLots(lots, lots'[..|lots|])
    ensures AllShares(disposals, lots')
  {
    hide Shares, SameLots;
    forall i | 0 <= i < |disposals| {
      SharesStay(disposals[i].consumed, lots, lots', disposals[i].asset);
    }
  }

  lemma SharesAfterSale(s: LotState, s': LotState, e: Event)
    requires AllShares(s.disposals, s.lots) && SameLots(s.lots, s'.lots) && |s'.disposals| == |s.disposals| + 1
    requires s'.disposals[..|s.disposals|] == s.disposals
    requires Shares(s'.disposals[|s.disposals|].consumed, s.lots, s'.disposals[|s.disposals|].asset)
    ensures AllShares(s'.disposals, s'.lots)
  {
    hide Shares;
    assert |s'.lots| == |s.lots| && s'.lots[..|s.lots|] == s'.lots;
    hide SameLots;
    AllSharesStay(s'.disposals, s.lots, s'.lots);
  }
}
