/** What the three methods of the accounting engine have in common: none loses basis or quantity. */
module CostBasisTotals {
  import opened Arithmetic
  import opened Wrappers
  import opened CostBasis

  // ---- what the events say, whatever the method ----

  // The basis an event brings to an asset: what was paid, and the fee on top.
  function Gain(e: Event, asset: int): real {
    if e.asset != asset || e.kind == Disposition || e.kind == InternalOut then 0.0
    else
      match (e.value, e.fee)
      case (None, _) => 0.0
      case (Some(value), None) => value
      case (Some(value), Some(fee)) => value + fee
  }

  function Acquired(events: seq<Event>, asset: int): real {
    if events == [] then 0.0 else Acquired(events[..|events| - 1], asset) + Gain(events[|events| - 1], asset)
  }

  // The basis of acquisitions of nothing, which no lot can carry.
  function Weightless(events: seq<Event>, asset: int): real {
    if events == [] then 0.0
    else
      var e := events[|events| - 1];
      Weightless(events[..|events| - 1], asset) + (if e.quantity == 0.0 then Gain(e, asset) else 0.0)
  }

  // How much is left after an event when `held` was there before.
  function After(held: real, e: Event, asset: int): real {
    if e.asset != asset then held
    else
      match e.kind
      case Disposition | InternalOut => Max(0.0, held - Abs(e.quantity))
      case Acquisition | Reward | InternalIn => held + Abs(e.quantity)
  }

  function Held(events: seq<Event>, asset: int): (held: real)
    ensures held >= 0.0
  {
    if events == [] then 0.0 else After(Held(events[..|events| - 1], asset), events[|events| - 1], asset)
  }

  function ConsumedBasis(disposals: seq<Disposal>, asset: int): real {
    if disposals == [] then 0.0
    else
      var d := disposals[|disposals| - 1];
      ConsumedBasis(disposals[..|disposals| - 1], asset) + (if d.asset == asset then d.knownBasis else 0.0)
  }

  lemma ConsumedSnoc(disposals: seq<Disposal>, d: Disposal, asset: int)
    ensures ConsumedBasis(disposals + [d], asset)
            == ConsumedBasis(disposals, asset) + (if d.asset == asset then d.knownBasis else 0.0)
  {
    assert (disposals + [d])[..|disposals|] == disposals;
  }

  // ---- average cost ----

  predicate HoldingInv(h: Holding) {
    0.0 <= h.known <= h.quantity
  }

  lemma Proportion(quantity: real, known: real, total: real)
    requires 0.0 <= known <= total && 0.0 <= quantity
    ensures total != 0.0 ==> quantity <= total ==> 0.0 <= quantity * (known / total) <= known
    ensures total != 0.0 ==> total <= quantity ==> known <= quantity * (known / total)
  {
    if total != 0.0 {
      var ratio := known / total;
      assert total * ratio == known;
      assert 0.0 <= ratio;
      if quantity <= total {
        assert quantity * ratio <= total * ratio;
      } else {
        assert total * ratio <= quantity * ratio;
      }
    }
  }

  lemma KnownPartBounds(h: Holding, quantity: real)
    requires HoldingInv(h) && 0.0 <= quantity
    ensures 0.0 <= KnownPart(h, quantity) <= h.known
    ensures h.quantity <= quantity ==> KnownPart(h, quantity) == h.known
    ensures h.quantity > 0.0 && quantity <= h.quantity ==> KnownPart(h, quantity) == quantity * (h.known / h.quantity)
  {
    Proportion(quantity, h.known, h.quantity);
  }

  lemma Quotient(known: real, total: real, ratio: real)
    requires 0.0 <= known <= total && 0.0 < total && ratio * total == known
    ensures 0.0 <= ratio <= 1.0 && (known == total ==> ratio == 1.0)
  {
    CancelFactor(0.0, ratio, total);
    CancelFactor(ratio, 1.0, total);
    if known == total {
      CancelFactor(1.0, ratio, total);
    }
  }

  lemma Scaled(left: real, known: real, total: real)
    requires 0.0 <= known <= total && 0.0 <= left && 0.0 < total
    ensures 0.0 <= left * (known / total) <= left
    ensures known == total ==> known / total == 1.0
  {
    var ratio := known / total;
    Quotient(known, total, ratio);
    assert left * (1.0 - ratio) >= 0.0;
  }

  lemma Kept(quantity: real, known: real, total: real)
    requires 0.0 <= known <= total && 0.0 <= quantity < total
    ensures 0.0 <= known - quantity * (known / total) <= total - quantity
    ensures known == total ==> known - quantity * (known / total) == total - quantity
  {
    var ratio := known / total;
    assert ratio * total == known;
    Quotient(known, total, ratio);
    assert (total - quantity) * ratio == known - quantity * ratio;
    assert (total - quantity) * (1.0 - ratio) >= 0.0;
    assert (total - quantity) * ratio >= 0.0;
  }

  // Selling keeps the proportion of what is known.
  lemma RemoveKeepsInv(h: Holding, quantity: real)
    requires HoldingInv(h) && 0.0 <= quantity
    ensures HoldingInv(Remove(h, quantity))
    ensures h.known == h.quantity ==> Remove(h, quantity).known == Remove(h, quantity).quantity
  {
    hide BasisPart;
    KnownPartBounds(h, quantity);
    if quantity < h.quantity {
      hide KnownPart;
      Kept(quantity, h.known, h.quantity);
    }
  }

  lemma {:induction false} AcbInv(events: seq<Event>, asset: int)
    ensures HoldingInv(HoldingOf(AcbRun(events), asset))
    ensures HoldingOf(AcbRun(events), asset).quantity == Held(events, asset)
  {
    hide AcbStep, KnownPart, BasisPart;
    if events != [] {
      var before, e := events[..|events| - 1], events[|events| - 1];
      AcbInv(before, asset);
      AcbStepAt(AcbRun(before), e, asset);
      RemoveKeepsInv(HoldingOf(AcbRun(before), asset), Abs(e.quantity));
    }
  }

  // The basis that average cost makes up, in one step, by not letting the basis of an asset fall below zero.
  function Clamp(h: Holding, e: Event, asset: int): (c: real)
    ensures c >= 0.0
  {
    if e.asset == asset && !Adds(e) then Max(0.0, BasisPart(h, Abs(e.quantity)) - h.basis) else 0.0
  }

  function Clamped(events: seq<Event>, asset: int): (c: real)
    ensures c >= 0.0
  {
    if events == [] then 0.0
    else
      var before, e := events[..|events| - 1], events[|events| - 1];
      Clamped(before, asset) + Clamp(HoldingOf(AcbRun(before), asset), e, asset)
  }

  lemma AcbStepConserves(s: AcbState, e: Event, asset: int)
    ensures ConsumedBasis(AcbStep(s, e).disposals, asset) + HoldingOf(AcbStep(s, e), asset).basis
            == ConsumedBasis(s.disposals, asset) + HoldingOf(s, asset).basis
               + Gain(e, asset) + Clamp(HoldingOf(s, asset), e, asset)
  {
    hide AcbStep, HoldingOf, AcbDisposal, Add, Remove, Gain, Clamp, ConsumedBasis;
    AcbStepAt(s, e, asset);
    ConsumedSnoc(s.disposals, AcbDisposal(HoldingOf(s, e.asset), e), asset);
    OneConserves(HoldingOf(s, e.asset), e, asset);
  }

  lemma OneConserves(h: Holding, e: Event, asset: int)
    ensures AcbDisposal(h, e).asset == e.asset
    ensures e.asset != asset ==> Gain(e, asset) == 0.0 && Clamp(h, e, asset) == 0.0
    ensures e.asset != asset ==> forall h' :: Clamp(h', e, asset) == 0.0
    ensures e.asset == asset && Adds(e) ==> Add(h, e).basis == h.basis + Gain(e, asset) && Clamp(h, e, asset) == 0.0
    ensures e.asset == asset && !Adds(e) ==>
              && Gain(e, asset) == 0.0
              && AcbDisposal(h, e).knownBasis + Remove(h, Abs(e.quantity)).basis == h.basis + Clamp(h, e, asset)
  {
    hide KnownPart, BasisPart;
  }

  /** Average cost keeps the books for any list of events: what disposals consumed and what is left make up
      what was acquired, and what the clamp at zero added. */
  lemma {:induction false} AcbConserves(events: seq<Event>, asset: int)
    ensures ConsumedBasis(AcbRun(events).disposals, asset) + HoldingOf(AcbRun(events), asset).basis
            == Acquired(events, asset) + Clamped(events, asset)
  {
    hide AcbStep, Gain, Clamp;
    if events != [] {
      var before, e := events[..|events| - 1], events[|events| - 1];
      AcbConserves(before, asset);
      AcbStepConserves(AcbRun(before), e, asset);
    }
  }

  // What a caller can check: no valuation with its fee is negative.
  predicate NonNegative(events: seq<Event>, asset: int) {
    forall i :: 0 <= i < |events| ==> Gain(events[i], asset) >= 0.0
  }

  lemma BasisPartBounds(h: Holding, quantity: real)
    requires HoldingInv(h) && 0.0 <= quantity && 0.0 <= h.basis
    ensures 0.0 <= BasisPart(h, quantity) <= h.basis
    ensures KnownPart(h, quantity) == h.known != 0.0 ==> BasisPart(h, quantity) == h.basis
  {
    KnownPartBounds(h, quantity);
    if h.known != 0.0 {
      var unit := h.basis / h.known;
      assert h.known * unit == h.basis && 0.0 <= unit;
      assert KnownPart(h, quantity) * unit <= h.known * unit;
    }
  }

  /** Without negative valuations nothing is clamped. */
  lemma {:induction false} NothingClamped(events: seq<Event>, asset: int)
    requires NonNegative(events, asset)
    ensures Clamped(events, asset) == 0.0
    ensures HoldingOf(AcbRun(events), asset).basis >= 0.0
  {
    if events != [] {
      var before, e := events[..|events| - 1], events[|events| - 1];
      NothingClamped(before, asset);
      AcbInv(before, asset);
      assert Gain(e, asset) >= 0.0;
      BasisPartBounds(HoldingOf(AcbRun(before), asset), Abs(e.quantity));
    }
  }

  // ---- lots ----

  /** The two things a lot carries: units, and the value they were bought for. */
  datatype Measure = Units | Value

  function Worth(lot: Lot, measure: Measure): real
    requires lot.remaining <= lot.quantity
  {
    if measure == Units then lot.remaining
    else if lot.remaining > 0.0 && lot.basis.Some? then lot.basis.value * (lot.remaining / lot.quantity)
    else 0.0
  }

  function Total(lots: seq<Lot>, asset: int, measure: Measure): real
    requires LotsInv(lots)
  {
    if lots == [] then 0.0
    else
      var lot := lots[|lots| - 1];
      Total(lots[..|lots| - 1], asset, measure) + (if lot.asset == asset then Worth(lot, measure) else 0.0)
  }

  // What a disposal takes of either.
  function Amount(t: Taken, need: real, measure: Measure): real {
    if measure == Units then need - t.left else t.knownBasis
  }

  function Share(lot: Lot, amount: real, measure: Measure): real
    requires lot.quantity != 0.0
  {
    if measure == Units then amount
    else if lot.basis.Some? then lot.basis.value * (amount / lot.quantity)
    else 0.0
  }

  lemma WorthReduced(lot: Lot, amount: real, measure: Measure)
    requires 0.0 <= amount <= lot.remaining <= lot.quantity && lot.remaining > 0.0
    ensures Worth(lot.(remaining := lot.remaining - amount), measure)
            == Worth(lot, measure) - Share(lot, amount, measure)
  {
    if lot.basis.Some? {
      var unit := lot.basis.value / lot.quantity;
      assert lot.basis.value * (amount / lot.quantity) == unit * amount;
      assert lot.basis.value * (lot.remaining / lot.quantity) == unit * lot.remaining;
      assert lot.basis.value * ((lot.remaining - amount) / lot.quantity) == unit * (lot.remaining - amount);
    }
  }

  lemma {:induction false} TotalReduced(lots: seq<Lot>, i: int, amount: real, asset: int, measure: Measure)
    requires LotsInv(lots) && 0 <= i < |lots| && 0.0 <= amount <= lots[i].remaining && lots[i].remaining > 0.0
    ensures Total(Reduce(lots, i, amount), asset, measure)
            == Total(lots, asset, measure) - (if lots[i].asset == asset then Share(lots[i], amount, measure) else 0.0)
  {
    var last := |lots| - 1;
    if i == last {
      WorthReduced(lots[i], amount, measure);
      assert Reduce(lots, i, amount)[..last] == lots[..last];
    } else {
      TotalReduced(lots[..last], i, amount, asset, measure);
      assert Reduce(lots, i, amount)[..last] == Reduce(lots[..last], i, amount);
    }
  }

  // What is consumed is exactly what leaves the lots, and only lots of this asset.
  lemma {:induction false} TakeMoves(lots: seq<Lot>, order: seq<int>, need: real, sold: int, asset: int,
                                       measure: Measure)
    requires LotsInv(lots) && Positions(lots, order) && need >= 0.0 && OfAsset(lots, order, sold)
    ensures LotsInv(Take(lots, order, need).lots)
    ensures Total(Take(lots, order, need).lots, asset, measure)
            == Total(lots, asset, measure)
               - (if sold == asset then Amount(Take(lots, order, need), need, measure) else 0.0)
    decreases |order|
  {
    if order != [] && need != 0.0 {
      var amount := Min(lots[order[0]].remaining, need);
      TotalReduced(lots, order[0], amount, asset, measure);
      TakeMoves(Reduce(lots, order[0], amount), order[1..], need - amount, sold, asset, measure);
    }
  }

  // ---- how much a disposal finds ----

  function Available(lots: seq<Lot>, order: seq<int>): real
    requires Within(order, |lots|)
  {
    if order == [] then 0.0 else lots[order[0]].remaining + Available(lots, order[1..])
  }

  lemma {:induction false} AvailableSnoc(lots: seq<Lot>, order: seq<int>, i: int)
    requires Within(order, |lots|) && 0 <= i < |lots|
    ensures Available(lots, order + [i]) == Available(lots, order) + lots[i].remaining
    decreases |order|
  {
    if order != [] {
      AvailableSnoc(lots, order[1..], i);
      assert (order + [i])[1..] == order[1..] + [i];
    }
  }

  lemma {:induction false} AvailableInsert(lots: seq<Lot>, m: Method, order: seq<int>, i: int)
    requires 0 <= i < |lots| && Within(order, i)
    ensures Available(lots, Insert(lots, m, order, i)) == Available(lots, order) + lots[i].remaining
    decreases |order|
  {
    AvailableSnoc(lots, order, i);
    if order != [] {
      var front, last := order[..|order| - 1], order[|order| - 1];
      assert order == front + [last];
      AvailableInsert(lots, m, front, i);
      AvailableSnoc(lots, Insert(lots, m, front, i), last);
      AvailableSnoc(lots, front, last);
    }
  }

  // The candidates hold everything that is left of the asset.
  lemma {:induction false} AvailableIsTotal(lots: seq<Lot>, m: Method, asset: int, n: int)
    requires LotsInv(lots) && 0 <= n <= |lots|
    ensures Available(lots, Order(lots, m, asset, n)) == Total(lots[..n], asset, Units)
  {
    hide Before, Part;
    if n > 0 {
      AvailableIsTotal(lots, m, asset, n - 1);
      OrderNext(lots, m, asset, n - 1);
      AvailableInsert(lots, m, Order(lots, m, asset, n - 1), n - 1);
      assert lots[..n][..n - 1] == lots[..n - 1];
    }
  }

  lemma {:induction false} AvailableElsewhere(lots: seq<Lot>, order: seq<int>, i: int, amount: real)
    requires LotsInv(lots) && Within(order, |lots|) && 0 <= i < |lots| && 0.0 <= amount <= lots[i].remaining
    requires i !in order
    ensures Available(Reduce(lots, i, amount), order) == Available(lots, order)
    decreases |order|
  {
    if order != [] {
      AvailableElsewhere(lots, order[1..], i, amount);
    }
  }

  lemma {:induction false} AvailableNonNegative(lots: seq<Lot>, order: seq<int>)
    requires LotsInv(lots) && Within(order, |lots|)
    ensures Available(lots, order) >= 0.0
    decreases |order|
  {
    if order != [] {
      AvailableNonNegative(lots, order[1..]);
    }
  }

  // A disposal stops only when it is served or nothing is left.
  lemma {:induction false} TakeLeaves(lots: seq<Lot>, order: seq<int>, need: real)
    requires LotsInv(lots) && Positions(lots, order) && need >= 0.0
    ensures Take(lots, order, need).left == Max(0.0, need - Available(lots, order))
    decreases |order|
  {
    AvailableNonNegative(lots, order);
    if order != [] && need != 0.0 {
      var amount := Min(lots[order[0]].remaining, need);
      AvailableElsewhere(lots, order[1..], order[0], amount);
      AvailableNonNegative(lots, order[1..]);
      TakeLeaves(Reduce(lots, order[0], amount), order[1..], need - amount);
    }
  }

  // ---- the lot methods ----

  lemma TotalSnoc(lots: seq<Lot>, lot: Lot, asset: int, measure: Measure)
    requires LotsInv(lots) && 0.0 <= lot.remaining <= lot.quantity
    ensures Total(lots + [lot], asset, measure)
            == Total(lots, asset, measure) + (if lot.asset == asset then Worth(lot, measure) else 0.0)
  {
    assert (lots + [lot])[..|lots|] == lots;
  }

  lemma StepMoves(s: LotState, m: Method, e: Event, asset: int, measure: Measure)
    requires LotsInv(s.lots) && !Adds(e)
    ensures Total(LotStep(s, m, e).lots, asset, measure)
            == Total(s.lots, asset, measure)
               - (if e.asset == asset then Amount(TakeFor(s.lots, m, e), Abs(e.quantity), measure) else 0.0)
  {
    OrderPositions(s.lots, m, e.asset, |s.lots|);
    TakeMoves(s.lots, Order(s.lots, m, e.asset, |s.lots|), Abs(e.quantity), e.asset, asset, measure);
  }

  lemma StepLeaves(s: LotState, m: Method, e: Event)
    requires LotsInv(s.lots)
    ensures TakeFor(s.lots, m, e).left == Max(0.0, Abs(e.quantity) - Total(s.lots, e.asset, Units))
  {
    OrderPositions(s.lots, m, e.asset, |s.lots|);
    TakeLeaves(s.lots, Order(s.lots, m, e.asset, |s.lots|), Abs(e.quantity));
    AvailableIsTotal(s.lots, m, e.asset, |s.lots|);
    assert s.lots[..|s.lots|] == s.lots;
  }

  // One event, in units.
  lemma StepUnits(s: LotState, m: Method, e: Event, asset: int)
    requires LotsInv(s.lots)
    ensures Total(LotStep(s, m, e).lots, asset, Units) == After(Total(s.lots, asset, Units), e, asset)
  {
    if Adds(e) {
      TotalSnoc(s.lots, NewLot(e), asset, Units);
    } else {
      StepMoves(s, m, e, asset, Units);
      StepLeaves(s, m, e);
    }
  }

  /** Whichever lots a method takes from, it leaves the same quantity, and the same as average cost. */
  lemma {:induction false} SameQuantityLeft(events: seq<Event>, m: Method, asset: int)
    ensures Total(LotRun(events, m).lots, asset, Units) == Held(events, asset)
    ensures HoldingOf(AcbRun(events), asset).quantity == Held(events, asset)
  {
    AcbInv(events, asset);
    if events != [] {
      var before, e := events[..|events| - 1], events[|events| - 1];
      SameQuantityLeft(before, m, asset);
      StepUnits(LotRun(before, m), m, e, asset);
    }
  }

  lemma NewLotWorth(e: Event, asset: int)
    requires Adds(e) && e.asset == asset
    ensures Worth(NewLot(e), Value) == Gain(e, asset) - (if e.quantity == 0.0 then Gain(e, asset) else 0.0)
  {
    if e.quantity != 0.0 {
      assert Abs(e.quantity) / Abs(e.quantity) == 1.0;
    }
  }

  // One event, in value.
  lemma StepValue(s: LotState, m: Method, e: Event, asset: int)
    requires LotsInv(s.lots)
    ensures ConsumedBasis(LotStep(s, m, e).disposals, asset) + Total(LotStep(s, m, e).lots, asset, Value)
            == ConsumedBasis(s.disposals, asset) + Total(s.lots, asset, Value)
               + Gain(e, asset) - (if e.quantity == 0.0 then Gain(e, asset) else 0.0)
  {
    if Adds(e) {
      TotalSnoc(s.lots, NewLot(e), asset, Value);
      if e.asset == asset {
        NewLotWorth(e, asset);
      }
    } else {
      StepMoves(s, m, e, asset, Value);
      ConsumedSnoc(s.disposals, LotDisposal(TakeFor(s.lots, m, e), e), asset);
    }
  }

  /** The lot methods keep the books for any list of events, except that the basis of an acquisition of
      nothing is in no open lot and can never be consumed. */
  lemma {:induction false} LotsConserve(events: seq<Event>, m: Method, asset: int)
    ensures ConsumedBasis(LotRun(events, m).disposals, asset) + Total(LotRun(events, m).lots, asset, Value)
            == Acquired(events, asset) - Weightless(events, asset)
  {
    if events != [] {
      var before, e := events[..|events| - 1], events[|events| - 1];
      LotsConserve(before, m, asset);
      StepValue(LotRun(before, m), m, e, asset);
    }
  }

  // ---- nothing left ----

  lemma {:induction false} UnitsNonNegative(lots: seq<Lot>, asset: int)
    requires LotsInv(lots)
    ensures Total(lots, asset, Units) >= 0.0
  {
    if lots != [] {
      UnitsNonNegative(lots[..|lots| - 1], asset);
    }
  }

  lemma {:induction false} NoUnitsNoValue(lots: seq<Lot>, asset: int)
    requires LotsInv(lots) && Total(lots, asset, Units) == 0.0
    ensures Total(lots, asset, Value) == 0.0
  {
    if lots != [] {
      UnitsNonNegative(lots[..|lots| - 1], asset);
      NoUnitsNoValue(lots[..|lots| - 1], asset);
    }
  }

  // ---- what a disposition reports ----

  // The units and the value of the consumed entries whose basis is known.
  function KnownUnits(consumed: seq<Consumed>): real {
    if consumed == [] then 0.0
    else (if consumed[0].basis.Some? then consumed[0].quantity else 0.0) + KnownUnits(consumed[1..])
  }

  function KnownValue(consumed: seq<Consumed>): real {
    if consumed == [] then 0.0
    else (if consumed[0].basis.Some? then consumed[0].basis.value else 0.0) + KnownValue(consumed[1..])
  }

  /** Its entries and its unknown quantity make up the quantity sold, their basis its known basis, and it reports
      a profit exactly if it has proceeds and nothing unknown. */
  predicate AddsUp(d: Disposal) {
    && KnownUnits(d.consumed) + d.unknownQuantity == d.quantity
    && KnownValue(d.consumed) == d.knownBasis
    && d.pnl == if d.proceeds.Some? && d.unknownQuantity == 0.0 then Some(d.proceeds.value - d.knownBasis) else None
  }

  predicate AllAddUp(disposals: seq<Disposal>) {
    forall i :: 0 <= i < |disposals| ==> AddsUp(disposals[i])
  }

  lemma {:induction false} TakeAddsUp(lots: seq<Lot>, order: seq<int>, need: real)
    requires LotsInv(lots) && Positions(lots, order) && need >= 0.0
    ensures var t := Take(lots, order, need);
            KnownUnits(t.consumed) + t.unknown + t.left == need && KnownValue(t.consumed) == t.knownBasis
    decreases |order|
  {
    hide Part;
    if order != [] && need != 0.0 {
      var amount := Min(lots[order[0]].remaining, need);
      var rest := Take(Reduce(lots, order[0], amount), order[1..], need - amount);
      TakeAddsUp(Reduce(lots, order[0], amount), order[1..], need - amount);
      TakeFirst(lots, order, need);
      ServedAddsUp(lots[order[0]], amount, rest);
    }
  }

  lemma ServedAddsUp(lot: Lot, amount: real, rest: Taken)
    requires lot.quantity != 0.0
    ensures var t := Served(lot, amount, rest);
            && KnownUnits(t.consumed) + t.unknown == KnownUnits(rest.consumed) + rest.unknown + amount
            && KnownValue(t.consumed) - t.knownBasis == KnownValue(rest.consumed) - rest.knownBasis
  {
    hide Part;
    assert Served(lot, amount, rest).consumed[1..] == rest.consumed;
  }

  /** Every disposition of every method adds up. */
  lemma {:induction false} DispositionsAddUp(events: seq<Event>, m: Method)
    ensures AllAddUp(AcbRun(events).disposals) && AllAddUp(LotRun(events, m).disposals)
  {
    hide AddsUp, Take, KnownPart, BasisPart;
    if events != [] {
      var before, e := events[..|events| - 1], events[|events| - 1];
      DispositionsAddUp(before, m);
      AcbAddsUp(HoldingOf(AcbRun(before), e.asset), e);
      SaleAddsUp(LotRun(before, m).lots, m, e);
    }
  }

  lemma AcbAddsUp(h: Holding, e: Event)
    ensures AddsUp(AcbDisposal(h, e))
  {
    hide KnownPart, BasisPart;
    var d := AcbDisposal(h, e);
    OneEntry(d.consumed[0]);
    assert d.consumed == [d.consumed[0]];
  }

  lemma OneEntry(c: Consumed)
    requires c.basis.Some?
    ensures KnownUnits([c]) == c.quantity && KnownValue([c]) == c.basis.value
  {
    assert [c][1..] == [];
  }

  lemma SaleAddsUp(lots: seq<Lot>, m: Method, e: Event)
    requires LotsInv(lots)
    ensures AddsUp(LotDisposal(TakeFor(lots, m, e), e))
  {
    hide Take, Order;
    OrderPositions(lots, m, e.asset, |lots|);
    TakeAddsUp(lots, Order(lots, m, e.asset, |lots|), Abs(e.quantity));
  }
}
