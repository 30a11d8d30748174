/** Exactly when the three methods of the accounting engine agree on an asset that is sold completely. */
module CostBasisAgreement {
  import opened Arithmetic
  import opened CostBasis
  import opened CostBasisTotals
  import opened Wrappers

  // ---- what the events say ----

  /** Some units with a basis are held. */
  predicate Known(events: seq<Event>, asset: int) {
    events != [] &&
    var before, e := events[..|events| - 1], events[|events| - 1];
    if e.asset != asset then Known(before, asset)
    else if Adds(e) then Known(before, asset) || (e.value.Some? && e.quantity != 0.0)
    else Known(before, asset) && Abs(e.quantity) < Held(before, asset)
  }

  /** An acquisition of nothing with a basis is followed by a disposal while units with a basis are held. */
  predicate Spreads(events: seq<Event>, asset: int) {
    events != [] &&
    var before, e := events[..|events| - 1], events[|events| - 1];
    || Spreads(before, asset)
    || (e.asset == asset && !Adds(e) && e.quantity != 0.0 && Known(before, asset) && HasWeightless(before, asset))
  }

  predicate HasWeightless(events: seq<Event>, asset: int) {
    exists i :: 0 <= i < |events| && events[i].quantity == 0.0 && Gain(events[i], asset) != 0.0
  }

  // ---- what average cost keeps of the basis of acquisitions of nothing ----

  // The fraction of the basis that a disposal leaves.
  function Left(h: Holding, quantity: real): real {
    if h.known == 0.0 then 1.0 else 1.0 - KnownPart(h, quantity) / h.known
  }

  /** What disposals have left of that basis. */
  function Loose(events: seq<Event>, asset: int): real {
    if events == [] then 0.0
    else
      var before, e := events[..|events| - 1], events[|events| - 1];
      if e.asset != asset then Loose(before, asset)
      else if Adds(e) then Loose(before, asset) + (if e.quantity == 0.0 then Gain(e, asset) else 0.0)
      else Loose(before, asset) * Left(HoldingOf(AcbRun(before), asset), Abs(e.quantity))
  }

  lemma KnownPartOf(h: Holding, quantity: real)
    requires HoldingInv(h) && 0.0 <= quantity && 0.0 < h.known
    ensures 0.0 <= KnownPart(h, quantity) <= h.known
    ensures KnownPart(h, quantity) == h.known <==> h.quantity <= quantity
    ensures KnownPart(h, quantity) == 0.0 <==> quantity == 0.0
  {
    KnownPartBounds(h, quantity);
    var ratio := h.known / h.quantity;
    assert h.quantity * ratio == h.known && 0.0 < ratio;
    if quantity < h.quantity {
      assert quantity * ratio < h.quantity * ratio;
    }
  }

  lemma Fraction(part: real, whole: real)
    requires 0.0 <= part <= whole && 0.0 < whole
    ensures 0.0 <= 1.0 - part / whole <= 1.0
    ensures 1.0 - part / whole == 1.0 <==> part == 0.0
    ensures 1.0 - part / whole == 0.0 <==> part == whole
    ensures whole * (1.0 - part / whole) == whole - part
  {
    var ratio := part / whole;
    assert ratio * whole == part;
    Quotient(part, whole, ratio);
    if part == 0.0 {
      CancelFactor(ratio, 0.0, whole);
    }
  }

  // A disposal out of a holding with a known part leaves the same fraction of that part and of the basis.
  lemma RemoveScales(h: Holding, quantity: real)
    requires HoldingInv(h) && 0.0 <= h.basis && 0.0 <= quantity && 0.0 < h.known
    ensures 0.0 <= Left(h, quantity) <= 1.0
    ensures quantity == 0.0 <==> Left(h, quantity) == 1.0
    ensures h.quantity <= quantity <==> Left(h, quantity) == 0.0
    ensures Remove(h, quantity).known == h.known * Left(h, quantity)
    ensures Remove(h, quantity).basis == h.basis * Left(h, quantity)
  {
    KnownPartOf(h, quantity);
    Fraction(KnownPart(h, quantity), h.known);
    hide KnownPart;
    var part := KnownPart(h, quantity);
    assert part * (h.basis / h.known) == h.basis * (part / h.known);
    assert h.basis * (1.0 - part / h.known) >= 0.0;
  }

  // Out of one without, no basis is consumed.
  lemma NothingKnown(h: Holding, quantity: real)
    requires HoldingInv(h) && 0.0 <= h.basis && 0.0 <= quantity && h.known == 0.0
    ensures Left(h, quantity) == 1.0
    ensures Remove(h, quantity).known == 0.0 && Remove(h, quantity).basis == h.basis
  {
    KnownPartBounds(h, quantity);
  }

  lemma KnownAfter(h: Holding, quantity: real)
    requires HoldingInv(h) && 0.0 <= h.basis && 0.0 <= quantity
    ensures Remove(h, quantity).known > 0.0 <==> h.known > 0.0 && quantity < h.quantity
  {
    hide Left, Remove;
    if h.known > 0.0 {
      RemoveScales(h, quantity);
      if Left(h, quantity) > 0.0 {
        assert h.known * Left(h, quantity) > 0.0;
      }
    } else {
      NothingKnown(h, quantity);
    }
  }

  lemma {:induction false} KnownIsPositive(events: seq<Event>, asset: int)
    requires NonNegative(events, asset)
    ensures HoldingOf(AcbRun(events), asset).known > 0.0 <==> Known(events, asset)
  {
    if events != [] {
      var before, e := events[..|events| - 1], events[|events| - 1];
      KnownIsPositive(before, asset);
      AcbInv(before, asset);
      NothingClamped(before, asset);
      hide AcbStep, Remove;
      AcbStepAt(AcbRun(before), e, asset);
      KnownAfter(HoldingOf(AcbRun(before), asset), Abs(e.quantity));
    }
  }

  lemma {:induction false} WeightlessPositive(events: seq<Event>, asset: int)
    requires NonNegative(events, asset)
    ensures Weightless(events, asset) >= 0.0
    ensures Weightless(events, asset) != 0.0 <==> HasWeightless(events, asset)
  {
    if events != [] {
      var before, e := events[..|events| - 1], events[|events| - 1];
      WeightlessPositive(before, asset);
      if HasWeightless(before, asset) {
        var i :| 0 <= i < |before| && before[i].quantity == 0.0 && Gain(before[i], asset) != 0.0;
        assert events[i] == before[i];
      }
      assert Gain(e, asset) >= 0.0;
      if HasWeightless(events, asset) {
        var i :| 0 <= i < |events| && events[i].quantity == 0.0 && Gain(events[i], asset) != 0.0;
        assert i < |before| ==> before[i] == events[i];
      }
    }
  }

  /** What is left of the basis of acquisitions of nothing is part of the basis, and all of it when no known units
      are left; nothing of it was lost exactly if none was spread. */
  predicate LooseInv(loose: real, weightless: real, known: real, basis: real, spread: bool) {
    && 0.0 <= loose <= weightless && loose <= basis
    && (known == 0.0 ==> loose == basis)
    && (loose == weightless <==> !spread)
  }

  lemma AddKeepsLoose(loose: real, weightless: real, h: Holding, spread: bool, e: Event)
    requires LooseInv(loose, weightless, h.known, h.basis, spread) && HoldingInv(h)
    requires Adds(e) && Gain(e, e.asset) >= 0.0
    ensures var more := if e.quantity == 0.0 then Gain(e, e.asset) else 0.0;
            LooseInv(loose + more, weightless + more, Add(h, e).known, Add(h, e).basis, spread)
  {
  }

  // One disposal, in numbers.
  lemma Scaling(loose: real, weightless: real, known: real, basis: real, left: real, spread: bool, spread': bool)
    requires LooseInv(loose, weightless, known, basis, spread) && 0.0 <= left <= 1.0 && 0.0 < known
    requires spread' <==> spread || (left != 1.0 && weightless != 0.0)
    ensures LooseInv(loose * left, weightless, known * left, basis * left, spread')
  {
    assert loose * (1.0 - left) >= 0.0;
    assert (basis - loose) * left >= 0.0;
    if left != 1.0 && loose != 0.0 {
      assert loose * (1.0 - left) > 0.0;
    }
    if left != 0.0 {
      assert known * left > 0.0;
    }
  }

  // A disposal of a quantity out of the holding h leaves h' and loose'.
  lemma SaleKeepsLoose(loose: real, weightless: real, h: Holding, spread: bool, quantity: real,
                       loose': real, h': Holding, spread': bool)
    requires LooseInv(loose, weightless, h.known, h.basis, spread) && HoldingInv(h) && 0.0 <= quantity
    requires loose' == loose * Left(h, quantity) && h' == Remove(h, quantity)
    requires spread' <==> spread || (quantity != 0.0 && h.known > 0.0 && weightless != 0.0)
    ensures LooseInv(loose', weightless, h'.known, h'.basis, spread')
  {
    hide Left, Remove;
    if h.known > 0.0 {
      RemoveScales(h, quantity);
      hide HoldingInv;
      Scaling(loose, weightless, h.known, h.basis, Left(h, quantity), spread, spread');
    } else {
      NothingKnown(h, quantity);
      assert loose * 1.0 == loose;
    }
  }

  lemma {:induction false} LooseFacts(events: seq<Event>, asset: int)
    requires NonNegative(events, asset)
    ensures var h := HoldingOf(AcbRun(events), asset);
            LooseInv(Loose(events, asset), Weightless(events, asset), h.known, h.basis, Spreads(events, asset))
  {
    if events != [] {
      var before, e := events[..|events| - 1], events[|events| - 1];
      LooseFacts(before, asset);
      assert Gain(e, asset) >= 0.0;
      hide LooseInv, NonNegative;
      LooseNext(before, e, asset);
      assert events == before + [e];
    }
  }

  lemma LooseSnoc(before: seq<Event>, e: Event, asset: int)
    ensures Loose(before + [e], asset)
            == if e.asset != asset then Loose(before, asset)
               else if Adds(e) then Loose(before, asset) + (if e.quantity == 0.0 then Gain(e, asset) else 0.0)
               else Loose(before, asset) * Left(HoldingOf(AcbRun(before), asset), Abs(e.quantity))
    ensures Spreads(before + [e], asset)
            <==> Spreads(before, asset)
                 || (e.asset == asset && !Adds(e) && e.quantity != 0.0 && Known(before, asset)
                     && HasWeightless(before, asset))
  {
    hide Left, AcbRun, Known, HasWeightless, Gain;
    assert (before + [e])[..|before|] == before;
  }

  lemma LooseNext(before: seq<Event>, e: Event, asset: int)
    requires NonNegative(before, asset) && Gain(e, asset) >= 0.0
    requires var h := HoldingOf(AcbRun(before), asset);
             LooseInv(Loose(before, asset), Weightless(before, asset), h.known, h.basis, Spreads(before, asset))
    ensures var h := HoldingOf(AcbRun(before + [e]), asset);
            LooseInv(Loose(before + [e], asset), Weightless(before + [e], asset), h.known, h.basis,
                     Spreads(before + [e], asset))
  {
    hide Loose, Spreads, AcbRun, AcbStep, Left, Remove, LooseInv, HoldingInv, Known, HasWeightless, Weightless,
         NonNegative, HoldingOf, Add;
    var loose, weightless, spread := Loose(before, asset), Weightless(before, asset), Spreads(before, asset);
    var h := HoldingOf(AcbRun(before), asset);
    AcbInv(before, asset);
    AcbStepAt(AcbRun(before), e, asset);
    OneMore(before, e, asset);
    LooseSnoc(before, e, asset);
    if e.asset == asset {
      if Adds(e) {
        AddKeepsLoose(loose, weightless, h, spread, e);
      } else {
        KnownIsPositive(before, asset);
        WeightlessPositive(before, asset);
        SaleKeepsLoose(loose, weightless, h, spread, Abs(e.quantity), Loose(before + [e], asset),
                       HoldingOf(AcbRun(before + [e]), asset), Spreads(before + [e], asset));
      }
    }
  }

  // ---- agreement ----

  /** Once an asset is sold completely, FIFO and LIFO have consumed all the acquired basis but that of
      acquisitions of nothing, and average cost has consumed the same exactly if it never spread any of that. */
  lemma SameBasisConsumed(events: seq<Event>, m: Method, asset: int)
    requires NonNegative(events, asset) && Held(events, asset) == 0.0
    ensures ConsumedBasis(LotRun(events, m).disposals, asset) == Acquired(events, asset) - Weightless(events, asset)
    ensures ConsumedBasis(AcbRun(events).disposals, asset) == ConsumedBasis(LotRun(events, m).disposals, asset)
            <==> !Spreads(events, asset)
  {
    AcbInv(events, asset);
    AcbConserves(events, asset);
    NothingClamped(events, asset);
    LooseFacts(events, asset);
    SameQuantityLeft(events, m, asset);
    LotsConserve(events, m, asset);
    NoUnitsNoValue(LotRun(events, m).lots, asset);
  }

  /** FIFO and LIFO agree on a completely sold asset for any events at all. */
  lemma FifoAgreesWithLifo(events: seq<Event>, asset: int)
    requires Held(events, asset) == 0.0
    ensures ConsumedBasis(LotRun(events, Fifo).disposals, asset) == ConsumedBasis(LotRun(events, Lifo).disposals, asset)
            == Acquired(events, asset) - Weightless(events, asset)
  {
    forall m: Method
      ensures ConsumedBasis(LotRun(events, m).disposals, asset) == Acquired(events, asset) - Weightless(events, asset)
    {
      SameQuantityLeft(events, m, asset);
      LotsConserve(events, m, asset);
      NoUnitsNoValue(LotRun(events, m).lots, asset);
    }
  }

  // Something for nothing, one unit bought for 1, and one unit sold.
  const WEIGHTLESS := [
    Event(1, 0, 1, Reward, 0.0, Some(5.0), None),
    Event(2, 0, 2, Acquisition, 1.0, Some(1.0), None),
    Event(3, 0, 3, Disposition, 1.0, Some(10.0), None)]

  lemma OneMore(events: seq<Event>, e: Event, asset: int)
    ensures AcbRun(events + [e]) == AcbStep(AcbRun(events), e)
    ensures Acquired(events + [e], asset) == Acquired(events, asset) + Gain(e, asset)
    ensures Weightless(events + [e], asset)
            == Weightless(events, asset) + (if e.quantity == 0.0 then Gain(e, asset) else 0.0)
    ensures Held(events + [e], asset) == After(Held(events, asset), e, asset)
  {
    assert (events + [e])[..|events|] == events;
  }

  lemma WeightlessRun(e0: Event, e1: Event, e2: Event)
    requires WEIGHTLESS == [e0, e1, e2]
    ensures AcbRun(WEIGHTLESS) == AcbStep(AcbStep(AcbStep(AcbState(map[], map[], map[], []), e0), e1), e2)
    ensures Held(WEIGHTLESS, 0) == 0.0 && Acquired(WEIGHTLESS, 0) == 6.0 && Weightless(WEIGHTLESS, 0) == 5.0
  {
    hide AcbStep;
    OneMore([], e0, 0);
    OneMore([e0], e1, 0);
    OneMore([e0, e1], e2, 0);
    assert [] + [e0] == [e0] && [e0] + [e1] == [e0, e1] && [e0, e1] + [e2] == WEIGHTLESS;
  }

  lemma SoldOut()
    ensures Remove(Holding(1.0, 1.0, 6.0), 1.0).basis == 0.0
  {
    assert KnownPart(Holding(1.0, 1.0, 6.0), 1.0) == 1.0;
  }

  lemma WeightlessHolding(e0: Event, e1: Event, e2: Event, s: AcbState)
    requires e0.asset == e1.asset == e2.asset == 0 && Adds(e0) && Adds(e1) && !Adds(e2)
    requires e0.quantity == 0.0 && Cost(e0) == Some(5.0)
    requires e1.quantity == 1.0 && Cost(e1) == Some(1.0)
    requires e2.quantity == 1.0
    requires HoldingOf(s, 0) == Holding(0.0, 0.0, 0.0)
    ensures HoldingOf(AcbStep(AcbStep(AcbStep(s, e0), e1), e2), 0).basis == 0.0
  {
    hide AcbStep, Remove, AcbDisposal, HoldingOf;
    AcbStepAt(s, e0, 0);
    AcbStepAt(AcbStep(s, e0), e1, 0);
    AcbStepAt(AcbStep(AcbStep(s, e0), e1), e2, 0);
    SoldOut();
  }

  lemma WeightlessFacts()
    ensures NonNegative(WEIGHTLESS, 0) && HoldingOf(AcbRun(WEIGHTLESS), 0).basis == 0.0
    ensures Held(WEIGHTLESS, 0) == 0.0 && Acquired(WEIGHTLESS, 0) == 6.0 && Weightless(WEIGHTLESS, 0) == 5.0
  {
    hide AcbRun, AcbStep, Held, Acquired, Weightless;
    WeightlessRun(WEIGHTLESS[0], WEIGHTLESS[1], WEIGHTLESS[2]);
    WeightlessHolding(WEIGHTLESS[0], WEIGHTLESS[1], WEIGHTLESS[2], AcbState(map[], map[], map[], []));
  }

  /** With acquisitions of nothing the methods can disagree: average cost spreads their basis, lots lose it. */
  lemma WeightlessBasisIsLost()
    ensures Held(WEIGHTLESS, 0) == 0.0 && NonNegative(WEIGHTLESS, 0)
    ensures ConsumedBasis(AcbRun(WEIGHTLESS).disposals, 0) == 6.0
    ensures ConsumedBasis(LotRun(WEIGHTLESS, Fifo).disposals, 0) == 1.0
  {
    hide *;
    WeightlessFacts();
    NothingClamped(WEIGHTLESS, 0);
    AcbConserves(WEIGHTLESS, 0);
    FifoAgreesWithLifo(WEIGHTLESS, 0);
  }

  // Everything has a price, and nothing is sold that is not there.
  predicate Sound(events: seq<Event>, asset: int) {
    forall i :: 0 <= i < |events| && events[i].asset == asset ==>
      events[i].value.Some? && (!Adds(events[i]) ==> Abs(events[i].quantity) <= Held(events[..i], asset))
  }

  // What a disposal brought in, less the fee.
  function Came(e: Event, asset: int): real {
    if e.asset != asset || !(e.kind == Disposition || e.kind == InternalOut) then 0.0
    else
      match (e.value, e.fee)
      case (None, _) => 0.0
      case (Some(value), None) => value
      case (Some(value), Some(fee)) => value - fee
  }

  function ProceedsOf(events: seq<Event>, asset: int): real {
    if events == [] then 0.0 else ProceedsOf(events[..|events| - 1], asset) + Came(events[|events| - 1], asset)
  }

  // The realised profit of the disposals that report one.
  function Realised(disposals: seq<Disposal>, asset: int): real {
    if disposals == [] then 0.0
    else
      var d := disposals[|disposals| - 1];
      Realised(disposals[..|disposals| - 1], asset) + (if d.asset == asset && d.pnl.Some? then d.pnl.value else 0.0)
  }

  lemma RealisedSnoc(disposals: seq<Disposal>, d: Disposal, asset: int)
    ensures Realised(disposals + [d], asset)
            == Realised(disposals, asset) + (if d.asset == asset && d.pnl.Some? then d.pnl.value else 0.0)
  {
    assert (disposals + [d])[..|disposals|] == disposals;
  }

  lemma SoundPrefix(events: seq<Event>, asset: int)
    requires Sound(events, asset) && events != []
    ensures Sound(events[..|events| - 1], asset)
    ensures var e := events[|events| - 1];
            e.asset == asset ==> e.value.Some?
                                 && (!Adds(e) ==> Abs(e.quantity) <= Held(events[..|events| - 1], asset))
  {
    var before := events[..|events| - 1];
    forall i | 0 <= i < |before| && before[i].asset == asset
      ensures before[i].value.Some? && (!Adds(before[i]) ==> Abs(before[i].quantity) <= Held(before[..i], asset))
    {
      assert before[i] == events[i] && before[..i] == events[..i];
    }
  }

  lemma AcbStepRealises(s: AcbState, e: Event, asset: int)
    requires var h := HoldingOf(s, asset); HoldingInv(h) && h.known == h.quantity
    requires e.asset == asset ==> e.value.Some? && (!Adds(e) ==> Abs(e.quantity) <= HoldingOf(s, asset).quantity)
    ensures var h := HoldingOf(AcbStep(s, e), asset); h.known == h.quantity
    ensures Realised(AcbStep(s, e).disposals, asset) + ConsumedBasis(AcbStep(s, e).disposals, asset)
            == Realised(s.disposals, asset) + ConsumedBasis(s.disposals, asset) + Came(e, asset)
  {
    if !Adds(e) {
      var h := HoldingOf(s, e.asset);
      var d := AcbDisposal(h, e);
      RealisedSnoc(s.disposals, d, asset);
      ConsumedSnoc(s.disposals, d, asset);
      if e.asset == asset {
        RemoveKeepsInv(h, Abs(e.quantity));
        WholeKnown(h, Abs(e.quantity));
        assert d.unknownQuantity == 0.0;
      }
    }
  }

  lemma WholeKnown(h: Holding, quantity: real)
    requires HoldingInv(h) && h.known == h.quantity && 0.0 <= quantity <= h.quantity
    ensures KnownPart(h, quantity) == quantity
  {
    if h.quantity != 0.0 {
      Scaled(quantity, h.known, h.quantity);
    }
  }

  lemma {:induction false} AcbRealises(events: seq<Event>, asset: int)
    requires Sound(events, asset)
    ensures Realised(AcbRun(events).disposals, asset) + ConsumedBasis(AcbRun(events).disposals, asset)
            == ProceedsOf(events, asset)
    ensures HoldingOf(AcbRun(events), asset).known == HoldingOf(AcbRun(events), asset).quantity
  {
    if events != [] {
      SoundPrefix(events, asset);
      var before, e := events[..|events| - 1], events[|events| - 1];
      AcbRealises(before, asset);
      AcbInv(before, asset);
      AcbStepRealises(AcbRun(before), e, asset);
    }
  }

  predicate Priced(lots: seq<Lot>, asset: int) {
    forall i :: 0 <= i < |lots| && lots[i].asset == asset ==> lots[i].basis.Some?
  }

  lemma {:induction false} TakeKnowsAll(lots: seq<Lot>, order: seq<int>, need: real, sold: int, asset: int)
    requires LotsInv(lots) && Positions(lots, order) && need >= 0.0 && OfAsset(lots, order, sold) && Priced(lots, asset)
    ensures Priced(Take(lots, order, need).lots, asset)
    ensures sold == asset ==> Take(lots, order, need).unknown == 0.0
    decreases |order|
  {
    if order != [] && need != 0.0 {
      var amount := Min(lots[order[0]].remaining, need);
      TakeKnowsAll(Reduce(lots, order[0], amount), order[1..], need - amount, sold, asset);
    }
  }

  lemma SaleRealises(s: LotState, m: Method, e: Event, asset: int)
    requires LotsInv(s.lots) && Priced(s.lots, asset) && !Adds(e)
    requires e.asset == asset ==> e.value.Some? && Abs(e.quantity) <= Total(s.lots, asset, Units)
    ensures Priced(TakeFor(s.lots, m, e).lots, asset)
    ensures var d := LotDisposal(TakeFor(s.lots, m, e), e);
            e.asset == asset ==> d.pnl == Some(Came(e, asset) - d.knownBasis)
  {
    OrderPositions(s.lots, m, e.asset, |s.lots|);
    TakeKnowsAll(s.lots, Order(s.lots, m, e.asset, |s.lots|), Abs(e.quantity), e.asset, asset);
    StepLeaves(s, m, e);
  }

  lemma LotStepRealises(s: LotState, m: Method, e: Event, asset: int)
    requires LotsInv(s.lots) && Priced(s.lots, asset)
    requires e.asset == asset ==> e.value.Some? && (!Adds(e) ==> Abs(e.quantity) <= Total(s.lots, asset, Units))
    ensures Priced(LotStep(s, m, e).lots, asset)
    ensures Realised(LotStep(s, m, e).disposals, asset) + ConsumedBasis(LotStep(s, m, e).disposals, asset)
            == Realised(s.disposals, asset) + ConsumedBasis(s.disposals, asset) + Came(e, asset)
  {
    if !Adds(e) {
      SaleRealises(s, m, e, asset);
      var d := LotDisposal(TakeFor(s.lots, m, e), e);
      RealisedSnoc(s.disposals, d, asset);
      ConsumedSnoc(s.disposals, d, asset);
    }
  }

  lemma {:induction false} LotsRealise(events: seq<Event>, m: Method, asset: int)
    requires Sound(events, asset)
    ensures Priced(LotRun(events, m).lots, asset)
    ensures Realised(LotRun(events, m).disposals, asset) + ConsumedBasis(LotRun(events, m).disposals, asset)
            == ProceedsOf(events, asset)
  {
    if events != [] {
      SoundPrefix(events, asset);
      var before, e := events[..|events| - 1], events[|events| - 1];
      LotsRealise(before, m, asset);
      SameQuantityLeft(before, m, asset);
      LotStepRealises(LotRun(before, m), m, e, asset);
    }
  }

  /** When moreover everything is valued and nothing overdrawn, the lot methods report what came in less what was
      paid for something, and average cost reports the same profit exactly if it spread nothing. */
  lemma SameProfit(events: seq<Event>, m: Method, asset: int)
    requires NonNegative(events, asset) && Held(events, asset) == 0.0 && Sound(events, asset)
    ensures Realised(LotRun(events, m).disposals, asset)
            == ProceedsOf(events, asset) - (Acquired(events, asset) - Weightless(events, asset))
    ensures Realised(AcbRun(events).disposals, asset) == Realised(LotRun(events, m).disposals, asset)
            <==> !Spreads(events, asset)
  {
    SameBasisConsumed(events, m, asset);
    AcbRealises(events, asset);
    LotsRealise(events, m, asset);
  }
}
