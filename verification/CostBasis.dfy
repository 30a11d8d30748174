/** The accounting engine (api/src/domain/cost-basis.ts): average cost (ACB), FIFO and LIFO over
    arbitrary lists of events. Decimals are reals. */
module CostBasis {
  import opened Wrappers

  datatype Method = Acb | Fifo | Lifo

  datatype Kind = Acquisition | Disposition | Reward | InternalIn | InternalOut

  datatype Event = Event(
    id: int, asset: int, at: int, kind: Kind, quantity: real, value: Option<real>, fee: Option<real>)

  datatype Lot = Lot(id: int, asset: int, acquiredAt: int, quantity: real, remaining: real, basis: Option<real>)

  /** One entry of consumedLots; the lot of an ACB disposal is the pool of its asset. */
  datatype Consumed = Consumed(lot: int, quantity: real, basis: Option<real>)

  /** A disposition; its asset is the one of its event. */
  datatype Disposal = Disposal(
    event: int, asset: int, quantity: real, proceeds: Option<real>, knownBasis: real, unknownQuantity: real,
    pnl: Option<real>, consumed: seq<Consumed>)

  function Abs(x: real): real {
    if x < 0.0 then -x else x
  }

  function Min(a: real, b: real): real {
    if a < b then a else b
  }

  function Max(a: real, b: real): real {
    if a < b then b else a
  }

  predicate Adds(e: Event) {
    e.kind == Acquisition || e.kind == Reward || e.kind == InternalIn
  }

  function Fee(e: Event): real {
    if e.fee.Some? then e.fee.value else 0.0
  }

  // What an adding event adds to the basis, and what a disposal brings in.
  function Cost(e: Event): Option<real> {
    if e.value.None? then None else Some(e.value.value + Fee(e))
  }

  function Proceeds(e: Event): Option<real> {
    if e.value.None? then None else Some(e.value.value - Fee(e))
  }

  function Pnl(proceeds: Option<real>, knownBasis: real, unknownQuantity: real): Option<real> {
    if proceeds.Some? && unknownQuantity == 0.0 then Some(proceeds.value - knownBasis) else None
  }

  // ---- average cost ----

  /** What the three maps of calculateAcb say of one asset. */
  datatype Holding = Holding(quantity: real, known: real, basis: real)

  datatype AcbState = AcbState(
    quantities: map<int, real>, knowns: map<int, real>, bases: map<int, real>, disposals: seq<Disposal>)

  function Get(amounts: map<int, real>, asset: int): real {
    if asset in amounts then amounts[asset] else 0.0
  }

  function HoldingOf(s: AcbState, asset: int): Holding {
    Holding(Get(s.quantities, asset), Get(s.knowns, asset), Get(s.bases, asset))
  }

  function Put(s: AcbState, asset: int, h: Holding, disposals: seq<Disposal>): AcbState {
    AcbState(s.quantities[asset := h.quantity], s.knowns[asset := h.known], s.bases[asset := h.basis], disposals)
  }

  function Add(h: Holding, e: Event): Holding {
    match Cost(e)
    case None => h.(quantity := h.quantity + Abs(e.quantity))
    case Some(cost) =>
      Holding(h.quantity + Abs(e.quantity), h.known + Abs(e.quantity), h.basis + cost)
  }

  // How much of a disposal comes out of the part of the holding whose basis is known.
  function KnownPart(h: Holding, quantity: real): real {
    Min(quantity * (if h.quantity == 0.0 then 0.0 else h.known / h.quantity), h.known)
  }

  function BasisPart(h: Holding, quantity: real): real {
    KnownPart(h, quantity) * (if h.known == 0.0 then 0.0 else h.basis / h.known)
  }

  function Remove(h: Holding, quantity: real): Holding {
    Holding(Max(0.0, h.quantity - quantity),
            Max(0.0, h.known - KnownPart(h, quantity)),
            Max(0.0, h.basis - BasisPart(h, quantity)))
  }

  function AcbDisposal(h: Holding, e: Event): Disposal {
    var quantity := Abs(e.quantity);
    var known, basis := KnownPart(h, quantity), BasisPart(h, quantity);
    Disposal(e.id, e.asset, quantity, Proceeds(e), basis, quantity - known,
             Pnl(Proceeds(e), basis, quantity - known), [Consumed(e.asset, known, Some(basis))])
  }

  function AcbStep(s: AcbState, e: Event): AcbState {
    var h := HoldingOf(s, e.asset);
    if Adds(e) then Put(s, e.asset, Add(h, e), s.disposals)
    else Put(s, e.asset, Remove(h, Abs(e.quantity)), s.disposals + [AcbDisposal(h, e)])
  }

  function AcbRun(events: seq<Event>): AcbState {
    if events == [] then AcbState(map[], map[], map[], [])
    else AcbStep(AcbRun(events[..|events| - 1]), events[|events| - 1])
  }

  /** The body of calculateAcb's loop for a disposal, on the values it read from the maps. */
  method DisposeAcb(e: Event, currentQuantity: real, currentKnown: real, currentBasis: real)
    returns (h: Holding, d: Disposal)
    ensures h == Remove(Holding(currentQuantity, currentKnown, currentBasis), Abs(e.quantity))
    ensures d == AcbDisposal(Holding(currentQuantity, currentKnown, currentBasis), e)
    ensures e.value.None? ==> d.proceeds.None?
    ensures e.value.Some? ==> d.proceeds == Some(e.value.value - if e.fee.None? then 0.0 else e.fee.value)
  {
    var quantity := Abs(e.quantity);
    var knownRatio := if currentQuantity == 0.0 then 0.0 else currentKnown / currentQuantity;
    var consumedKnown := Min(quantity * knownRatio, currentKnown);
    var unknownQuantity := quantity - consumedKnown;
    var unitBasis := if currentKnown == 0.0 then 0.0 else currentBasis / currentKnown;
    var consumedBasis := consumedKnown * unitBasis;
    var proceeds := if e.value.None? then None else Some(e.value.value - Fee(e));
    d := Disposal(e.id, e.asset, quantity, proceeds, consumedBasis, unknownQuantity,
                  if proceeds.Some? && unknownQuantity == 0.0 then Some(proceeds.value - consumedBasis) else None,
                  [Consumed(e.asset, consumedKnown, Some(consumedBasis))]);
    h := Holding(Max(0.0, currentQuantity - quantity),
                 Max(0.0, currentKnown - consumedKnown),
                 Max(0.0, currentBasis - consumedBasis));
  }

  /** The loop of calculateAcb, over its three maps. */
  method CalculateAcb(events: seq<Event>) returns (s: AcbState)
    ensures s == AcbRun(events)
  {
    var quantities: map<int, real> := map[];
    var knowns: map<int, real> := map[];
    var bases: map<int, real> := map[];
    var disposals: seq<Disposal> := [];
    for i := 0 to |events|
      invariant AcbState(quantities, knowns, bases, disposals) == AcbRun(events[..i])
    {
      assert events[..i + 1][..i] == events[..i];
      var e := events[i];
      var currentQuantity, currentKnown, currentBasis :=
        Get(quantities, e.asset), Get(knowns, e.asset), Get(bases, e.asset);
      if Adds(e) {
        quantities := quantities[e.asset := currentQuantity + Abs(e.quantity)];
        if e.value.None? {
          knowns := knowns[e.asset := currentKnown];
          bases := bases[e.asset := currentBasis];
        } else {
          knowns := knowns[e.asset := currentKnown + Abs(e.quantity)];
          bases := bases[e.asset := currentBasis + (e.value.value + Fee(e))];
        }
        continue;
      }
      var h, d := DisposeAcb(e, currentQuantity, currentKnown, currentBasis);
      disposals := disposals + [d];
      quantities := quantities[e.asset := h.quantity];
      knowns := knowns[e.asset := h.known];
      bases := bases[e.asset := h.basis];
    }
    assert events[..|events|] == events;
    s := AcbState(quantities, knowns, bases, disposals);
  }

  // What one event does to one asset.
  lemma AcbStepAt(s: AcbState, e: Event, asset: int)
    ensures HoldingOf(AcbStep(s, e), asset)
            == if e.asset != asset then HoldingOf(s, asset)
               else if Adds(e) then Add(HoldingOf(s, asset), e)
               else Remove(HoldingOf(s, asset), Abs(e.quantity))
    ensures AcbStep(s, e).disposals
            == if Adds(e) then s.disposals else s.disposals + [AcbDisposal(HoldingOf(s, e.asset), e)]
  {
    hide KnownPart, BasisPart, Pnl, Proceeds;
  }

  // ---- lots ----

  datatype LotState = LotState(lots: seq<Lot>, disposals: seq<Disposal>)

  function NewLot(e: Event): Lot {
    Lot(e.id, e.asset, e.at, Abs(e.quantity), Abs(e.quantity), Cost(e))
  }

  // The comparison that sorts the candidates: a comes strictly before b.
  predicate Before(m: Method, a: Lot, b: Lot) {
    if m == Fifo then a.acquiredAt < b.acquiredAt else b.acquiredAt < a.acquiredAt
  }

  predicate IsCandidate(lot: Lot, asset: int) {
    lot.asset == asset && lot.remaining > 0.0
  }

  predicate Within(order: seq<int>, n: int) {
    forall k :: 0 <= k < |order| ==> 0 <= order[k] < n
  }

  predicate Distinct(order: seq<int>) {
    forall k, l :: 0 <= k < l < |order| ==> order[k] != order[l]
  }

  // Insert the position i into a sorted list of earlier positions, after its equals.
  function Insert(lots: seq<Lot>, m: Method, order: seq<int>, i: int): (order': seq<int>)
    requires 0 <= i < |lots| && Within(order, i)
    ensures Within(order', i + 1) && |order'| == |order| + 1
    ensures forall k :: 0 <= k < |order'| ==> order'[k] == i || order'[k] in order
  {
    if order == [] || !Before(m, lots[i], lots[order[|order| - 1]]) then order + [i]
    else Insert(lots, m, order[..|order| - 1], i) + [order[|order| - 1]]
  }

  // The stably sorted positions of the candidates among the first n lots.
  function Order(lots: seq<Lot>, m: Method, asset: int, n: int): (order: seq<int>)
    requires 0 <= n <= |lots|
    ensures Within(order, n)
  {
    if n == 0 then []
    else
      var order := Order(lots, m, asset, n - 1);
      if IsCandidate(lots[n - 1], asset) then Insert(lots, m, order, n - 1) else order
  }

  lemma OrderNext(lots: seq<Lot>, m: Method, asset: int, n: int)
    requires 0 <= n < |lots|
    ensures var order := Order(lots, m, asset, n);
            Order(lots, m, asset, n + 1) == if IsCandidate(lots[n], asset) then Insert(lots, m, order, n) else order
  {
  }

  lemma TakeFirst(lots: seq<Lot>, order: seq<int>, need: real)
    requires LotsInv(lots) && Positions(lots, order) && need > 0.0 && order != []
    ensures var amount := Min(lots[order[0]].remaining, need);
            var lots' := Reduce(lots, order[0], amount);
            && Positions(lots', order[1..]) && need - amount >= 0.0
            && Take(lots, order, need) == Served(lots[order[0]], amount, Take(lots', order[1..], need - amount))
  {
    hide Part;
  }

  lemma {:induction false} InsertDistinct(lots: seq<Lot>, m: Method, order: seq<int>, i: int)
    requires 0 <= i < |lots| && Within(order, i) && Distinct(order)
    ensures Distinct(Insert(lots, m, order, i))
    decreases |order|
  {
    if order != [] {
      var last := |order| - 1;
      InsertDistinct(lots, m, order[..last], i);
      var order' := Insert(lots, m, order[..last], i);
      forall k | 0 <= k < |order'|
        ensures order'[k] != order[last]
      {
        assert order'[k] == i || order'[k] in order[..last];
      }
    }
  }

  predicate LotsInv(lots: seq<Lot>) {
    forall i :: 0 <= i < |lots| ==> 0.0 <= lots[i].remaining <= lots[i].quantity
  }

  // Distinct positions of lots that are not used up.
  predicate Positions(lots: seq<Lot>, order: seq<int>) {
    Within(order, |lots|) && Distinct(order) && forall k :: 0 <= k < |order| ==> lots[order[k]].remaining > 0.0
  }

  predicate OfAsset(lots: seq<Lot>, order: seq<int>, asset: int) {
    forall k :: 0 <= k < |order| ==> 0 <= order[k] < |lots| && lots[order[k]].asset == asset
  }

  lemma {:induction false} OrderPositions(lots: seq<Lot>, m: Method, asset: int, n: int)
    requires 0 <= n <= |lots|
    ensures Positions(lots, Order(lots, m, asset, n))
    ensures OfAsset(lots, Order(lots, m, asset, n), asset)
  {
    hide Before, Insert;
    if n > 0 {
      OrderPositions(lots, m, asset, n - 1);
      var order := Order(lots, m, asset, n - 1);
      InsertDistinct(lots, m, order, n - 1);
      if IsCandidate(lots[n - 1], asset) {
        var order' := Insert(lots, m, order, n - 1);
        forall k | 0 <= k < |order'|
          ensures IsCandidate(lots[order'[k]], asset)
        {
          if order'[k] != n - 1 {
            var l :| 0 <= l < |order| && order[l] == order'[k];
          }
        }
      }
    }
  }

  /** What a disposal takes out of the lots: `left` could not be taken from any. */
  datatype Taken = Taken(lots: seq<Lot>, consumed: seq<Consumed>, knownBasis: real, unknown: real, left: real)

  function Part(lot: Lot, quantity: real): Option<real>
    requires lot.quantity != 0.0
  {
    if lot.basis.None? then None else Some(lot.basis.value * (quantity / lot.quantity))
  }

  function Reduce(lots: seq<Lot>, i: int, amount: real): (lots': seq<Lot>)
    requires LotsInv(lots) && 0 <= i < |lots| && 0.0 <= amount <= lots[i].remaining
    ensures LotsInv(lots')
  {
    lots[i := lots[i].(remaining := lots[i].remaining - amount)]
  }

  // One more candidate in front of what was taken from the rest.
  function Served(lot: Lot, amount: real, rest: Taken): Taken
    requires lot.quantity != 0.0
  {
    var basis := Part(lot, amount);
    Taken(rest.lots, [Consumed(lot.id, amount, basis)] + rest.consumed,
          (if basis.Some? then basis.value else 0.0) + rest.knownBasis,
          (if basis.Some? then 0.0 else amount) + rest.unknown,
          rest.left)
  }

  function Take(lots: seq<Lot>, order: seq<int>, need: real): Taken
    requires LotsInv(lots) && Positions(lots, order) && need >= 0.0
    decreases |order|
  {
    if order == [] || need == 0.0 then Taken(lots, [], 0.0, 0.0, need)
    else
      var amount := Min(lots[order[0]].remaining, need);
      Served(lots[order[0]], amount, Take(Reduce(lots, order[0], amount), order[1..], need - amount))
  }

  function TakeFor(lots: seq<Lot>, m: Method, e: Event): Taken
    requires LotsInv(lots)
  {
    OrderPositions(lots, m, e.asset, |lots|);
    Take(lots, Order(lots, m, e.asset, |lots|), Abs(e.quantity))
  }

  function LotDisposal(t: Taken, e: Event): Disposal {
    Disposal(e.id, e.asset, Abs(e.quantity), Proceeds(e), t.knownBasis, t.unknown + t.left,
             Pnl(Proceeds(e), t.knownBasis, t.unknown + t.left), t.consumed)
  }

  lemma {:induction false} TakeKeepsLots(lots: seq<Lot>, order: seq<int>, need: real)
    requires LotsInv(lots) && Positions(lots, order) && need >= 0.0
    ensures LotsInv(Take(lots, order, need).lots)
    ensures |Take(lots, order, need).lots| == |lots|
    decreases |order|
  {
    if order != [] && need != 0.0 {
      var amount := Min(lots[order[0]].remaining, need);
      TakeKeepsLots(Reduce(lots, order[0], amount), order[1..], need - amount);
    }
  }

  function LotStep(s: LotState, m: Method, e: Event): (s': LotState)
    requires LotsInv(s.lots)
    ensures LotsInv(s'.lots)
  {
    if Adds(e) then LotState(s.lots + [NewLot(e)], s.disposals)
    else
      OrderPositions(s.lots, m, e.asset, |s.lots|);
      TakeKeepsLots(s.lots, Order(s.lots, m, e.asset, |s.lots|), Abs(e.quantity));
      var t := TakeFor(s.lots, m, e);
      LotState(t.lots, s.disposals + [LotDisposal(t, e)])
  }

  function LotRun(events: seq<Event>, m: Method): (s: LotState)
    ensures LotsInv(s.lots)
  {
    if events == [] then LotState([], [])
    else LotStep(LotRun(events[..|events| - 1], m), m, events[|events| - 1])
  }

  // What a loop has gathered, in front of what is still to be taken.
  function Gathered(consumed: seq<Consumed>, knownBasis: real, unknown: real, rest: Taken): Taken {
    Taken(rest.lots, consumed + rest.consumed, knownBasis + rest.knownBasis, unknown + rest.unknown, rest.left)
  }

  lemma GatherOne(consumed: seq<Consumed>, knownBasis: real, unknown: real, lot: Lot, amount: real, rest: Taken)
    requires lot.quantity != 0.0
    ensures var basis := Part(lot, amount);
            Gathered(consumed, knownBasis, unknown, Served(lot, amount, rest))
            == Gathered(consumed + [Consumed(lot.id, amount, basis)],
                        knownBasis + (if basis.Some? then basis.value else 0.0),
                        unknown + (if basis.Some? then 0.0 else amount), rest)
  {
    hide Part;
    assert consumed + ([Consumed(lot.id, amount, Part(lot, amount))] + rest.consumed)
           == consumed + [Consumed(lot.id, amount, Part(lot, amount))] + rest.consumed;
  }

  /** The inner loop of calculateLotMethod: consume the candidates in order. */
  method TakeLots(lots: seq<Lot>, order: seq<int>, need: real) returns (t: Taken)
    requires LotsInv(lots) && Positions(lots, order) && need >= 0.0
    ensures t == Take(lots, order, need)
  {
    hide Part, Served;
    var working, remaining := lots, need;
    var knownBasis, unknown := 0.0, 0.0;
    var consumed: seq<Consumed> := [];
    var k := 0;
    while k < |order| && remaining != 0.0
      invariant 0 <= k <= |order| && remaining >= 0.0
      invariant LotsInv(working) && Positions(working, order[k..])
      invariant Take(lots, order, need) == Gathered(consumed, knownBasis, unknown, Take(working, order[k..], remaining))
    {
      var lot := working[order[k]];
      var amount := Min(lot.remaining, remaining);
      var basis := Part(lot, amount);
      TakeFirst(working, order[k..], remaining);
      assert order[k..][1..] == order[k + 1..];
      working := Reduce(working, order[k], amount);
      remaining := remaining - amount;
      GatherOne(consumed, knownBasis, unknown, lot, amount, Take(working, order[k + 1..], remaining));
      if basis.None? {
        unknown := unknown + amount;
      } else {
        knownBasis := knownBasis + basis.value;
      }
      consumed := consumed + [Consumed(lot.id, amount, basis)];
      k := k + 1;
    }
    t := Taken(working, consumed, knownBasis, unknown, remaining);
    assert consumed + [] == consumed;
  }

  /** The loop of calculateLotMethod. */
  method CalculateLotMethod(events: seq<Event>, m: Method) returns (s: LotState)
    ensures s == LotRun(events, m)
  {
    var lots: seq<Lot> := [];
    var disposals: seq<Disposal> := [];
    for i := 0 to |events|
      invariant LotState(lots, disposals) == LotRun(events[..i], m)
    {
      assert events[..i + 1][..i] == events[..i];
      var e := events[i];
      if Adds(e) {
        lots := lots + [NewLot(e)];
        continue;
      }
      OrderPositions(lots, m, e.asset, |lots|);
      var t := TakeLots(lots, Order(lots, m, e.asset, |lots|), Abs(e.quantity));
      lots := t.lots;
      disposals := disposals + [LotDisposal(t, e)];
    }
    assert events[..|events|] == events;
    s := LotState(lots, disposals);
  }
}
