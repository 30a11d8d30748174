/** What a fee costs: under every method it lowers the realised profit by exactly its amount. */
module CostBasisFees {
  import opened Wrappers
  import opened CostBasis
  import opened CostBasisTotals
  import opened CostBasisAgreement

  function MoreFee(e: Event, d: real): Event {
    e.(fee := Some(if e.fee.Some? then e.fee.value + d else d))
  }

  // The events with d added to the fee of the i-th.
  function Raised(events: seq<Event>, i: int, d: real): (raised: seq<Event>)
    requires 0 <= i < |events|
    ensures |raised| == |events|
  {
    events[i := MoreFee(events[i], d)]
  }

  // The i-th is valued, and a sale or an acquisition of something.
  predicate Counts(events: seq<Event>, i: int, asset: int) {
    0 <= i < |events| && events[i].asset == asset && events[i].value.Some?
    && (Adds(events[i]) ==> events[i].quantity != 0.0)
  }

  lemma RaisedPrefix(events: seq<Event>, i: int, d: real, n: int)
    requires 0 <= i < |events| && 0 <= n <= |events|
    ensures Raised(events, i, d)[..n] == if i < n then Raised(events[..n], i, d) else events[..n]
  {
  }

  /** The fee goes to the basis of an acquisition and off the proceeds of a sale, and into nothing else. */
  lemma {:induction false} RaisedTotals(events: seq<Event>, i: int, d: real, asset: int)
    requires Counts(events, i, asset)
    ensures var raised := Raised(events, i, d);
            && Acquired(raised, asset) == Acquired(events, asset) + (if Adds(events[i]) then d else 0.0)
            && ProceedsOf(raised, asset) == ProceedsOf(events, asset) - (if Adds(events[i]) then 0.0 else d)
            && Weightless(raised, asset) == Weightless(events, asset)
    decreases |events|
  {
    var last := |events| - 1;
    RaisedPrefix(events, i, d, last);
    if i < last {
      RaisedTotals(events[..last], i, d, asset);
    }
  }

  lemma {:induction false} RaisedUnits(events: seq<Event>, i: int, d: real, asset: int)
    requires 0 <= i < |events|
    ensures Held(Raised(events, i, d), asset) == Held(events, asset)
    ensures Known(Raised(events, i, d), asset) <==> Known(events, asset)
    decreases |events|
  {
    var last := |events| - 1;
    RaisedPrefix(events, i, d, last);
    if i < last {
      RaisedUnits(events[..last], i, d, asset);
    }
  }

  lemma RaisedWeightless(events: seq<Event>, i: int, d: real, asset: int)
    requires Counts(events, i, asset)
    ensures HasWeightless(Raised(events, i, d), asset) <==> HasWeightless(events, asset)
  {
    var raised := Raised(events, i, d);
    forall k | 0 <= k < |events|
      ensures raised[k].quantity == 0.0 && Gain(raised[k], asset) != 0.0
              <==> events[k].quantity == 0.0 && Gain(events[k], asset) != 0.0
    {
    }
  }

  lemma {:induction false} RaisedSpreads(events: seq<Event>, i: int, d: real, asset: int)
    requires Counts(events, i, asset)
    ensures Spreads(Raised(events, i, d), asset) <==> Spreads(events, asset)
    decreases |events|
  {
    hide Known, HasWeightless;
    var last := |events| - 1;
    RaisedPrefix(events, i, d, last);
    if i < last {
      RaisedSpreads(events[..last], i, d, asset);
      RaisedUnits(events[..last], i, d, asset);
      RaisedWeightless(events[..last], i, d, asset);
    }
  }

  lemma RaisedSound(events: seq<Event>, i: int, d: real, asset: int)
    requires Counts(events, i, asset) && Sound(events, asset)
    ensures Sound(Raised(events, i, d), asset)
  {
    var raised := Raised(events, i, d);
    forall k | 0 <= k < |raised| && raised[k].asset == asset
      ensures raised[k].value.Some? && (!Adds(raised[k]) ==> Abs(raised[k].quantity) <= Held(raised[..k], asset))
    {
      RaisedPrefix(events, i, d, k);
      if i < k {
        RaisedUnits(events[..k], i, d, asset);
      }
    }
  }

  /** Raising one fee of an asset that is sold out lowers the realised profit by as much, under FIFO and LIFO, and
      under average cost where that agrees with them. */
  lemma FeesLowerProfit(events: seq<Event>, i: int, d: real, m: Method, asset: int)
    requires Counts(events, i, asset) && Sound(events, asset) && Held(events, asset) == 0.0
    requires NonNegative(events, asset) && NonNegative(Raised(events, i, d), asset)
    ensures var raised := Raised(events, i, d);
            && Realised(LotRun(raised, m).disposals, asset) == Realised(LotRun(events, m).disposals, asset) - d
            && (!Spreads(events, asset) ==>
                  Realised(AcbRun(raised).disposals, asset) == Realised(AcbRun(events).disposals, asset) - d)
  {
    hide Sound, NonNegative, Acquired, ProceedsOf, Weightless, Spreads, Held;
    RaisedSound(events, i, d, asset);
    RaisedUnits(events, i, d, asset);
    RaisedTotals(events, i, d, asset);
    RaisedSpreads(events, i, d, asset);
    SameProfit(events, m, asset);
    SameProfit(Raised(events, i, d), m, asset);
  }
}
