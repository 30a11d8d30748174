/** Which lots a disposal takes from: the oldest first under FIFO, the newest first under LIFO, lots of one
    moment in the order of their events. */
module CostBasisPriority {
  import opened CostBasis

  // Lot i must be used up before lot j is touched.
  predicate Sooner(lots: seq<Lot>, m: Method, i: int, j: int)
    requires 0 <= i < |lots| && 0 <= j < |lots|
  {
    if lots[i].acquiredAt == lots[j].acquiredAt then i < j
    else if m == Fifo then lots[i].acquiredAt < lots[j].acquiredAt
    else lots[i].acquiredAt > lots[j].acquiredAt
  }

  // The positions stand in the order in which they are used.
  predicate Prioritized(lots: seq<Lot>, m: Method, order: seq<int>)
    requires Within(order, |lots|)
  {
    forall k, l :: 0 <= k < l < |order| ==> Sooner(lots, m, order[k], order[l])
  }

  lemma {:induction false} InsertPrioritized(lots: seq<Lot>, m: Method, order: seq<int>, i: int)
    requires 0 <= i < |lots| && Within(order, i) && Prioritized(lots, m, order)
    ensures Prioritized(lots, m, Insert(lots, m, order, i))
    decreases |order|
  {
    if order != [] {
      var last := |order| - 1;
      if Before(m, lots[i], lots[order[last]]) {
        InsertPrioritized(lots, m, order[..last], i);
        var order' := Insert(lots, m, order[..last], i);
        forall k | 0 <= k < |order'|
          ensures Sooner(lots, m, order'[k], order[last])
        {
          if order'[k] != i {
            var l :| 0 <= l < last && order[l] == order'[k];
          }
        }
      } else {
        forall k | 0 <= k < |order|
          ensures Sooner(lots, m, order[k], i)
        {
          assert k < last ==> Sooner(lots, m, order[k], order[last]);
        }
      }
    }
  }

  lemma {:induction false} OrderPrioritized(lots: seq<Lot>, m: Method, asset: int, n: int)
    requires 0 <= n <= |lots|
    ensures Prioritized(lots, m, Order(lots, m, asset, n))
  {
    if n > 0 {
      OrderPrioritized(lots, m, asset, n - 1);
      InsertPrioritized(lots, m, Order(lots, m, asset, n - 1), n - 1);
    }
  }

  lemma {:induction false} InsertHolds(lots: seq<Lot>, m: Method, order: seq<int>, i: int, j: int)
    requires 0 <= i < |lots| && Within(order, i)
    ensures j in Insert(lots, m, order, i) <==> j == i || j in order
    decreases |order|
  {
    if order != [] && Before(m, lots[i], lots[order[|order| - 1]]) {
      InsertHolds(lots, m, order[..|order| - 1], i, j);
      assert order == order[..|order| - 1] + [order[|order| - 1]];
    }
  }

  lemma {:induction false} OrderComplete(lots: seq<Lot>, m: Method, asset: int, n: int, j: int)
    requires 0 <= j < n <= |lots|
    ensures j in Order(lots, m, asset, n) <==> IsCandidate(lots[j], asset)
  {
    OrderNext(lots, m, asset, n - 1);
    var before := Order(lots, m, asset, n - 1);
    if IsCandidate(lots[n - 1], asset) {
      InsertHolds(lots, m, before, n - 1, j);
    }
    if j < n - 1 {
      OrderComplete(lots, m, asset, n - 1, j);
    } else {
      assert n - 1 !in before;
    }
  }

  lemma {:induction false} TakeTouches(lots: seq<Lot>, order: seq<int>, need: real, i: int)
    requires LotsInv(lots) && Positions(lots, order) && need >= 0.0 && 0 <= i < |lots|
    ensures |Take(lots, order, need).lots| == |lots|
    ensures i !in order ==> Take(lots, order, need).lots[i] == lots[i]
    decreases |order|
  {
    hide Part;
    if order != [] && need != 0.0 {
      var amount := Min(lots[order[0]].remaining, need);
      TakeTouches(Reduce(lots, order[0], amount), order[1..], need - amount, i);
    }
  }

  // A position is touched only once those before it are used up.
  lemma {:induction false} TakeInOrder(lots: seq<Lot>, order: seq<int>, need: real, k: int, l: int)
    requires LotsInv(lots) && Positions(lots, order) && need >= 0.0 && 0 <= k < l < |order|
    ensures |Take(lots, order, need).lots| == |lots|
    ensures Take(lots, order, need).lots[order[l]].remaining != lots[order[l]].remaining
            ==> Take(lots, order, need).lots[order[k]].remaining == 0.0
    decreases |order|
  {
    hide Part, Distinct;
    TakeTouches(lots, order, need, order[l]);
    if need != 0.0 {
      TakeFirst(lots, order, need);
      var amount := Min(lots[order[0]].remaining, need);
      var lots' := Reduce(lots, order[0], amount);
      DistinctFirst(order, k);
      DistinctFirst(order, l);
      if k == 0 {
        TakeTouches(lots', order[1..], need - amount, order[0]);
        if need <= lots[order[0]].remaining {
          TakeNothing(lots', order[1..]);
        }
      } else {
        TakeInOrder(lots', order[1..], need - amount, k - 1, l - 1);
      }
    }
  }

  lemma DistinctFirst(order: seq<int>, k: int)
    requires Distinct(order) && 0 <= k < |order|
    ensures order[0] !in order[1..] && (k > 0 ==> order[k] != order[0])
  {
  }

  lemma TakeNothing(lots: seq<Lot>, order: seq<int>)
    requires LotsInv(lots) && Positions(lots, order)
    ensures Take(lots, order, 0.0).lots == lots
  {
  }

  lemma NotBothSooner(lots: seq<Lot>, m: Method, i: int, j: int)
    requires 0 <= i < |lots| && 0 <= j < |lots|
    ensures !(Sooner(lots, m, i, j) && Sooner(lots, m, j, i))
  {
  }

  lemma SoonerStandsFirst(lots: seq<Lot>, m: Method, order: seq<int>, k: int, l: int)
    requires Within(order, |lots|) && Prioritized(lots, m, order)
    requires 0 <= k < |order| && 0 <= l < |order| && k != l && Sooner(lots, m, order[k], order[l])
    ensures k < l
  {
    NotBothSooner(lots, m, order[k], order[l]);
  }

  /** A disposal touches only lots of its asset that hold something, and one of them only when every lot of the
      asset that comes sooner is used up. */
  lemma SoonerLotsFirst(lots: seq<Lot>, m: Method, e: Event, i: int, j: int)
    requires LotsInv(lots) && 0 <= i < |lots| && 0 <= j < |lots| && i != j
    requires lots[i].asset == e.asset && Sooner(lots, m, i, j)
    ensures var after := TakeFor(lots, m, e).lots;
            && |after| == |lots|
            && (after[j].remaining != lots[j].remaining ==>
                  IsCandidate(lots[j], e.asset) && after[i].remaining == 0.0)
  {
    var order := Order(lots, m, e.asset, |lots|);
    OrderPositions(lots, m, e.asset, |lots|);
    OrderPrioritized(lots, m, e.asset, |lots|);
    OrderComplete(lots, m, e.asset, |lots|, i);
    OrderComplete(lots, m, e.asset, |lots|, j);
    TakeTouches(lots, order, Abs(e.quantity), i);
    TakeTouches(lots, order, Abs(e.quantity), j);
    hide Take, Order, Before, Part;
    if j in order && i in order {
      var k :| 0 <= k < |order| && order[k] == i;
      var l :| 0 <= l < |order| && order[l] == j;
      SoonerStandsFirst(lots, m, order, k, l);
      TakeInOrder(lots, order, Abs(e.quantity), k, l);
    }
  }
}
