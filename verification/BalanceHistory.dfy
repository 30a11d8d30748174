/** reconstructBalance (api/src/domain/addresses.ts): the balances of an address at a list of moments. */
module BalanceHistory {

  datatype Event = Event(id: int, asset: int, at: int, ordering: int, delta: real)

  datatype Point = Point(at: int, asset: int, quantity: real)

  // ---- the specification, which asks nothing of the order of the events ----

  function Share(e: Event, asset: int, t: int): real {
    if e.asset == asset && e.at <= t then e.delta else 0.0
  }

  /** The sum of all deltas of an asset at or before t. */
  function SumAt(events: seq<Event>, asset: int, t: int): real {
    if events == [] then 0.0
    else SumAt(events[..|events| - 1], asset, t) + Share(events[|events| - 1], asset, t)
  }

  function AssetsOf(events: seq<Event>): set<int> {
    set i | 0 <= i < |events| :: events[i].asset
  }

  // ---- sorting ----

  // Strictly before, by time, then ordering key, then id.
  predicate Precedes(a: Event, b: Event) {
    || a.at < b.at
    || (a.at == b.at && a.ordering < b.ordering)
    || (a.at == b.at && a.ordering == b.ordering && a.id < b.id)
  }

  function InsertEvent(sorted: seq<Event>, e: Event): (r: seq<Event>)
    ensures |r| == |sorted| + 1
  {
    if sorted == [] || !Precedes(e, sorted[|sorted| - 1]) then sorted + [e]
    else InsertEvent(sorted[..|sorted| - 1], e) + [sorted[|sorted| - 1]]
  }

  function SortEvents(events: seq<Event>): (r: seq<Event>)
    ensures |r| == |events|
  {
    if events == [] then [] else InsertEvent(SortEvents(events[..|events| - 1]), events[|events| - 1])
  }

  function InsertInt(sorted: seq<int>, x: int): (r: seq<int>)
    ensures |r| == |sorted| + 1
  {
    if sorted == [] || sorted[|sorted| - 1] <= x then sorted + [x]
    else InsertInt(sorted[..|sorted| - 1], x) + [sorted[|sorted| - 1]]
  }

  function SortInts(xs: seq<int>): (r: seq<int>)
    ensures |r| == |xs|
  {
    if xs == [] then [] else InsertInt(SortInts(xs[..|xs| - 1]), xs[|xs| - 1])
  }

  predicate Ascending(xs: seq<int>) {
    forall i, j :: 0 <= i < j < |xs| ==> xs[i] <= xs[j]
  }

  predicate InTime(events: seq<Event>) {
    forall i, j :: 0 <= i < j < |events| ==> events[i].at <= events[j].at
  }

  predicate AllAtMost(xs: seq<int>, x: int) {
    forall i :: 0 <= i < |xs| ==> xs[i] <= x
  }

  lemma {:induction false} InsertIntBounded(sorted: seq<int>, x: int, bound: int)
    requires AllAtMost(sorted, bound) && x <= bound
    ensures AllAtMost(InsertInt(sorted, x), bound)
    decreases |sorted|
  {
    if sorted != [] && x < sorted[|sorted| - 1] {
      InsertIntBounded(sorted[..|sorted| - 1], x, bound);
    }
  }

  lemma {:induction false} InsertAscends(sorted: seq<int>, x: int)
    requires Ascending(sorted)
    ensures Ascending(InsertInt(sorted, x))
    decreases |sorted|
  {
    if sorted != [] && x < sorted[|sorted| - 1] {
      InsertAscends(sorted[..|sorted| - 1], x);
      InsertIntBounded(sorted[..|sorted| - 1], x, sorted[|sorted| - 1]);
    }
  }

  lemma {:induction false} InsertPermutes(sorted: seq<int>, x: int)
    ensures multiset(InsertInt(sorted, x)) == multiset(sorted) + multiset{x}
    decreases |sorted|
  {
    if sorted != [] && x < sorted[|sorted| - 1] {
      InsertPermutes(sorted[..|sorted| - 1], x);
      assert sorted == sorted[..|sorted| - 1] + [sorted[|sorted| - 1]];
    }
  }

  lemma {:induction false} SortAscends(xs: seq<int>)
    ensures Ascending(SortInts(xs)) && multiset(SortInts(xs)) == multiset(xs)
  {
    if xs != [] {
      SortAscends(xs[..|xs| - 1]);
      InsertAscends(SortInts(xs[..|xs| - 1]), xs[|xs| - 1]);
      InsertPermutes(SortInts(xs[..|xs| - 1]), xs[|xs| - 1]);
      assert xs == xs[..|xs| - 1] + [xs[|xs| - 1]];
    }
  }

  predicate NoneLater(events: seq<Event>, t: int) {
    forall i :: 0 <= i < |events| ==> events[i].at <= t
  }

  lemma {:induction false} InsertNoneLater(sorted: seq<Event>, e: Event, t: int)
    requires NoneLater(sorted, t) && e.at <= t
    ensures NoneLater(InsertEvent(sorted, e), t)
    decreases |sorted|
  {
    if sorted != [] && Precedes(e, sorted[|sorted| - 1]) {
      InsertNoneLater(sorted[..|sorted| - 1], e, t);
    }
  }

  // A sorted list holds the same events, so it has the same sums.
  lemma {:induction false} InsertKeepsSums(sorted: seq<Event>, e: Event, asset: int, t: int)
    requires InTime(sorted)
    ensures InTime(InsertEvent(sorted, e))
    ensures SumAt(InsertEvent(sorted, e), asset, t) == SumAt(sorted, asset, t) + Share(e, asset, t)
    decreases |sorted|
  {
    if sorted != [] && Precedes(e, sorted[|sorted| - 1]) {
      InsertKeepsSums(sorted[..|sorted| - 1], e, asset, t);
      InsertNoneLater(sorted[..|sorted| - 1], e, sorted[|sorted| - 1].at);
    }
  }

  lemma {:induction false} SortKeepsSums(events: seq<Event>, asset: int, t: int)
    ensures InTime(SortEvents(events))
    ensures SumAt(SortEvents(events), asset, t) == SumAt(events, asset, t)
  {
    if events != [] {
      SortKeepsSums(events[..|events| - 1], asset, t);
      InsertKeepsSums(SortEvents(events[..|events| - 1]), events[|events| - 1], asset, t);
    }
  }

  lemma {:induction false} InsertKeepsAssets(sorted: seq<Event>, e: Event)
    ensures AssetsOf(InsertEvent(sorted, e)) == AssetsOf(sorted) + {e.asset}
    decreases |sorted|
  {
    AssetsSnoc(sorted, e);
    if sorted != [] && Precedes(e, sorted[|sorted| - 1]) {
      var front, last := sorted[..|sorted| - 1], sorted[|sorted| - 1];
      InsertKeepsAssets(front, e);
      AssetsSnoc(InsertEvent(front, e), last);
      AssetsSnoc(front, last);
      assert sorted == front + [last];
    }
  }

  lemma AssetsSnoc(events: seq<Event>, e: Event)
    ensures AssetsOf(events + [e]) == AssetsOf(events) + {e.asset}
  {
    forall i | 0 <= i < |events|
      ensures events[i].asset in AssetsOf(events + [e])
    {
      assert (events + [e])[i] == events[i];
    }
    assert (events + [e])[|events|] == e;
  }

  lemma {:induction false} SortKeepsAssets(events: seq<Event>)
    ensures AssetsOf(SortEvents(events)) == AssetsOf(events)
  {
    if events != [] {
      var front, last := events[..|events| - 1], events[|events| - 1];
      SortKeepsAssets(front);
      InsertKeepsAssets(SortEvents(front), last);
      AssetsSnoc(front, last);
      assert events == front + [last];
    }
  }

  // The assets in the order of their first event.
  function Distinct(events: seq<Event>): seq<int> {
    if events == [] then []
    else
      var rest, asset := Distinct(events[..|events| - 1]), events[|events| - 1].asset;
      if asset in rest then rest else rest + [asset]
  }

  function AssetList(events: seq<Event>): seq<int> {
    SortInts(Distinct(SortEvents(events)))
  }

  lemma {:induction false} DistinctAssets(events: seq<Event>)
    ensures multiset(Distinct(events)) == multiset(AssetsOf(events))
  {
    if events != [] {
      var front, last := events[..|events| - 1], events[|events| - 1];
      DistinctAssets(front);
      AssetsSnoc(front, last);
      assert events == front + [last];
      assert last.asset in Distinct(front) <==> last.asset in multiset(Distinct(front));
      assert last.asset in AssetsOf(front) ==> AssetsOf(events) == AssetsOf(front);
    }
  }

  /** The assets reported are those of the events, each once, in order. */
  lemma AssetListIsSorted(events: seq<Event>)
    ensures Ascending(AssetList(events)) && multiset(AssetList(events)) == multiset(AssetsOf(events))
  {
    SortAscends(Distinct(SortEvents(events)));
    DistinctAssets(SortEvents(events));
    SortKeepsAssets(events);
  }

  lemma {:induction false} SumWithout(events: seq<Event>, k: int, asset: int, t: int)
    requires 0 <= k < |events|
    ensures SumAt(events, asset, t) == SumAt(events[..k] + events[k + 1..], asset, t) + Share(events[k], asset, t)
    decreases |events|
  {
    var last := |events| - 1;
    if k == last {
      assert events[..k] + events[k + 1..] == events[..last];
    } else {
      SumWithout(events[..last], k, asset, t);
      var rest := events[..k] + events[k + 1..];
      assert rest[..|rest| - 1] == events[..last][..k] + events[..last][k + 1..];
    }
  }

  predicate NotAfter(a: Event, b: Event) {
    || a.at < b.at
    || (a.at == b.at && (a.ordering < b.ordering || (a.ordering == b.ordering && a.id <= b.id)))
  }

  predicate InOrder(events: seq<Event>) {
    forall i, j :: 0 <= i < j < |events| ==> NotAfter(events[i], events[j])
  }

  lemma NotAfterIff(a: Event, b: Event)
    ensures NotAfter(a, b) <==> !Precedes(b, a)
  {
  }

  lemma {:induction false} InsertInOrder(sorted: seq<Event>, e: Event)
    requires InOrder(sorted)
    ensures InOrder(InsertEvent(sorted, e))
    ensures forall x :: x in InsertEvent(sorted, e) ==> x == e || x in sorted
    decreases |sorted|
  {
    hide Precedes, NotAfter;
    if sorted != [] {
      var front, last := sorted[..|sorted| - 1], sorted[|sorted| - 1];
      NotAfterIff(last, e);
      if Precedes(e, last) {
        InsertInOrder(front, e);
        NotAfterIff(e, last);
        Asymmetric(e, last);
        var r := InsertEvent(front, e);
        forall i | 0 <= i < |r|
          ensures NotAfter(r[i], last)
        {
          assert r[i] in r;
        }
      } else {
        forall i | 0 <= i < |front| {
          Follows(front[i], last, e);
        }
      }
    }
  }

  lemma Asymmetric(a: Event, b: Event)
    requires Precedes(a, b)
    ensures NotAfter(a, b)
  {
  }

  lemma Follows(a: Event, b: Event, c: Event)
    requires NotAfter(a, b) && NotAfter(b, c)
    ensures NotAfter(a, c)
  {
  }

  /** The events are applied by time, at one moment by their ordering key, and then by their identifier. */
  lemma {:induction false} SortInOrder(events: seq<Event>)
    ensures InOrder(SortEvents(events))
  {
    hide NotAfter;
    if events != [] {
      SortInOrder(events[..|events| - 1]);
      InsertInOrder(SortEvents(events[..|events| - 1]), events[|events| - 1]);
    }
  }

  /** Sums do not depend on the order of the events. */
  lemma {:induction false} SumsAreUnordered(xs: seq<Event>, ys: seq<Event>, asset: int, t: int)
    requires multiset(xs) == multiset(ys)
    ensures SumAt(xs, asset, t) == SumAt(ys, asset, t)
    decreases |xs|
  {
    assert |xs| == |multiset(xs)| == |multiset(ys)| == |ys|;
    if xs != [] {
      var front, e := xs[..|xs| - 1], xs[|xs| - 1];
      assert xs == front + [e];
      assert e in multiset(ys);
      var k :| 0 <= k < |ys| && ys[k] == e;
      var rest := ys[..k] + ys[k + 1..];
      assert ys == ys[..k] + [e] + ys[k + 1..];
      assert multiset(rest) == multiset(ys) - multiset{e} == multiset(front);
      SumWithout(ys, k, asset, t);
      SumsAreUnordered(front, rest, asset, t);
    }
  }

  // ---- the scan ----

  // Once everything at or before t is applied, a prefix sums to the whole.
  lemma {:induction false} PrefixSum(events: seq<Event>, n: int, asset: int, t: int)
    requires 0 <= n <= |events| && forall i :: n <= i < |events| ==> events[i].at > t
    ensures SumAt(events, asset, t) == SumAt(events[..n], asset, t)
    decreases |events|
  {
    if n < |events| {
      PrefixSum(events[..|events| - 1], n, asset, t);
      assert events[..|events| - 1][..n] == events[..n];
    } else {
      assert events[..n] == events;
    }
  }

  // What a prefix has added up to, however far it goes.
  function Applied(events: seq<Event>, asset: int): real {
    if events == [] then 0.0
    else
      var e := events[|events| - 1];
      Applied(events[..|events| - 1], asset) + (if e.asset == asset then e.delta else 0.0)
  }

  lemma {:induction false} AppliedIsSum(events: seq<Event>, asset: int, t: int)
    requires NoneLater(events, t)
    ensures Applied(events, asset) == SumAt(events, asset, t)
  {
    if events != [] {
      AppliedIsSum(events[..|events| - 1], asset, t);
    }
  }

  function Get(balances: map<int, real>, asset: int): real {
    if asset in balances then balances[asset] else 0.0
  }

  // The points of one bucket, for the assets in order.
  function Row(events: seq<Event>, assets: seq<int>, t: int): (points: seq<Point>)
    ensures |points| == |assets|
  {
    seq(|assets|, i requires 0 <= i < |assets| => Point(t, assets[i], SumAt(events, assets[i], t)))
  }

  /** All points: for each bucket in order, each asset in order with the sum of its deltas up to the bucket. */
  function Points(events: seq<Event>, assets: seq<int>, buckets: seq<int>): seq<Point> {
    if buckets == [] then []
    else Points(events, assets, buckets[..|buckets| - 1]) + Row(events, assets, buckets[|buckets| - 1])
  }

  method ReconstructBalance(events: seq<Event>, buckets: seq<int>) returns (points: seq<Point>)
    ensures points == Points(events, AssetList(events), SortInts(buckets))
  {
    hide SortInts, SortEvents, SumAt, Applied, Precedes, Distinct;
    var ordered, orderedBuckets := SortEvents(events), SortInts(buckets);
    var assets := SortInts(Distinct(ordered));
    SortAscends(buckets);
    SortKeepsSums(events, 0, 0);
    var balances: map<int, real> := map[];
    points := [];
    var eventIndex := 0;
    NothingApplied();
    for k := 0 to |orderedBuckets|
      invariant 0 <= eventIndex <= |ordered|
      invariant forall asset :: Get(balances, asset) == Applied(ordered[..eventIndex], asset)
      invariant forall i :: 0 <= i < eventIndex ==> k > 0 && ordered[i].at <= orderedBuckets[k - 1]
      invariant points == Points(events, assets, orderedBuckets[..k])
    {
      var t := orderedBuckets[k];
      while eventIndex < |ordered| && ordered[eventIndex].at <= t
        invariant 0 <= eventIndex <= |ordered|
        invariant forall asset :: Get(balances, asset) == Applied(ordered[..eventIndex], asset)
        invariant forall i :: 0 <= i < eventIndex ==> ordered[i].at <= t
      {
        var e := ordered[eventIndex];
        var next := balances[e.asset := Get(balances, e.asset) + e.delta];
        forall asset
          ensures Get(next, asset) == Applied(ordered[..eventIndex + 1], asset)
        {
          AppliedNext(ordered, eventIndex, asset);
        }
        balances := next;
        eventIndex := eventIndex + 1;
      }
      var row: seq<Point> := [];
      for i := 0 to |assets|
        invariant |row| == i
        invariant forall j :: 0 <= j < i ==> row[j] == Point(t, assets[j], SumAt(events, assets[j], t))
      {
        BalanceIsSum(events, ordered, eventIndex, assets[i], t);
        row := row + [Point(t, assets[i], Get(balances, assets[i]))];
      }
      assert row == Row(events, assets, t);
      assert orderedBuckets[..k + 1][..k] == orderedBuckets[..k];
      points := points + row;
    }
    assert orderedBuckets[..|orderedBuckets|] == orderedBuckets;
  }

  lemma NothingApplied()
    ensures forall asset :: Applied([], asset) == 0.0
  {
  }

  lemma AppliedNext(ordered: seq<Event>, n: int, asset: int)
    requires 0 <= n < |ordered|
    ensures Applied(ordered[..n + 1], asset)
            == Applied(ordered[..n], asset) + (if ordered[n].asset == asset then ordered[n].delta else 0.0)
  {
    assert ordered[..n + 1][..n] == ordered[..n];
  }

  lemma BalanceIsSum(events: seq<Event>, ordered: seq<Event>, n: int, asset: int, t: int)
    requires ordered == SortEvents(events) && 0 <= n <= |ordered|
    requires NoneLater(ordered[..n], t) && (n < |ordered| ==> ordered[n].at > t)
    ensures Applied(ordered[..n], asset) == SumAt(events, asset, t)
  {
    hide Applied, SumAt, SortEvents;
    SortKeepsSums(events, asset, t);
    AppliedIsSum(ordered[..n], asset, t);
    PrefixSum(ordered, n, asset, t);
  }
}
