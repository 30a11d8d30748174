/** The memoised binary searches for historical prices: the lookup of historicalPriceLookups
    (api/src/services/chart-values.ts) and historicalQuoteLookup (api/src/services/kraken.ts). */
module PriceLookup {
  import opened Wrappers
  import opened Market

  /** A row of market_points for one asset and currency. */
  datatype Row = Row(provider: int, bucket: int, granularity: int, close: real, native: bool)

  const WEEK_MS := 604_800_000

  // ---- the linear specification, which asks nothing of the order of the rows ----

  // The newest bucket at or before t.
  function Newest(rows: seq<Row>, t: int): (b: Option<int>)
    ensures b.Some? ==> b.value <= t
  {
    if rows == [] then None
    else
      var b, row := Newest(rows[..|rows| - 1], t), rows[|rows| - 1];
      if row.bucket <= t && (b.None? || b.value < row.bucket) then Some(row.bucket) else b
  }

  function InBucket(rows: seq<Row>, bucket: int): seq<Row> {
    if rows == [] then []
    else
      var rest, row := InBucket(rows[..|rows| - 1], bucket), rows[|rows| - 1];
      if row.bucket == bucket then rest + [row] else rest
  }

  function Finest(rows: seq<Row>): int
    requires rows != []
  {
    if |rows| == 1 then rows[0].granularity
    else
      var rest, g := Finest(rows[..|rows| - 1]), rows[|rows| - 1].granularity;
      if g < rest then g else rest
  }

  function OfGranularity(rows: seq<Row>, granularity: int): seq<Row> {
    if rows == [] then []
    else
      var rest, row := OfGranularity(rows[..|rows| - 1], granularity), rows[|rows| - 1];
      if row.granularity == granularity then rest + [row] else rest
  }

  function Observations(rows: seq<Row>): (os: seq<Observation>)
    ensures |os| == |rows|
  {
    seq(|rows|, i requires 0 <= i < |rows| => Observation(rows[i].provider, rows[i].close, rows[i].native))
  }

  // The bucket that answers a query: the newest at or before t, if it is at most a week old.
  function Answering(rows: seq<Row>, t: int): Option<int> {
    var b := Newest(rows, t);
    if b.Some? && b.value >= t - WEEK_MS then b else None
  }

  /** The price of the charts: the finest rows of the answering bucket, combined. */
  function PriceAt(rows: seq<Row>, t: int): Option<real> {
    match Answering(rows, t)
    case None => None
    case Some(b) =>
      var own := InBucket(rows, b);
      if own == [] then None else CombinePriceObservations(Observations(OfGranularity(own, Finest(own))))
  }

  // The row that stands for a provider: a native one before a derived one, then the finest.
  predicate Replaces(row: Row, existing: Row) {
    (row.native && !existing.native) || (row.native == existing.native && row.granularity < existing.granularity)
  }

  function PutProvider(chosen: seq<Row>, row: Row): (r: seq<Row>)
    ensures r != []
  {
    if chosen == [] then [row]
    else
      var last := chosen[|chosen| - 1];
      if last.provider == row.provider
      then chosen[..|chosen| - 1] + [if Replaces(row, last) then row else last]
      else PutProvider(chosen[..|chosen| - 1], row) + [last]
  }

  function ByProvider(rows: seq<Row>): (chosen: seq<Row>)
    ensures chosen == [] <==> rows == []
  {
    if rows == [] then [] else PutProvider(ByProvider(rows[..|rows| - 1]), rows[|rows| - 1])
  }

  /** The price of the exchange's own valuation: one row a provider of the answering bucket, combined. */
  function QuoteAt(rows: seq<Row>, t: int): Option<real> {
    match Answering(rows, t)
    case None => None
    case Some(b) => CombinePriceObservations(Observations(ByProvider(InBucket(rows, b))))
  }

  /** Whatever their order, Newest is the greatest bucket at or before t. */
  lemma {:induction false} NewestIsGreatest(rows: seq<Row>, t: int)
    ensures var b := Newest(rows, t);
            && (forall i :: 0 <= i < |rows| && rows[i].bucket <= t ==> b.Some? && rows[i].bucket <= b.value)
            && (b.Some? ==> exists i :: 0 <= i < |rows| && rows[i].bucket == b.value)
  {
    if rows != [] {
      var front := rows[..|rows| - 1];
      NewestIsGreatest(front, t);
      var b := Newest(front, t);
      if b.Some? {
        var i :| 0 <= i < |front| && front[i].bucket == b.value;
        assert rows[i].bucket == b.value;
      }
    }
  }

  // ---- both answer the same queries ----

  lemma {:induction false} NewestIsThere(rows: seq<Row>, t: int)
    ensures Newest(rows, t).Some? ==> InBucket(rows, Newest(rows, t).value) != []
  {
    if rows != [] {
      NewestIsThere(rows[..|rows| - 1], t);
    }
  }

  lemma {:induction false} FinestIsThere(rows: seq<Row>)
    requires rows != []
    ensures OfGranularity(rows, Finest(rows)) != []
  {
    if |rows| > 1 {
      FinestIsThere(rows[..|rows| - 1]);
    }
  }

  lemma CombinedExists(observations: seq<Observation>)
    ensures CombinePriceObservations(observations).Some? <==> observations != []
  {
  }

  /** The two lookups find a price for exactly the same queries: those with a bucket no more than a week old. */
  lemma SameQueriesAnswered(rows: seq<Row>, t: int)
    ensures PriceAt(rows, t).Some? <==> Answering(rows, t).Some?
    ensures QuoteAt(rows, t).Some? <==> PriceAt(rows, t).Some?
  {
    hide CombinePriceObservations;
    NewestIsThere(rows, t);
    if Answering(rows, t).Some? {
      var own := InBucket(rows, Answering(rows, t).value);
      FinestIsThere(own);
      CombinedExists(Observations(OfGranularity(own, Finest(own))));
      CombinedExists(Observations(ByProvider(own)));
    }
  }

  // ---- the searches ----

  predicate Ordered(rows: seq<Row>) {
    forall i, j :: 0 <= i < j < |rows| ==> rows[i].bucket <= rows[j].bucket
  }

  lemma {:induction false} NewestIsLast(rows: seq<Row>, t: int, found: int)
    requires Ordered(rows) && -1 <= found < |rows|
    requires forall i :: 0 <= i <= found ==> rows[i].bucket <= t
    requires forall i :: found < i < |rows| ==> rows[i].bucket > t
    ensures Newest(rows, t) == if found == -1 then None else Some(rows[found].bucket)
    decreases |rows|
  {
    if rows != [] {
      var last := |rows| - 1;
      if found == last {
        if last > 0 {
          NewestIsLast(rows[..last], t, last - 1);
        }
      } else {
        NewestIsLast(rows[..last], t, found);
      }
    }
  }

  lemma {:induction false} BucketIsRun(rows: seq<Row>, bucket: int, first: int, last: int)
    requires 0 <= first <= last <= |rows|
    requires forall i :: 0 <= i < |rows| ==> (rows[i].bucket == bucket <==> first <= i < last)
    ensures InBucket(rows, bucket) == rows[first..last]
    decreases |rows|
  {
    if rows != [] {
      var n := |rows| - 1;
      if last == |rows| && first < last {
        BucketIsRun(rows[..n], bucket, first, n);
        assert rows[first..last] == rows[..n][first..n] + [rows[n]];
      } else {
        assert last <= n || first == last;
        var l, f := if last <= n then last else n, if first <= n then first else n;
        BucketIsRun(rows[..n], bucket, if first == last then 0 else f, if first == last then 0 else l);
        assert first != last ==> rows[..n][first..last] == rows[first..last];
      }
    }
  }

  method BinarySearch(rows: seq<Row>, t: int) returns (found: int)
    requires Ordered(rows)
    ensures -1 <= found < |rows|
    ensures Newest(rows, t) == if found == -1 then None else Some(rows[found].bucket)
    ensures forall i :: found < i < |rows| ==> rows[i].bucket > t
  {
    hide Newest;
    var left, right := 0, |rows| - 1;
    found := -1;
    while left <= right
      invariant 0 <= left <= right + 1 <= |rows| && found == left - 1
      invariant forall i :: 0 <= i < left ==> rows[i].bucket <= t
      invariant forall i :: right < i < |rows| ==> rows[i].bucket > t
      decreases right - left
    {
      var middle := (left + right) / 2;
      if rows[middle].bucket <= t {
        found := middle;
        left := middle + 1;
      } else {
        right := middle - 1;
      }
    }
    NewestIsLast(rows, t, found);
  }

  // Back to the first row of the bucket.
  method FirstOf(rows: seq<Row>, found: int) returns (first: int)
    requires Ordered(rows) && 0 <= found < |rows|
    ensures 0 <= first <= found
    ensures forall i :: 0 <= i <= found ==> (rows[i].bucket == rows[found].bucket <==> first <= i)
  {
    first := found;
    while first > 0 && rows[first - 1].bucket == rows[found].bucket
      invariant 0 <= first <= found
      invariant forall i :: first <= i <= found ==> rows[i].bucket == rows[found].bucket
    {
      first := first - 1;
    }
  }

  // On to the last one; only rows after t follow.
  method LastOf(rows: seq<Row>, found: int) returns (last: int)
    requires Ordered(rows) && 0 <= found < |rows|
    ensures found <= last < |rows|
    ensures forall i :: found <= i < |rows| ==> (rows[i].bucket == rows[found].bucket <==> i <= last)
  {
    last := found;
    while last + 1 < |rows| && rows[last + 1].bucket == rows[found].bucket
      invariant found <= last < |rows|
      invariant forall i :: found <= i <= last ==> rows[i].bucket == rows[found].bucket
    {
      last := last + 1;
    }
  }

  method FinestOf(rows: seq<Row>) returns (finest: seq<Row>)
    requires rows != []
    ensures finest == OfGranularity(rows, Finest(rows))
  {
    var granularity := rows[0].granularity;
    for i := 1 to |rows|
      invariant granularity == Finest(rows[..i])
    {
      assert rows[..i + 1][..i] == rows[..i];
      if rows[i].granularity < granularity {
        granularity := rows[i].granularity;
      }
    }
    assert rows[..|rows|] == rows;
    finest := [];
    for i := 0 to |rows|
      invariant finest == OfGranularity(rows[..i], granularity)
    {
      assert rows[..i + 1][..i] == rows[..i];
      if rows[i].granularity == granularity {
        finest := finest + [rows[i]];
      }
    }
  }

  /** The closure of one currency over the rows of each asset, and its part of the memo. */
  class ChartLookup {
    // the asset that is the currency itself
    const self: int
    const rows: map<int, seq<Row>>
    var memo: map<(int, int), Option<real>>

    function RowsOf(asset: int): seq<Row> {
      if asset in rows then rows[asset] else []
    }

    // The rows come ordered from the database, and the memo only holds right answers.
    ghost predicate Valid()
      reads this
    {
      && (forall asset <- rows :: Ordered(rows[asset]))
      && forall key <- memo :: memo[key] == PriceAt(RowsOf(key.0), key.1)
    }

    constructor (self: int, rows: map<int, seq<Row>>)
      requires forall asset <- rows :: Ordered(rows[asset])
      ensures this.self == self && this.rows == rows && Valid()
    {
      this.self, this.rows := self, rows;
      memo := map[];
    }

    /** Whatever was asked before, the answer is the linear specification's. */
    method PriceOf(asset: int, t: int) returns (price: Option<real>)
      requires Valid()
      modifies this
      ensures Valid() && price == if asset == self then Some(1.0) else PriceAt(RowsOf(asset), t)
      ensures memo == if asset == self then old(memo) else old(memo)[(asset, t) := price]
    {
      hide CombinePriceObservations, Finest, OfGranularity, Newest, InBucket;
      if asset == self {
        return Some(1.0);
      }
      if (asset, t) in memo {
        price := memo[(asset, t)];
        return;
      }
      var candidates := RowsOf(asset);
      var found := BinarySearch(candidates, t);
      if found < 0 {
        price := None;
      } else if candidates[found].bucket < t - WEEK_MS {
        price := None;
      } else {
        var first := FirstOf(candidates, found);
        var last := LastOf(candidates, found);
        BucketIsRun(candidates, candidates[found].bucket, first, last + 1);
        var finest := FinestOf(candidates[first..last + 1]);
        price := CombinePriceObservations(Observations(finest));
      }
      memo := memo[(asset, t) := price];
    }
  }

  /** The closure of historicalQuoteLookup, over the rows of each asset and currency. */
  class QuoteLookup {
    // the asset that a currency itself is
    const selves: map<int, int>
    const rows: map<(int, int), seq<Row>>
    var memo: map<(int, int, int), Option<real>>

    function RowsOf(asset: int, currency: int): seq<Row> {
      if (asset, currency) in rows then rows[(asset, currency)] else []
    }

    ghost predicate Valid()
      reads this
    {
      && (forall pair <- rows :: Ordered(rows[pair]))
      && forall key <- memo :: memo[key] == QuoteAt(RowsOf(key.0, key.1), key.2)
    }

    constructor (selves: map<int, int>, rows: map<(int, int), seq<Row>>)
      requires forall pair <- rows :: Ordered(rows[pair])
      ensures this.selves == selves && this.rows == rows && Valid()
    {
      this.selves, this.rows := selves, rows;
      memo := map[];
    }

    method QuoteOf(asset: int, currency: int, t: int) returns (price: Option<real>)
      requires Valid()
      modifies this
      ensures Valid()
      ensures price == if currency in selves && selves[currency] == asset then Some(1.0)
                       else QuoteAt(RowsOf(asset, currency), t)
      ensures memo == if currency in selves && selves[currency] == asset then old(memo)
                      else old(memo)[(asset, currency, t) := price]
    {
      hide CombinePriceObservations, Newest, InBucket, PutProvider;
      if currency in selves && selves[currency] == asset {
        return Some(1.0);
      }
      if (asset, currency, t) in memo {
        price := memo[(asset, currency, t)];
        return;
      }
      var candidates := RowsOf(asset, currency);
      var found := BinarySearch(candidates, t);
      if found < 0 {
        price := None;
      } else if candidates[found].bucket < t - WEEK_MS {
        price := None;
      } else {
        var first := FirstOf(candidates, found);
        var last := LastOf(candidates, found);
        BucketIsRun(candidates, candidates[found].bucket, first, last + 1);
        var run := candidates[first..last + 1];
        var chosen: seq<Row> := [];
        for i := 0 to |run|
          invariant chosen == ByProvider(run[..i])
        {
          assert run[..i + 1][..i] == run[..i];
          chosen := PutProvider(chosen, run[i]);
        }
        assert run[..|run|] == run;
        price := CombinePriceObservations(Observations(chosen));
      }
      memo := memo[(asset, currency, t) := price];
    }
  }
}
