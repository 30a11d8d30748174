/** Aggregating cached candles to a coarser granularity (aggregateCachedMarketRows of
    api/src/services/market-aggregation.ts). */
module Aggregation {
  import opened Wrappers

  datatype Series = Series(provider: int, asset: int, currency: int)

  /** A row of market_points: `granularity` in seconds, `start` in milliseconds. */
  datatype Row = Row(
    series: Series, start: int, granularity: int, native: bool, open: Option<real>, high: Option<real>,
    low: Option<real>, close: real, volume: Option<real>, samples: int, finalized: bool, retrieved: int)

  // ---- reading a row ----

  function Open(r: Row): real {
    if r.open.Some? then r.open.value else r.close
  }

  function High(r: Row): real {
    if r.high.Some? then r.high.value else r.close
  }

  function Low(r: Row): real {
    if r.low.Some? then r.low.value else r.close
  }

  // A candle of positive prices with its open and close between its low and high.
  predicate WellFormed(r: Row) {
    0.0 < Low(r) && Low(r) <= Open(r) <= High(r) && Low(r) <= r.close <= High(r)
  }

  // ---- selecting rows ----

  function OfSeries(rows: seq<Row>, s: Series): seq<Row> {
    if rows == [] then []
    else
      var rest, r := OfSeries(rows[..|rows| - 1], s), rows[|rows| - 1];
      if r.series == s then rest + [r] else rest
  }

  function Finest(rows: seq<Row>): int
    requires rows != []
  {
    if |rows| == 1 then rows[0].granularity
    else
      var rest, g := Finest(rows[..|rows| - 1]), rows[|rows| - 1].granularity;
      if g < rest then g else rest
  }

  function OfGranularity(rows: seq<Row>, granularity: int): seq<Row> {
    if rows == [] then []
    else
      var rest, r := OfGranularity(rows[..|rows| - 1], granularity), rows[|rows| - 1];
      if r.granularity == granularity then rest + [r] else rest
  }

  lemma {:induction false} FinestIsThere(rows: seq<Row>)
    requires rows != []
    ensures OfGranularity(rows, Finest(rows)) != []
  {
    if |rows| > 1 {
      FinestIsThere(rows[..|rows| - 1]);
    }
  }

  predicate Before(a: Row, b: Row) {
    a.start < b.start || (a.start == b.start && a.series.provider < b.series.provider)
  }

  function InsertRow(sorted: seq<Row>, r: Row): (s: seq<Row>)
    ensures |s| == |sorted| + 1
  {
    if sorted == [] || !Before(r, sorted[|sorted| - 1]) then sorted + [r]
    else InsertRow(sorted[..|sorted| - 1], r) + [sorted[|sorted| - 1]]
  }

  // A stable sort.
  function SortRows(rows: seq<Row>): (s: seq<Row>)
    ensures |s| == |rows|
  {
    if rows == [] then [] else InsertRow(SortRows(rows[..|rows| - 1]), rows[|rows| - 1])
  }

  // ---- one bucket ----

  function Highest(rows: seq<Row>): real
    requires rows != []
  {
    if |rows| == 1 then High(rows[0])
    else
      var rest, x := Highest(rows[..|rows| - 1]), High(rows[|rows| - 1]);
      if rest < x then x else rest
  }

  function Lowest(rows: seq<Row>): real
    requires rows != []
  {
    if |rows| == 1 then Low(rows[0])
    else
      var rest, x := Lowest(rows[..|rows| - 1]), Low(rows[|rows| - 1]);
      if x < rest then x else rest
  }

  function AddVolumes(a: Option<real>, b: Option<real>): Option<real> {
    if a.None? then b else if b.None? then a else Some(a.value + b.value)
  }

  // The sum of the volumes that are known, or null if none is.
  function Volume(rows: seq<Row>): Option<real> {
    if rows == [] then None else AddVolumes(Volume(rows[..|rows| - 1]), rows[|rows| - 1].volume)
  }

  function Samples(rows: seq<Row>): int {
    if rows == [] then 0 else Samples(rows[..|rows| - 1]) + rows[|rows| - 1].samples
  }

  predicate AllFinalized(rows: seq<Row>) {
    rows == [] || (AllFinalized(rows[..|rows| - 1]) && rows[|rows| - 1].finalized)
  }

  function Retrieved(rows: seq<Row>): int
    requires rows != []
  {
    if |rows| == 1 then rows[0].retrieved
    else
      var rest, x := Retrieved(rows[..|rows| - 1]), rows[|rows| - 1].retrieved;
      if rest < x then x else rest
  }

  function Merged(ordered: seq<Row>, seconds: int, bucket: int): Row
    requires ordered != []
  {
    var first, last := ordered[0], ordered[|ordered| - 1];
    Row(first.series, bucket, seconds, false, Some(Open(first)), Some(Highest(ordered)), Some(Lowest(ordered)),
        last.close, Volume(ordered), Samples(ordered), AllFinalized(ordered), Retrieved(ordered))
  }

  function BucketRow(available: seq<Row>, seconds: int, bucket: int): Row
    requires available != []
  {
    FinestIsThere(available);
    var finest := Finest(available);
    var ordered := SortRows(OfGranularity(available, finest));
    if finest == seconds && |ordered| == 1 then ordered[0].(granularity := seconds)
    else Merged(ordered, seconds, bucket)
  }

  // ---- all buckets ----

  function Size(seconds: int): int {
    seconds * 1_000
  }

  function BucketOf(r: Row, seconds: int): int
    requires seconds > 0
  {
    r.start / Size(seconds) * Size(seconds)
  }

  // Map.groupBy: the keys in the order of their first row.
  function SeriesKeys(rows: seq<Row>): seq<Series> {
    if rows == [] then []
    else
      var rest, s := SeriesKeys(rows[..|rows| - 1]), rows[|rows| - 1].series;
      if s in rest then rest else rest + [s]
  }

  function BucketKeys(rows: seq<Row>, seconds: int): seq<int>
    requires seconds > 0
  {
    if rows == [] then []
    else
      var rest, b := BucketKeys(rows[..|rows| - 1], seconds), BucketOf(rows[|rows| - 1], seconds);
      if b in rest then rest else rest + [b]
  }

  function InBucket(rows: seq<Row>, seconds: int, bucket: int): seq<Row>
    requires seconds > 0
  {
    if rows == [] then []
    else
      var rest, r := InBucket(rows[..|rows| - 1], seconds, bucket), rows[|rows| - 1];
      if BucketOf(r, seconds) == bucket then rest + [r] else rest
  }

  function BucketsOf(rows: seq<Row>, keys: seq<int>, seconds: int): seq<Row>
    requires seconds > 0
  {
    if keys == [] then []
    else
      var rest, b := BucketsOf(rows, keys[..|keys| - 1], seconds), keys[|keys| - 1];
      var available := InBucket(rows, seconds, b);
      if available == [] then rest else rest + [BucketRow(available, seconds, b)]
  }

  function AllOf(rows: seq<Row>, keys: seq<Series>, seconds: int): seq<Row>
    requires seconds > 0
  {
    if keys == [] then []
    else
      var own := OfSeries(rows, keys[|keys| - 1]);
      AllOf(rows, keys[..|keys| - 1], seconds) + BucketsOf(own, BucketKeys(own, seconds), seconds)
  }

  // The order of the output.
  predicate OutBefore(a: Row, b: Row) {
    || a.series.asset < b.series.asset
    || (a.series.asset == b.series.asset && Before(a, b))
  }

  function InsertOut(sorted: seq<Row>, r: Row): (s: seq<Row>)
    ensures |s| == |sorted| + 1
  {
    if sorted == [] || !OutBefore(r, sorted[|sorted| - 1]) then sorted + [r]
    else InsertOut(sorted[..|sorted| - 1], r) + [sorted[|sorted| - 1]]
  }

  function SortOut(rows: seq<Row>): (s: seq<Row>)
    ensures |s| == |rows|
  {
    if rows == [] then [] else InsertOut(SortOut(rows[..|rows| - 1]), rows[|rows| - 1])
  }

  function Aggregate(rows: seq<Row>, seconds: int): seq<Row>
    requires seconds > 0
  {
    SortOut(AllOf(rows, SeriesKeys(rows), seconds))
  }

  /** The nested loops of aggregateCachedMarketRows. */
  method AggregateCachedMarketRows(rows: seq<Row>, seconds: int) returns (output: seq<Row>)
    requires seconds > 0
    ensures output == Aggregate(rows, seconds)
  {
    hide BucketRow, InBucket, OfSeries, SortOut;
    output := [];
    var keys := SeriesKeys(rows);
    for i := 0 to |keys|
      invariant output == AllOf(rows, keys[..i], seconds)
    {
      assert keys[..i + 1][..i] == keys[..i];
      ghost var before := output;
      var own := OfSeries(rows, keys[i]);
      var buckets := BucketKeys(own, seconds);
      for k := 0 to |buckets|
        invariant output == before + BucketsOf(own, buckets[..k], seconds)
      {
        assert buckets[..k + 1][..k] == buckets[..k];
        var available := InBucket(own, seconds, buckets[k]);
        if available != [] {
          output := output + [BucketRow(available, seconds, buckets[k])];
        }
      }
      assert buckets[..|buckets|] == buckets;
    }
    assert keys[..|keys|] == keys;
    output := SortOut(output);
  }
}
