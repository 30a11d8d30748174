/** What an aggregated list holds: one row for each series and bucket, all of one granularity. */
module AggregationSteps {
  import opened Aggregation
  import opened AggregationLaws

  // ---- where the row of a bucket lies ----

  predicate Like(rows: seq<Row>, s: Series, low: int, high: int) {
    forall i :: 0 <= i < |rows| ==> Is(rows[i], s, low, high)
  }

  lemma {:induction false} LikeInserted(sorted: seq<Row>, r: Row, s: Series, low: int, high: int)
    requires Like(sorted, s, low, high) && Is(r, s, low, high)
    ensures Like(InsertRow(sorted, r), s, low, high)
    decreases |sorted|
  {
    hide Is, Before;
    if sorted != [] && Before(r, sorted[|sorted| - 1]) {
      LikeInserted(sorted[..|sorted| - 1], r, s, low, high);
    }
  }

  lemma {:induction false} LikeSorted(rows: seq<Row>, s: Series, low: int, high: int)
    requires Like(rows, s, low, high)
    ensures Like(SortRows(rows), s, low, high)
  {
    hide Is, InsertRow;
    if rows != [] {
      LikeSorted(rows[..|rows| - 1], s, low, high);
      LikeInserted(SortRows(rows[..|rows| - 1]), rows[|rows| - 1], s, low, high);
    }
  }

  lemma {:induction false} LikeFinest(rows: seq<Row>, g: int, s: Series, low: int, high: int)
    requires Like(rows, s, low, high)
    ensures Like(OfGranularity(rows, g), s, low, high)
  {
    hide Is;
    if rows != [] {
      LikeFinest(rows[..|rows| - 1], g, s, low, high);
    }
  }

  lemma MergedLies(ordered: seq<Row>, seconds: int, bucket: int, s: Series)
    requires ordered != [] && seconds > 0 && Like(ordered, s, bucket, bucket + Size(seconds))
    ensures Is(Merged(ordered, seconds, bucket), s, bucket, bucket + Size(seconds))
    ensures Is(ordered[0].(granularity := seconds), s, bucket, bucket + Size(seconds))
  {
    hide Highest, Lowest, Retrieved, Volume, Samples, AllFinalized;
    assert Is(ordered[0], s, bucket, bucket + Size(seconds));
  }

  lemma BucketRowLies(available: seq<Row>, seconds: int, bucket: int, s: Series)
    requires seconds > 0 && available != [] && Like(available, s, bucket, bucket + Size(seconds))
    ensures Is(BucketRow(available, seconds, bucket), s, bucket, bucket + Size(seconds))
  {
    hide Merged, Finest, OfGranularity, SortRows, Like, Is, Size;
    FinestIsThere(available);
    var finest := OfGranularity(available, Finest(available));
    LikeFinest(available, Finest(available), s, bucket, bucket + Size(seconds));
    LikeSorted(finest, s, bucket, bucket + Size(seconds));
    MergedLies(SortRows(finest), seconds, bucket, s);
  }

  lemma {:induction false} BucketIsLike(rows: seq<Row>, seconds: int, bucket: int, s: Series)
    requires seconds > 0 && Aligned(bucket, seconds) && forall i :: 0 <= i < |rows| ==> rows[i].series == s
    ensures Like(InBucket(rows, seconds, bucket), s, bucket, bucket + Size(seconds))
  {
    if rows != [] {
      BucketIsLike(rows[..|rows| - 1], seconds, bucket, s);
      FloorIff(rows[|rows| - 1].start, bucket, Size(seconds));
    }
  }

  // ---- one row a bucket ----

  // The row that the output has for a bucket, or nothing.
  function Expected(own: seq<Row>, seconds: int, bucket: int): seq<Row>
    requires seconds > 0
  {
    var available := InBucket(own, seconds, bucket);
    if available == [] then [] else [BucketRow(available, seconds, bucket)]
  }

  lemma OtherBucket(r: Row, s: Series, seconds: int, bucket: int, other: int)
    requires seconds > 0 && Aligned(bucket, seconds) && Aligned(other, seconds) && bucket != other
    requires Is(r, s, bucket, bucket + Size(seconds))
    ensures !Is(r, s, other, other + Size(seconds))
  {
    FloorIff(r.start, bucket, Size(seconds));
    FloorIff(r.start, other, Size(seconds));
  }

  predicate DistinctBuckets(keys: seq<int>, seconds: int)
    requires seconds > 0
  {
    && (forall i, j :: 0 <= i < j < |keys| ==> keys[i] != keys[j])
    && (forall i :: 0 <= i < |keys| ==> Aligned(keys[i], seconds))
  }

  lemma {:induction false} OwnBuckets(own: seq<Row>, keys: seq<int>, seconds: int, s: Series, bucket: int)
    requires seconds > 0 && Aligned(bucket, seconds) && DistinctBuckets(keys, seconds)
    requires forall i :: 0 <= i < |own| ==> own[i].series == s
    ensures Own(BucketsOf(own, keys, seconds), s, bucket, bucket + Size(seconds))
            == if bucket in keys then Expected(own, seconds, bucket) else []
  {
    hide BucketRow, Own, Is, InBucket;
    if keys == [] {
      OwnNothing(s, bucket, bucket + Size(seconds));
    } else {
      var front, b := keys[..|keys| - 1], keys[|keys| - 1];
      OwnBuckets(own, front, seconds, s, bucket);
      assert keys == front + [b];
      var available := InBucket(own, seconds, b);
      if available != [] {
        BucketIsLike(own, seconds, b, s);
        BucketRowLies(available, seconds, b, s);
        OwnSnoc(BucketsOf(own, front, seconds), BucketRow(available, seconds, b), s, bucket, bucket + Size(seconds));
        if b != bucket {
          OtherBucket(BucketRow(available, seconds, b), s, seconds, b, bucket);
        }
      }
    }
  }

  lemma OwnNothing(s: Series, low: int, high: int)
    ensures Own([], s, low, high) == []
  {
  }

  // The rows of other series do not count.
  lemma {:induction false} OwnOthers(own: seq<Row>, keys: seq<int>, seconds: int, s: Series, t: Series,
                                       low: int, high: int)
    requires seconds > 0 && s != t && DistinctBuckets(keys, seconds)
    requires forall i :: 0 <= i < |own| ==> own[i].series == t
    ensures Own(BucketsOf(own, keys, seconds), s, low, high) == []
  {
    hide BucketRow, Own, InBucket;
    if keys == [] {
      OwnNothing(s, low, high);
    } else {
      var front, b := keys[..|keys| - 1], keys[|keys| - 1];
      OwnOthers(own, front, seconds, s, t, low, high);
      var available := InBucket(own, seconds, b);
      if available != [] {
        BucketIsLike(own, seconds, b, t);
        BucketRowLies(available, seconds, b, t);
        OwnSnoc(BucketsOf(own, front, seconds), BucketRow(available, seconds, b), s, low, high);
      }
    }
  }

  lemma KeysAreDistinct(own: seq<Row>, seconds: int)
    requires seconds > 0
    ensures DistinctBuckets(BucketKeys(own, seconds), seconds)
  {
    BucketIn(own, seconds, 0);
  }

  lemma {:induction false} OwnAll(rows: seq<Row>, keys: seq<Series>, seconds: int, s: Series, bucket: int)
    requires seconds > 0 && Aligned(bucket, seconds)
    requires forall i, j :: 0 <= i < j < |keys| ==> keys[i] != keys[j]
    ensures Own(AllOf(rows, keys, seconds), s, bucket, bucket + Size(seconds))
            == if s in keys then Expected(OfSeries(rows, s), seconds, bucket) else []
  {
    hide Own, BucketsOf, BucketKeys, Expected, OfSeries;
    if keys == [] {
      OwnNothing(s, bucket, bucket + Size(seconds));
    } else {
      var front, t := keys[..|keys| - 1], keys[|keys| - 1];
      OwnAll(rows, front, seconds, s, bucket);
      assert keys == front + [t];
      var own := OfSeries(rows, t);
      AllOfSeries(rows, t);
      KeysAreDistinct(own, seconds);
      OwnConcat(AllOf(rows, front, seconds), BucketsOf(own, BucketKeys(own, seconds), seconds),
                s, bucket, bucket + Size(seconds));
      if s == t {
        OwnBuckets(own, BucketKeys(own, seconds), seconds, s, bucket);
        BucketIn(own, seconds, bucket);
        ExpectedNothing(own, seconds, bucket);
      } else {
        OwnOthers(own, BucketKeys(own, seconds), seconds, s, t, bucket, bucket + Size(seconds));
      }
    }
  }

  lemma ExpectedNothing(own: seq<Row>, seconds: int, bucket: int)
    requires seconds > 0
    ensures InBucket(own, seconds, bucket) == [] ==> Expected(own, seconds, bucket) == []
    ensures own == [] ==> Expected(own, seconds, bucket) == []
  {
  }

  lemma FromMultiset(xs: seq<Row>, ys: seq<Row>)
    requires multiset(xs) == multiset(ys) && |ys| <= 1
    ensures xs == ys
  {
    assert |xs| == |multiset(xs)| == |multiset(ys)| == |ys|;
    if |ys| == 1 {
      assert xs[0] in multiset(xs);
      assert xs[0] in ys;
    }
  }

  /** For each series and bucket the output holds exactly the row made of the bucket's rows, if it has any. */
  lemma OneRowABucket(rows: seq<Row>, seconds: int, s: Series, bucket: int)
    requires seconds > 0 && Aligned(bucket, seconds)
    ensures Own(Aggregate(rows, seconds), s, bucket, bucket + Size(seconds))
            == Expected(OfSeries(rows, s), seconds, bucket)
  {
    hide Own, AllOf, SortOut, SeriesKeys, Expected, OfSeries;
    var all := AllOf(rows, SeriesKeys(rows), seconds);
    SeriesIn(rows, s);
    OwnAll(rows, SeriesKeys(rows), seconds, s, bucket);
    OwnSortOut(all, s, bucket, bucket + Size(seconds));
    ExpectedNothing(OfSeries(rows, s), seconds, bucket);
    ExpectedLength(OfSeries(rows, s), seconds, bucket);
    FromMultiset(Own(SortOut(all), s, bucket, bucket + Size(seconds)), Own(all, s, bucket, bucket + Size(seconds)));
  }

  lemma ExpectedLength(own: seq<Row>, seconds: int, bucket: int)
    requires seconds > 0
    ensures |Expected(own, seconds, bucket)| <= 1
  {
  }

  // ---- granularities ----

  lemma {:induction false} BucketsGranularity(own: seq<Row>, keys: seq<int>, seconds: int)
    requires seconds > 0
    ensures OneGranularity(BucketsOf(own, keys, seconds), seconds)
  {
    hide InBucket;
    if keys != [] {
      BucketsGranularity(own, keys[..|keys| - 1], seconds);
      var available := InBucket(own, seconds, keys[|keys| - 1]);
      if available != [] {
        RowGranularity(available, seconds, keys[|keys| - 1]);
      }
    }
  }

  lemma RowGranularity(available: seq<Row>, seconds: int, bucket: int)
    requires available != []
    ensures BucketRow(available, seconds, bucket).granularity == seconds
  {
    hide Highest, Lowest, Retrieved, Volume, Samples, AllFinalized, Finest, OfGranularity, SortRows;
  }

  lemma {:induction false} AllGranularity(rows: seq<Row>, keys: seq<Series>, seconds: int)
    requires seconds > 0
    ensures OneGranularity(AllOf(rows, keys, seconds), seconds)
  {
    hide BucketsOf, BucketKeys, OfSeries;
    if keys != [] {
      AllGranularity(rows, keys[..|keys| - 1], seconds);
      var own := OfSeries(rows, keys[|keys| - 1]);
      BucketsGranularity(own, BucketKeys(own, seconds), seconds);
    }
  }

  lemma {:induction false} InsertedGranularity(sorted: seq<Row>, r: Row, g: int)
    requires OneGranularity(sorted, g) && r.granularity == g
    ensures OneGranularity(InsertOut(sorted, r), g)
    decreases |sorted|
  {
    hide OutBefore;
    if sorted != [] && OutBefore(r, sorted[|sorted| - 1]) {
      InsertedGranularity(sorted[..|sorted| - 1], r, g);
    }
  }

  lemma {:induction false} SortedGranularity(rows: seq<Row>, g: int)
    requires OneGranularity(rows, g)
    ensures OneGranularity(SortOut(rows), g)
  {
    hide InsertOut;
    if rows != [] {
      SortedGranularity(rows[..|rows| - 1], g);
      InsertedGranularity(SortOut(rows[..|rows| - 1]), rows[|rows| - 1], g);
    }
  }

  lemma AggregateGranularity(rows: seq<Row>, seconds: int)
    requires seconds > 0
    ensures OneGranularity(Aggregate(rows, seconds), seconds)
  {
    AllGranularity(rows, SeriesKeys(rows), seconds);
    SortedGranularity(AllOf(rows, SeriesKeys(rows), seconds), seconds);
  }
}
