/** Exactly when aggregating in two steps gives a series and bucket the row of aggregating at once. */
module AggregationAgreement {
  import opened Arithmetic
  import opened Aggregation
  import opened AggregationLaws
  import opened AggregationSteps

  // ---- selecting the finest rows ----

  lemma GranularitySnoc(rows: seq<Row>, r: Row, g: int)
    ensures OfGranularity(rows + [r], g)
            == if r.granularity == g then OfGranularity(rows, g) + [r] else OfGranularity(rows, g)
  {
    assert (rows + [r])[..|rows|] == rows;
  }

  lemma {:induction false} OwnOfGranularity(rows: seq<Row>, g: int, s: Series, low: int, high: int)
    ensures Own(OfGranularity(rows, g), s, low, high) == OfGranularity(Own(rows, s, low, high), g)
  {
    assert OfGranularity([], g) == [];
    hide Own, Is, OfGranularity;
    if rows == [] {
      OwnNothing(s, low, high);
    } else {
      var front, r := rows[..|rows| - 1], rows[|rows| - 1];
      OwnOfGranularity(front, g, s, low, high);
      assert rows == front + [r];
      GranularitySnoc(front, r, g);
      OwnSnoc(front, r, s, low, high);
      GranularitySnoc(Own(front, s, low, high), r, g);
      OwnSnoc(OfGranularity(front, g), r, s, low, high);
    }
  }

  lemma {:induction false} InOwn(rows: seq<Row>, s: Series, low: int, high: int, r: Row)
    ensures r in Own(rows, s, low, high) <==> r in rows && Is(r, s, low, high)
  {
    hide Own, Is;
    if rows == [] {
      OwnNothing(s, low, high);
    } else {
      var front, last := rows[..|rows| - 1], rows[|rows| - 1];
      InOwn(front, s, low, high, r);
      OwnSnoc(front, last, s, low, high);
      assert rows == front + [last];
    }
  }

  lemma {:induction false} InGranularity(rows: seq<Row>, g: int, r: Row)
    ensures r in OfGranularity(rows, g) <==> r in rows && r.granularity == g
  {
    if rows != [] {
      InGranularity(rows[..|rows| - 1], g, r);
      assert rows == rows[..|rows| - 1] + [rows[|rows| - 1]];
    }
  }

  // The finest granularity is that of some row, and no row is finer.
  lemma {:induction false} FinestIsLeast(rows: seq<Row>, r: Row)
    requires r in rows
    ensures Finest(rows) <= r.granularity
  {
    if |rows| > 1 {
      var front := rows[..|rows| - 1];
      assert rows == front + [rows[|rows| - 1]];
      if r in front {
        FinestIsLeast(front, r);
      }
    }
  }

  lemma FinestWithin(rows: seq<Row>, s: Series, low: int, high: int, low': int, high': int)
    requires low <= low' && high' <= high && Own(rows, s, low', high') != []
    ensures Own(rows, s, low, high) != [] && Finest(Own(rows, s, low, high)) <= Finest(Own(rows, s, low', high'))
  {
    var some := OfGranularity(Own(rows, s, low', high'), Finest(Own(rows, s, low', high')));
    FinestIsThere(Own(rows, s, low', high'));
    var r := some[0];
    hide Own, Finest, OfGranularity;
    InGranularity(Own(rows, s, low', high'), Finest(Own(rows, s, low', high')), r);
    InOwn(rows, s, low', high', r);
    InOwn(rows, s, low, high, r);
    FinestIsLeast(Own(rows, s, low, high), r);
  }

  // ---- bucket by bucket ----

  lemma {:induction false} EmptyInterval(rows: seq<Row>, x: int)
    ensures Between(rows, x, x) == []
  {
    if rows != [] {
      EmptyInterval(rows[..|rows| - 1], x);
    }
  }

  // Where the j-th bucket starts.
  function Start(j: int, seconds: int): int {
    j * Size(seconds)
  }

  lemma StartIsAligned(j: int, seconds: int)
    requires seconds > 0
    ensures Aligned(Start(j, seconds), seconds) && Size(seconds) > 0
    ensures Start(j, seconds) == Start(j - 1, seconds) + Size(seconds)
  {
    DivMod(j, 0, Size(seconds));
  }

  lemma StartsAscend(m: int, j: int, seconds: int)
    requires seconds > 0 && m <= j
    ensures Start(m, seconds) <= Start(j, seconds)
  {
    assert Start(j, seconds) == Start(m, seconds) + (j - m) * Size(seconds);
    assert (j - m) * Size(seconds) >= 0;
  }

  // The rows of a series in an interval, in order.
  function Ordered(rows: seq<Row>, s: Series, low: int, high: int): seq<Row> {
    SortRows(Own(rows, s, low, high))
  }

  // Either way the interval merges to the same row.
  predicate SameMerge(xs: seq<Row>, ys: seq<Row>, coarse: int, outer: int) {
    (xs == [] <==> ys == []) && (xs != [] && ys != [] ==> Merged(xs, coarse, outer) == Merged(ys, coarse, outer))
  }

  lemma SameMergePieces(s: seq<Row>, t: seq<Row>, s': seq<Row>, t': seq<Row>, coarse: int, outer: int)
    requires SameMerge(s, s', coarse, outer) && SameMerge(t, t', coarse, outer)
    ensures SameMerge(s + t, s' + t', coarse, outer)
  {
    hide Merged;
    if s == [] {
      assert s + t == t && s' + t' == t';
    } else if t == [] {
      assert s + t == s && s' + t' == s';
    } else {
      MergedPieces(s, t, s', t', coarse, outer);
    }
  }

  lemma SortOne(r: Row)
    ensures SortRows([r]) == [r] && SortRows([]) == []
  {
    assert [r][..0] == [];
  }

  /** The rows of a fine bucket, if any, have the granularity f as their finest. */
  predicate FinestAt(rows: seq<Row>, f: int, fine: int, s: Series, j: int) {
    var own := Own(rows, s, Start(j, fine), Start(j, fine) + Size(fine));
    own != [] ==> Finest(own) == f
  }

  // What the output has for a bucket, by the bucket's own rows.
  lemma OwnOfAggregate(rows: seq<Row>, seconds: int, s: Series, bucket: int)
    requires seconds > 0 && Aligned(bucket, seconds)
    ensures var own := Own(rows, s, bucket, bucket + Size(seconds));
            Own(Aggregate(rows, seconds), s, bucket, bucket + Size(seconds))
            == if own == [] then [] else [BucketRow(own, seconds, bucket)]
  {
    OneRowABucket(rows, seconds, s, bucket);
    InBucketIsBetween(OfSeries(rows, s), seconds, bucket);
    hide Aggregate, BucketRow, Between, OfSeries;
  }

  lemma AggregateOrdered(rows: seq<Row>, seconds: int, s: Series, bucket: int)
    requires seconds > 0 && Aligned(bucket, seconds)
    ensures var own := Own(rows, s, bucket, bucket + Size(seconds));
            Ordered(Aggregate(rows, seconds), s, bucket, bucket + Size(seconds))
            == if own == [] then [] else [BucketRow(own, seconds, bucket)]
  {
    hide Aggregate, BucketRow, Own, SortRows;
    OwnOfAggregate(rows, seconds, s, bucket);
    var own := Own(rows, s, bucket, bucket + Size(seconds));
    if own != [] {
      SortOne(BucketRow(own, seconds, bucket));
    }
  }

  // The rows of the granularity f, in order.
  lemma SelectedOf(rows: seq<Row>, f: int, s: Series, low: int, high: int)
    ensures Ordered(OfGranularity(rows, f), s, low, high) == SortRows(OfGranularity(Own(rows, s, low, high), f))
    ensures Own(rows, s, low, high) == [] ==> Ordered(OfGranularity(rows, f), s, low, high) == []
  {
    OwnOfGranularity(rows, f, s, low, high);
  }

  // One fine bucket.
  lemma StepsAt(rows: seq<Row>, f: int, fine: int, s: Series, low: int, coarse: int, outer: int)
    requires fine > 0 && Aligned(low, fine)
    requires var own := Own(rows, s, low, low + Size(fine)); own != [] ==> Finest(own) == f
    ensures SameMerge(Ordered(OfGranularity(rows, f), s, low, low + Size(fine)),
                      Ordered(Aggregate(rows, fine), s, low, low + Size(fine)), coarse, outer)
  {
    hide Merged, Aggregate, BucketRow, Own, Finest, OfGranularity, Ordered, SortRows, Size, Aligned;
    var high := low + Size(fine);
    AggregateOrdered(rows, fine, s, low);
    SelectedOf(rows, f, s, low, high);
    var own := Own(rows, s, low, high);
    if own != [] {
      MergedOfBucketRow(own, fine, low, coarse, outer);
      SortedLength(OfGranularity(own, f));
    }
  }

  lemma BucketSteps(rows: seq<Row>, f: int, fine: int, s: Series, j: int, coarse: int, outer: int)
    requires fine > 0 && FinestAt(rows, f, fine, s, j)
    ensures var low, high := Start(j, fine), Start(j, fine) + Size(fine);
            SameMerge(Ordered(OfGranularity(rows, f), s, low, high), Ordered(Aggregate(rows, fine), s, low, high),
                      coarse, outer)
  {
    hide Aggregate, Own, Finest, OfGranularity, Ordered, SameMerge, Size, Aligned, Start;
    StartIsAligned(j, fine);
    StepsAt(rows, f, fine, s, Start(j, fine), coarse, outer);
  }

  lemma OrderedSplits(rows: seq<Row>, s: Series, low: int, mid: int, high: int)
    requires low <= mid <= high
    ensures Ordered(rows, s, low, high) == Ordered(rows, s, low, mid) + Ordered(rows, s, mid, high)
  {
    SortSplits(OfSeries(rows, s), low, mid, high);
  }

  // The first k fine buckets of a coarse one.
  lemma {:induction false} Steps(rows: seq<Row>, f: int, fine: int, s: Series, m: int, k: int, coarse: int, outer: int)
    requires fine > 0 && 0 <= k && forall j :: m <= j < m + k ==> FinestAt(rows, f, fine, s, j)
    ensures var low, high := Start(m, fine), Start(m + k, fine);
            SameMerge(Ordered(OfGranularity(rows, f), s, low, high), Ordered(Aggregate(rows, fine), s, low, high),
                      coarse, outer)
    decreases k
  {
    hide SameMerge, Ordered, Aggregate, OfGranularity, FinestAt, Start, Size, Aligned;
    var low, high := Start(m, fine), Start(m + k, fine);
    var selected, agg := OfGranularity(rows, f), Aggregate(rows, fine);
    if k == 0 {
      NothingOrdered(selected, s, low);
      NothingOrdered(agg, s, low);
      NothingMerges(coarse, outer);
    } else {
      var mid := Start(m + k - 1, fine);
      StartIsAligned(m + k, fine);
      StartsAscend(m, m + k - 1, fine);
      Steps(rows, f, fine, s, m, k - 1, coarse, outer);
      BucketSteps(rows, f, fine, s, m + k - 1, coarse, outer);
      OrderedSplits(selected, s, low, mid, high);
      OrderedSplits(agg, s, low, mid, high);
      SameMergePieces(Ordered(selected, s, low, mid), Ordered(selected, s, mid, high),
                      Ordered(agg, s, low, mid), Ordered(agg, s, mid, high), coarse, outer);
    }
  }

  lemma NothingOrdered(rows: seq<Row>, s: Series, x: int)
    ensures Ordered(rows, s, x, x) == []
  {
    EmptyInterval(OfSeries(rows, s), x);
  }

  lemma NothingMerges(coarse: int, outer: int)
    ensures SameMerge([], [], coarse, outer)
  {
  }

  // ---- counting samples ----

  predicate Positive(rows: seq<Row>) {
    forall r <- rows :: 0 < r.samples
  }

  lemma {:induction false} InInserted(sorted: seq<Row>, r: Row, x: Row)
    ensures x in InsertRow(sorted, r) <==> x in sorted || x == r
    decreases |sorted|
  {
    hide Before;
    if sorted != [] && Before(r, sorted[|sorted| - 1]) {
      InInserted(sorted[..|sorted| - 1], r, x);
      assert sorted == sorted[..|sorted| - 1] + [sorted[|sorted| - 1]];
    }
  }

  lemma {:induction false} InSorted(rows: seq<Row>, x: Row)
    ensures x in SortRows(rows) <==> x in rows
  {
    hide InsertRow;
    if rows != [] {
      InSorted(rows[..|rows| - 1], x);
      InInserted(SortRows(rows[..|rows| - 1]), rows[|rows| - 1], x);
      assert rows == rows[..|rows| - 1] + [rows[|rows| - 1]];
    }
  }

  lemma {:induction false} SamplesPositive(rows: seq<Row>)
    requires Positive(rows)
    ensures rows != [] ==> 0 < Samples(rows)
  {
    if rows != [] {
      SamplesPositive(rows[..|rows| - 1]);
      assert rows[|rows| - 1] in rows;
    }
  }

  lemma OwnIsPositive(rows: seq<Row>, s: Series, low: int, high: int)
    requires Positive(rows)
    ensures Positive(Own(rows, s, low, high))
  {
    forall r <- Own(rows, s, low, high)
      ensures 0 < r.samples
    {
      InOwn(rows, s, low, high, r);
    }
  }

  lemma SelectedIsPositive(rows: seq<Row>, f: int)
    requires Positive(rows)
    ensures Positive(SortRows(OfGranularity(rows, f)))
  {
    forall r <- SortRows(OfGranularity(rows, f))
      ensures 0 < r.samples
    {
      InSorted(OfGranularity(rows, f), r);
      InGranularity(rows, f, r);
    }
  }

  lemma NoneFiner(own: seq<Row>, f: int)
    requires own != [] && f < Finest(own)
    ensures SortRows(OfGranularity(own, f)) == []
  {
    if OfGranularity(own, f) != [] {
      var r := OfGranularity(own, f)[0];
      InGranularity(own, f, r);
      FinestIsLeast(own, r);
    }
  }

  // The row of a bucket counts at least as many samples as its rows of a granularity do that is no coarser than its
  // finest one, and more if it is finer.
  lemma SamplesOf(own: seq<Row>, f: int, fine: int, low: int)
    requires own != [] && Positive(own) && f <= Finest(own)
    ensures Samples(SortRows(OfGranularity(own, f))) <= BucketRow(own, fine, low).samples
    ensures Finest(own) != f ==> Samples(SortRows(OfGranularity(own, f))) < BucketRow(own, fine, low).samples
  {
    MergedOfBucketRow(own, fine, low, fine, low);
    SelectedIsPositive(own, Finest(own));
    SamplesPositive(SortRows(OfGranularity(own, Finest(own))));
    if f < Finest(own) {
      NoneFiner(own, f);
    }
    hide Merged, BucketRow, Finest, OfGranularity;
  }

  // One fine bucket: in two steps at least as many samples are counted, and more if its finest rows are coarser.
  lemma SamplesAt(rows: seq<Row>, f: int, fine: int, s: Series, low: int)
    requires fine > 0 && Positive(rows) && Aligned(low, fine)
    requires var own := Own(rows, s, low, low + Size(fine)); own != [] ==> f <= Finest(own)
    ensures var own := Own(rows, s, low, low + Size(fine));
            var once, twice := Samples(Ordered(OfGranularity(rows, f), s, low, low + Size(fine))),
                               Samples(Ordered(Aggregate(rows, fine), s, low, low + Size(fine)));
            once <= twice && (own != [] && Finest(own) != f ==> once < twice)
  {
    hide Aggregate, BucketRow, Own, Finest, OfGranularity, Ordered, SortRows, Samples, Positive, Size, Aligned;
    var own := Own(rows, s, low, low + Size(fine));
    AggregateOrdered(rows, fine, s, low);
    SelectedOf(rows, f, s, low, low + Size(fine));
    if own != [] {
      OwnIsPositive(rows, s, low, low + Size(fine));
      SamplesOf(own, f, fine, low);
      Singleton(BucketRow(own, fine, low));
    }
  }

  lemma BucketSamples(rows: seq<Row>, f: int, fine: int, s: Series, j: int)
    requires fine > 0 && Positive(rows)
    requires var own := Own(rows, s, Start(j, fine), Start(j, fine) + Size(fine)); own != [] ==> f <= Finest(own)
    ensures var low, high := Start(j, fine), Start(j, fine) + Size(fine);
            var once, twice := Samples(Ordered(OfGranularity(rows, f), s, low, high)),
                               Samples(Ordered(Aggregate(rows, fine), s, low, high));
            once <= twice && (!FinestAt(rows, f, fine, s, j) ==> once < twice)
  {
    StartIsAligned(j, fine);
    hide Aggregate, Own, Finest, OfGranularity, Ordered, Samples, Positive, Size, Aligned, Start;
    SamplesAt(rows, f, fine, s, Start(j, fine));
  }

  // The first k fine buckets of a coarse one.
  lemma {:induction false} SamplesSteps(rows: seq<Row>, f: int, fine: int, s: Series, m: int, k: int, j: int)
    requires fine > 0 && 0 <= k && Positive(rows)
    requires var own := Own(rows, s, Start(m, fine), Start(m + k, fine)); own != [] ==> f <= Finest(own)
    ensures var low, high := Start(m, fine), Start(m + k, fine);
            var once, twice := Samples(Ordered(OfGranularity(rows, f), s, low, high)),
                               Samples(Ordered(Aggregate(rows, fine), s, low, high));
            once <= twice && (m <= j < m + k && !FinestAt(rows, f, fine, s, j) ==> once < twice)
    decreases k
  {
    hide Ordered, Aggregate, OfGranularity, FinestAt, Own, Finest, Samples, Positive, Start, Size, Aligned;
    var low, high := Start(m, fine), Start(m + k, fine);
    var selected, agg := OfGranularity(rows, f), Aggregate(rows, fine);
    if k == 0 {
      NothingOrdered(selected, s, low);
      NothingOrdered(agg, s, low);
    } else {
      var mid := Start(m + k - 1, fine);
      StartIsAligned(m + k, fine);
      StartsAscend(m, m + k - 1, fine);
      if Own(rows, s, low, mid) != [] {
        FinestWithin(rows, s, low, high, low, mid);
      }
      if Own(rows, s, mid, high) != [] {
        FinestWithin(rows, s, low, high, mid, high);
      }
      SamplesSteps(rows, f, fine, s, m, k - 1, j);
      BucketSamples(rows, f, fine, s, m + k - 1);
      OrderedSplits(selected, s, low, mid, high);
      OrderedSplits(agg, s, low, mid, high);
      Added(Ordered(selected, s, low, mid), Ordered(selected, s, mid, high));
      Added(Ordered(agg, s, low, mid), Ordered(agg, s, mid, high));
    }
  }

  // ---- the theorem ----

  /** The rows of the q-th coarse bucket, which spans n fine ones. */
  function CoarseOwn(rows: seq<Row>, fine: int, n: int, s: Series, q: int): seq<Row> {
    Own(rows, s, Start(q, n * fine), Start(q, n * fine) + Size(n * fine))
  }

  /** Every fine bucket with any rows has one of the finest granularity in its coarse bucket. */
  predicate Uniform(rows: seq<Row>, fine: int, n: int, s: Series, q: int) {
    var own := CoarseOwn(rows, fine, n, s, q);
    own != [] ==> forall j :: q * n <= j < q * n + n ==> FinestAt(rows, Finest(own), fine, s, j)
  }

  /** If the finest rows of the bucket are a single one of the bucket's own granularity, which aggregating at once
      would pass on as it is, it looks like an aggregated one. */
  predicate Plain(rows: seq<Row>, fine: int, n: int, s: Series, q: int) {
    var own := CoarseOwn(rows, fine, n, s, q);
    own != [] && Finest(own) == n * fine && |OfGranularity(own, n * fine)| == 1 ==>
      var r := OfGranularity(own, n * fine)[0];
      r == Merged([r], n * fine, Start(q, n * fine))
  }

  /** What the two ways give for the bucket. */
  function AtOnce(rows: seq<Row>, fine: int, n: int, s: Series, q: int): seq<Row>
    requires 0 < n * fine
  {
    CoarseOwn(Aggregate(rows, n * fine), fine, n, s, q)
  }

  function InTwoSteps(rows: seq<Row>, fine: int, n: int, s: Series, q: int): seq<Row>
    requires 0 < fine && 0 < n * fine
  {
    CoarseOwn(Aggregate(Aggregate(rows, fine), n * fine), fine, n, s, q)
  }

  lemma Whole(q: int, n: int, fine: int)
    ensures Start(q, n * fine) == Start(q * n, fine)
    ensures Start(q, n * fine) + Size(n * fine) == Start(q * n + n, fine)
  {
    assert Size(n * fine) == n * Size(fine);
    assert q * (n * Size(fine)) == (q * n) * Size(fine);
  }

  lemma Product(n: int, fine: int)
    requires 0 < n && 0 < fine
    ensures 0 < n * fine && (n == 1 ==> n * fine == fine) && (n > 1 ==> fine < n * fine)
  {
    if n > 1 {
      assert n * fine == fine + (n - 1) * fine;
      assert (n - 1) * fine > 0;
    }
  }

  // The row of a bucket, by its ordered finest rows.
  lemma RowOf(own: seq<Row>, seconds: int, bucket: int)
    requires own != []
    ensures OfGranularity(own, Finest(own)) != []
    ensures var finest := OfGranularity(own, Finest(own));
            BucketRow(own, seconds, bucket)
            == if Finest(own) == seconds && |finest| == 1 then finest[0] else Merged(SortRows(finest), seconds, bucket)
  {
    FinestIsThere(own);
    var finest := OfGranularity(own, Finest(own));
    InGranularity(own, Finest(own), finest[0]);
    SortOne(finest[0]);
    if |finest| == 1 {
      assert finest == [finest[0]];
    }
    hide Merged, Finest, OfGranularity, SortRows;
  }

  // Rows that were aggregated are all of one granularity.
  lemma RowOfAggregated(rows: seq<Row>, fine: int, n: int, s: Series, q: int, bucket: int)
    requires 0 < fine && 0 < n
    ensures var twice := CoarseOwn(Aggregate(rows, fine), fine, n, s, q);
            twice != [] ==>
              && (n > 1 ==> BucketRow(twice, n * fine, bucket) == Merged(SortRows(twice), n * fine, bucket))
              && BucketRow(twice, n * fine, bucket).samples == Samples(SortRows(twice))
  {
    var twice := CoarseOwn(Aggregate(rows, fine), fine, n, s, q);
    Product(n, fine);
    AggregateGranularity(rows, fine);
    hide Aggregate, Own, BucketRow, Finest, OfGranularity, SortRows, Merged, Samples;
    OwnGranularity(Aggregate(rows, fine), fine, s, Start(q, n * fine), Start(q, n * fine) + Size(n * fine));
    FinestOfOne(twice, fine);
    if twice != [] {
      RowOf(twice, n * fine, bucket);
      MergedOfBucketRow(twice, n * fine, bucket, n * fine, bucket);
    }
  }

  lemma OwnGranularity(rows: seq<Row>, g: int, s: Series, low: int, high: int)
    requires OneGranularity(rows, g)
    ensures OneGranularity(Own(rows, s, low, high), g)
  {
    forall i | 0 <= i < |Own(rows, s, low, high)|
      ensures Own(rows, s, low, high)[i].granularity == g
    {
      InOwn(rows, s, low, high, Own(rows, s, low, high)[i]);
    }
  }

  lemma OneWay(rows: seq<Row>, seconds: int, s: Series, q: int)
    requires 0 < seconds
    ensures var own := Own(rows, s, Start(q, seconds), Start(q, seconds) + Size(seconds));
            Own(Aggregate(rows, seconds), s, Start(q, seconds), Start(q, seconds) + Size(seconds))
            == if own == [] then [] else [BucketRow(own, seconds, Start(q, seconds))]
  {
    StartIsAligned(q, seconds);
    hide Aggregate, BucketRow, Own, Size, Aligned;
    OwnOfAggregate(rows, seconds, s, Start(q, seconds));
  }

  // Both ways in terms of the rows they merge.
  lemma BothWays(rows: seq<Row>, fine: int, n: int, s: Series, q: int)
    requires 0 < fine && 0 < n
    ensures 0 < n * fine
    ensures var own, twice := CoarseOwn(rows, fine, n, s, q), CoarseOwn(Aggregate(rows, fine), fine, n, s, q);
            var bucket := Start(q, n * fine);
            && AtOnce(rows, fine, n, s, q) == (if own == [] then [] else [BucketRow(own, n * fine, bucket)])
            && InTwoSteps(rows, fine, n, s, q) == (if twice == [] then [] else [BucketRow(twice, n * fine, bucket)])
  {
    hide Aggregate, BucketRow, Own, Size;
    Product(n, fine);
    OneWay(rows, n * fine, s, q);
    OneWay(Aggregate(rows, fine), n * fine, s, q);
  }

  // Aggregating again to the same granularity keeps the row.
  lemma SameGranularity(rows: seq<Row>, fine: int, s: Series, q: int)
    requires 0 < fine
    ensures 0 < 1 * fine && InTwoSteps(rows, fine, 1, s, q) == AtOnce(rows, fine, 1, s, q)
  {
    var bucket := Start(q, fine);
    assert 1 * fine == fine;
    BothWays(rows, fine, 1, s, q);
    hide Aggregate, BucketRow, Own, Finest;
    var own := CoarseOwn(rows, fine, 1, s, q);
    if own != [] {
      var row := BucketRow(own, fine, bucket);
      RowGranularity(own, fine, bucket);
      FinestOfOne([row], fine);
      RowOf([row], fine, bucket);
      hide OfGranularity;
      assert BucketRow([row], fine, bucket) == row;
    }
  }

  // The steps over the whole coarse bucket.
  lemma WholeSteps(rows: seq<Row>, f: int, fine: int, n: int, s: Series, q: int)
    requires 0 < fine && 0 < n && forall j :: q * n <= j < q * n + n ==> FinestAt(rows, f, fine, s, j)
    ensures SameMerge(SortRows(OfGranularity(CoarseOwn(rows, fine, n, s, q), f)),
                      SortRows(CoarseOwn(Aggregate(rows, fine), fine, n, s, q)), n * fine, Start(q, n * fine))
  {
    hide Aggregate, Own, OfGranularity, SortRows, Merged, FinestAt, SameMerge;
    Whole(q, n, fine);
    Steps(rows, f, fine, s, q * n, n, n * fine, Start(q, n * fine));
    SelectedOf(rows, f, s, Start(q, n * fine), Start(q, n * fine) + Size(n * fine));
  }

  // A coarse bucket without rows has no fine ones with rows.
  lemma NothingInside(rows: seq<Row>, fine: int, n: int, s: Series, q: int, f: int)
    requires 0 < fine && 0 < n && CoarseOwn(rows, fine, n, s, q) == []
    ensures forall j :: q * n <= j < q * n + n ==> FinestAt(rows, f, fine, s, j)
  {
    hide Own, Finest;
    Whole(q, n, fine);
    forall j | q * n <= j < q * n + n
      ensures FinestAt(rows, f, fine, s, j)
    {
      StartsAscend(q * n, j, fine);
      StartsAscend(j + 1, q * n + n, fine);
      StartIsAligned(j + 1, fine);
      if Own(rows, s, Start(j, fine), Start(j, fine) + Size(fine)) != [] {
        FinestWithin(rows, s, Start(q, n * fine), Start(q, n * fine) + Size(n * fine),
                     Start(j, fine), Start(j, fine) + Size(fine));
      }
    }
  }

  lemma SortedLength(rows: seq<Row>)
    ensures SortRows(rows) == [] <==> rows == []
  {
  }

  lemma EmptyBuckets(rows: seq<Row>, fine: int, n: int, s: Series, q: int)
    requires 0 < fine && 0 < n && CoarseOwn(rows, fine, n, s, q) == []
    ensures 0 < n * fine && InTwoSteps(rows, fine, n, s, q) == AtOnce(rows, fine, n, s, q) == []
  {
    BothWays(rows, fine, n, s, q);
    NothingInside(rows, fine, n, s, q, 0);
    WholeSteps(rows, 0, fine, n, s, q);
    SortedLength(CoarseOwn(Aggregate(rows, fine), fine, n, s, q));
    hide Aggregate, Own, BucketRow, Merged;
  }

  lemma UnfoldSameMerge(xs: seq<Row>, ys: seq<Row>, coarse: int, outer: int)
    requires SameMerge(xs, ys, coarse, outer) && xs != []
    ensures ys != [] && Merged(xs, coarse, outer) == Merged(ys, coarse, outer)
  {
  }

  /** With uniform granularity and more than one fine bucket, the two ways agree exactly if what is passed on as it
      is looks aggregated. */
  lemma UniformIff(rows: seq<Row>, fine: int, n: int, s: Series, q: int)
    requires 0 < fine && 1 < n && CoarseOwn(rows, fine, n, s, q) != [] && Uniform(rows, fine, n, s, q)
    ensures 0 < n * fine
    ensures InTwoSteps(rows, fine, n, s, q) == AtOnce(rows, fine, n, s, q) <==> Plain(rows, fine, n, s, q)
  {
    hide Aggregate, CoarseOwn, BucketRow, Merged, Finest, OfGranularity, SortRows, Size, FinestAt, SameMerge,
         AtOnce, InTwoSteps;
    var own, twice := CoarseOwn(rows, fine, n, s, q), CoarseOwn(Aggregate(rows, fine), fine, n, s, q);
    var coarse, bucket := n * fine, Start(q, n * fine);
    var finest := OfGranularity(own, Finest(own));
    BothWays(rows, fine, n, s, q);
    WholeSteps(rows, Finest(own), fine, n, s, q);
    RowOf(own, coarse, bucket);
    RowOfAggregated(rows, fine, n, s, q, bucket);
    SortOne(finest[0]);
    SortedLength(finest);
    SortedLength(twice);
    UnfoldSameMerge(SortRows(finest), SortRows(twice), coarse, bucket);
    if Finest(own) == coarse && |finest| == 1 {
      assert finest == [finest[0]];
    }
  }

  // Over the whole coarse bucket more samples are counted in two steps, if some fine bucket is coarser.
  lemma WholeSamples(rows: seq<Row>, fine: int, n: int, s: Series, q: int, j: int)
    requires 0 < fine && 0 < n && Positive(rows) && CoarseOwn(rows, fine, n, s, q) != []
    requires q * n <= j < q * n + n && !FinestAt(rows, Finest(CoarseOwn(rows, fine, n, s, q)), fine, s, j)
    ensures var own := CoarseOwn(rows, fine, n, s, q);
            Samples(SortRows(OfGranularity(own, Finest(own))))
            < Samples(SortRows(CoarseOwn(Aggregate(rows, fine), fine, n, s, q)))
  {
    hide Aggregate, Own, Finest, OfGranularity, SortRows, Samples, FinestAt, Positive, Size;
    var f := Finest(CoarseOwn(rows, fine, n, s, q));
    Whole(q, n, fine);
    SamplesSteps(rows, f, fine, s, q * n, n, j);
    SelectedOf(rows, f, s, Start(q, n * fine), Start(q, n * fine) + Size(n * fine));
  }

  /** Otherwise they count different numbers of samples. */
  lemma OthersDiffer(rows: seq<Row>, fine: int, n: int, s: Series, q: int)
    requires 0 < fine && 0 < n && Positive(rows) && !Uniform(rows, fine, n, s, q)
    ensures 0 < n * fine && InTwoSteps(rows, fine, n, s, q) != AtOnce(rows, fine, n, s, q)
  {
    var own := CoarseOwn(rows, fine, n, s, q);
    var j :| q * n <= j < q * n + n && !FinestAt(rows, Finest(own), fine, s, j);
    hide Aggregate, CoarseOwn, BucketRow, Merged, Finest, OfGranularity, SortRows, Samples, FinestAt, Positive, Size,
         AtOnce, InTwoSteps;
    BothWays(rows, fine, n, s, q);
    WholeSamples(rows, fine, n, s, q, j);
    RowOfAggregated(rows, fine, n, s, q, Start(q, n * fine));
    MergedOfBucketRow(own, n * fine, Start(q, n * fine), n * fine, Start(q, n * fine));
  }

  /** For rows with positive sample counts, going to a finer bucket first gives a series and coarse bucket the row
      of aggregating at once exactly if every fine bucket with any rows has one of the coarse bucket's finest
      granularity, and, unless there is only one fine bucket, a row that is passed on as it is looks aggregated. */
  lemma TwoStepsAreOneIff(rows: seq<Row>, fine: int, n: int, s: Series, q: int)
    requires 0 < fine && 0 < n && Positive(rows)
    ensures 0 < n * fine
    ensures InTwoSteps(rows, fine, n, s, q) == AtOnce(rows, fine, n, s, q)
            <==> Uniform(rows, fine, n, s, q) && (n > 1 ==> Plain(rows, fine, n, s, q))
  {
    assert CoarseOwn(rows, fine, n, s, q) == [] ==> Plain(rows, fine, n, s, q);
    hide AtOnce, InTwoSteps, Uniform, Plain, Positive;
    Product(n, fine);
    if !Uniform(rows, fine, n, s, q) {
      OthersDiffer(rows, fine, n, s, q);
    } else if n == 1 {
      SameGranularity(rows, fine, s, q);
    } else if CoarseOwn(rows, fine, n, s, q) == [] {
      EmptyBuckets(rows, fine, n, s, q);
    } else {
      UniformIff(rows, fine, n, s, q);
    }
  }

  /** So it is, whatever the sample counts, for rows of one granularity, unless that is the coarse one itself. */
  lemma TwoStepsAreOne(rows: seq<Row>, g: int, fine: int, n: int, s: Series, q: int)
    requires OneGranularity(rows, g) && 0 < fine && 0 < n && (g == n * fine ==> n == 1)
    ensures 0 < n * fine && InTwoSteps(rows, fine, n, s, q) == AtOnce(rows, fine, n, s, q)
  {
    hide AtOnce, InTwoSteps;
    Product(n, fine);
    if n == 1 {
      SameGranularity(rows, fine, s, q);
    } else if CoarseOwn(rows, fine, n, s, q) == [] {
      EmptyBuckets(rows, fine, n, s, q);
    } else {
      OneGranularityIsUniform(rows, g, fine, n, s, q);
      UniformIff(rows, fine, n, s, q);
    }
  }

  lemma FinestOfOneAt(rows: seq<Row>, g: int, fine: int, s: Series, j: int)
    requires OneGranularity(rows, g)
    ensures FinestAt(rows, g, fine, s, j)
  {
    hide Own, Finest, Size;
    OwnGranularity(rows, g, s, Start(j, fine), Start(j, fine) + Size(fine));
    FinestOfOne(Own(rows, s, Start(j, fine), Start(j, fine) + Size(fine)), g);
  }

  lemma OneGranularityIsUniform(rows: seq<Row>, g: int, fine: int, n: int, s: Series, q: int)
    requires OneGranularity(rows, g)
    ensures Uniform(rows, fine, n, s, q)
    ensures g != n * fine ==> Plain(rows, fine, n, s, q)
  {
    hide Own, FinestAt, OfGranularity, Merged, Finest, Size;
    var own := CoarseOwn(rows, fine, n, s, q);
    OwnGranularity(rows, g, s, Start(q, n * fine), Start(q, n * fine) + Size(n * fine));
    FinestOfOne(own, g);
    forall j | q * n <= j < q * n + n {
      FinestOfOneAt(rows, g, fine, s, j);
    }
  }
}
