/** What an aggregated row says of the rows it is made of, and the order of the output. */
module AggregationRows {
  import opened Wrappers
  import opened Aggregation
  import opened AggregationLaws
  import opened AggregationSteps
  import opened AggregationAgreement

  // ---- which rows of a bucket count ----

  /** No row of the bucket is finer. */
  predicate Counts(available: seq<Row>, r: Row) {
    r in available && forall x <- available :: r.granularity <= x.granularity
  }

  lemma SelectedCount(available: seq<Row>, r: Row)
    requires available != []
    ensures r in OfGranularity(available, Finest(available)) <==> Counts(available, r)
  {
    var g := Finest(available);
    FinestIsThere(available);
    var some := OfGranularity(available, g)[0];
    InGranularity(available, g, some);
    InGranularity(available, g, r);
    hide OfGranularity, Finest;
    forall x <- available {
      FinestIsLeast(available, x);
    }
  }

  /** A single row counts, and it has the granularity that is asked for. */
  ghost predicate Alone(available: seq<Row>, i: int, seconds: int)
    requires 0 <= i < |available|
  {
    && Counts(available, available[i]) && available[i].granularity == seconds
    && forall k :: 0 <= k < |available| && k != i ==> !Counts(available, available[k])
  }

  lemma {:induction false} NoneSelected(rows: seq<Row>, g: int)
    ensures OfGranularity(rows, g) == [] <==> forall k :: 0 <= k < |rows| ==> rows[k].granularity != g
  {
    if rows != [] {
      NoneSelected(rows[..|rows| - 1], g);
    }
  }

  // One row is selected exactly if one row has the granularity.
  lemma {:induction false} OneSelected(rows: seq<Row>, g: int)
    returns (i: int)
    ensures |OfGranularity(rows, g)| == 1 ==>
              && 0 <= i < |rows| && rows[i].granularity == g && OfGranularity(rows, g) == [rows[i]]
              && forall k :: 0 <= k < |rows| && k != i ==> rows[k].granularity != g
    ensures forall j :: 0 <= j < |rows| && rows[j].granularity == g
                        && (forall k :: 0 <= k < |rows| && k != j ==> rows[k].granularity != g)
                        ==> |OfGranularity(rows, g)| == 1
  {
    i := 0;
    if rows != [] {
      var last := |rows| - 1;
      i := OneSelected(rows[..last], g);
      NoneSelected(rows[..last], g);
      if rows[last].granularity == g {
        i := last;
      }
      forall j | 0 <= j < |rows| && rows[j].granularity == g
                 && (forall k :: 0 <= k < |rows| && k != j ==> rows[k].granularity != g)
        ensures |OfGranularity(rows, g)| == 1
      {
        if j < last {
          assert rows[..last][j].granularity == g;
        }
      }
    }
  }

  // ---- sums ----

  /** The samples of the rows of a granularity. */
  function SamplesOfAll(rows: seq<Row>, g: int): int {
    if rows == [] then 0
    else SamplesOfAll(rows[1..], g) + (if rows[0].granularity == g then rows[0].samples else 0)
  }

  /** Their volume, as far as it is known. */
  function VolumeOfAll(rows: seq<Row>, g: int): real {
    if rows == [] then 0.0
    else
      VolumeOfAll(rows[1..], g)
      + (if rows[0].granularity == g && rows[0].volume.Some? then rows[0].volume.value else 0.0)
  }

  predicate Sums(volume: Option<real>, known: bool, sum: real) {
    (volume.Some? <==> known) && sum == if volume.Some? then volume.value else 0.0
  }

  lemma {:induction false} SumsSnoc(rows: seq<Row>, r: Row, g: int)
    ensures SamplesOfAll(rows + [r], g) == SamplesOfAll(rows, g) + (if r.granularity == g then r.samples else 0)
    ensures VolumeOfAll(rows + [r], g)
            == VolumeOfAll(rows, g) + (if r.granularity == g && r.volume.Some? then r.volume.value else 0.0)
  {
    if rows == [] {
      assert [] + [r] == [r];
    } else {
      SumsSnoc(rows[1..], r, g);
      assert (rows + [r])[1..] == rows[1..] + [r];
    }
  }

  lemma {:induction false} SelectedSums(rows: seq<Row>, g: int)
    ensures var selected := OfGranularity(rows, g);
            && Samples(selected) == SamplesOfAll(rows, g)
            && Sums(Volume(selected), exists i :: 0 <= i < |rows| && rows[i].granularity == g && rows[i].volume.Some?,
                    VolumeOfAll(rows, g))
  {
    if rows != [] {
      var front, last := rows[..|rows| - 1], rows[|rows| - 1];
      SelectedSums(front, g);
      SumsSnoc(front, last, g);
      assert rows == front + [last];
      assert forall i :: 0 <= i < |front| ==> front[i] == rows[i];
    }
  }

  lemma {:induction false} InsertKeepsSums(sorted: seq<Row>, r: Row)
    ensures Samples(InsertRow(sorted, r)) == Samples(sorted) + r.samples
    ensures Volume(InsertRow(sorted, r)) == AddVolumes(Volume(sorted), r.volume)
    decreases |sorted|
  {
    hide Before;
    if sorted != [] && Before(r, sorted[|sorted| - 1]) {
      InsertKeepsSums(sorted[..|sorted| - 1], r);
    }
  }

  lemma {:induction false} InsertPermutes(sorted: seq<Row>, r: Row)
    ensures multiset(InsertRow(sorted, r)) == multiset(sorted) + multiset{r}
    decreases |sorted|
  {
    hide Before;
    if sorted != [] && Before(r, sorted[|sorted| - 1]) {
      InsertPermutes(sorted[..|sorted| - 1], r);
      assert sorted == sorted[..|sorted| - 1] + [sorted[|sorted| - 1]];
    }
  }

  lemma {:induction false} SortKeepsSums(rows: seq<Row>)
    ensures Samples(SortRows(rows)) == Samples(rows) && Volume(SortRows(rows)) == Volume(rows)
    ensures multiset(SortRows(rows)) == multiset(rows)
  {
    hide InsertRow;
    if rows != [] {
      SortKeepsSums(rows[..|rows| - 1]);
      InsertKeepsSums(SortRows(rows[..|rows| - 1]), rows[|rows| - 1]);
      InsertPermutes(SortRows(rows[..|rows| - 1]), rows[|rows| - 1]);
      assert rows == rows[..|rows| - 1] + [rows[|rows| - 1]];
    }
  }

  lemma {:induction false} LatestOf(rows: seq<Row>)
    requires rows != []
    ensures (exists x <- rows :: x.retrieved == Retrieved(rows)) && forall x <- rows :: x.retrieved <= Retrieved(rows)
  {
    var last := rows[|rows| - 1];
    if |rows| == 1 {
      assert rows == [last];
      assert last in rows;
    } else {
      var front := rows[..|rows| - 1];
      LatestOf(front);
      assert rows == front + [last];
      var x :| x in front && x.retrieved == Retrieved(front);
      assert x in rows && last in rows;
    }
  }

  lemma {:induction false} FinalizedIff(rows: seq<Row>)
    ensures AllFinalized(rows) <==> forall x <- rows :: x.finalized
  {
    if rows != [] {
      FinalizedIff(rows[..|rows| - 1]);
      assert rows == rows[..|rows| - 1] + [rows[|rows| - 1]];
    }
  }

  // ---- the row of a bucket ----

  ghost predicate OpensWith(open: Option<real>, available: seq<Row>) {
    exists r <- available ::
      && Counts(available, r) && open == Some(if r.open.Some? then r.open.value else r.close)
      && forall x <- available :: Counts(available, x) ==> r.start <= x.start
  }

  ghost predicate ClosesWith(close: real, available: seq<Row>) {
    exists r <- available ::
      && Counts(available, r) && close == r.close
      && forall x <- available :: Counts(available, x) ==> x.start <= r.start
  }

  ghost predicate PeaksAt(high: Option<real>, available: seq<Row>) {
    exists r <- available ::
      && Counts(available, r) && high == Some(if r.high.Some? then r.high.value else r.close)
      && forall x <- available :: Counts(available, x) ==>
           (if x.high.Some? then x.high.value else x.close) <= high.value
  }

  ghost predicate DipsTo(low: Option<real>, available: seq<Row>) {
    exists r <- available ::
      && Counts(available, r) && low == Some(if r.low.Some? then r.low.value else r.close)
      && forall x <- available :: Counts(available, x) ==>
           low.value <= (if x.low.Some? then x.low.value else x.close)
  }

  ghost predicate Amounts(row: Row, available: seq<Row>) {
    forall x <- available :: Counts(available, x) ==>
      && row.samples == SamplesOfAll(available, x.granularity)
      && Sums(row.volume, exists y <- available :: Counts(available, y) && y.volume.Some?,
              VolumeOfAll(available, x.granularity))
  }

  ghost predicate Totals(row: Row, available: seq<Row>) {
    && Amounts(row, available)
    && (row.finalized <==> forall x <- available :: Counts(available, x) ==> x.finalized)
    && (exists x <- available :: Counts(available, x) && x.retrieved == row.retrieved)
    && (forall x <- available :: Counts(available, x) ==> x.retrieved <= row.retrieved)
  }

  /** A derived row of the bucket: it opens as the first row that counts and closes as the last one, its high and
      low are the highest and the lowest, and the rest is added up. */
  ghost predicate Summarises(row: Row, available: seq<Row>, seconds: int, bucket: int) {
    && row.start == bucket && row.granularity == seconds && !row.native
    && OpensWith(row.open, available) && ClosesWith(row.close, available)
    && PeaksAt(row.high, available) && DipsTo(row.low, available) && Totals(row, available)
  }

  // The sorted rows are those that count, in the order of time.
  lemma OrderedCount(available: seq<Row>)
    requires available != []
    ensures var ordered := SortRows(OfGranularity(available, Finest(available)));
            && ordered != [] && Ascending(ordered)
            && forall x :: x in ordered <==> Counts(available, x)
  {
    var selected := OfGranularity(available, Finest(available));
    FinestIsThere(available);
    SortKeepsSums(selected);
    SortAscends(selected);
    hide SortRows, OfGranularity, Finest, Counts;
    forall x
      ensures x in SortRows(selected) <==> Counts(available, x)
    {
      SelectedCount(available, x);
      assert x in SortRows(selected) <==> x in multiset(SortRows(selected));
      assert x in selected <==> x in multiset(selected);
    }
  }

  lemma EndsOf(available: seq<Row>, ordered: seq<Row>)
    requires ordered != [] && Ascending(ordered) && forall x :: x in ordered <==> Counts(available, x)
    ensures OpensWith(Some(Open(ordered[0])), available) && ClosesWith(ordered[|ordered| - 1].close, available)
  {
    var first, last := ordered[0], ordered[|ordered| - 1];
    assert first in ordered && last in ordered;
    forall x | Counts(available, x)
      ensures first.start <= x.start <= last.start
    {
      var i :| 0 <= i < |ordered| && ordered[i] == x;
    }
  }

  lemma ExtremesOf(available: seq<Row>, ordered: seq<Row>)
    requires ordered != [] && forall x :: x in ordered <==> Counts(available, x)
    ensures PeaksAt(Some(Highest(ordered)), available) && DipsTo(Some(Lowest(ordered)), available)
  {
    Extremes(ordered);
    var h :| 0 <= h < |ordered| && High(ordered[h]) == Highest(ordered);
    var l :| 0 <= l < |ordered| && Low(ordered[l]) == Lowest(ordered);
    assert ordered[h] in ordered && ordered[l] in ordered;
    forall x | Counts(available, x)
      ensures High(x) <= Highest(ordered) && Lowest(ordered) <= Low(x)
    {
      var i :| 0 <= i < |ordered| && ordered[i] == x;
    }
  }

  lemma SelectedIff(available: seq<Row>, x: Row)
    requires available != [] && x in available
    ensures Counts(available, x) <==> x.granularity == Finest(available)
  {
    SelectedCount(available, x);
    InGranularity(available, Finest(available), x);
  }

  lemma AmountsOf(available: seq<Row>, row: Row)
    requires available != []
    requires var ordered := SortRows(OfGranularity(available, Finest(available)));
             row.samples == Samples(ordered) && row.volume == Volume(ordered)
    ensures Amounts(row, available)
  {
    hide SortRows, OfGranularity, Finest, Samples, Volume, SamplesOfAll, VolumeOfAll, Counts, Sums;
    var g := Finest(available);
    SortKeepsSums(OfGranularity(available, g));
    SelectedSums(available, g);
    forall x <- available
      ensures Counts(available, x) <==> x.granularity == g
    {
      SelectedIff(available, x);
    }
    assert (exists i :: 0 <= i < |available| && available[i].granularity == g && available[i].volume.Some?)
           <==> (exists y <- available :: Counts(available, y) && y.volume.Some?);
  }

  lemma TotalsOf(available: seq<Row>, ordered: seq<Row>, row: Row)
    requires ordered != [] && forall x :: x in ordered <==> Counts(available, x)
    requires Amounts(row, available) && row.finalized == AllFinalized(ordered) && row.retrieved == Retrieved(ordered)
    ensures Totals(row, available)
  {
    hide Amounts, Counts, AllFinalized, Retrieved;
    LatestOf(ordered);
    FinalizedIff(ordered);
    forall x | Counts(available, x)
      ensures x in available
    {
      AnyCounts(available, x);
    }
  }

  lemma BucketRowIs(available: seq<Row>, seconds: int, bucket: int)
    requires available != []
    ensures var ordered := SortRows(OfGranularity(available, Finest(available)));
            && ordered != []
            && BucketRow(available, seconds, bucket)
               == if Finest(available) == seconds && |ordered| == 1 then ordered[0].(granularity := seconds)
                  else Merged(ordered, seconds, bucket)
  {
    FinestIsThere(available);
    hide Merged;
  }

  // The row that is passed on is the only one that counts.
  lemma AloneIff(available: seq<Row>, seconds: int)
    requires available != []
    ensures var ordered := SortRows(OfGranularity(available, Finest(available)));
            if Finest(available) == seconds && |ordered| == 1
            then exists i :: 0 <= i < |available| && Alone(available, i, seconds) && ordered[0] == available[i]
            else forall i :: 0 <= i < |available| ==> !Alone(available, i, seconds)
  {
    var g := Finest(available);
    var selected := OfGranularity(available, g);
    var i := OneSelected(available, g);
    FinestIsThere(available);
    forall k | 0 <= k < |available|
      ensures Counts(available, available[k]) <==> available[k].granularity == g
    {
      SelectedCount(available, available[k]);
      InGranularity(available, g, available[k]);
    }
    hide OfGranularity, Finest, Counts, SortRows;
    if |selected| == 1 {
      Single(available[i]);
      assert g == seconds ==> Alone(available, i, seconds);
    }
  }

  lemma OnlyOneAlone(available: seq<Row>, i: int, k: int, seconds: int)
    requires 0 <= i < |available| && 0 <= k < |available|
    requires Alone(available, i, seconds) && Alone(available, k, seconds)
    ensures i == k
  {
  }

  lemma MergedSummarises(available: seq<Row>, seconds: int, bucket: int)
    requires available != []
    ensures var ordered := SortRows(OfGranularity(available, Finest(available)));
            ordered != [] && Summarises(Merged(ordered, seconds, bucket), available, seconds, bucket)
  {
    hide SortRows, OfGranularity, Finest, Highest, Lowest, Volume, Samples, AllFinalized, Retrieved, Open, OpensWith,
         ClosesWith, PeaksAt, DipsTo, Totals, Amounts, Ascending, Counts;
    var ordered := SortRows(OfGranularity(available, Finest(available)));
    OrderedCount(available);
    EndsOf(available, ordered);
    ExtremesOf(available, ordered);
    AmountsOf(available, Merged(ordered, seconds, bucket));
    TotalsOf(available, ordered, Merged(ordered, seconds, bucket));
  }

  /** A single row that counts is passed on if it has the granularity asked for; otherwise the bucket's rows are
      summarised, under the series of one of them. */
  lemma BucketRowSays(available: seq<Row>, seconds: int, bucket: int)
    requires available != []
    ensures var row := BucketRow(available, seconds, bucket);
            && (forall i :: 0 <= i < |available| && Alone(available, i, seconds) ==> row == available[i])
            && ((forall i :: 0 <= i < |available| ==> !Alone(available, i, seconds)) ==>
                  Summarises(row, available, seconds, bucket))
            && exists x <- available :: row.series == x.series
  {
    hide BucketRow, SortRows, OfGranularity, Finest, Merged, Summarises, Alone, Ascending, Counts;
    var ordered := SortRows(OfGranularity(available, Finest(available)));
    OrderedCount(available);
    BucketRowIs(available, seconds, bucket);
    AloneIff(available, seconds);
    if Finest(available) == seconds && |ordered| == 1 {
      var i :| 0 <= i < |available| && Alone(available, i, seconds) && ordered[0] == available[i];
      AloneIsFinest(available, i, seconds);
      forall k | 0 <= k < |available| && Alone(available, k, seconds)
        ensures k == i
      {
        OnlyOneAlone(available, i, k, seconds);
      }
    } else {
      MergedSummarises(available, seconds, bucket);
      MergedSeries(ordered, seconds, bucket);
      AnyCounts(available, ordered[0]);
    }
  }

  lemma AloneIsFinest(available: seq<Row>, i: int, seconds: int)
    requires 0 <= i < |available| && Alone(available, i, seconds)
    ensures available[i].(granularity := seconds) == available[i] && available[i] in available
  {
  }

  lemma AnyCounts(available: seq<Row>, r: Row)
    requires Counts(available, r)
    ensures r in available
  {
  }

  lemma MergedSeries(ordered: seq<Row>, seconds: int, bucket: int)
    requires ordered != []
    ensures Merged(ordered, seconds, bucket).series == ordered[0].series && ordered[0] in ordered
  {
    hide Highest, Lowest, Volume, Samples, AllFinalized, Retrieved;
  }

  lemma Single(r: Row)
    ensures SortRows([r]) == [r]
  {
  }

  // ---- the output ----

  /** In the output each series has one row for each bucket of `seconds` in which it has any, and that row says what
      BucketRowSays. */
  lemma OutputSays(rows: seq<Row>, seconds: int, s: Series, k: int)
    requires seconds > 0
    ensures var low := k * (seconds * 1_000);
            var own := Own(rows, s, low, low + seconds * 1_000);
            var out := Own(Aggregate(rows, seconds), s, low, low + seconds * 1_000);
            && (own == [] ==> out == [])
            && (own != [] ==> out == [BucketRow(own, seconds, low)] && out[0].series == s)
            && forall r :: r in own <==> r in rows && r.series == s && low <= r.start < low + seconds * 1_000
  {
    hide BucketRow, Aggregate, Own, Alone, Summarises;
    var low, high := k * Size(seconds), k * Size(seconds) + Size(seconds);
    StartIsAligned(k, seconds);
    OneRowABucket(rows, seconds, s, low);
    ExpectedIs(rows, seconds, s, low);
    forall r
      ensures r in Own(rows, s, low, high) <==> r in rows && r.series == s && low <= r.start < high
    {
      InOwn(rows, s, low, high, r);
    }
    var own := Own(rows, s, low, high);
    if own != [] {
      BucketRowSays(own, seconds, low);
      var x :| x in own && BucketRow(own, seconds, low).series == x.series;
    }
  }

  lemma ExpectedIs(rows: seq<Row>, seconds: int, s: Series, low: int)
    requires seconds > 0 && Aligned(low, seconds)
    ensures var own := Own(rows, s, low, low + Size(seconds));
            Expected(OfSeries(rows, s), seconds, low) == if own == [] then [] else [BucketRow(own, seconds, low)]
  {
    hide BucketRow, OfSeries, Between;
    InBucketIsBetween(OfSeries(rows, s), seconds, low);
  }

  predicate NotAfter(a: Row, b: Row) {
    || a.series.asset < b.series.asset
    || (a.series.asset == b.series.asset
        && (a.start < b.start || (a.start == b.start && a.series.provider <= b.series.provider)))
  }

  predicate InOrder(rows: seq<Row>) {
    forall i, j :: 0 <= i < j < |rows| ==> NotAfter(rows[i], rows[j])
  }

  lemma {:induction false} InsertInOrder(sorted: seq<Row>, r: Row)
    requires InOrder(sorted)
    ensures InOrder(InsertOut(sorted, r))
    ensures forall x :: x in InsertOut(sorted, r) ==> x == r || x in sorted
    decreases |sorted|
  {
    if sorted != [] && OutBefore(r, sorted[|sorted| - 1]) {
      InsertInOrder(sorted[..|sorted| - 1], r);
      var front := InsertOut(sorted[..|sorted| - 1], r);
      forall i | 0 <= i < |front|
        ensures NotAfter(front[i], sorted[|sorted| - 1])
      {
        assert front[i] in front;
      }
    }
  }

  /** It is ordered by asset, then time, then provider. */
  lemma {:induction false} SortOutInOrder(rows: seq<Row>)
    ensures InOrder(SortOut(rows))
  {
    hide InOrder, InsertOut;
    if rows == [] {
      NothingInOrder();
    } else {
      SortOutInOrder(rows[..|rows| - 1]);
      InsertInOrder(SortOut(rows[..|rows| - 1]), rows[|rows| - 1]);
    }
  }

  lemma NothingInOrder()
    ensures InOrder([])
  {
  }

  lemma OutputInOrder(rows: seq<Row>, seconds: int)
    requires seconds > 0
    ensures InOrder(Aggregate(rows, seconds))
  {
    SortOutInOrder(AllOf(rows, SeriesKeys(rows), seconds));
  }
}
