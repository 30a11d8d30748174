/** Aggregating in two steps gives what aggregating at once gives. */
module AggregationLaws {
  import opened Arithmetic
  import opened Aggregation

  // The rows that start at or after `low` and before `high`.
  function Between(rows: seq<Row>, low: int, high: int): seq<Row> {
    if rows == [] then []
    else
      var rest, r := Between(rows[..|rows| - 1], low, high), rows[|rows| - 1];
      if low <= r.start < high then rest + [r] else rest
  }

  // ---- buckets are intervals ----

  predicate Aligned(bucket: int, seconds: int)
    requires seconds > 0
  {
    bucket == bucket / Size(seconds) * Size(seconds)
  }

  lemma FloorBounds(x: int, size: int)
    requires size > 0
    ensures x / size * size <= x < x / size * size + size
    ensures x / size * size / size * size == x / size * size
  {
    DivMod(x / size, 0, size);
  }

  // A moment lies in an aligned bucket exactly if the bucket is its floor.
  lemma FloorIff(x: int, bucket: int, size: int)
    requires size > 0 && bucket == bucket / size * size
    ensures x / size * size == bucket <==> bucket <= x < bucket + size
  {
    FloorBounds(x, size);
    if bucket <= x < bucket + size {
      DivMod(bucket / size, x - bucket, size);
    }
  }

  lemma {:induction false} InBucketIsBetween(rows: seq<Row>, seconds: int, bucket: int)
    requires seconds > 0 && Aligned(bucket, seconds)
    ensures InBucket(rows, seconds, bucket) == Between(rows, bucket, bucket + Size(seconds))
  {
    if rows != [] {
      InBucketIsBetween(rows[..|rows| - 1], seconds, bucket);
      FloorIff(rows[|rows| - 1].start, bucket, Size(seconds));
    }
  }

  // ---- sorting an interval ----

  predicate Within(rows: seq<Row>, low: int, high: int) {
    forall i :: 0 <= i < |rows| ==> low <= rows[i].start < high
  }

  lemma {:induction false} InsertWithin(sorted: seq<Row>, r: Row, low: int, high: int)
    requires Within(sorted, low, high) && low <= r.start < high
    ensures Within(InsertRow(sorted, r), low, high)
    decreases |sorted|
  {
    if sorted != [] && Before(r, sorted[|sorted| - 1]) {
      InsertWithin(sorted[..|sorted| - 1], r, low, high);
    }
  }

  lemma {:induction false} SortedWithin(rows: seq<Row>, low: int, high: int)
    ensures Within(SortRows(Between(rows, low, high)), low, high)
  {
    if rows != [] {
      var front, r := rows[..|rows| - 1], rows[|rows| - 1];
      SortedWithin(front, low, high);
      if low <= r.start < high {
        InsertWithin(SortRows(Between(front, low, high)), r, low, high);
        SortSnoc(Between(front, low, high), r);
      }
    }
  }

  lemma SortSnoc(rows: seq<Row>, r: Row)
    ensures SortRows(rows + [r]) == InsertRow(SortRows(rows), r)
  {
    assert (rows + [r])[..|rows|] == rows;
  }

  lemma {:induction false} InsertLeft(s: seq<Row>, t: seq<Row>, r: Row, mid: int)
    requires r.start < mid && forall i :: 0 <= i < |t| ==> mid <= t[i].start
    ensures InsertRow(s + t, r) == InsertRow(s, r) + t
    decreases |t|
  {
    if t == [] {
      assert s + t == s;
    } else {
      var last := |t| - 1;
      InsertLeft(s, t[..last], r, mid);
      assert (s + t)[..|s| + last] == s + t[..last];
    }
  }

  lemma {:induction false} InsertRight(s: seq<Row>, t: seq<Row>, r: Row, mid: int)
    requires mid <= r.start && forall i :: 0 <= i < |s| ==> s[i].start < mid
    ensures InsertRow(s + t, r) == s + InsertRow(t, r)
    decreases |t|
  {
    if t == [] {
      assert s + t == s;
    } else {
      var last := |t| - 1;
      assert (s + t)[|s + t| - 1] == t[last];
      if Before(r, t[last]) {
        InsertRight(s, t[..last], r, mid);
        assert (s + t)[..|s| + last] == s + t[..last];
      }
    }
  }

  // An interval can be sorted piece by piece.
  lemma {:induction false} SortSplits(rows: seq<Row>, low: int, mid: int, high: int)
    requires low <= mid <= high
    ensures SortRows(Between(rows, low, high)) == SortRows(Between(rows, low, mid)) + SortRows(Between(rows, mid, high))
  {
    hide InsertRow, Before;
    if rows != [] {
      var front, r := rows[..|rows| - 1], rows[|rows| - 1];
      SortSplits(front, low, mid, high);
      var s, t := SortRows(Between(front, low, mid)), SortRows(Between(front, mid, high));
      SortedWithin(front, low, mid);
      SortedWithin(front, mid, high);
      SortSnoc(Between(front, low, high), r);
      SortSnoc(Between(front, low, mid), r);
      SortSnoc(Between(front, mid, high), r);
      if r.start < mid {
        InsertLeft(s, t, r, mid);
      } else {
        InsertRight(s, t, r, mid);
      }
    }
  }

  // ---- merging is a homomorphism ----

  function Larger(a: real, b: real): real {
    if a < b then b else a
  }

  function Smaller(a: real, b: real): real {
    if b < a then b else a
  }

  function Later(a: int, b: int): int {
    if a < b then b else a
  }

  lemma {:induction false} Concatenated(s: seq<Row>, t: seq<Row>)
    requires s != [] && t != []
    ensures Highest(s + t) == Larger(Highest(s), Highest(t))
    ensures Lowest(s + t) == Smaller(Lowest(s), Lowest(t))
    ensures Retrieved(s + t) == Later(Retrieved(s), Retrieved(t))
    decreases |t|
  {
    var last := |t| - 1;
    assert (s + t)[..|s| + last] == s + t[..last];
    assert (s + t)[|s| + last] == t[last];
    if last > 0 {
      Concatenated(s, t[..last]);
    } else {
      assert s + t[..last] == s;
    }
  }

  lemma {:induction false} Added(s: seq<Row>, t: seq<Row>)
    ensures Volume(s + t) == AddVolumes(Volume(s), Volume(t))
    ensures Samples(s + t) == Samples(s) + Samples(t)
    ensures AllFinalized(s + t) <==> AllFinalized(s) && AllFinalized(t)
    decreases |t|
  {
    if t == [] {
      assert s + t == s;
    } else {
      var last := |t| - 1;
      assert (s + t)[..|s| + last] == s + t[..last];
      Added(s, t[..last]);
    }
  }

  /** What two pieces merge to depends only on what each of them merges to. */
  lemma MergedPieces(s: seq<Row>, t: seq<Row>, s': seq<Row>, t': seq<Row>, seconds: int, bucket: int)
    requires s != [] && t != [] && s' != [] && t' != []
    requires Merged(s, seconds, bucket) == Merged(s', seconds, bucket)
    requires Merged(t, seconds, bucket) == Merged(t', seconds, bucket)
    ensures Merged(s + t, seconds, bucket) == Merged(s' + t', seconds, bucket)
  {
    Concatenated(s, t);
    Concatenated(s', t');
    Added(s, t);
    Added(s', t');
    hide Highest, Lowest, Retrieved, Volume, Samples, AllFinalized, AddVolumes;
    assert (s + t)[0] == s[0] && (s' + t')[0] == s'[0];
    assert (s + t)[|s + t| - 1] == t[|t| - 1] && (s' + t')[|s' + t'| - 1] == t'[|t'| - 1];
  }

  predicate OneGranularity(rows: seq<Row>, granularity: int) {
    forall i :: 0 <= i < |rows| ==> rows[i].granularity == granularity
  }

  lemma {:induction false} FinestOfOne(rows: seq<Row>, granularity: int)
    requires OneGranularity(rows, granularity)
    ensures rows != [] ==> Finest(rows) == granularity
    ensures OfGranularity(rows, granularity) == rows
  {
    if rows != [] {
      FinestOfOne(rows[..|rows| - 1], granularity);
      assert rows == rows[..|rows| - 1] + [rows[|rows| - 1]];
    }
  }

  // A row that was aggregated counts for all rows of its bucket.
  lemma MergedOfMerged(ordered: seq<Row>, seconds: int, bucket: int, coarse: int, outer: int)
    requires ordered != []
    ensures Merged([Merged(ordered, seconds, bucket)], coarse, outer) == Merged(ordered, coarse, outer)
  {
    hide Highest, Lowest, Retrieved, Volume, Samples, AllFinalized;
    Singleton(Merged(ordered, seconds, bucket));
  }

  lemma Singleton(r: Row)
    ensures Highest([r]) == High(r) && Lowest([r]) == Low(r) && Retrieved([r]) == r.retrieved
    ensures Volume([r]) == r.volume && Samples([r]) == r.samples && (AllFinalized([r]) <==> r.finalized)
  {
    assert [r][..0] == [];
  }

  lemma MergedOfBucketRow(available: seq<Row>, seconds: int, bucket: int, coarse: int, outer: int)
    requires available != []
    ensures OfGranularity(available, Finest(available)) != []
    ensures var ordered := SortRows(OfGranularity(available, Finest(available)));
            && Merged([BucketRow(available, seconds, bucket)], coarse, outer) == Merged(ordered, coarse, outer)
            && BucketRow(available, seconds, bucket).samples == Samples(ordered)
  {
    FinestIsThere(available);
    hide Highest, Lowest, Retrieved, Volume, Samples, AllFinalized, SortRows, Finest, OfGranularity;
    var ordered := SortRows(OfGranularity(available, Finest(available)));
    MergedOfMerged(ordered, seconds, bucket, coarse, outer);
    if Finest(available) == seconds && |ordered| == 1 {
      Singleton(ordered[0]);
      Singleton(ordered[0].(granularity := seconds));
      assert ordered == [ordered[0]];
    }
  }

  // ---- what a merged row says ----

  predicate Ascending(rows: seq<Row>) {
    forall i, j :: 0 <= i < j < |rows| ==> rows[i].start <= rows[j].start
  }

  predicate NoneLater(rows: seq<Row>, t: int) {
    forall i :: 0 <= i < |rows| ==> rows[i].start <= t
  }

  lemma {:induction false} InsertNoneLater(sorted: seq<Row>, r: Row, t: int)
    requires NoneLater(sorted, t) && r.start <= t
    ensures NoneLater(InsertRow(sorted, r), t)
    decreases |sorted|
  {
    if sorted != [] && Before(r, sorted[|sorted| - 1]) {
      InsertNoneLater(sorted[..|sorted| - 1], r, t);
    }
  }

  lemma {:induction false} InsertAscends(sorted: seq<Row>, r: Row)
    requires Ascending(sorted)
    ensures Ascending(InsertRow(sorted, r))
    decreases |sorted|
  {
    if sorted != [] && Before(r, sorted[|sorted| - 1]) {
      InsertAscends(sorted[..|sorted| - 1], r);
      InsertNoneLater(sorted[..|sorted| - 1], r, sorted[|sorted| - 1].start);
    }
  }

  /** The rows of a bucket are merged in the order of time, so the open is the earliest row's and the close the
      latest one's. */
  lemma {:induction false} SortAscends(rows: seq<Row>)
    ensures Ascending(SortRows(rows))
  {
    if rows != [] {
      SortAscends(rows[..|rows| - 1]);
      InsertAscends(SortRows(rows[..|rows| - 1]), rows[|rows| - 1]);
    }
  }

  /** The high is the greatest high and the low the smallest low. */
  lemma {:induction false} Extremes(rows: seq<Row>)
    requires rows != []
    ensures forall i :: 0 <= i < |rows| ==> High(rows[i]) <= Highest(rows) && Lowest(rows) <= Low(rows[i])
    ensures exists i :: 0 <= i < |rows| && High(rows[i]) == Highest(rows)
    ensures exists i :: 0 <= i < |rows| && Low(rows[i]) == Lowest(rows)
  {
    var last := |rows| - 1;
    if last == 0 {
      assert High(rows[0]) == Highest(rows) && Low(rows[0]) == Lowest(rows);
    } else {
      var front := rows[..last];
      Extremes(front);
      var h :| 0 <= h < |front| && High(front[h]) == Highest(front);
      var l :| 0 <= l < |front| && Low(front[l]) == Lowest(front);
      assert High(rows[h]) == Highest(rows) || High(rows[last]) == Highest(rows);
      assert Low(rows[l]) == Lowest(rows) || Low(rows[last]) == Lowest(rows);
      forall i | 0 <= i < last
        ensures High(rows[i]) <= Highest(rows) && Lowest(rows) <= Low(rows[i])
      {
        assert front[i] == rows[i];
      }
    }
  }

  /** From well-formed rows comes a well-formed row. */
  lemma MergedIsWellFormed(rows: seq<Row>, seconds: int, bucket: int)
    requires rows != [] && forall i :: 0 <= i < |rows| ==> WellFormed(rows[i])
    ensures WellFormed(Merged(rows, seconds, bucket))
  {
    hide Highest, Lowest, Volume, Samples, AllFinalized, Retrieved;
    Extremes(rows);
    assert WellFormed(rows[0]) && WellFormed(rows[|rows| - 1]);
    var l :| 0 <= l < |rows| && Low(rows[l]) == Lowest(rows);
    assert WellFormed(rows[l]);
  }

  // ---- an aggregated list holds one row for each bucket that has any ----

  // The rows of one series that start in an interval.
  function Own(rows: seq<Row>, s: Series, low: int, high: int): seq<Row> {
    Between(OfSeries(rows, s), low, high)
  }

  predicate Is(r: Row, s: Series, low: int, high: int) {
    r.series == s && low <= r.start < high
  }

  lemma {:induction false} OwnSnoc(rows: seq<Row>, r: Row, s: Series, low: int, high: int)
    ensures Own(rows + [r], s, low, high)
            == if Is(r, s, low, high) then Own(rows, s, low, high) + [r] else Own(rows, s, low, high)
  {
    assert (rows + [r])[..|rows|] == rows;
    if r.series == s {
      var own := OfSeries(rows, s);
      assert (own + [r])[..|own|] == own;
    }
  }

  lemma {:induction false} OwnConcat(xs: seq<Row>, ys: seq<Row>, s: Series, low: int, high: int)
    ensures Own(xs + ys, s, low, high) == Own(xs, s, low, high) + Own(ys, s, low, high)
    decreases |ys|
  {
    if ys == [] {
      assert xs + ys == xs;
    } else {
      var front, last := ys[..|ys| - 1], ys[|ys| - 1];
      OwnConcat(xs, front, s, low, high);
      OwnSnoc(xs + front, last, s, low, high);
      OwnSnoc(front, last, s, low, high);
      assert xs + ys == xs + front + [last] && ys == front + [last];
    }
  }

  lemma {:induction false} OwnInsertOut(sorted: seq<Row>, r: Row, s: Series, low: int, high: int)
    ensures multiset(Own(InsertOut(sorted, r), s, low, high))
            == multiset(Own(sorted, s, low, high)) + (if Is(r, s, low, high) then multiset{r} else multiset{})
    decreases |sorted|
  {
    hide OutBefore, Own, Is;
    OwnSnoc(sorted, r, s, low, high);
    if sorted != [] && OutBefore(r, sorted[|sorted| - 1]) {
      var front, last := sorted[..|sorted| - 1], sorted[|sorted| - 1];
      OwnInsertOut(front, r, s, low, high);
      OwnSnoc(InsertOut(front, r), last, s, low, high);
      OwnSnoc(front, last, s, low, high);
      assert sorted == front + [last];
    }
  }

  // Sorting the output keeps the rows of a bucket.
  lemma {:induction false} OwnSortOut(rows: seq<Row>, s: Series, low: int, high: int)
    ensures multiset(Own(SortOut(rows), s, low, high)) == multiset(Own(rows, s, low, high))
  {
    hide InsertOut, Own, Is;
    if rows != [] {
      var front, last := rows[..|rows| - 1], rows[|rows| - 1];
      OwnSortOut(front, s, low, high);
      OwnInsertOut(SortOut(front), last, s, low, high);
      OwnSnoc(front, last, s, low, high);
      assert rows == front + [last];
    }
  }

  lemma {:induction false} SeriesIn(rows: seq<Row>, s: Series)
    ensures s in SeriesKeys(rows) <==> OfSeries(rows, s) != []
    ensures forall i, j :: 0 <= i < j < |SeriesKeys(rows)| ==> SeriesKeys(rows)[i] != SeriesKeys(rows)[j]
  {
    if rows != [] {
      SeriesIn(rows[..|rows| - 1], s);
    }
  }

  lemma {:induction false} BucketIn(rows: seq<Row>, seconds: int, bucket: int)
    requires seconds > 0
    ensures bucket in BucketKeys(rows, seconds) <==> InBucket(rows, seconds, bucket) != []
    ensures var keys := BucketKeys(rows, seconds);
            && (forall i, j :: 0 <= i < j < |keys| ==> keys[i] != keys[j])
            && (forall i :: 0 <= i < |keys| ==> Aligned(keys[i], seconds))
  {
    if rows != [] {
      BucketIn(rows[..|rows| - 1], seconds, bucket);
      FloorBounds(rows[|rows| - 1].start, Size(seconds));
    }
  }

  lemma {:induction false} AllOfSeries(rows: seq<Row>, s: Series)
    ensures forall i :: 0 <= i < |OfSeries(rows, s)| ==> OfSeries(rows, s)[i].series == s
    ensures (forall i :: 0 <= i < |rows| ==> rows[i].series == s) ==> OfSeries(rows, s) == rows
    ensures (forall i :: 0 <= i < |rows| ==> rows[i].series != s) ==> OfSeries(rows, s) == []
  {
    if rows != [] {
      AllOfSeries(rows[..|rows| - 1], s);
      assert rows == rows[..|rows| - 1] + [rows[|rows| - 1]];
    }
  }
}
