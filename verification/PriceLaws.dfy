/** Which rows a historical price is made of. */
module PriceLaws {
  import opened Wrappers
  import opened Market
  import opened PriceLookup

  // ---- the bucket ----

  /** The bucket that answers holds a row, is not after t, at most a week before it, and no row lies between; there is
      none exactly if no row lies in that week. */
  lemma AnsweringIs(rows: seq<Row>, t: int)
    ensures match Answering(rows, t)
            case None => forall r <- rows :: r.bucket > t || r.bucket < t - 7 * 24 * 60 * 60_000
            case Some(b) =>
              && t - 7 * 24 * 60 * 60_000 <= b <= t && (exists r <- rows :: r.bucket == b)
              && forall r <- rows :: r.bucket <= t ==> r.bucket <= b
  {
    NewestIsGreatest(rows, t);
  }

  lemma {:induction false} InBucketCount(rows: seq<Row>, bucket: int, r: Row)
    ensures multiset(InBucket(rows, bucket))[r] == if r.bucket == bucket then multiset(rows)[r] else 0
  {
    if rows != [] {
      InBucketCount(rows[..|rows| - 1], bucket, r);
      assert rows == rows[..|rows| - 1] + [rows[|rows| - 1]];
    }
  }

  lemma {:induction false} GranularityCount(rows: seq<Row>, g: int, r: Row)
    ensures multiset(OfGranularity(rows, g))[r] == if r.granularity == g then multiset(rows)[r] else 0
  {
    if rows != [] {
      GranularityCount(rows[..|rows| - 1], g, r);
      assert rows == rows[..|rows| - 1] + [rows[|rows| - 1]];
    }
  }

  lemma {:induction false} FinestIsLeast(rows: seq<Row>)
    requires rows != []
    ensures (exists r <- rows :: r.granularity == Finest(rows)) && forall r <- rows :: Finest(rows) <= r.granularity
  {
    var last := rows[|rows| - 1];
    if |rows| == 1 {
      assert last in rows && rows == [last];
    } else {
      var front := rows[..|rows| - 1];
      FinestIsLeast(front);
      assert rows == front + [last];
      var r :| r in front && r.granularity == Finest(front);
      assert r in rows && last in rows;
    }
  }

  // ---- the rows ----

  /** A row of the bucket than which none of the bucket is finer. */
  predicate Contributes(rows: seq<Row>, bucket: int, r: Row) {
    r.bucket == bucket && forall x <- rows :: x.bucket == bucket ==> r.granularity <= x.granularity
  }

  function Prices(rows: seq<Row>): (os: seq<Observation>)
    ensures |os| == |rows|
  {
    seq(|rows|, i requires 0 <= i < |rows| => Observation(rows[i].provider, rows[i].close, rows[i].native))
  }

  /** The price of the charts combines the closes of exactly the rows of the answering bucket than which none of it is
      finer, each as often as it occurs. */
  lemma PriceIs(rows: seq<Row>, t: int) returns (chosen: seq<Row>)
    requires Answering(rows, t).Some?
    ensures PriceAt(rows, t) == CombinePriceObservations(Prices(chosen))
    ensures forall r :: multiset(chosen)[r]
                        == if Contributes(rows, Answering(rows, t).value, r) then multiset(rows)[r] else 0
  {
    var b := Answering(rows, t).value;
    NewestIsThere(rows, t);
    var own := InBucket(rows, b);
    chosen := OfGranularity(own, Finest(own));
    FinestIsLeast(own);
    forall r
      ensures r in own <==> r in rows && r.bucket == b
    {
      InBucketCount(rows, b, r);
      assert r in own <==> r in multiset(own);
      assert r in rows <==> r in multiset(rows);
    }
    hide InBucket, OfGranularity, Finest, CombinePriceObservations;
    forall r
      ensures multiset(chosen)[r] == if Contributes(rows, b, r) then multiset(rows)[r] else 0
    {
      InBucketCount(rows, b, r);
      GranularityCount(own, Finest(own), r);
      assert r in rows <==> r in multiset(rows);
      if r in rows {
        var x :| x in own && x.granularity == Finest(own);
      }
    }
    assert Prices(chosen) == Observations(chosen);
  }

  // ---- one row a provider ----

  /** The row of a provider: native if it has a native one, of those the finest, and of several the first. */
  predicate First(rows: seq<Row>, i: int)
    requires 0 <= i < |rows|
  {
    forall k :: 0 <= k < |rows| && k != i && rows[k].provider == rows[i].provider ==>
      || (rows[i].native && !rows[k].native)
      || (rows[i].native == rows[k].native && rows[i].granularity < rows[k].granularity)
      || (rows[i].native == rows[k].native && rows[i].granularity == rows[k].granularity && i < k)
  }

  ghost predicate StandsFor(rows: seq<Row>, c: Row) {
    exists i :: 0 <= i < |rows| && rows[i] == c && First(rows, i)
  }

  predicate OneEach(chosen: seq<Row>) {
    forall i, j :: 0 <= i < j < |chosen| ==> chosen[i].provider != chosen[j].provider
  }

  // What putting a row among those chosen does to them.
  predicate Put(chosen: seq<Row>, row: Row, after: seq<Row>) {
    && OneEach(after)
    && (forall x <- after :: x == row || x in chosen)
    && (forall x <- chosen :: x.provider != row.provider ==> x in after)
    && (forall x <- chosen :: x.provider == row.provider ==> if Replaces(row, x) then row in after else x in after)
    && ((forall x <- chosen :: x.provider != row.provider) ==> row in after)
  }

  lemma {:induction false} PutPuts(chosen: seq<Row>, row: Row)
    requires OneEach(chosen)
    ensures Put(chosen, row, PutProvider(chosen, row))
    decreases |chosen|
  {
    if chosen != [] {
      var front, last := chosen[..|chosen| - 1], chosen[|chosen| - 1];
      assert chosen == front + [last];
      forall x <- front
        ensures x.provider != last.provider
      {
        var i :| 0 <= i < |front| && front[i] == x;
        assert chosen[i] == x;
      }
      if last.provider == row.provider {
        var put := if Replaces(row, last) then row else last;
        assert PutProvider(chosen, row) == front + [put];
      } else {
        PutPuts(front, row);
        var r := PutProvider(front, row);
        forall i | 0 <= i < |r|
          ensures r[i].provider != last.provider
        {
          assert r[i] in r;
        }
      }
    }
  }

  predicate Covers(chosen: seq<Row>, rows: seq<Row>) {
    forall x <- rows :: Has(chosen, x.provider)
  }

  predicate Has(chosen: seq<Row>, provider: int) {
    exists c <- chosen :: c.provider == provider
  }

  /** The exchange's lookup takes one row of every provider of the bucket, the one that stands for it. */
  lemma {:induction false} ChosenStandFor(rows: seq<Row>)
    ensures OneEach(ByProvider(rows)) && Covers(ByProvider(rows), rows)
    ensures forall c <- ByProvider(rows) :: StandsFor(rows, c)
  {
    hide PutProvider, OneEach, Covers, StandsFor, Put;
    if rows == [] {
      Nobody();
    } else {
      var front, row := rows[..|rows| - 1], rows[|rows| - 1];
      ChosenStandFor(front);
      var before, after := ByProvider(front), PutProvider(ByProvider(front), row);
      PutPuts(before, row);
      PutFacts(before, row, after);
      assert rows == front + [row];
      StillCovers(front, before, row, after);
      forall c <- after
        ensures StandsFor(rows, c)
      {
        StillStands(front, before, row, after, c);
      }
    }
  }

  lemma Nobody()
    ensures OneEach([]) && Covers([], [])
  {
  }

  lemma PutFacts(chosen: seq<Row>, row: Row, after: seq<Row>)
    requires Put(chosen, row, after)
    ensures OneEach(after)
  {
  }

  lemma StillCovers(front: seq<Row>, before: seq<Row>, row: Row, after: seq<Row>)
    requires Covers(before, front) && Put(before, row, after)
    ensures Covers(after, front + [row])
  {
    hide Replaces, OneEach;
    forall x <- front + [row]
      ensures Has(after, x.provider)
    {
      if x in front {
        assert Has(before, x.provider);
        var o :| o in before && o.provider == x.provider;
        assert o.provider != row.provider ==> o in after;
        assert o.provider == row.provider ==> row in after || o in after;
      } else {
        assert Has(before, row.provider) || row in after;
      }
    }
  }

  lemma StillStands(front: seq<Row>, before: seq<Row>, row: Row, after: seq<Row>, c: Row)
    requires Covers(before, front) && Put(before, row, after) && c in after
    requires forall o <- before :: StandsFor(front, o)
    ensures StandsFor(front + [row], c)
  {
    hide OneEach;
    var rows := front + [row];
    if c in before && (c.provider != row.provider || !Replaces(row, c)) {
      var i :| 0 <= i < |front| && front[i] == c && First(front, i);
      assert rows[i] == c && First(rows, i);
    } else if c == row {
      forall k | 0 <= k < |front| && front[k].provider == row.provider
        ensures Replaces(row, front[k])
      {
        assert Has(before, front[k].provider);
        var o :| o in before && o.provider == front[k].provider;
        Replaced(front, before, row, after, o, k);
      }
      assert rows[|front|] == c && First(rows, |front|);
    } else {
      SameChoice(after, c, row);
    }
  }

  // If the row is chosen and not the one before it, it replaces every row of its provider.
  lemma Replaced(front: seq<Row>, before: seq<Row>, row: Row, after: seq<Row>, o: Row, k: int)
    requires Put(before, row, after) && row in after && o in before && o.provider == row.provider
    requires StandsFor(front, o) && 0 <= k < |front| && front[k].provider == row.provider
    requires !(row in before && !Replaces(row, row))
    ensures Replaces(row, front[k])
  {
    var i :| 0 <= i < |front| && front[i] == o && First(front, i);
    if !Replaces(row, o) {
      SameChoice(after, o, row);
    }
  }

  // Of two rows of one provider only one is chosen.
  lemma SameChoice(chosen: seq<Row>, a: Row, b: Row)
    requires OneEach(chosen) && a in chosen && b in chosen && a.provider == b.provider
    ensures a == b
  {
    var i :| 0 <= i < |chosen| && chosen[i] == a;
    var j :| 0 <= j < |chosen| && chosen[j] == b;
  }
}
