/** What the combination of several providers' prices is, said of the prices themselves. */
module MarketLaws {
  import opened Wrappers
  import opened Market

  /** Of an odd number of values the median stands in the middle of any ordering of them; of an even number it is
      half way between the two in the middle. */
  lemma MedianIsMiddle(values: seq<real>, ordered: seq<real>, k: int)
    requires multiset(ordered) == multiset(values) && forall i, j :: 0 <= i < j < |ordered| ==> ordered[i] <= ordered[j]
    ensures |ordered| == |values| && (values == [] ==> Median(values) == None)
    ensures |values| == 2 * k + 1 && 0 <= k ==> Median(values) == Some(ordered[k])
    ensures |values| == 2 * k && 0 < k ==>
              Median(values).Some? && 2.0 * Median(values).value == ordered[k - 1] + ordered[k]
  {
    SortSorts(values);
    SortPermutes(values);
    SameSize(ordered, values);
    SortedUnique(Sort(values), ordered);
  }

  // ---- native observations are preferred ----

  lemma {:induction false} NativeCount(observations: seq<Observation>, o: Observation)
    ensures multiset(NativeOf(observations))[o] == if o.native then multiset(observations)[o] else 0
  {
    if observations != [] {
      NativeCount(observations[..|observations| - 1], o);
      assert observations == observations[..|observations| - 1] + [observations[|observations| - 1]];
    }
  }

  /** As soon as one is native, only the native ones count, each as often as it occurs; otherwise all do. */
  lemma PreferredCount(observations: seq<Observation>, o: Observation)
    ensures multiset(PreferredObservations(observations))[o]
            == if o.native || forall x <- observations :: !x.native then multiset(observations)[o] else 0
  {
    NativeCount(observations, o);
    if NativeOf(observations) == [] {
      forall x <- observations
        ensures !x.native
      {
        NativeCount(observations, x);
        assert x in multiset(observations);
      }
    } else {
      var x := NativeOf(observations)[0];
      NativeCount(observations, x);
      assert x in multiset(NativeOf(observations));
      assert x in multiset(observations) && x.native;
    }
  }

  lemma {:induction false} NativeCandleCount(candles: seq<Candle>, c: Candle)
    ensures multiset(NativeCandles(candles))[c] == if c.native then multiset(candles)[c] else 0
  {
    if candles != [] {
      NativeCandleCount(candles[..|candles| - 1], c);
      assert candles == candles[..|candles| - 1] + [candles[|candles| - 1]];
    }
  }

  /** So it is with candles. */
  lemma UsableCount(candles: seq<Candle>, c: Candle)
    ensures multiset(Usable(candles))[c]
            == if c.native || forall x <- candles :: !x.native then multiset(candles)[c] else 0
  {
    NativeCandleCount(candles, c);
    if NativeCandles(candles) == [] {
      forall x <- candles
        ensures !x.native
      {
        NativeCandleCount(candles, x);
        assert x in multiset(candles);
      }
    } else {
      var x := NativeCandles(candles)[0];
      NativeCandleCount(candles, x);
      assert x in multiset(NativeCandles(candles));
      assert x in multiset(candles) && x.native;
    }
  }

  // ---- candles ----

  function Opens(candles: seq<Candle>): seq<real> {
    seq(|candles|, i requires 0 <= i < |candles| => candles[i].open)
  }

  function Highs(candles: seq<Candle>): seq<real> {
    seq(|candles|, i requires 0 <= i < |candles| => candles[i].high)
  }

  function Lows(candles: seq<Candle>): seq<real> {
    seq(|candles|, i requires 0 <= i < |candles| => candles[i].low)
  }

  function Closes(candles: seq<Candle>): seq<real> {
    seq(|candles|, i requires 0 <= i < |candles| => candles[i].close)
  }

  /** Open and close are the medians of theirs; the high is the greatest of the medians of highs, opens and closes,
      and the low the least of those of lows, opens and closes. */
  lemma CombinedIs(candles: seq<Candle>)
    requires candles != []
    ensures var usable, c := Usable(candles), CombineCandles(candles);
            var o, h := Median(Opens(usable)), Median(Highs(usable));
            var l, e := Median(Lows(usable)), Median(Closes(usable));
            && o.Some? && h.Some? && l.Some? && e.Some? && c.Some?
            && c.value.open == o.value && c.value.close == e.value
            && c.value.high in {h.value, o.value, e.value} && c.value.low in {l.value, o.value, e.value}
            && c.value.high >= h.value && c.value.high >= o.value && c.value.high >= e.value
            && c.value.low <= l.value && c.value.low <= o.value && c.value.low <= e.value
  {
    var usable := Usable(candles);
    UsableIsEmpty(candles);
    ComponentIsMedian(candles, Open);
    ComponentIsMedian(candles, High);
    ComponentIsMedian(candles, Low);
    ComponentIsMedian(candles, Close);
    assert Column(usable, Open) == Opens(usable) && Column(usable, High) == Highs(usable);
    assert Column(usable, Low) == Lows(usable) && Column(usable, Close) == Closes(usable);
    MedianExists(Opens(usable));
    MedianExists(Highs(usable));
    MedianExists(Lows(usable));
    MedianExists(Closes(usable));
    hide Median, Component, Usable;
  }
}
