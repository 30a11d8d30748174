/** Combining what several providers report (api/src/domain/market.ts). Decimals are reals. */
module Market {
  import opened Wrappers

  datatype Observation = Observation(provider: int, value: real, native: bool)

  datatype Candle = Candle(provider: int, open: real, high: real, low: real, close: real, native: bool)

  /** The four components of a combined candle. */
  datatype Combined = Combined(open: real, high: real, low: real, close: real)

  function Min(a: real, b: real): real {
    if b < a then b else a
  }

  function Max(a: real, b: real): real {
    if a < b then b else a
  }

  // ---- medians ----

  predicate Sorted(s: seq<real>) {
    forall i, j :: 0 <= i < j < |s| ==> s[i] <= s[j]
  }

  function Insert(s: seq<real>, x: real): (r: seq<real>)
    ensures |r| == |s| + 1
  {
    if s == [] || s[|s| - 1] <= x then s + [x] else Insert(s[..|s| - 1], x) + [s[|s| - 1]]
  }

  function Sort(values: seq<real>): (r: seq<real>)
    ensures |r| == |values|
  {
    if values == [] then [] else Insert(Sort(values[..|values| - 1]), values[|values| - 1])
  }

  function Median(values: seq<real>): Option<real> {
    var sorted := Sort(values);
    if values == [] then None
    else if |values| % 2 == 1 then Some(sorted[|values| / 2])
    else Some((sorted[|values| / 2 - 1] + sorted[|values| / 2]) / 2.0)
  }

  // What stands at k after x is put into a sorted sequence.
  function InsertedAt(s: seq<real>, x: real, k: int): real
    requires 0 <= k <= |s|
  {
    var capped := if k < |s| then Min(x, s[k]) else x;
    if k > 0 then Max(s[k - 1], capped) else capped
  }

  lemma {:induction false} InsertSorts(s: seq<real>, x: real)
    requires Sorted(s)
    ensures Sorted(Insert(s, x))
    ensures forall k :: 0 <= k <= |s| ==> Insert(s, x)[k] == InsertedAt(s, x, k)
    decreases |s|
  {
    if s != [] && x < s[|s| - 1] {
      var front := s[..|s| - 1];
      InsertSorts(front, x);
      forall k | 0 <= k <= |s|
        ensures Insert(s, x)[k] == InsertedAt(s, x, k)
      {
        if k < |s| {
          assert Insert(s, x)[k] == InsertedAt(front, x, k);
        }
      }
      forall i | 0 <= i < |s|
        ensures Insert(s, x)[i] <= s[|s| - 1]
      {
      }
    }
  }

  lemma {:induction false} SortSorts(values: seq<real>)
    ensures Sorted(Sort(values))
  {
    if values != [] {
      SortSorts(values[..|values| - 1]);
      InsertSorts(Sort(values[..|values| - 1]), values[|values| - 1]);
    }
  }

  predicate Below(xs: seq<real>, ys: seq<real>) {
    |xs| == |ys| && forall i :: 0 <= i < |xs| ==> xs[i] <= ys[i]
  }

  lemma InsertMonotone(s: seq<real>, t: seq<real>, x: real, y: real)
    requires Sorted(s) && Sorted(t) && Below(s, t) && x <= y
    ensures Below(Insert(s, x), Insert(t, y))
  {
    hide Insert;
    InsertSorts(s, x);
    InsertSorts(t, y);
    forall k | 0 <= k <= |s|
      ensures Insert(s, x)[k] <= Insert(t, y)[k]
    {
      assert InsertedAt(s, x, k) <= InsertedAt(t, y, k);
    }
  }

  /** Order statistics are monotone: raising values raises whatever stands at each place. */
  lemma {:induction false} SortMonotone(xs: seq<real>, ys: seq<real>)
    requires Below(xs, ys)
    ensures Below(Sort(xs), Sort(ys))
  {
    hide Insert, Sorted;
    if xs != [] {
      var last := |xs| - 1;
      SortMonotone(xs[..last], ys[..last]);
      SortSorts(xs[..last]);
      SortSorts(ys[..last]);
      InsertMonotone(Sort(xs[..last]), Sort(ys[..last]), xs[last], ys[last]);
    }
  }

  lemma MedianMonotone(xs: seq<real>, ys: seq<real>)
    requires Below(xs, ys) && xs != []
    ensures Median(xs).value <= Median(ys).value
  {
    SortMonotone(xs, ys);
  }

  lemma {:induction false} InsertPermutes(s: seq<real>, x: real)
    ensures multiset(Insert(s, x)) == multiset(s) + multiset{x}
    decreases |s|
  {
    if s != [] && x < s[|s| - 1] {
      InsertPermutes(s[..|s| - 1], x);
      assert s == s[..|s| - 1] + [s[|s| - 1]];
    }
  }

  lemma {:induction false} SortPermutes(values: seq<real>)
    ensures multiset(Sort(values)) == multiset(values)
  {
    if values != [] {
      SortPermutes(values[..|values| - 1]);
      InsertPermutes(Sort(values[..|values| - 1]), values[|values| - 1]);
      assert values == values[..|values| - 1] + [values[|values| - 1]];
    }
  }

  lemma MultisetFront(s: seq<real>)
    requires s != []
    ensures multiset(s[..|s| - 1]) == multiset(s) - multiset{s[|s| - 1]}
    ensures s[|s| - 1] in multiset(s)
  {
    assert s == s[..|s| - 1] + [s[|s| - 1]];
  }

  lemma SameSize(s: seq<real>, t: seq<real>)
    requires multiset(s) == multiset(t)
    ensures |s| == |t|
  {
    assert |multiset(s)| == |s| && |multiset(t)| == |t|;
  }

  lemma SameLast(s: seq<real>, t: seq<real>)
    requires Sorted(s) && Sorted(t) && multiset(s) == multiset(t) && s != [] && t != []
    ensures s[|s| - 1] == t[|t| - 1]
    ensures multiset(s[..|s| - 1]) == multiset(t[..|t| - 1])
  {
    LastIsLargest(s, t);
    LastIsLargest(t, s);
    MultisetFront(s);
    MultisetFront(t);
  }

  // A sorted sequence is determined by its elements.
  lemma {:induction false} SortedUnique(s: seq<real>, t: seq<real>)
    requires Sorted(s) && Sorted(t) && multiset(s) == multiset(t)
    ensures s == t
    decreases |s|
  {
    SameSize(s, t);
    if s != [] {
      var last := |s| - 1;
      SameLast(s, t);
      SortedUnique(s[..last], t[..last]);
      assert s == s[..last] + [s[last]] && t == t[..last] + [t[last]];
    }
  }

  lemma LastIsLargest(s: seq<real>, t: seq<real>)
    requires Sorted(s) && s != [] && t != [] && multiset(s) == multiset(t)
    ensures t[|t| - 1] <= s[|s| - 1]
  {
    MultisetFront(t);
    assert t[|t| - 1] in s;
  }

  /** The median does not depend on the order of the values. */
  lemma MedianUnordered(xs: seq<real>, ys: seq<real>)
    requires multiset(xs) == multiset(ys)
    ensures Median(xs) == Median(ys)
  {
    SortSorts(xs);
    SortSorts(ys);
    SortPermutes(xs);
    SortPermutes(ys);
    SameSize(xs, ys);
    SortedUnique(Sort(xs), Sort(ys));
  }

  // ---- prices ----

  function NativeOf(observations: seq<Observation>): seq<Observation> {
    if observations == [] then []
    else
      var rest, o := NativeOf(observations[..|observations| - 1]), observations[|observations| - 1];
      if o.native then rest + [o] else rest
  }

  function PreferredObservations(observations: seq<Observation>): seq<Observation> {
    if NativeOf(observations) != [] then NativeOf(observations) else observations
  }

  function Values(observations: seq<Observation>): (vs: seq<real>)
    ensures |vs| == |observations|
  {
    seq(|observations|, i requires 0 <= i < |observations| => observations[i].value)
  }

  /** The `value` of combinePriceObservations. */
  function CombinePriceObservations(observations: seq<Observation>): Option<real> {
    Median(Values(PreferredObservations(observations)))
  }

  // ---- candles ----

  function NativeCandles(candles: seq<Candle>): seq<Candle> {
    if candles == [] then []
    else
      var rest, c := NativeCandles(candles[..|candles| - 1]), candles[|candles| - 1];
      if c.native then rest + [c] else rest
  }

  function Usable(candles: seq<Candle>): seq<Candle> {
    if NativeCandles(candles) != [] then NativeCandles(candles) else candles
  }

  datatype Key = Open | High | Low | Close

  function Get(c: Candle, key: Key): real {
    match key
    case Open => c.open
    case High => c.high
    case Low => c.low
    case Close => c.close
  }

  function Observe(candles: seq<Candle>, key: Key): (os: seq<Observation>)
    ensures |os| == |candles|
  {
    seq(|candles|, i requires 0 <= i < |candles| =>
                     Observation(candles[i].provider, Get(candles[i], key), candles[i].native))
  }

  function Component(candles: seq<Candle>, key: Key): Option<real> {
    CombinePriceObservations(Observe(Usable(candles), key))
  }

  /** combineCandles, without the annotations; None when there is no candle. */
  function CombineCandles(candles: seq<Candle>): Option<Combined> {
    var open, close := Component(candles, Open), Component(candles, Close);
    var high, low := Component(candles, High), Component(candles, Low);
    if open.None? || close.None? || high.None? || low.None? then None
    else Some(Combined(open.value, Max(Max(high.value, open.value), close.value),
                       Min(Min(low.value, open.value), close.value), close.value))
  }

  predicate WellFormed(open: real, high: real, low: real, close: real) {
    low <= open <= high && low <= close <= high
  }

  function Column(candles: seq<Candle>, key: Key): (vs: seq<real>)
    ensures |vs| == |candles|
  {
    seq(|candles|, i requires 0 <= i < |candles| => Get(candles[i], key))
  }

  predicate AllNative(candles: seq<Candle>) {
    forall i :: 0 <= i < |candles| ==> candles[i].native
  }

  predicate NoneNative(candles: seq<Candle>) {
    forall i :: 0 <= i < |candles| ==> !candles[i].native
  }

  // Among the usable candles the preference for native ones changes nothing.
  lemma {:induction false} ColumnPreferred(candles: seq<Candle>, key: Key)
    requires AllNative(candles) || NoneNative(candles)
    ensures NativeOf(Observe(candles, key)) == if AllNative(candles) then Observe(candles, key) else []
    decreases |candles|
  {
    if candles != [] {
      var front := candles[..|candles| - 1];
      ColumnPreferred(front, key);
      assert Observe(candles, key)[..|front|] == Observe(front, key);
    }
  }

  lemma {:induction false} NativeOrNot(candles: seq<Candle>)
    ensures AllNative(NativeCandles(candles)) && (NativeCandles(candles) == [] ==> NoneNative(candles))
  {
    if candles != [] {
      NativeOrNot(candles[..|candles| - 1]);
    }
  }

  /** Each component is the median of that column of the usable candles. */
  lemma ComponentIsMedian(candles: seq<Candle>, key: Key)
    ensures Component(candles, key) == Median(Column(Usable(candles), key))
  {
    NativeOrNot(candles);
    var usable := Usable(candles);
    ColumnPreferred(usable, key);
    assert Values(Observe(usable, key)) == Column(usable, key);
    assert usable == [] ==> NativeOf(Observe(usable, key)) == [] && Observe(usable, key) == [];
  }

  /** There is a combined candle exactly if there is any candle, and it is always well formed. */
  lemma CombinedIsWellFormed(candles: seq<Candle>)
    ensures CombineCandles(candles).Some? <==> candles != []
    ensures var c := CombineCandles(candles);
            c.Some? ==> WellFormed(c.value.open, c.value.high, c.value.low, c.value.close)
  {
    hide Median, Component, Usable;
    ComponentIsMedian(candles, Open);
    ComponentIsMedian(candles, High);
    ComponentIsMedian(candles, Low);
    ComponentIsMedian(candles, Close);
    UsableIsEmpty(candles);
    MedianExists(Column(Usable(candles), Open));
    MedianExists(Column(Usable(candles), High));
    MedianExists(Column(Usable(candles), Low));
    MedianExists(Column(Usable(candles), Close));
  }

  lemma UsableIsEmpty(candles: seq<Candle>)
    ensures Usable(candles) == [] <==> candles == []
  {
  }

  lemma MedianExists(values: seq<real>)
    ensures Median(values).Some? <==> values != []
  {
  }

  predicate AllWellFormed(candles: seq<Candle>) {
    forall i :: 0 <= i < |candles| ==> WellFormed(candles[i].open, candles[i].high, candles[i].low, candles[i].close)
  }

  /** If every usable candle is well formed, the medians already are, and the clamp changes nothing. */
  lemma MediansNeedNoClamp(candles: seq<Candle>)
    requires candles != [] && AllWellFormed(Usable(candles))
    ensures CombineCandles(candles) == Some(Combined(Component(candles, Open).value, Component(candles, High).value,
                                                     Component(candles, Low).value, Component(candles, Close).value))
    ensures Component(candles, High).Some? && Component(candles, Low).Some?
  {
    var usable := Usable(candles);
    UsableIsEmpty(candles);
    CombinedIsWellFormed(candles);
    ComponentIsMedian(candles, Open);
    ComponentIsMedian(candles, High);
    ComponentIsMedian(candles, Low);
    ComponentIsMedian(candles, Close);
    hide Median, Component, Usable;
    MedianMonotone(Column(usable, Low), Column(usable, Open));
    MedianMonotone(Column(usable, Low), Column(usable, Close));
    MedianMonotone(Column(usable, Open), Column(usable, High));
    MedianMonotone(Column(usable, Close), Column(usable, High));
  }
}
