/** Candles in a currency that a provider does not quote, from its candles in a bridge currency and two
    reference candles (deriveQuoteFallbackRows of api/src/services/market-aggregation.ts). */
module CrossRates {
  import opened Arithmetic
  import opened Wrappers
  import opened Aggregation

  // ---- one candle ----

  function Ratio(a: real, b: real, c: real): real
    requires c != 0.0
  {
    a * b / c
  }

  /** What the source makes of a candle and the reference provider's two, or nothing where it would divide
      by zero. */
  function Derive(source: Row, target: Row, bridge: Row, requested: int): Option<Row> {
    if bridge.close == 0.0 || Open(bridge) == 0.0 || High(bridge) == 0.0 || Low(bridge) == 0.0 then None
    else
      Some(source.(
        series := source.series.(currency := requested), native := false,
        open := Some(Ratio(Open(source), Open(target), Open(bridge))),
        high := Some(Ratio(High(source), High(target), Low(bridge))),
        low := Some(Ratio(Low(source), Low(target), High(bridge))),
        close := Ratio(source.close, target.close, bridge.close),
        finalized := source.finalized && target.finalized && bridge.finalized,
        retrieved := Latest(source.retrieved, Latest(target.retrieved, bridge.retrieved))))
  }

  function Latest(a: int, b: int): int {
    if a < b then b else a
  }

  lemma Positive(p: real, c: real)
    requires c > 0.0 && p * c > 0.0
    ensures p > 0.0
  {
  }

  lemma Grows(a: real, b: real, c: real)
    requires a <= b && c > 0.0
    ensures a * c <= b * c && c * a <= c * b
  {
  }

  lemma Divided(x: real, y: real, c: real, c': real)
    requires 0.0 < x <= y && 0.0 < c' <= c
    ensures 0.0 < x / c <= y / c'
  {
    var p, q := x / c, y / c';
    assert p * c == x && q * c' == y;
    Positive(p, c);
    Grows(c', c, p);
    CancelFactor(p, q, c');
  }

  lemma RatioGrows(a: real, b: real, c: real, a': real, b': real, c': real)
    requires 0.0 < a <= a' && 0.0 < b <= b' && 0.0 < c' <= c
    ensures 0.0 < Ratio(a, b, c) <= Ratio(a', b', c')
  {
    Grows(a, a', b);
    Grows(b, b', a');
    assert a * b > 0.0;
    Divided(a * b, a' * b', c, c');
  }

  /** From three well-formed candles comes a well-formed one: the low is divided by the bridge's high and the
      high by its low, so they stay outside open and close. */
  lemma DerivedIsWellFormed(source: Row, target: Row, bridge: Row, requested: int)
    requires WellFormed(source) && WellFormed(target) && WellFormed(bridge)
    ensures Derive(source, target, bridge, requested).Some?
    ensures WellFormed(Derive(source, target, bridge, requested).value)
  {
    hide Ratio;
    RatioGrows(Low(source), Low(target), High(bridge), Open(source), Open(target), Open(bridge));
    RatioGrows(Open(source), Open(target), Open(bridge), High(source), High(target), Low(bridge));
    RatioGrows(Low(source), Low(target), High(bridge), source.close, target.close, bridge.close);
    RatioGrows(source.close, target.close, bridge.close, High(source), High(target), Low(bridge));
  }

  /** The price times the bridge's is the source's times the target's. */
  predicate Converts(price: real, source: real, target: real, bridge: real) {
    price * bridge == source * target
  }

  lemma RatioConverts(a: real, b: real, c: real)
    requires c != 0.0
    ensures Converts(Ratio(a, b, c), a, b, c)
  {
  }

  // A price that may be missing, or else the close.
  function OrClose(price: Option<real>, r: Row): real {
    match price
    case None => r.close
    case Some(p) => p
  }

  /** Open is converted by the opens and close by the closes, but the high is divided by the bridge's low and the low
      by its high; nothing is derived exactly where a price of the bridge is zero. */
  lemma DerivedPrices(source: Row, target: Row, bridge: Row, requested: int)
    ensures var x := Derive(source, target, bridge, requested);
            && (x.None? <==> bridge.close == 0.0 || bridge.open == Some(0.0) || bridge.high == Some(0.0)
                             || bridge.low == Some(0.0))
            && (x.Some? ==>
                  && x.value.open.Some? && x.value.high.Some? && x.value.low.Some?
                  && Converts(x.value.open.value, OrClose(source.open, source), OrClose(target.open, target),
                              OrClose(bridge.open, bridge))
                  && Converts(x.value.high.value, OrClose(source.high, source), OrClose(target.high, target),
                              OrClose(bridge.low, bridge))
                  && Converts(x.value.low.value, OrClose(source.low, source), OrClose(target.low, target),
                              OrClose(bridge.high, bridge))
                  && Converts(x.value.close, source.close, target.close, bridge.close))
  {
    hide Ratio, Converts;
    if bridge.close != 0.0 && Open(bridge) != 0.0 && High(bridge) != 0.0 && Low(bridge) != 0.0 {
      RatioConverts(Open(source), Open(target), Open(bridge));
      RatioConverts(High(source), High(target), Low(bridge));
      RatioConverts(Low(source), Low(target), High(bridge));
      RatioConverts(source.close, target.close, bridge.close);
    }
  }

  lemma DerivedKeeps(source: Row, target: Row, bridge: Row, requested: int)
    ensures var r := Derive(source, target, bridge, requested);
            r.Some? ==>
              var x := r.value;
              && x.series == Series(source.series.provider, source.series.asset, requested)
              && x.start == source.start && x.granularity == source.granularity && !x.native
              && x.volume == source.volume && x.samples == source.samples
              && (x.finalized <==> source.finalized && target.finalized && bridge.finalized)
              && x.retrieved in {source.retrieved, target.retrieved, bridge.retrieved}
              && x.retrieved >= source.retrieved && x.retrieved >= target.retrieved && x.retrieved >= bridge.retrieved
  {
    hide Ratio;
  }

  // ---- the list ----

  // The last row of the reference provider at a place, as later entries of a Map replace earlier ones.
  function Reference(rows: seq<Row>, provider: int, asset: int, currency: int, start: int): Option<Row> {
    if rows == [] then None
    else
      var r := rows[|rows| - 1];
      if r.series == Series(provider, asset, currency) && r.start == start then Some(r)
      else Reference(rows[..|rows| - 1], provider, asset, currency, start)
  }

  predicate SameKey(a: Row, b: Row) {
    a.series.provider == b.series.provider && a.series.asset == b.series.asset && a.start == b.start
  }

  function Direct(rows: seq<Row>, requested: int): seq<Row> {
    if rows == [] then []
    else
      var rest, r := Direct(rows[..|rows| - 1], requested), rows[|rows| - 1];
      if r.series.currency == requested then rest + [r] else rest
  }

  predicate HasKey(rows: seq<Row>, r: Row) {
    exists i :: 0 <= i < |rows| && SameKey(rows[i], r)
  }

  // What one row contributes.
  function Fallback(rows: seq<Row>, reference: int, source: Row, requested: int, bridge: int): Option<Row> {
    if source.series.provider == reference || source.series.currency != bridge
       || HasKey(Direct(rows, requested), source)
    then None
    else
      var targetRate := Reference(rows, reference, source.series.asset, requested, source.start);
      var bridgeRate := Reference(rows, reference, source.series.asset, bridge, source.start);
      if targetRate.None? || bridgeRate.None? then None
      else Derive(source, targetRate.value, bridgeRate.value, requested)
  }

  function Fallbacks(rows: seq<Row>, reference: int, sources: seq<Row>, requested: int, bridge: int): seq<Row> {
    if sources == [] then []
    else
      var rest := Fallbacks(rows, reference, sources[..|sources| - 1], requested, bridge);
      match Fallback(rows, reference, sources[|sources| - 1], requested, bridge)
      case None => rest
      case Some(r) => rest + [r]
  }

  method DeriveQuoteFallbackRows(rows: seq<Row>, reference: int, requested: int, bridge: int) returns (output: seq<Row>)
    ensures output == if requested == bridge then Direct(rows, requested)
                      else Direct(rows, requested) + Fallbacks(rows, reference, rows, requested, bridge)
  {
    hide Direct, Fallback;
    var direct := Direct(rows, requested);
    if requested == bridge {
      return direct;
    }
    var derived: seq<Row> := [];
    for i := 0 to |rows|
      invariant derived == Fallbacks(rows, reference, rows[..i], requested, bridge)
    {
      assert rows[..i + 1][..i] == rows[..i];
      var row := Fallback(rows, reference, rows[i], requested, bridge);
      if row.Some? {
        derived := derived + [row.value];
      }
    }
    assert rows[..|rows|] == rows;
    output := direct + derived;
  }

  lemma {:induction false} ReferenceIsThere(rows: seq<Row>, provider: int, asset: int, currency: int, start: int)
    ensures var r := Reference(rows, provider, asset, currency, start); r.Some? ==> r.value in rows
  {
    if rows != [] {
      ReferenceIsThere(rows[..|rows| - 1], provider, asset, currency, start);
    }
  }

  predicate AllWellFormed(rows: seq<Row>) {
    forall i :: 0 <= i < |rows| ==> WellFormed(rows[i])
  }

  lemma OneFallback(rows: seq<Row>, reference: int, source: Row, requested: int, bridge: int)
    requires AllWellFormed(rows) && WellFormed(source)
    ensures var r := Fallback(rows, reference, source, requested, bridge);
            r.Some? ==> WellFormed(r.value) && r.value.series.currency == requested
                        && r.value.start == source.start && !HasKey(Direct(rows, requested), r.value)
  {
    hide WellFormed, Reference, Direct;
    var targetRate := Reference(rows, reference, source.series.asset, requested, source.start);
    var bridgeRate := Reference(rows, reference, source.series.asset, bridge, source.start);
    ReferenceIsThere(rows, reference, source.series.asset, requested, source.start);
    ReferenceIsThere(rows, reference, source.series.asset, bridge, source.start);
    if targetRate.Some? && bridgeRate.Some? {
      DerivedIsWellFormed(source, targetRate.value, bridgeRate.value, requested);
    }
  }

  // Well formed, in the requested currency, and beside no direct row.
  predicate Good(out: seq<Row>, direct: seq<Row>, requested: int) {
    forall i :: 0 <= i < |out| ==> WellFormed(out[i]) && out[i].series.currency == requested && !HasKey(direct, out[i])
  }

  /** From well-formed rows come well-formed rows in the requested currency, and none beside a direct row of the
      same provider, asset and time. */
  lemma {:induction false} FallbacksAreWellFormed(rows: seq<Row>, reference: int, sources: seq<Row>,
                                                    requested: int, bridge: int)
    requires AllWellFormed(rows) && AllWellFormed(sources)
    ensures Good(Fallbacks(rows, reference, sources, requested, bridge), Direct(rows, requested), requested)
  {
    hide WellFormed, Direct, HasKey, Fallback;
    if sources != [] {
      FallbacksAreWellFormed(rows, reference, sources[..|sources| - 1], requested, bridge);
      OneFallback(rows, reference, sources[|sources| - 1], requested, bridge);
    }
  }

  // ---- which rows are derived ----

  /** The last row of a provider at a place. */
  predicate LastAt(rows: seq<Row>, i: int, provider: int, asset: int, currency: int, start: int) {
    && 0 <= i < |rows| && At(rows[i], provider, asset, currency, start)
    && forall k :: i < k < |rows| ==> !At(rows[k], provider, asset, currency, start)
  }

  predicate At(r: Row, provider: int, asset: int, currency: int, start: int) {
    r.series.provider == provider && r.series.asset == asset && r.series.currency == currency && r.start == start
  }

  lemma {:induction false} ReferenceIsLast(rows: seq<Row>, provider: int, asset: int, currency: int, start: int)
    ensures var r := Reference(rows, provider, asset, currency, start);
            && (r.Some? ==> exists i :: LastAt(rows, i, provider, asset, currency, start) && rows[i] == r.value)
            && (r.None? ==> forall i :: 0 <= i < |rows| ==> !At(rows[i], provider, asset, currency, start))
  {
    if rows != [] {
      var front, last := rows[..|rows| - 1], |rows| - 1;
      ReferenceIsLast(front, provider, asset, currency, start);
      if At(rows[last], provider, asset, currency, start) {
        assert LastAt(rows, last, provider, asset, currency, start);
      } else if Reference(rows, provider, asset, currency, start).Some? {
        var i :| LastAt(front, i, provider, asset, currency, start)
                 && front[i] == Reference(front, provider, asset, currency, start).value;
        assert LastAt(rows, i, provider, asset, currency, start);
      }
    }
  }

  lemma {:induction false} DirectIff(rows: seq<Row>, requested: int, r: Row)
    ensures r in Direct(rows, requested) <==> r in rows && r.series.currency == requested
  {
    if rows != [] {
      DirectIff(rows[..|rows| - 1], requested, r);
      assert rows == rows[..|rows| - 1] + [rows[|rows| - 1]];
    }
  }

  /** A row contributes exactly if it is another provider's in the bridge currency, has no row beside it in the
      requested one, and the reference provider has, at its time, a row in both currencies, the last of which leave
      no division by zero. */
  lemma FallbackIff(rows: seq<Row>, reference: int, source: Row, requested: int, bridge: int, r: Row)
    ensures Fallback(rows, reference, source, requested, bridge) == Some(r)
            <==> && source.series.provider != reference && source.series.currency == bridge
                 && (forall x <- rows :: !At(x, source.series.provider, source.series.asset, requested, source.start))
                 && exists i, k ::
                      && LastAt(rows, i, reference, source.series.asset, requested, source.start)
                      && LastAt(rows, k, reference, source.series.asset, bridge, source.start)
                      && Derive(source, rows[i], rows[k], requested) == Some(r)
  {
    hide Derive, Reference, Direct;
    BesideIff(rows, requested, source);
    ReferenceIsLast(rows, reference, source.series.asset, requested, source.start);
    ReferenceIsLast(rows, reference, source.series.asset, bridge, source.start);
    forall i, k | LastAt(rows, i, reference, source.series.asset, requested, source.start)
                  && LastAt(rows, k, reference, source.series.asset, requested, source.start)
      ensures i == k
    {
    }
    forall i, k | LastAt(rows, i, reference, source.series.asset, bridge, source.start)
                  && LastAt(rows, k, reference, source.series.asset, bridge, source.start)
      ensures i == k
    {
    }
  }

  lemma BesideIff(rows: seq<Row>, requested: int, source: Row)
    ensures HasKey(Direct(rows, requested), source)
            <==> exists x <- rows :: At(x, source.series.provider, source.series.asset, requested, source.start)
  {
    var direct := Direct(rows, requested);
    if HasKey(direct, source) {
      var i :| 0 <= i < |direct| && SameKey(direct[i], source);
      DirectIff(rows, requested, direct[i]);
    }
    forall x <- rows | At(x, source.series.provider, source.series.asset, requested, source.start)
      ensures HasKey(direct, source)
    {
      DirectIff(rows, requested, x);
      var i :| 0 <= i < |direct| && direct[i] == x;
      assert SameKey(direct[i], source);
    }
  }

  // ---- the order of the list ----

  /** The direct rows of two lists are those of the one and then those of the other, and of a single row it is itself,
      if it is in the requested currency. */
  lemma {:induction false} DirectJoins(xs: seq<Row>, ys: seq<Row>, r: Row, requested: int)
    ensures Direct(xs + ys, requested) == Direct(xs, requested) + Direct(ys, requested)
    ensures Direct([r], requested) == if r.series.currency == requested then [r] else []
    decreases |ys|
  {
    if ys == [] {
      assert xs + ys == xs;
    } else {
      var front := ys[..|ys| - 1];
      DirectJoins(xs, front, r, requested);
      assert (xs + ys)[..|xs + ys| - 1] == xs + front;
    }
  }

  /** So it is with the derived ones: every row that contributes is followed by those of the rows behind it. */
  lemma {:induction false} FallbacksJoin(rows: seq<Row>, reference: int, xs: seq<Row>, ys: seq<Row>, source: Row,
                                         requested: int, bridge: int)
    ensures Fallbacks(rows, reference, xs + ys, requested, bridge)
            == Fallbacks(rows, reference, xs, requested, bridge) + Fallbacks(rows, reference, ys, requested, bridge)
    ensures var r := Fallback(rows, reference, source, requested, bridge);
            Fallbacks(rows, reference, [source], requested, bridge) == if r.None? then [] else [r.value]
    decreases |ys|
  {
    hide Fallback;
    if ys == [] {
      assert xs + ys == xs;
    } else {
      var front := ys[..|ys| - 1];
      FallbacksJoin(rows, reference, xs, front, source, requested, bridge);
      assert (xs + ys)[..|xs + ys| - 1] == xs + front;
    }
  }
}
