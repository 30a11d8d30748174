/** Which exchange movement and which chain movement may be one transfer
    (api/src/domain/reconciliation.ts). Quantities are reals. */
module Reconciliation {
  import opened Text
  import opened Wrappers

  datatype Source = Kraken | Chain

  datatype Direction = In | Out

  datatype Candidate = Candidate(
    source: Source, asset: int, direction: Direction, quantity: real, at: int,
    transaction: Option<string>, network: Option<string>, fee: Option<real>)

  datatype Confidence = Exact | Likely | Unmatched

  const WINDOW_MS := 21_600_000
  const TOLERANCE_PERCENT := 0.5

  function Abs(x: real): real {
    if x < 0.0 then -x else x
  }

  function Distance(a: int, b: int): (d: int)
    ensures d >= 0 && (a == b + d || b == a + d)
  {
    if a < b then b - a else a - b
  }

  // A missing and an empty string are both false.
  predicate Given(s: Option<string>) {
    s.Some? && s.value != []
  }

  predicate Comparable(kraken: Candidate, chain: Candidate) {
    kraken.source == Kraken && chain.source == Chain && kraken.asset == chain.asset
    && kraken.direction != chain.direction
  }

  function Fee(kraken: Candidate, chain: Candidate): real {
    Abs(if kraken.fee.Some? then kraken.fee.value else if chain.fee.Some? then chain.fee.value else 0.0)
  }

  predicate ExactAfterFee(kraken: Candidate, chain: Candidate) {
    || Abs(kraken.quantity) - Fee(kraken, chain) == Abs(chain.quantity)
    || Abs(chain.quantity) - Fee(kraken, chain) == Abs(kraken.quantity)
  }

  function DifferencePercent(kraken: Candidate, chain: Candidate): real {
    var larger := if Abs(kraken.quantity) < Abs(chain.quantity) then Abs(chain.quantity) else Abs(kraken.quantity);
    if larger == 0.0 then 0.0 else Abs(Abs(kraken.quantity) - Abs(chain.quantity)) / larger * 100.0
  }

  predicate WithinTolerance(kraken: Candidate, chain: Candidate) {
    DifferencePercent(kraken, chain) <= TOLERANCE_PERCENT
  }

  predicate IdentifierMatch(kraken: Candidate, chain: Candidate) {
    Given(kraken.transaction) && Given(chain.transaction)
    && Lower(kraken.transaction.value) == Lower(chain.transaction.value)
    && (!Given(kraken.network) || !Given(chain.network) || kraken.network == chain.network)
  }

  predicate AmountMatches(kraken: Candidate, chain: Candidate) {
    Abs(kraken.quantity) == Abs(chain.quantity) || ExactAfterFee(kraken, chain) || WithinTolerance(kraken, chain)
  }

  predicate WithinWindow(kraken: Candidate, chain: Candidate) {
    Distance(kraken.at, chain.at) <= WINDOW_MS
  }

  /** reconcileTransfer with its default window and tolerance, without the evidence it records. */
  function ReconcileTransfer(kraken: Candidate, chain: Candidate): Confidence {
    if !Comparable(kraken, chain) then Unmatched
    else if IdentifierMatch(kraken, chain) && AmountMatches(kraken, chain) then Exact
    else if IdentifierMatch(kraken, chain) then Unmatched
    else if ExactAfterFee(kraken, chain) && WithinWindow(kraken, chain) then Exact
    else if WithinWindow(kraken, chain) && WithinTolerance(kraken, chain) then Likely
    else Unmatched
  }

  lemma Percent(difference: real, larger: real)
    requires larger > 0.0
    ensures difference / larger * 100.0 <= TOLERANCE_PERCENT <==> difference <= larger / 200.0
  {
    var ratio := difference / larger;
    assert ratio * larger == difference;
    if ratio <= 0.005 {
      assert ratio * larger <= 0.005 * larger;
    } else {
      assert ratio * larger > 0.005 * larger;
    }
  }

  /** Two movements are taken for one transfer exactly if they are of one asset in opposite directions and
      either carry the same identifier on compatible networks, whatever their times, or lie within six hours
      of each other, whatever their identifiers; and the amounts differ by exactly the fee, or by at most half a
      percent of the larger one. */
  lemma MatchedIff(kraken: Candidate, chain: Candidate)
    ensures var larger :=
              if Abs(kraken.quantity) < Abs(chain.quantity) then Abs(chain.quantity) else Abs(kraken.quantity);
            var difference := Abs(Abs(kraken.quantity) - Abs(chain.quantity));
            ReconcileTransfer(kraken, chain) != Unmatched
            <==> Comparable(kraken, chain)
                 && (IdentifierMatch(kraken, chain) || WithinWindow(kraken, chain))
                 && (difference == Fee(kraken, chain) || 200.0 * difference <= larger)
  {
    var larger := if Abs(kraken.quantity) < Abs(chain.quantity) then Abs(chain.quantity) else Abs(kraken.quantity);
    var difference := Abs(Abs(kraken.quantity) - Abs(chain.quantity));
    if larger > 0.0 {
      Percent(difference, larger);
    }
    assert Fee(kraken, chain) >= 0.0;
    assert ExactAfterFee(kraken, chain) <==> difference == Fee(kraken, chain);
  }

  // ---- the confidence, said of the movements ----

  /** Both name one transaction, up to case, and not two different networks. */
  predicate SameTransaction(a: Candidate, b: Candidate) {
    && a.transaction.Some? && b.transaction.Some? && a.transaction.value != "" && b.transaction.value != ""
    && SameText(a.transaction.value, b.transaction.value)
    && (a.network in {None, Some("")} || b.network in {None, Some("")} || a.network == b.network)
  }

  /** The fee that the exchange states, or else the chain, or else none. */
  predicate IsDue(fee: real, kraken: Candidate, chain: Candidate) {
    fee >= 0.0
    && match (kraken.fee, chain.fee)
       case (Some(f), _) => fee == f || fee == -f
       case (None, Some(f)) => fee == f || fee == -f
       case (None, None) => fee == 0.0
  }

  /** Of two opposite movements of one asset, those of one transaction are the same for certain if their sizes
      differ by the fee or by at most half a percent, whatever their times, and otherwise not at all. Others are
      the same for certain if their sizes differ by the fee, and likely if by at most half a percent, provided
      they lie within six hours. */
  lemma ConfidenceIff(kraken: Candidate, chain: Candidate, k: real, c: real, fee: real)
    requires k >= 0.0 && (k == kraken.quantity || k == -kraken.quantity)
    requires c >= 0.0 && (c == chain.quantity || c == -chain.quantity)
    requires IsDue(fee, kraken, chain)
    ensures var opposite := kraken.source == Kraken && chain.source == Chain && kraken.asset == chain.asset
                            && kraken.direction != chain.direction;
            var near := -21_600_000 <= kraken.at - chain.at <= 21_600_000;
            var byFee := k - c == fee || c - k == fee;
            var close := 200.0 * (k - c) <= k && 200.0 * (c - k) <= c;
            && (ReconcileTransfer(kraken, chain) == Exact
                <==> opposite && if SameTransaction(kraken, chain) then byFee || close else near && byFee)
            && (ReconcileTransfer(kraken, chain) == Likely
                <==> opposite && !SameTransaction(kraken, chain) && near && close && !byFee)
  {
    assert k == Abs(kraken.quantity) && c == Abs(chain.quantity) && fee == Fee(kraken, chain);
    IdentifierMatchIff(kraken, chain);
    CloseIff(kraken, chain);
    hide IdentifierMatch, SameTransaction, WithinTolerance;
  }

  lemma IdentifierMatchIff(kraken: Candidate, chain: Candidate)
    ensures IdentifierMatch(kraken, chain) <==> SameTransaction(kraken, chain)
  {
    hide Lower, SameText;
    if kraken.transaction.Some? && chain.transaction.Some? {
      LowerIgnoresCase(kraken.transaction.value, chain.transaction.value);
    }
  }

  lemma CloseIff(kraken: Candidate, chain: Candidate)
    ensures var k, c := Abs(kraken.quantity), Abs(chain.quantity);
            WithinTolerance(kraken, chain) <==> 200.0 * (k - c) <= k && 200.0 * (c - k) <= c
  {
    var k, c := Abs(kraken.quantity), Abs(chain.quantity);
    var larger := if k < c then c else k;
    if larger > 0.0 {
      Percent(Abs(k - c), larger);
    }
  }
}
