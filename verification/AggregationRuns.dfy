/** Rows that the two ways of aggregating treat differently. */
module AggregationRuns {
  import opened Wrappers
  import opened Aggregation
  import opened AggregationLaws
  import opened AggregationAgreement

  const S := Series(1, 1, 1)

  // A candle of one second, one of two seconds two seconds later, and one of four seconds.
  const FINE := Row(S, 0, 1, true, None, None, None, 1.0, None, 1, true, 0)
  const COARSE := Row(S, 2_000, 2, true, None, None, None, 1.0, None, 1, true, 0)
  const NATIVE := Row(S, 0, 4, true, None, None, None, 1.0, None, 1, true, 0)

  lemma OwnOfOne(r: Row, low: int, high: int)
    ensures Own([r], S, low, high) == if Is(r, S, low, high) then [r] else []
  {
    OwnSnoc([], r, S, low, high);
    assert [] + [r] == [r];
  }

  lemma OwnOfTwo(low: int, high: int)
    ensures Own([FINE, COARSE], S, low, high)
            == (if low <= 0 < high then [FINE] else []) + (if low <= 2_000 < high then [COARSE] else [])
  {
    OwnOfOne(FINE, low, high);
    OwnSnoc([FINE], COARSE, S, low, high);
    assert [FINE] + [COARSE] == [FINE, COARSE];
    hide Own;
  }

  lemma Finests()
    ensures Finest([FINE, COARSE]) == 1 && Finest([COARSE]) == 2 && Finest([NATIVE]) == 4
  {
    assert [FINE, COARSE][..1] == [FINE];
  }

  /** With more than one granularity the ways can differ: at once only the finest rows count, in two steps also
      coarser ones that are alone in their bucket. */
  lemma MixedGranularitiesDiffer()
    ensures InTwoSteps([FINE, COARSE], 2, 2, S, 0) != AtOnce([FINE, COARSE], 2, 2, S, 0)
  {
    hide Own, Finest, InTwoSteps, AtOnce;
    OwnOfTwo(0, 4_000);
    OwnOfTwo(2_000, 4_000);
    Finests();
    assert CoarseOwn([FINE, COARSE], 2, 2, S, 0) == [FINE, COARSE];
    assert [] + [COARSE] == [COARSE] && [FINE] + [COARSE] == [FINE, COARSE];
    assert !FinestAt([FINE, COARSE], 1, 2, S, 1);
    TwoStepsAreOneIff([FINE, COARSE], 2, 2, S, 0);
  }

  /** So they can for a single row of the coarse granularity: at once it is passed on as it is. */
  lemma ACoarseRowIsRebuilt()
    ensures InTwoSteps([NATIVE], 2, 2, S, 0) != AtOnce([NATIVE], 2, 2, S, 0)
  {
    hide Own, Finest, InTwoSteps, AtOnce;
    OwnOfOne(NATIVE, 0, 4_000);
    Finests();
    FinestOfOne([NATIVE], 4);
    assert CoarseOwn([NATIVE], 2, 2, S, 0) == [NATIVE];
    assert !Plain([NATIVE], 2, 2, S, 0);
    TwoStepsAreOneIff([NATIVE], 2, 2, S, 0);
  }
}
