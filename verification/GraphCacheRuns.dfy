/** Runs of the graph cache in which a fill outlives its lock. */
module GraphCacheRuns {
  import opened Wrappers
  import opened GraphCache

  lemma RunThree(before: seq<Step>, a: Step, b: Step, c: Step)
    ensures Run(before + [a, b, c]) == Next(Next(Next(Run(before), a), b), c)
  {
    RunSnoc(before, a);
    RunSnoc(before + [a], b);
    RunSnoc(before + [a] + [b], c);
    assert before + [a] + [b] + [c] == before + [a, b, c];
  }

  const P := Plan(0, 0)

  // One act, where the plan P is all there is.
  lemma Acts(s: State, fill: Token, act: Act, k: Keys)
    requires fill in s.fills && s.fills[fill].plan == P && s.keys == map[P := k] && Can(s.fills[fill], act)
    ensures var f := s.fills[fill];
            Next(s, OfFill(fill, act))
            == State(s.now + 1, s.nextToken, map[P := Touch(k, fill, f, act)],
                     s.fills[fill := Move(k, f, act, s.now + 1)], s.inflight)
  {
    assert map[P := k][P := Touch(k, fill, s.fills[fill], act)] == map[P := Touch(k, fill, s.fills[fill], act)];
  }

  // Fill 1 reads no token and starts to load; its lock expires, and the plan is marked ...
  const LATE := [Materialize(0, P), OfFill(1, TryLock), OfFill(1, ReadToken)]
  const MARKED := [OfFill(1, StartLoad), ExpireLock(P), Mark(P)]
  // ... fill 3 recalculates the plan and removes the mark ...
  const AGAIN := [Materialize(1, P), OfFill(3, TryLock), OfFill(3, ReadToken)]
  const RELOADED := [OfFill(3, StartLoad), OfFill(3, FinishLoad), OfFill(3, StoreResult)]
  // ... and fill 1 overwrites the new result by the old one.
  const OVERWRITTEN := [OfFill(3, DeleteToken), OfFill(1, FinishLoad), OfFill(1, StoreResult)]

  const LATE_RUN := LATE + MARKED + AGAIN + RELOADED + OVERWRITTEN

  function LateState(): State {
    State(3, 2, map[P := Keys(None, Some(1), None, -1)],
          map[1 := Fill(0, P, TokenRead, None, 3, 1)], map[(0, P) := 1])
  }

  function MarkedState(): State {
    State(6, 3, map[P := Keys(None, None, Some(2), 6)],
          map[1 := Fill(0, P, Loading, None, 3, 4)], map[(0, P) := 1])
  }

  function AgainState(): State {
    State(9, 4, map[P := Keys(None, Some(3), Some(2), 6)],
          map[1 := Fill(0, P, Loading, None, 3, 4), 3 := Fill(1, P, TokenRead, Some(2), 9, 7)],
          map[(0, P) := 1, (1, P) := 3])
  }

  function ReloadedState(): State {
    State(12, 4, map[P := Keys(Some(Body(10)), Some(3), Some(2), 6)],
          map[1 := Fill(0, P, Loading, None, 3, 4), 3 := Fill(1, P, Stored, Some(2), 9, 10)],
          map[(0, P) := 1, (1, P) := 3])
  }

  lemma LateRun()
    ensures Run(LATE) == LateState()
  {
    RunThree([], LATE[0], LATE[1], LATE[2]);
    assert [] + [LATE[0], LATE[1], LATE[2]] == LATE;
  }

  lemma MarkedRun()
    ensures Next(Next(Next(LateState(), MARKED[0]), MARKED[1]), MARKED[2]) == MarkedState()
  {
    var s := LateState();
    var s1 := s.(now := 4, fills := map[1 := Fill(0, P, Loading, None, 3, 4)]);
    var s2 := s1.(now := 5, keys := map[P := Keys(None, None, None, -1)]);
    assert Next(s1, MARKED[1]) == s2 && Next(s2, MARKED[2]) == MarkedState();
    hide Next;
    Acts(s, 1, StartLoad, s.keys[P]);
    assert Next(s, MARKED[0]) == s1;
  }

  lemma AgainRun()
    ensures Next(Next(Next(MarkedState(), AGAIN[0]), AGAIN[1]), AGAIN[2]) == AgainState()
  {
    var s := MarkedState();
    var s1 := s.(now := 7, nextToken := 4, fills := s.fills[3 := Fill(1, P, Trying, None, 7, 7)],
                 inflight := s.inflight[(1, P) := 3]);
    var s2 := s1.(now := 8, keys := map[P := Keys(None, Some(3), Some(2), 6)],
                  fills := s.fills[3 := Fill(1, P, Acquired, None, 7, 7)]);
    assert Next(s, AGAIN[0]) == s1;
    hide Next;
    Acts(s1, 3, TryLock, s.keys[P]);
    Acts(s2, 3, ReadToken, s2.keys[P]);
    assert Next(s1, AGAIN[1]) == s2;
  }

  lemma ReloadedRun()
    ensures Next(Next(Next(AgainState(), RELOADED[0]), RELOADED[1]), RELOADED[2]) == ReloadedState()
  {
    hide Next;
    var s := AgainState();
    var s1 := s.(now := 10, fills := s.fills[3 := Fill(1, P, Loading, Some(2), 9, 10)]);
    var s2 := s1.(now := 11, fills := s.fills[3 := Fill(1, P, Loaded, Some(2), 9, 10)]);
    Acts(s, 3, StartLoad, s.keys[P]);
    Acts(s1, 3, FinishLoad, s.keys[P]);
    Acts(s2, 3, StoreResult, s.keys[P]);
    assert Next(s, RELOADED[0]) == s1 && Next(s1, RELOADED[1]) == s2;
  }

  lemma OverwrittenRun()
    ensures KeysOf(Next(Next(Next(ReloadedState(), OVERWRITTEN[0]), OVERWRITTEN[1]), OVERWRITTEN[2]), P)
            == Keys(Some(Body(4)), Some(3), None, 6)
  {
    hide Next;
    var s := ReloadedState();
    var keys := map[P := Keys(Some(Body(10)), Some(3), None, 6)];
    var s1 := s.(now := 13, keys := keys, fills := s.fills[3 := Fill(1, P, Releasing, Some(2), 9, 10)]);
    var s2 := s1.(now := 14, fills := s1.fills[1 := Fill(0, P, Loaded, None, 3, 4)]);
    Acts(s, 3, DeleteToken, s.keys[P]);
    Acts(s1, 1, FinishLoad, keys[P]);
    Acts(s2, 1, StoreResult, keys[P]);
    assert Next(s, OVERWRITTEN[0]) == s1 && Next(s1, OVERWRITTEN[1]) == s2;
  }

  /** Without the assumption that fills keep within their lock the protocol fails: the plan ends
      up with a result loaded at moment 4, no refresh token, and a last mark at moment 6. */
  lemma ALateFillHidesAChange()
    ensures KeysOf(Run(LATE_RUN), P) == Keys(Some(Body(4)), Some(3), None, 6)
  {
    LateRun();
    RunThree(LATE, MARKED[0], MARKED[1], MARKED[2]);
    MarkedRun();
    RunThree(LATE + MARKED, AGAIN[0], AGAIN[1], AGAIN[2]);
    AgainRun();
    RunThree(LATE + MARKED + AGAIN, RELOADED[0], RELOADED[1], RELOADED[2]);
    ReloadedRun();
    RunThree(LATE + MARKED + AGAIN + RELOADED, OVERWRITTEN[0], OVERWRITTEN[1], OVERWRITTEN[2]);
    OverwrittenRun();
  }

  // Where the run has its one expiry.
  lemma OneExpiry(i: int)
    requires 0 <= i < |LATE_RUN|
    ensures LATE_RUN[i].ExpireLock? <==> i == 4
    ensures LATE_RUN[..4] == LATE + [MARKED[0]] && LATE_RUN[4] == ExpireLock(P)
  {
    assert LATE_RUN == [
      Materialize(0, P), OfFill(1, TryLock), OfFill(1, ReadToken), OfFill(1, StartLoad), ExpireLock(P), Mark(P),
      Materialize(1, P), OfFill(3, TryLock), OfFill(3, ReadToken), OfFill(3, StartLoad), OfFill(3, FinishLoad),
      OfFill(3, StoreResult), OfFill(3, DeleteToken), OfFill(1, FinishLoad), OfFill(1, StoreResult)];
  }

  /** The one step of that run which the assumption rules out is the expiry of the lock. */
  lemma TheExpiryIsNotPunctual(i: int)
    requires 0 <= i < |LATE_RUN|
    ensures Punctual(Run(LATE_RUN[..i]), LATE_RUN[i]) <==> !LATE_RUN[i].ExpireLock?
    ensures LATE_RUN[i].ExpireLock? <==> i == 4
  {
    OneExpiry(i);
    LateRun();
    RunSnoc(LATE, MARKED[0]);
    var s := Next(LateState(), MARKED[0]);
    assert 1 in s.fills && s.fills[1].plan == P && Live(s.fills[1]);
    hide Next, Run;
  }

  // Fill 1 outlives its lock before it reads the token, and fill 2 takes the lock ...
  const EARLY := [Materialize(0, P), OfFill(1, TryLock), ExpireLock(P)]
  const OWNED := [Materialize(1, P), OfFill(2, TryLock), OfFill(2, ReadToken)]
  // ... the plan is marked during the load of fill 2, and fill 1 recalculates it ...
  const MARKED_AGAIN := [OfFill(2, StartLoad), Mark(P), OfFill(1, ReadToken)]
  const REPLACED := [OfFill(1, StartLoad), OfFill(1, FinishLoad), OfFill(1, StoreResult)]
  // ... and fill 2, which owns the lock all the while, overwrites the new result by the old one.
  const HIDDEN := [OfFill(1, DeleteToken), OfFill(2, FinishLoad), OfFill(2, StoreResult)]

  const OWNER_RUN := EARLY + OWNED + MARKED_AGAIN + REPLACED + HIDDEN

  function EarlyState(): State {
    State(3, 2, map[P := Keys(None, None, None, -1)], map[1 := Fill(0, P, Acquired, None, 1, 1)], map[(0, P) := 1])
  }

  function OwnedState(): State {
    State(6, 3, map[P := Keys(None, Some(2), None, -1)],
          map[1 := Fill(0, P, Acquired, None, 1, 1), 2 := Fill(1, P, TokenRead, None, 6, 4)],
          map[(0, P) := 1, (1, P) := 2])
  }

  function MarkedAgainState(): State {
    State(9, 4, map[P := Keys(None, Some(2), Some(3), 8)],
          map[1 := Fill(0, P, TokenRead, Some(3), 9, 1), 2 := Fill(1, P, Loading, None, 6, 7)],
          map[(0, P) := 1, (1, P) := 2])
  }

  function ReplacedState(): State {
    State(12, 4, map[P := Keys(Some(Body(10)), Some(2), Some(3), 8)],
          map[1 := Fill(0, P, Stored, Some(3), 9, 10), 2 := Fill(1, P, Loading, None, 6, 7)],
          map[(0, P) := 1, (1, P) := 2])
  }

  lemma EarlyRun()
    ensures Run(EARLY) == EarlyState()
  {
    RunThree([], EARLY[0], EARLY[1], EARLY[2]);
    assert [] + [EARLY[0], EARLY[1], EARLY[2]] == EARLY;
  }

  lemma OwnedRun()
    ensures Next(Next(Next(EarlyState(), OWNED[0]), OWNED[1]), OWNED[2]) == OwnedState()
  {
    var s := EarlyState();
    var s1 := s.(now := 4, nextToken := 3, fills := s.fills[2 := Fill(1, P, Trying, None, 4, 4)],
                 inflight := s.inflight[(1, P) := 2]);
    var s2 := s1.(now := 5, keys := map[P := Keys(None, Some(2), None, -1)],
                  fills := s.fills[2 := Fill(1, P, Acquired, None, 4, 4)]);
    assert Next(s, OWNED[0]) == s1;
    hide Next;
    Acts(s1, 2, TryLock, s.keys[P]);
    Acts(s2, 2, ReadToken, s2.keys[P]);
    assert Next(s1, OWNED[1]) == s2;
  }

  lemma MarkedAgainRun()
    ensures Next(Next(Next(OwnedState(), MARKED_AGAIN[0]), MARKED_AGAIN[1]), MARKED_AGAIN[2]) == MarkedAgainState()
  {
    var s := OwnedState();
    var s1 := s.(now := 7, fills := s.fills[2 := Fill(1, P, Loading, None, 6, 7)]);
    var s2 := s1.(now := 8, nextToken := 4, keys := map[P := Keys(None, Some(2), Some(3), 8)]);
    Acts(s, 2, StartLoad, s.keys[P]);
    Acts(s2, 1, ReadToken, s2.keys[P]);
    assert Next(s, MARKED_AGAIN[0]) == s1 by { hide Next; }
    assert Next(s1, Mark(P)) == s2;
    hide Next;
  }

  lemma ReplacedRun()
    ensures Next(Next(Next(MarkedAgainState(), REPLACED[0]), REPLACED[1]), REPLACED[2]) == ReplacedState()
  {
    hide Next;
    var s := MarkedAgainState();
    var s1 := s.(now := 10, fills := s.fills[1 := Fill(0, P, Loading, Some(3), 9, 10)]);
    var s2 := s1.(now := 11, fills := s.fills[1 := Fill(0, P, Loaded, Some(3), 9, 10)]);
    Acts(s, 1, StartLoad, s.keys[P]);
    Acts(s1, 1, FinishLoad, s.keys[P]);
    Acts(s2, 1, StoreResult, s.keys[P]);
    assert Next(s, REPLACED[0]) == s1 && Next(s1, REPLACED[1]) == s2;
  }

  lemma HiddenRun()
    ensures KeysOf(Next(Next(Next(ReplacedState(), HIDDEN[0]), HIDDEN[1]), HIDDEN[2]), P)
            == Keys(Some(Body(7)), Some(2), None, 8)
  {
    hide Next;
    var s := ReplacedState();
    var keys := map[P := Keys(Some(Body(10)), Some(2), None, 8)];
    var s1 := s.(now := 13, keys := keys, fills := s.fills[1 := Fill(0, P, Releasing, Some(3), 9, 10)]);
    var s2 := s1.(now := 14, fills := s1.fills[2 := Fill(1, P, Loaded, None, 6, 7)]);
    Acts(s, 1, DeleteToken, s.keys[P]);
    Acts(s1, 2, FinishLoad, keys[P]);
    Acts(s2, 2, StoreResult, keys[P]);
    assert Next(s, HIDDEN[0]) == s1 && Next(s1, HIDDEN[1]) == s2;
  }

  /** Even a fill that still owns its lock can hide a change when another one has outlived its own: here fill 2
      owns the lock, and leaves a result loaded at moment 7, no refresh token, and a last mark at moment 8. */
  lemma AnOwnerHidesAChange()
    ensures KeysOf(Run(OWNER_RUN), P) == Keys(Some(Body(7)), Some(2), None, 8)
  {
    EarlyRun();
    RunThree(EARLY, OWNED[0], OWNED[1], OWNED[2]);
    OwnedRun();
    RunThree(EARLY + OWNED, MARKED_AGAIN[0], MARKED_AGAIN[1], MARKED_AGAIN[2]);
    MarkedAgainRun();
    RunThree(EARLY + OWNED + MARKED_AGAIN, REPLACED[0], REPLACED[1], REPLACED[2]);
    ReplacedRun();
    RunThree(EARLY + OWNED + MARKED_AGAIN + REPLACED, HIDDEN[0], HIDDEN[1], HIDDEN[2]);
    HiddenRun();
  }
}
