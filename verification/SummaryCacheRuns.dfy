/** Runs of the summary cache that show why the theorems about it carry their conditions. */
module SummaryCacheRuns {
  import opened Wrappers
  import opened SummaryCache

  // ---- a generation that goes backwards ----

  const SOME_KEY := Key(Request(Portfolio, 0), Tag(0))

  const OPEN := [Bump(Portfolio), BeginRead(0, 0, SOME_KEY.request)]
  const REGISTER := [OfReader(0, ReadEpoch), OfReader(0, ReadEntry)]
  const LOCK := [RefreshRegistered(0, SOME_KEY), OfFill(2, TryLock)]
  const PREPARE := [OfFill(2, ReadVersion), OfFill(2, CheckCurrent(0))]
  const LOAD := [OfFill(2, StartLoad), OfFill(2, FinishLoad)]
  const STORE := [OfFill(2, StoreResult(0)), OfFill(2, Release)]
  const LOCK_AGAIN := [RefreshRegistered(1, SOME_KEY), OfFill(3, TryLock)]
  const BLIND_LOAD := [OfFill(3, LockPhaseFault), OfFill(3, StartLoad)]
  const BLIND_STORE := [OfFill(3, FinishLoad), OfFill(3, StoreResult(0))]

  const FIRST_STORE := Store(SOME_KEY, 11, 2, Data(9), 1, true)
  const LATER_STORE := Store(SOME_KEY, 18, 3, Data(16), 0, false)

  lemma OpenRun()
    ensures RunFrom(Init, OPEN)
            == Init.(line := Init.line.(now := 2, nextToken := 2, generation := map[Portfolio := 1],
                                        bumps := {Change(Portfolio, 1, 1)}),
                     readers := map[0 := Reader(0, SOME_KEY.request, 2, Asking, Key(SOME_KEY.request, Fallback),
                                                None, None, 2, false, None)])
  {
    Unroll2(Init, OPEN);
  }

  lemma RegisterRun(s: State)
    requires s.line == Init.line.(now := 2, nextToken := 2, generation := map[Portfolio := 1],
                                  bumps := {Change(Portfolio, 1, 1)})
    requires s.results == map[] && s.locks == map[] && s.fills == map[] && s.inflight == map[]
    requires 0 in s.readers && s.readers[0] == Reader(0, SOME_KEY.request, 2, Asking, Key(SOME_KEY.request, Fallback),
                                                      None, None, 2, false, None)
    ensures var s' := RunFrom(s, REGISTER);
            && s'.line == s.line.(now := 4) && SOME_KEY in s'.requested
            && s'.results == map[] && s'.locks == map[] && s'.fills == map[] && s'.inflight == map[]
  {
    Unroll2(s, REGISTER);
  }

  // What the rest of the run depends on: the log, and the fill that is on its way.
  ghost predicate At(s: State, now: int, stores: set<Store>, token: Token, f: Fill) {
    && s.line.now == now && s.line.stores == stores && SOME_KEY in s.requested
    && Version(s.line.generation, Portfolio) == 1 && s.line.nextToken == token + 1
    && token in s.fills && s.fills[token] == f
    && (token == 2 ==> (1, SOME_KEY) !in s.inflight)
  }

  lemma LockRun(s: State)
    requires s.line.now == 4 && s.line.nextToken == 2 && s.line.generation == map[Portfolio := 1]
    requires s.line.stores == {} && SOME_KEY in s.requested
    requires s.results == map[] && s.locks == map[] && s.fills == map[] && s.inflight == map[]
    ensures var s' := RunFrom(s, LOCK);
            At(s', 6, {}, 2, Fill(0, SOME_KEY, Locked, 5, true, 6, false, 0, 6, 5, None))
            && s'.results == map[] && s'.locks == map[SOME_KEY := 2]
  {
    Unroll2(s, LOCK);
  }

  lemma PrepareRun(s: State)
    requires At(s, 6, {}, 2, Fill(0, SOME_KEY, Locked, 5, true, 6, false, 0, 6, 5, None))
    requires s.results == map[] && s.locks == map[SOME_KEY := 2]
    ensures var s' := RunFrom(s, PREPARE);
            At(s', 8, {}, 2, Fill(0, SOME_KEY, Ready, 5, true, 6, true, 1, 7, 5, None))
            && s'.locks == map[SOME_KEY := 2]
  {
    Unroll2(s, PREPARE);
  }

  lemma LoadRun(s: State)
    requires At(s, 8, {}, 2, Fill(0, SOME_KEY, Ready, 5, true, 6, true, 1, 7, 5, None))
    requires s.locks == map[SOME_KEY := 2]
    ensures var s' := RunFrom(s, LOAD);
            At(s', 10, {}, 2, Fill(0, SOME_KEY, Loaded, 5, true, 6, true, 1, 7, 9, Some(Data(9))))
            && s'.locks == map[SOME_KEY := 2]
  {
    Unroll2(s, LOAD);
  }

  lemma StoreRun(s: State)
    requires At(s, 10, {}, 2, Fill(0, SOME_KEY, Loaded, 5, true, 6, true, 1, 7, 9, Some(Data(9))))
    requires s.locks == map[SOME_KEY := 2]
    ensures var s' := RunFrom(s, STORE);
            At(s', 12, {FIRST_STORE}, 2, Fill(0, SOME_KEY, Done, 5, true, 6, true, 1, 7, 9, Some(Data(9))))
            && s'.locks == map[]
  {
    Unroll2(s, STORE);
  }

  lemma LockAgainRun(s: State)
    requires At(s, 12, {FIRST_STORE}, 2, Fill(0, SOME_KEY, Done, 5, true, 6, true, 1, 7, 9, Some(Data(9))))
    requires s.locks == map[]
    ensures var s' := RunFrom(s, LOCK_AGAIN);
            At(s', 14, {FIRST_STORE}, 3, Fill(1, SOME_KEY, Locked, 13, true, 14, false, 0, 14, 13, None))
            && s'.locks == map[SOME_KEY := 3]
  {
    Unroll2(s, LOCK_AGAIN);
  }

  lemma BlindLoadRun(s: State)
    requires At(s, 14, {FIRST_STORE}, 3, Fill(1, SOME_KEY, Locked, 13, true, 14, false, 0, 14, 13, None))
    requires s.locks == map[SOME_KEY := 3]
    ensures var s' := RunFrom(s, BLIND_LOAD);
            At(s', 16, {FIRST_STORE}, 3, Fill(1, SOME_KEY, Loading, 13, true, 14, false, 0, 14, 16, None))
            && s'.locks == map[SOME_KEY := 3]
  {
    Unroll2(s, BLIND_LOAD);
  }

  lemma BlindStoreRun(s: State)
    requires At(s, 16, {FIRST_STORE}, 3, Fill(1, SOME_KEY, Loading, 13, true, 14, false, 0, 14, 16, None))
    requires s.locks == map[SOME_KEY := 3]
    ensures RunFrom(s, BLIND_STORE).line.stores == {FIRST_STORE, LATER_STORE}
  {
    var s1 := Next(s, BLIND_STORE[0]);
    assert At(s1, 17, {FIRST_STORE}, 3, Fill(1, SOME_KEY, Loaded, 13, true, 14, false, 0, 14, 16, Some(Data(16))));
    assert s1.locks == map[SOME_KEY := 3];
    assert Next(s1, BLIND_STORE[1]).line.stores == {FIRST_STORE, LATER_STORE};
    hide Next, At;
    Unroll2(s, BLIND_STORE);
  }

  // The first five pairs of steps, and the other four.
  const FIRST_FILL := OPEN + REGISTER + LOCK + PREPARE + LOAD
  const BLIND_RUN := FIRST_FILL + STORE + LOCK_AGAIN + BLIND_LOAD + BLIND_STORE

  lemma FirstFillRun()
    ensures At(Run(FIRST_FILL), 10, {}, 2, Fill(0, SOME_KEY, Loaded, 5, true, 6, true, 1, 7, 9, Some(Data(9))))
    ensures Run(FIRST_FILL).locks == map[SOME_KEY := 2]
  {
    RunAppends([], OPEN);
    assert [] + OPEN == OPEN;
    OpenRun();
    RunAppends(OPEN, REGISTER);
    RegisterRun(Run(OPEN));
    RunAppends(OPEN + REGISTER, LOCK);
    LockRun(Run(OPEN + REGISTER));
    RunAppends(OPEN + REGISTER + LOCK, PREPARE);
    PrepareRun(Run(OPEN + REGISTER + LOCK));
    RunAppends(OPEN + REGISTER + LOCK + PREPARE, LOAD);
    LoadRun(Run(OPEN + REGISTER + LOCK + PREPARE));
  }

  /** The version read of the second fill fails after it has taken the lock, and the source
      goes on with the empty generation: the entry it stores is newer, its generation older. */
  lemma AFailedVersionReadGoesBack()
    ensures FIRST_STORE in Run(BLIND_RUN).line.stores && LATER_STORE in Run(BLIND_RUN).line.stores
    ensures FIRST_STORE.key == LATER_STORE.key && FIRST_STORE.at < LATER_STORE.at
    ensures LATER_STORE.generation < FIRST_STORE.generation
  {
    FirstFillRun();
    RunAppends(FIRST_FILL, STORE);
    StoreRun(Run(FIRST_FILL));
    RunAppends(FIRST_FILL + STORE, LOCK_AGAIN);
    LockAgainRun(Run(FIRST_FILL + STORE));
    RunAppends(FIRST_FILL + STORE + LOCK_AGAIN, BLIND_LOAD);
    BlindLoadRun(Run(FIRST_FILL + STORE + LOCK_AGAIN));
    RunAppends(FIRST_FILL + STORE + LOCK_AGAIN + BLIND_LOAD, BLIND_STORE);
    BlindStoreRun(Run(FIRST_FILL + STORE + LOCK_AGAIN + BLIND_LOAD));
  }

  // ---- a read without Redis ----

  const OFFLINE_KEY := Key(Request(Portfolio, 0), Fallback)
  const OFFLINE_FILL := Fill(0, OFFLINE_KEY, Loading, 2, false, 2, false, 0, 2, 3, None)

  const OFFLINE_READ := [BeginRead(0, 0, OFFLINE_KEY.request), OfReader(0, ReaderFault)]
  const OFFLINE_LOAD := [OfFill(1, StartLoad), Invalidate(Portfolio)]
  const OFFLINE_JOIN := [BeginRead(1, 0, OFFLINE_KEY.request), OfReader(1, ReaderFault)]
  const OFFLINE_ANSWER := [OfFill(1, FinishLoad), OfReader(1, AwaitFill)]

  lemma OfflineReadRun()
    ensures var s := RunFrom(Init, OFFLINE_READ);
            && s.line == Init.line.(now := 2, nextToken := 2)
            && s.fills == map[1 := OFFLINE_FILL.(phase := Ready, loadAt := 2)]
            && s.inflight == map[(0, OFFLINE_KEY) := 1] && s.readers.Keys == {0}
  {
    Unroll2(Init, OFFLINE_READ);
  }

  lemma OfflineLoadRun(s: State)
    requires s.line == Init.line.(now := 2, nextToken := 2)
    requires s.fills == map[1 := OFFLINE_FILL.(phase := Ready, loadAt := 2)]
    ensures var s' := RunFrom(s, OFFLINE_LOAD);
            && s'.line.invalidations == {Change(Portfolio, 2, 4)} && s'.line.now == 4
            && s'.fills == map[1 := OFFLINE_FILL]
            && s'.inflight == s.inflight && s'.readers == s.readers
  {
    Unroll2(s, OFFLINE_LOAD);
  }

  lemma OfflineJoinRun(s: State)
    requires s.line.now == 4 && s.fills == map[1 := OFFLINE_FILL]
    requires s.inflight == map[(0, OFFLINE_KEY) := 1] && s.readers.Keys == {0}
    ensures var s' := RunFrom(s, OFFLINE_JOIN);
            && s'.line == s.line.(now := 6) && s'.fills == s.fills
            && 1 in s'.readers && s'.readers[1].startedAt == 5 && s'.readers[1].phase == Awaiting(1)
            && s'.readers[1].request == OFFLINE_KEY.request
  {
    Unroll2(s, OFFLINE_JOIN);
  }

  lemma OfflineAnswerRun(s: State)
    requires s.fills == map[1 := OFFLINE_FILL] && 1 in s.readers && s.readers[1].phase == Awaiting(1)
    ensures var s' := RunFrom(s, OFFLINE_ANSWER);
            && s'.line.invalidations == s.line.invalidations
            && 1 in s'.readers && s'.readers[1] == s.readers[1].(phase := Answered, answer := Some(Data(3)))
  {
    Unroll2(s, OFFLINE_ANSWER);
  }

  /** While Redis cannot be reached, readers share fills under the key "fallback", which no
      invalidation rotates: a read can then be answered by a load older than it. */
  lemma OfflineReadsCrossInvalidations()
    ensures var s := Run(OFFLINE_READ + OFFLINE_LOAD + OFFLINE_JOIN + OFFLINE_ANSWER);
            && Change(Portfolio, 2, 4) in s.line.invalidations
            && 1 in s.readers && s.readers[1].request.scope == Portfolio
            && s.readers[1].startedAt == 5 && s.readers[1].answer == Some(Data(3))
  {
    RunAppends([], OFFLINE_READ);
    assert [] + OFFLINE_READ == OFFLINE_READ;
    OfflineReadRun();
    RunAppends(OFFLINE_READ, OFFLINE_LOAD);
    OfflineLoadRun(Run(OFFLINE_READ));
    RunAppends(OFFLINE_READ + OFFLINE_LOAD, OFFLINE_JOIN);
    OfflineJoinRun(Run(OFFLINE_READ + OFFLINE_LOAD));
    RunAppends(OFFLINE_READ + OFFLINE_LOAD + OFFLINE_JOIN, OFFLINE_ANSWER);
    OfflineAnswerRun(Run(OFFLINE_READ + OFFLINE_LOAD + OFFLINE_JOIN));
  }
}
