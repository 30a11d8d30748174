/** What every run of the summary cache keeps. */
module SummaryCacheLaws {
  import opened Wrappers
  import opened SummaryCache

  // ---- the inductive invariant ----

  ghost predicate ChangesInv(line: Timeline, changes: set<Change>, current: map<Scope, Token>) {
    && (forall c <- changes :: 0 < c.token <= Version(current, c.scope) && c.at <= line.now)
    && (forall scope <- current :: 0 <= current[scope] < line.nextToken)
  }

  // The load behind b began after a was stored, and b records no older generation.
  predicate Ordered(a: Store, b: Store) {
    a.at < b.data.loadedFrom <= b.at && (b.versioned ==> a.generation <= b.generation)
  }

  ghost predicate StoresInv(line: Timeline) {
    && (forall st <- line.stores ::
          && st.data.loadedFrom <= st.at <= line.now && (!st.versioned ==> st.generation == 0)
          && 0 <= st.generation <= Version(line.generation, st.key.request.scope))
    && (forall a <- line.stores, b <- line.stores :: a.key == b.key && a.at <= b.at ==> a == b || Ordered(a, b))
  }

  ghost predicate LineInv(line: Timeline) {
    && line.nextToken > 0
    && ChangesInv(line, line.bumps, line.generation)
    && ChangesInv(line, line.invalidations, line.epoch)
    && StoresInv(line)
  }

  // The epoch of a key was set before the moment m: so was every invalidation up to it.
  ghost predicate EpochBefore(line: Timeline, key: Key, m: Moment) {
    key.epoch.Tag? ==>
      && key.epoch.token < line.nextToken
      && forall c <- line.invalidations ::
           c.scope == key.request.scope && c.token <= key.epoch.token ==> c.at < m
  }

  // g was the generation at the moment m: every bump since then has a younger token.
  ghost predicate VersionCurrent(line: Timeline, scope: Scope, g: Token, m: Moment) {
    && g <= Version(line.generation, scope)
    && forall c <- line.bumps :: c.scope == scope && m <= c.at ==> g < c.token
  }

  // g was read at the moment m: every bump before then has no younger token.
  ghost predicate VersionKnown(line: Timeline, scope: Scope, g: Token, m: Moment) {
    forall c <- line.bumps :: c.scope == scope && c.at < m ==> c.token <= g
  }

  ghost predicate FillInv(line: Timeline, f: Fill) {
    && f.startedAt <= line.now
    && EpochBefore(line, f.key, f.startedAt)
    && VersionCurrent(line, f.key.request.scope, f.generation, f.versionAt)
    && ((f.phase == Locked || f.phase == Versioned || f.phase == Loaded) ==> f.locked)
    && ((f.phase == Waiting || f.phase == Polling) ==> !f.locked)
    && (f.phase == Locked ==> !f.versioned)
    && (if f.versioned then f.locked && 0 <= f.generation else f.generation == 0)
    && (f.locked ==> f.startedAt <= f.lockedAt <= f.versionAt <= line.now)
    && ((f.phase == Loading || f.phase == Loaded) ==> f.startedAt <= f.loadAt <= line.now)
    && ((f.phase == Loading || f.phase == Loaded) && f.locked ==> f.versionAt <= f.loadAt)
    && (f.result.Some? ==> EpochBefore(line, f.key, f.result.value.loadedFrom))
    && (f.phase == Versioned ==> VersionKnown(line, f.key.request.scope, f.generation, f.versionAt))
    && (f.versioned ==>
          forall st <- line.stores :: st.key == f.key && st.at < f.lockedAt ==> st.generation <= f.generation)
  }

  ghost predicate EntryInv(line: Timeline, key: Key, e: Raw) {
    e.Entry? ==>
      && e.versionAt <= e.data.loadedFrom <= line.now
      && EpochBefore(line, key, e.data.loadedFrom)
      && VersionCurrent(line, key.request.scope, e.generation, e.versionAt)
  }

  ghost predicate JudgedInv(r: Reader) {
    r.judgedFresh ==>
      && r.phase == Answered
      && r.generation.Some? && r.entry.Some? && r.entry.value.Some? && r.entry.value.value.Entry?
      && r.entry.value.value.generation == r.generation.value
      && r.answer == Some(r.entry.value.value.data)
  }

  ghost predicate ReaderInv(line: Timeline, r: Reader) {
    && r.startedAt <= line.now
    && r.key.request == r.request
    && (r.phase == Asking ==> r.key.epoch == Fallback && r.entry.None? && r.generation.None? && r.answer.None?)
    && EpochBefore(line, r.key, line.now + 1)
    && (r.key.epoch.Tag? ==>
          forall c <- line.invalidations ::
            c.scope == r.request.scope && c.at < r.startedAt ==> c.token <= r.key.epoch.token)
    && (r.entry.Some? && r.entry.value.Some? ==> EntryInv(line, r.key, r.entry.value.value))
    && (r.generation.Some? ==>
          r.generationAt <= line.now && VersionKnown(line, r.request.scope, r.generation.value, r.generationAt))
    && (r.answer.Some? ==> EpochBefore(line, r.key, r.answer.value.loadedFrom))
    && JudgedInv(r)
  }

  predicate Finishing(phase: Phase) {
    phase == Releasing || phase == Done
  }

  // Whoever knows that it holds a lock took it after every store made by others under its key,
  // and has not stored yet unless it is on its way out.
  ghost predicate HolderInv(line: Timeline, key: Key, owner: Token, f: Fill) {
    && f.key == key
    && (f.locked ==> forall st <- line.stores :: st.key == key ==>
          if st.owner == owner then Finishing(f.phase) else st.at < f.lockedAt)
  }

  ghost predicate FillsInv(s: State) {
    && (forall o <- s.fills :: o < s.line.nextToken && FillInv(s.line, s.fills[o]))
    && (forall p <- s.inflight :: s.inflight[p] in s.fills && s.fills[s.inflight[p]].key == p.1)
    && (forall st <- s.line.stores :: st.owner in s.fills && Finishing(s.fills[st.owner].phase))
  }

  ghost predicate EntriesInv(s: State) {
    forall key <- s.results :: EntryInv(s.line, key, s.results[key])
  }

  ghost predicate ReadersInv(s: State) {
    && (forall r <- s.readers :: ReaderInv(s.line, s.readers[r]))
    && (forall r <- s.readers :: s.readers[r].phase.Awaiting? ==>
          s.readers[r].phase.fill in s.fills && s.fills[s.readers[r].phase.fill].key == s.readers[r].key)
    && (forall key <- s.requested :: EpochBefore(s.line, key, s.line.now + 1))
  }

  ghost predicate LocksInv(s: State) {
    forall key <- s.locks :: s.locks[key] in s.fills && HolderInv(s.line, key, s.locks[key], s.fills[s.locks[key]])
  }

  ghost predicate Inv(s: State) {
    LineInv(s.line) && FillsInv(s) && EntriesInv(s) && ReadersInv(s) && LocksInv(s)
  }

  // ---- the passing of time ----

  // At the start of a step everything in the log is older than the present moment.
  ghost predicate Quiet(line: Timeline) {
    && (forall c <- line.bumps :: c.at < line.now)
    && (forall c <- line.invalidations :: c.at < line.now)
    && (forall st <- line.stores :: st.at < line.now)
  }

  // What a step may do to the log: whatever is new is younger than everything before it.
  ghost predicate Grows(line: Timeline, line': Timeline) {
    && line.now <= line'.now
    && line.nextToken <= line'.nextToken
    && (forall scope :: Version(line.generation, scope) <= Version(line'.generation, scope))
    && (forall c <- line'.bumps :: c in line.bumps || (line.now <= c.at && line.nextToken <= c.token))
    && (forall c <- line'.invalidations :: c in line.invalidations || (line.now <= c.at && line.nextToken <= c.token))
    && (forall st <- line'.stores :: st in line.stores || line.now <= st.at)
  }

  lemma VersionBelowNext(line: Timeline, scope: Scope)
    requires LineInv(line)
    ensures Version(line.generation, scope) < line.nextToken && Version(line.epoch, scope) < line.nextToken
  {
  }

  lemma EpochStable(line: Timeline, line': Timeline, key: Key, m: Moment, m': Moment)
    requires Grows(line, line') && EpochBefore(line, key, m) && m <= m'
    ensures EpochBefore(line', key, m')
  {
  }

  lemma VersionStable(line: Timeline, line': Timeline, scope: Scope, g: Token, m: Moment)
    requires LineInv(line) && Grows(line, line') && VersionCurrent(line, scope, g, m)
    ensures VersionCurrent(line', scope, g, m)
  {
    VersionBelowNext(line, scope);
  }

  lemma FillStable(line: Timeline, line': Timeline, f: Fill)
    requires LineInv(line) && Grows(line, line') && FillInv(line, f)
    ensures FillInv(line', f)
  {
    EpochStable(line, line', f.key, f.startedAt, f.startedAt);
    if f.result.Some? {
      EpochStable(line, line', f.key, f.result.value.loadedFrom, f.result.value.loadedFrom);
    }
    VersionStable(line, line', f.key.request.scope, f.generation, f.versionAt);
  }

  lemma EntryStable(line: Timeline, line': Timeline, key: Key, e: Raw)
    requires LineInv(line) && Grows(line, line') && EntryInv(line, key, e)
    ensures EntryInv(line', key, e)
  {
    if e.Entry? {
      EpochStable(line, line', key, e.data.loadedFrom, e.data.loadedFrom);
      VersionStable(line, line', key.request.scope, e.generation, e.versionAt);
    }
  }

  lemma ReaderStable(line: Timeline, line': Timeline, r: Reader)
    requires LineInv(line) && Grows(line, line') && ReaderInv(line, r)
    ensures ReaderInv(line', r)
  {
    EpochStable(line, line', r.key, line.now + 1, line'.now + 1);
    if r.entry.Some? && r.entry.value.Some? {
      EntryStable(line, line', r.key, r.entry.value.value);
    }
    if r.answer.Some? {
      EpochStable(line, line', r.key, r.answer.value.loadedFrom, r.answer.value.loadedFrom);
    }
  }

  // Only the log has changed, and only by growing.
  lemma GrowKeeps(s: State, s': State)
    requires Inv(s) && LineInv(s'.line) && Grows(s.line, s'.line)
    requires s' == s.(line := s'.line) && s'.line.stores == s.line.stores
    ensures Inv(s')
  {
    forall o <- s.fills { FillStable(s.line, s'.line, s.fills[o]); }
    forall key <- s.results { EntryStable(s.line, s'.line, key, s.results[key]); }
    forall r <- s.readers { ReaderStable(s.line, s'.line, s.readers[r]); }
    forall key <- s.requested { EpochStable(s.line, s'.line, key, s.line.now + 1, s'.line.now + 1); }
  }

  lemma InvTick(s: State)
    requires Inv(s)
    ensures Inv(Tick(s)) && Quiet(Tick(s).line)
  {
    GrowKeeps(s, Tick(s));
  }

  lemma InvBump(s: State, scope: Scope)
    requires Inv(s) && Quiet(s.line)
    ensures Inv(Effect(s, Bump(scope)))
  {
    VersionBelowNext(s.line, scope);
    GrowKeeps(s, Effect(s, Bump(scope)));
  }

  lemma InvInvalidate(s: State, scope: Scope)
    requires Inv(s) && Quiet(s.line)
    ensures Inv(Effect(s, Invalidate(scope)))
  {
    VersionBelowNext(s.line, scope);
    GrowKeeps(s, Effect(s, Invalidate(scope)));
  }

  // ---- what the calls keep ----

  // A fill has been added under a fresh token.
  lemma FillAdded(s: State, s': State, p: (int, Key), token: Token, f: Fill)
    requires FillsInv(s) && token !in s.fills && token < s'.line.nextToken && s'.line == s.line
    requires FillInv(s.line, f) && f.key == p.1
    requires s'.fills == s.fills[token := f] && s'.inflight == s.inflight[p := token]
    ensures FillsInv(s')
  {
  }

  // A fill has moved on, and none of those that stored went back.
  lemma FillMoved(s: State, s': State, token: Token, f: Fill)
    requires FillsInv(s) && token in s.fills && s'.line == s.line
    requires FillInv(s.line, f) && f.key == s.fills[token].key
    requires Finishing(s.fills[token].phase) ==> Finishing(f.phase)
    requires s'.fills == s.fills[token := f] && s'.inflight == s.inflight
    ensures FillsInv(s')
  {
  }

  ghost predicate SameFillKeys(s: State, s': State) {
    forall o <- s.fills :: o in s'.fills && s'.fills[o].key == s.fills[o].key
  }

  lemma ReadersKept(s: State, s': State)
    requires ReadersInv(s) && SameFillKeys(s, s') && s'.line == s.line
    requires s'.readers == s.readers && s'.requested <= s.requested
    ensures ReadersInv(s')
  {
  }

  lemma LocksKept(s: State, s': State)
    requires LocksInv(s) && s'.line == s.line && s'.locks == s.locks
    requires forall o <- s.fills :: o in s'.fills && s'.fills[o] == s.fills[o]
    ensures LocksInv(s')
  {
  }

  lemma InvFillAdded(s: State, s': State, p: (int, Key), token: Token, f: Fill)
    requires Inv(s) && token !in s.fills && token < s.line.nextToken
    requires FillInv(s.line, f) && f.key == p.1
    requires s' == s.(fills := s.fills[token := f], inflight := s.inflight[p := token])
    ensures Inv(s')
  {
    FillAdded(s, s', p, token, f);
    ReadersKept(s, s');
    LocksKept(s, s');
  }

  lemma InvStartFill(s: State, replica: int, key: Key, connected: bool)
    requires Inv(s) && Quiet(s.line) && EpochBefore(s.line, key, s.line.now)
    ensures Inv(StartFill(s, replica, key, connected))
  {
    if (replica, key) !in s.inflight {
      var token := s.line.nextToken;
      var s0 := s.(line := s.line.(nextToken := token + 1));
      var f := NewFill(s.line, replica, key, connected);
      GrowKeeps(s, s0);
      assert FillInv(s0.line, f) by {
        EpochStable(s.line, s0.line, key, s.line.now, s.line.now);
      }
      assert token !in s.fills;
      InvFillAdded(s0, StartFill(s, replica, key, connected), (replica, key), token, f);
    }
  }

  lemma StartFillShape(s: State, replica: int, key: Key, connected: bool)
    requires LineInv(s.line) && FillsInv(s) && Quiet(s.line)
    ensures var s' := StartFill(s, replica, key, connected);
            && Grows(s.line, s'.line) && s'.readers == s.readers && s'.requested == s.requested
            && FillFor(s, replica, key) in s'.fills && s'.fills[FillFor(s, replica, key)].key == key
  {
  }

  // The reader after one of its acts.
  lemma ReaderMoves(s: State, r: Reader, act: ReaderAct)
    requires LineInv(s.line) && EntriesInv(s) && Quiet(s.line) && ReaderInv(s.line, r) && ReaderCan(s, r, act)
    requires r.phase.Awaiting? && r.phase.fill in s.fills ==>
               s.fills[r.phase.fill].key == r.key && FillInv(s.line, s.fills[r.phase.fill])
    ensures ReaderInv(s.line, MoveReader(s, r, act))
  {
    VersionBelowNext(s.line, r.request.scope);
  }

  lemma ReaderMoved(s: State, s': State, reader: int, r: Reader)
    requires ReadersInv(s) && reader in s.readers && ReaderInv(s.line, r)
    requires r.phase.Awaiting? ==> r.phase.fill in s.fills && s.fills[r.phase.fill].key == r.key
    requires s' == s.(readers := s.readers[reader := r], registered := s'.registered, requested := s'.requested)
    requires s'.requested <= s.requested + {r.key}
    ensures ReadersInv(s')
  {
  }

  lemma InvReaderMoved(s: State, s': State, reader: int, r: Reader)
    requires Inv(s) && reader in s.readers && ReaderInv(s.line, r)
    requires r.phase.Awaiting? ==> r.phase.fill in s.fills && s.fills[r.phase.fill].key == r.key
    requires s' == s.(readers := s.readers[reader := r], registered := s'.registered, requested := s'.requested)
    requires s'.requested <= s.requested + {r.key}
    ensures Inv(s')
  {
    ReaderMoved(s, s', reader, r);
  }

  lemma ReaderCalls(s: State, reader: int, act: ReaderAct)
    requires Inv(s) && Quiet(s.line) && Enabled(s, OfReader(reader, act))
    requires FillCall(s.readers[reader], act).Some?
    ensures Inv(Effect(s, OfReader(reader, act)))
  {
    var r := s.readers[reader];
    var r' := MoveReader(s, r, act);
    var connected := FillCall(r, act).value;
    var s0 := StartFill(s, r.replica, r.key, connected);
    assert ReaderInv(s.line, r') by { ReaderMoves(s, r, act); }
    assert EpochBefore(s.line, r.key, s.line.now);
    StartFillShape(s, r.replica, r.key, connected);
    InvStartFill(s, r.replica, r.key, connected);
    ReaderStable(s.line, s0.line, r');
    InvReaderMoved(s0, Effect(s, OfReader(reader, act)), reader, r');
  }

  lemma InvReader(s: State, reader: int, act: ReaderAct)
    requires Inv(s) && Quiet(s.line) && Enabled(s, OfReader(reader, act))
    ensures Inv(Effect(s, OfReader(reader, act)))
  {
    if FillCall(s.readers[reader], act).Some? {
      ReaderCalls(s, reader, act);
    } else {
      ReaderMoves(s, s.readers[reader], act);
      InvReaderMoved(s, Effect(s, OfReader(reader, act)), reader, MoveReader(s, s.readers[reader], act));
    }
  }

  // Taking the lock, and reading the generation under it.
  lemma FillLocks(s: State, f: Fill, act: FillAct)
    requires LineInv(s.line) && Quiet(s.line) && FillInv(s.line, f) && FillCan(f, act)
    requires act.TryLock? || act.ReadVersion?
    ensures FillInv(s.line, MoveFill(s, f, act))
  {
    VersionBelowNext(s.line, f.key.request.scope);
    hide EpochBefore, Ordered;
  }

  // Sharing an entry, and loading.
  lemma FillGetsData(s: State, f: Fill, act: FillAct)
    requires EntriesInv(s) && FillInv(s.line, f) && FillCan(f, act)
    requires act.Poll? || act.CheckCurrent? || act.StartLoad? || act.FinishLoad?
    ensures FillInv(s.line, MoveFill(s, f, act))
  {
    hide VersionCurrent, VersionKnown, Fresh;
    assert EpochBefore(s.line, f.key, f.startedAt);
    if f.phase == Loading {
      EpochLater(s.line, f.key, f.startedAt, f.loadAt);
    }
    hide EpochBefore;
  }

  lemma EpochLater(line: Timeline, key: Key, m: Moment, m': Moment)
    requires EpochBefore(line, key, m) && m <= m'
    ensures EpochBefore(line, key, m')
  {
  }

  lemma FillMoves(s: State, f: Fill, act: FillAct)
    requires LineInv(s.line) && EntriesInv(s) && Quiet(s.line) && FillInv(s.line, f) && FillCan(f, act)
    ensures FillInv(s.line, MoveFill(s, f, act))
  {
    hide EpochBefore, VersionCurrent, VersionKnown, LineInv, EntriesInv, Quiet;
    if act.TryLock? || act.ReadVersion? {
      FillLocks(s, f, act);
    } else if act.Poll? || act.CheckCurrent? || act.StartLoad? || act.FinishLoad? {
      FillGetsData(s, f, act);
    }
  }

  // A fill has moved on, and perhaps taken or given back the lock of its key.
  lemma LocksMoved(s: State, s': State, fill: Token, f: Fill)
    requires LocksInv(s) && Quiet(s.line) && fill in s.fills
    requires s'.line == s.line && s'.fills == s.fills[fill := f]
    requires f.key == s.fills[fill].key && (Finishing(s.fills[fill].phase) ==> Finishing(f.phase))
    requires s.fills[fill].locked ==> f.locked && f.lockedAt == s.fills[fill].lockedAt
    requires f.locked && !s.fills[fill].locked ==> f.key !in s.locks
    requires forall st <- s.line.stores :: st.owner == fill ==> Finishing(s.fills[fill].phase)
    requires forall k <- s'.locks ::
               || (k in s.locks && s'.locks[k] == s.locks[k])
               || (k == f.key && s'.locks[k] == fill && (f.locked ==> f.lockedAt == s.line.now))
    ensures LocksInv(s')
  {
  }

  lemma FillShape(s: State, fill: Token, act: FillAct)
    requires Enabled(s, OfFill(fill, act))
    requires act.StoreResult? ==> !Owns(s, fill, s.fills[fill])
    ensures FillEffect(s, fill, act)
            == s.(fills := s.fills[fill := MoveFill(s, s.fills[fill], act)], locks := FillEffect(s, fill, act).locks)
    ensures var f, f' := s.fills[fill], MoveFill(s, s.fills[fill], act);
            && f'.key == f.key && (Finishing(f.phase) ==> Finishing(f'.phase))
            && (FillInv(s.line, f) && f.locked ==> f'.locked && f'.lockedAt == f.lockedAt)
            && (f'.locked && !f.locked ==> f.key !in s.locks)
            && forall k <- FillEffect(s, fill, act).locks ::
                 || (k in s.locks && FillEffect(s, fill, act).locks[k] == s.locks[k])
                 || (k == f.key && FillEffect(s, fill, act).locks[k] == fill
                     && (f'.locked ==> FillInv(s.line, f) ==> f'.lockedAt == s.line.now))
  {
  }

  lemma InvFillMoved(s: State, s': State, fill: Token, f: Fill)
    requires Inv(s) && fill in s.fills && FillInv(s.line, f) && f.key == s.fills[fill].key
    requires Finishing(s.fills[fill].phase) ==> Finishing(f.phase)
    requires s' == s.(fills := s.fills[fill := f], locks := s'.locks) && LocksInv(s')
    ensures Inv(s')
  {
    FillMoved(s, s', fill, f);
    ReadersKept(s, s');
  }

  lemma InvFill(s: State, fill: Token, act: FillAct)
    requires Inv(s) && Quiet(s.line) && Enabled(s, OfFill(fill, act))
    requires act.StoreResult? ==> !Owns(s, fill, s.fills[fill])
    ensures Inv(FillEffect(s, fill, act))
  {
    FillMoves(s, s.fills[fill], act);
    FillShape(s, fill, act);
    LocksMoved(s, FillEffect(s, fill, act), fill, MoveFill(s, s.fills[fill], act));
    InvFillMoved(s, FillEffect(s, fill, act), fill, MoveFill(s, s.fills[fill], act));
  }

  // A store by the owner of the lock keeps the log in order.
  lemma StoreKeeps(line: Timeline, line': Timeline, fill: Token, f: Fill)
    requires LineInv(line) && Quiet(line) && FillInv(line, f) && f.phase == Loaded
    requires HolderInv(line, f.key, fill, f) && f.locked
    requires line' == line.(stores := line.stores
               + {Store(f.key, line.now, fill, Data(f.loadAt), f.generation, f.versioned)})
    ensures LineInv(line') && Grows(line, line')
  {
    var st := Store(f.key, line.now, fill, Data(f.loadAt), f.generation, f.versioned);
    assert forall a <- line.stores :: a.key == f.key ==> Ordered(a, st);
  }

  // What such a store does to the rest of the state, given the grown log.
  lemma FillsStored(s: State, s': State, fill: Token, f: Fill)
    requires LineInv(s.line) && FillsInv(s) && Grows(s.line, s'.line) && fill in s.fills
    requires FillInv(s.line, f) && f.key == s.fills[fill].key && f.phase == Releasing
    requires s'.fills == s.fills[fill := f] && s'.inflight == s.inflight
    requires forall st <- s'.line.stores :: st in s.line.stores || st.owner == fill
    ensures FillsInv(s')
  {
    forall o <- s.fills { FillStable(s.line, s'.line, s.fills[o]); }
    FillStable(s.line, s'.line, f);
  }

  lemma EntriesStored(s: State, s': State, key: Key, e: Raw)
    requires LineInv(s.line) && EntriesInv(s) && Grows(s.line, s'.line) && EntryInv(s.line, key, e)
    requires s'.results == s.results[key := e]
    ensures EntriesInv(s')
  {
    forall k <- s.results { EntryStable(s.line, s'.line, k, s.results[k]); }
    EntryStable(s.line, s'.line, key, e);
  }

  lemma LocksStored(s: State, s': State, fill: Token, f: Fill)
    requires LocksInv(s) && fill in s.fills && f.key in s.locks && s.locks[f.key] == fill
    requires s'.fills == s.fills[fill := f] && s'.locks == s.locks
    requires f == s.fills[fill].(phase := Releasing)
    requires forall st <- s'.line.stores :: st in s.line.stores || (st.owner == fill && st.key == f.key)
    ensures LocksInv(s')
  {
  }

  lemma ReadersStored(s: State, s': State)
    requires LineInv(s.line) && ReadersInv(s) && Grows(s.line, s'.line) && SameFillKeys(s, s')
    requires s'.readers == s.readers && s'.requested == s.requested
    ensures ReadersInv(s')
  {
    forall r <- s.readers { ReaderStable(s.line, s'.line, s.readers[r]); }
    forall key <- s.requested { EpochStable(s.line, s'.line, key, s.line.now + 1, s'.line.now + 1); }
  }

  // The log after such a store, and the entry it leaves in Redis.
  lemma StoreShape(s: State, fill: Token, nowMs: int)
    requires Inv(s) && Quiet(s.line) && Enabled(s, OfFill(fill, StoreResult(nowMs)))
    requires Owns(s, fill, s.fills[fill])
    ensures var f, s' := s.fills[fill], FillEffect(s, fill, StoreResult(nowMs));
            && LineInv(s'.line) && Grows(s.line, s'.line)
            && FillInv(s.line, f.(phase := Releasing))
            && EntryInv(s.line, f.key, Entry(Data(f.loadAt), f.generation, nowMs, f.versionAt))
            && (forall st <- s'.line.stores :: st in s.line.stores || (st.owner == fill && st.key == f.key))
  {
    var f := s.fills[fill];
    assert HolderInv(s.line, f.key, fill, f);
    StoreKeeps(s.line, FillEffect(s, fill, StoreResult(nowMs)).line, fill, f);
    FillMoves(s, f, StoreResult(nowMs));
    EpochStable(s.line, s.line, f.key, f.startedAt, f.loadAt);
  }

  lemma InvStored(s: State, s': State, fill: Token, e: Raw)
    requires Inv(s) && fill in s.fills && LineInv(s'.line) && Grows(s.line, s'.line)
    requires FillInv(s.line, s.fills[fill].(phase := Releasing)) && EntryInv(s.line, s.fills[fill].key, e)
    requires s.fills[fill].key in s.locks && s.locks[s.fills[fill].key] == fill
    requires forall st <- s'.line.stores ::
               st in s.line.stores || (st.owner == fill && st.key == s.fills[fill].key)
    requires s' == s.(line := s'.line, fills := s.fills[fill := s.fills[fill].(phase := Releasing)],
                      results := s.results[s.fills[fill].key := e])
    ensures Inv(s')
  {
    var f := s.fills[fill].(phase := Releasing);
    FillsStored(s, s', fill, f);
    EntriesStored(s, s', f.key, e);
    LocksStored(s, s', fill, f);
    ReadersStored(s, s');
  }

  lemma InvStore(s: State, fill: Token, nowMs: int)
    requires Inv(s) && Quiet(s.line) && Enabled(s, OfFill(fill, StoreResult(nowMs)))
    requires Owns(s, fill, s.fills[fill])
    ensures Inv(FillEffect(s, fill, StoreResult(nowMs)))
  {
    var f := s.fills[fill];
    StoreShape(s, fill, nowMs);
    InvStored(s, FillEffect(s, fill, StoreResult(nowMs)), fill,
              Entry(Data(f.loadAt), f.generation, nowMs, f.versionAt));
  }

  lemma InvBeginRead(s: State, step: Step)
    requires Inv(s) && Enabled(s, step) && step.BeginRead?
    ensures Inv(Effect(s, step))
  {
    var s' := Effect(s, step);
    assert forall r <- s'.readers :: r != step.reader ==> r in s.readers && s'.readers[r] == s.readers[r];
    assert ReaderInv(s.line, s'.readers[step.reader]);
  }

  // Redis has lost locks or registrations, or the process has forgotten settled calls.
  lemma InvShrink(s: State, s': State)
    requires Inv(s)
    requires s' == s.(registered := s'.registered, requested := s'.requested, locks := s'.locks,
                      inflight := s'.inflight)
    requires s'.requested <= s.requested
    requires forall k <- s'.locks :: k in s.locks && s'.locks[k] == s.locks[k]
    requires forall p <- s'.inflight :: p in s.inflight && s'.inflight[p] == s.inflight[p]
    ensures Inv(s')
  {
    ReadersKept(s, s');
    assert LocksInv(s');
  }

  // A result has been lost or replaced by garbage.
  lemma InvDamage(s: State, s': State)
    requires Inv(s) && s' == s.(results := s'.results)
    requires forall k <- s'.results :: s'.results[k].Garbage? || (k in s.results && s'.results[k] == s.results[k])
    ensures Inv(s')
  {
    ReadersKept(s, s');
    assert EntriesInv(s');
  }

  lemma InvLoss(s: State, step: Step)
    requires Inv(s) && Enabled(s, step)
    requires step.Forget? || step.Unregister? || step.ExpireLock? || step.Corrupt? || step.Evict?
    ensures Inv(Effect(s, step))
  {
    if step.Corrupt? || step.Evict? {
      InvDamage(s, Effect(s, step));
    } else {
      InvShrink(s, Effect(s, step));
    }
  }

  lemma InvEffect(s: State, step: Step)
    requires Inv(s) && Quiet(s.line) && Enabled(s, step)
    ensures Inv(Effect(s, step))
  {
    match step
    case BeginRead(_, _, _) => InvBeginRead(s, step);
    case OfReader(r, act) => InvReader(s, r, act);
    case OfFill(f, act) =>
      if act.StoreResult? && Owns(s, f, s.fills[f]) {
        InvStore(s, f, act.nowMs);
      } else {
        InvFill(s, f, act);
      }
    case RefreshRegistered(replica, key) =>
      assert EpochBefore(s.line, key, s.line.now);
      InvStartFill(s, replica, key, true);
    case Bump(scope) => InvBump(s, scope);
    case Invalidate(scope) => InvInvalidate(s, scope);
    case _ => InvLoss(s, step);
  }

  lemma InvNext(s: State, step: Step)
    requires Inv(s)
    ensures Inv(Next(s, step))
  {
    if Enabled(s, step) {
      InvTick(s);
      InvEffect(Tick(s), step);
    }
  }

  lemma {:induction false} InvRun(steps: seq<Step>)
    ensures Inv(Run(steps))
  {
    if steps != [] {
      InvRun(steps[..|steps| - 1]);
      InvNext(Run(steps[..|steps| - 1]), steps[|steps| - 1]);
    }
  }

  // ---- what holds of every run ----

  /** Whatever the interleaving, the lock expiries and the length of the loads: of two stores
      made under one key, the later one's load began after the earlier store. It records an
      older generation exactly when its version read failed and the earlier one did record
      some bump (see AFailedVersionReadGoesBack). */
  lemma StoresAreOrdered(steps: seq<Step>, a: Store, b: Store)
    requires a in Run(steps).line.stores && b in Run(steps).line.stores
    requires a.key == b.key && a.at <= b.at && a != b
    ensures a.at < b.data.loadedFrom <= b.at
    ensures a.generation <= b.generation <==> (b.versioned || a.generation == 0)
  {
    RunLine(steps);
    PairOrdered(Run(steps).line, a, b);
  }

  lemma RunLine(steps: seq<Step>)
    ensures LineInv(Run(steps).line)
  {
    InvRun(steps);
  }

  lemma PairOrdered(line: Timeline, a: Store, b: Store)
    requires StoresInv(line) && a in line.stores && b in line.stores && a.key == b.key && a.at <= b.at
    ensures a == b || Ordered(a, b)
  {
  }

  // The last store under a key.
  ghost predicate LastStore(stores: set<Store>, key: Key, st: Store) {
    st.key == key && forall o <- stores :: o.key == key ==> o.at <= st.at
  }

  // Every entry in Redis is what the last store under its key wrote.
  ghost predicate Stored(s: State, key: Key) {
    key in s.results && s.results[key].Entry? ==>
      exists st <- s.line.stores ::
        LastStore(s.line.stores, key, st) && st.data == s.results[key].data
        && st.generation == s.results[key].generation
  }

  lemma StoredNext(s: State, step: Step, key: Key)
    requires Stored(s, key) && forall o <- s.line.stores :: o.at <= s.line.now
    ensures Stored(Next(s, step), key)
  {
    if Enabled(s, step) && step.OfFill? && step.fillAct.StoreResult? {
      StoreIs(s, step.fill, step.fillAct.nowMs);
      hide Next, LastStore;
      if Owns(s, step.fill, s.fills[step.fill]) {
        AfterStore(s, step.fill, step.fillAct.nowMs, key);
      }
    } else if Enabled(s, step) {
      OthersStoreNothing(s, step);
      hide Next, LastStore;
    }
  }

  lemma AfterStore(s: State, fill: Token, nowMs: int, key: Key)
    requires Stored(s, key) && forall o <- s.line.stores :: o.at <= s.line.now
    requires fill in s.fills && s.fills[fill].phase == Loaded && Owns(s, fill, s.fills[fill])
    ensures Stored(Next(s, OfFill(fill, StoreResult(nowMs))), key)
  {
    StoreIs(s, fill, nowMs);
    var s' := Next(s, OfFill(fill, StoreResult(nowMs)));
    hide Next;
    var f := s.fills[fill];
    var st := Store(f.key, s.line.now + 1, fill, Data(f.loadAt), f.generation, f.versioned);
    if f.key == key {
      assert LastStore(s'.line.stores, key, st);
    } else if key in s.results && s.results[key].Entry? {
      var last :| last in s.line.stores && LastStore(s.line.stores, key, last) && last.data == s.results[key].data
                  && last.generation == s.results[key].generation;
      assert LastStore(s'.line.stores, key, last);
    }
  }

  lemma OthersStoreNothing(s: State, step: Step)
    requires !(step.OfFill? && step.fillAct.StoreResult?)
    ensures Next(s, step).line.stores == s.line.stores
    ensures forall k <- Next(s, step).results ::
              Next(s, step).results[k].Garbage? || (k in s.results && Next(s, step).results[k] == s.results[k])
  {
    hide MoveFill, MoveReader, Fresh, Version, NewFill, Owns, FillFor;
  }

  lemma {:induction false} EntriesAreStored(steps: seq<Step>, key: Key)
    ensures Stored(Run(steps), key)
  {
    if steps != [] {
      EntriesAreStored(steps[..|steps| - 1], key);
      RunLine(steps[..|steps| - 1]);
      hide Next, Stored;
      StoredNext(Run(steps[..|steps| - 1]), steps[|steps| - 1], key);
    }
  }

  /** No step replaces an entry by one whose load began earlier: a fill that outlived its lock
      cannot overwrite what a newer fill has stored. */
  lemma NoStepRollsBack(steps: seq<Step>, step: Step, key: Key)
    requires key in Run(steps).results && key in Run(steps + [step]).results
    requires Run(steps).results[key].Entry? && Run(steps + [step]).results[key].Entry?
    ensures var e, e' := Run(steps).results[key], Run(steps + [step]).results[key];
            e' == e || e.data.loadedFrom < e'.data.loadedFrom
  {
    RunSnoc(steps, step);
    RunLine(steps);
    RunLine(steps + [step]);
    EntriesAreStored(steps, key);
    NewerEntry(Run(steps), step, key);
  }

  lemma NewerEntry(s: State, step: Step, key: Key)
    requires StoresInv(s.line) && StoresInv(Next(s, step).line) && Stored(s, key)
    requires key in s.results && s.results[key].Entry?
    requires key in Next(s, step).results && Next(s, step).results[key].Entry?
    ensures var e, e' := s.results[key], Next(s, step).results[key];
            e' == e || e.data.loadedFrom < e'.data.loadedFrom
  {
    hide Next, Enabled, StoresInv;
    var s' := Next(s, step);
    if !(step.OfFill? && step.fillAct.StoreResult?) {
      OthersStoreNothing(s, step);
    } else if !Enabled(s, step) {
      NothingHappens(s, step);
    } else {
      StoreEnabled(s, step);
      StoreIs(s, step.fill, step.fillAct.nowMs);
      var f := s.fills[step.fill];
      if Owns(s, step.fill, f) && f.key == key {
        var a :| a in s.line.stores && LastStore(s.line.stores, key, a) && a.data == s.results[key].data;
        var b := Store(key, s'.line.now, step.fill, Data(f.loadAt), f.generation, f.versioned);
        LaterLoad(s.line, s'.line, a, b);
      }
    }
  }

  lemma LaterLoad(line: Timeline, line': Timeline, a: Store, b: Store)
    requires StoresInv(line) && StoresInv(line') && line.now < b.at && line.stores <= line'.stores
    requires a in line.stores && b in line'.stores && a.key == b.key
    ensures a.data.loadedFrom < b.data.loadedFrom
  {
    PairOrdered(line', a, b);
  }

  lemma NothingHappens(s: State, step: Step)
    requires !Enabled(s, step)
    ensures Next(s, step) == s
  {
  }

  lemma StoreEnabled(s: State, step: Step)
    requires Enabled(s, step) && step.OfFill? && step.fillAct.StoreResult?
    ensures step.fill in s.fills && s.fills[step.fill].phase == Loaded
  {
  }

  // An entry that carries the generation read at the moment m was loaded after every bump
  // that precedes m, even when the bump came in the middle of its load.
  lemma SameGenerationIsCurrent(line: Timeline, key: Key, e: Raw, g: Token, m: Moment, c: Change)
    requires e.Entry? && EntryInv(line, key, e) && e.generation == g
    requires VersionKnown(line, key.request.scope, g, m)
    requires c in line.bumps && c.scope == key.request.scope && c.at < m
    ensures c.at < e.data.loadedFrom
  {
  }

  /** No change is lost: if a reader judged its entry fresh, the load behind the entry began
      after every change of its scope that precedes its reading of the generation. */
  lemma FreshReadsMissNoChange(steps: seq<Step>, reader: int, c: Change)
    requires reader in Run(steps).readers && Run(steps).readers[reader].judgedFresh
    requires c in Run(steps).line.bumps && c.scope == Run(steps).readers[reader].request.scope
    requires c.at < Run(steps).readers[reader].generationAt
    ensures var r := Run(steps).readers[reader];
            r.answer.Some? && c.at < r.answer.value.loadedFrom
  {
    InvRun(steps);
    var r := Run(steps).readers[reader];
    SameGenerationIsCurrent(Run(steps).line, r.key, r.entry.value.value, r.generation.value, r.generationAt, c);
  }

  /** The same for a fill that finds, once it holds the lock, that another replica has already
      stored a fresh entry: reusing it misses no change that precedes the version read. */
  lemma FreshSharesMissNoChange(steps: seq<Step>, fill: Token, nowMs: int, c: Change)
    requires Enabled(Run(steps), OfFill(fill, CheckCurrent(nowMs)))
    requires Run(steps + [OfFill(fill, CheckCurrent(nowMs))]).fills[fill].phase == Releasing
    requires c in Run(steps).line.bumps && c.scope == Run(steps).fills[fill].key.request.scope
    requires c.at < Run(steps).fills[fill].versionAt
    ensures var f := Run(steps + [OfFill(fill, CheckCurrent(nowMs))]).fills[fill];
            f.result.Some? && c.at < f.result.value.loadedFrom
  {
    RunSnoc(steps, OfFill(fill, CheckCurrent(nowMs)));
    InvRun(steps);
    var s := Run(steps);
    var f := s.fills[fill];
    SameGenerationIsCurrent(s.line, f.key, s.results[f.key], f.generation, f.versionAt, c);
  }

  /** A reader that reached Redis and started after an invalidation of its scope is never
      answered by a load that began before it, whether the data comes from the cache, from a
      call shared within the process, from another replica or from a background refresh. */
  lemma NoReadCrossesInvalidation(steps: seq<Step>, reader: int, c: Change)
    requires reader in Run(steps).readers && Run(steps).readers[reader].answer.Some?
    requires Run(steps).readers[reader].key.epoch.Tag?
    requires c in Run(steps).line.invalidations && c.scope == Run(steps).readers[reader].request.scope
    requires c.at < Run(steps).readers[reader].startedAt
    ensures c.at < Run(steps).readers[reader].answer.value.loadedFrom
  {
    InvRun(steps);
  }
}
