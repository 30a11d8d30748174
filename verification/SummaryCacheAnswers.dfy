/** What one read does when nothing else happens meanwhile, and what becomes of a fill once it is forgotten. */
module SummaryCacheAnswers {
  import opened Wrappers
  import opened SummaryCache
  import Laws = SummaryCacheLaws

  // ---- forgotten fills ----

  predicate Unlisted(s: State, fill: Token) {
    fill < s.line.nextToken && forall p <- s.inflight :: s.inflight[p] != fill
  }

  ghost predicate Unawaited(s: State, fill: Token, old_: set<int>) {
    forall r <- s.readers :: r !in old_ ==> s.readers[r].phase != Awaiting(fill)
  }

  lemma ForgetUnlists(s: State, fill: Token)
    requires Enabled(s, Forget(fill)) && fill < s.line.nextToken
    ensures var s' := Next(s, Forget(fill));
            && Unlisted(s', fill)
            && (forall p :: p in s'.inflight <==> p in s.inflight && s.inflight[p] != fill)
            && (forall p <- s'.inflight :: s'.inflight[p] == s.inflight[p])
            && s' == s.(line := s.line.(now := s.line.now + 1), inflight := s'.inflight)
  {
  }

  lemma StaysUnlisted(s: State, step: Step, fill: Token)
    requires Unlisted(s, fill)
    ensures Unlisted(Next(s, step), fill)
  {
    hide MoveReader, MoveFill, NewFill, FillCan, ReaderCan, Owns, Version;
  }

  lemma StaysUnawaited(s: State, step: Step, fill: Token, old_: set<int>)
    requires Unlisted(s, fill) && Unawaited(s, fill, old_)
    ensures Unawaited(Next(s, step), fill, old_)
  {
    hide MoveFill, NewFill, FillCan, Owns, Version, Fresh;
  }

  /** Once a fill has been forgotten, no process lists it as under way, and no reader that begins later ever waits
      for it: whatever is joined from then on is another fill. */
  lemma {:induction false} ForgottenFillsAnswerNobody(before: seq<Step>, fill: Token, after: seq<Step>)
    requires Enabled(Run(before), Forget(fill))
    ensures var s := Run(before + [Forget(fill)] + after);
            && (forall p <- s.inflight :: s.inflight[p] != fill)
            && (forall r <- s.readers :: r !in Run(before).readers ==> s.readers[r].phase != Awaiting(fill))
    decreases |after|
  {
    ForgottenForGood(before, fill, after);
  }

  lemma {:induction false} ForgottenForGood(before: seq<Step>, fill: Token, after: seq<Step>)
    requires Enabled(Run(before), Forget(fill))
    ensures var s := Run(before + [Forget(fill)] + after);
            Unlisted(s, fill) && Unawaited(s, fill, Run(before).readers.Keys)
    decreases |after|
  {
    hide Next, Unlisted, Unawaited;
    if after == [] {
      FillIsOld(before, fill);
      ForgetUnlists(Run(before), fill);
      RunSnoc(before, Forget(fill));
      assert before + [Forget(fill)] + [] == before + [Forget(fill)];
      NoNewReaders(Run(before), fill);
    } else {
      var front, step := after[..|after| - 1], after[|after| - 1];
      ForgottenForGood(before, fill, front);
      RunSnoc(before + [Forget(fill)] + front, step);
      assert before + [Forget(fill)] + front + [step] == before + [Forget(fill)] + after;
      StaysUnlisted(Run(before + [Forget(fill)] + front), step, fill);
      StaysUnawaited(Run(before + [Forget(fill)] + front), step, fill, Run(before).readers.Keys);
    }
  }

  lemma NoNewReaders(s: State, fill: Token)
    requires Enabled(s, Forget(fill)) && Next(s, Forget(fill)).readers == s.readers
    ensures Unawaited(Next(s, Forget(fill)), fill, s.readers.Keys)
  {
    hide Next;
  }

  lemma FillIsOld(steps: seq<Step>, fill: Token)
    requires fill in Run(steps).fills
    ensures fill < Run(steps).line.nextToken
  {
    Laws.InvRun(steps);
  }

  // ---- a read in the quiet ----

  function Later(s: State, steps: int): Timeline {
    s.line.(now := s.line.now + steps)
  }

  function KeyFor(s: State, request: Request): Key {
    Key(request, Tag(if request.scope in s.line.epoch then s.line.epoch[request.scope] else 0))
  }

  function Current(s: State, scope: Scope): Token {
    if scope in s.line.generation then s.line.generation[scope] else 0
  }

  // A reader that has read the entry and the generation.
  function Informed(s: State, replica: int, request: Request): Reader {
    var key, t := KeyFor(s, request), s.line.now;
    Reader(replica, request, t + 1, Keyed, key, Some(if key in s.results then Some(s.results[key]) else None),
           Some(Current(s, request.scope)), t + 4, false, None)
  }

  function Arrive(reader: int, replica: int, request: Request): seq<Step> {
    [BeginRead(reader, replica, request), OfReader(reader, ReadEpoch), OfReader(reader, ReadEntry),
     OfReader(reader, ReadGeneration)]
  }

  lemma Unroll(s: State, steps: seq<Step>)
    requires |steps| == 4
    ensures RunFrom(s, steps) == Next(Next(Next(Next(s, steps[0]), steps[1]), steps[2]), steps[3])
  {
    hide Next;
    assert steps[..2] + steps[2..] == steps;
    Unroll2(s, steps[..2]);
    Unroll2(RunFrom(s, steps[..2]), steps[2..]);
    FromParts(s, steps[..2], steps[2..]);
  }

  lemma {:induction false} FromParts(s: State, steps: seq<Step>, more: seq<Step>)
    ensures RunFrom(s, steps + more) == RunFrom(RunFrom(s, steps), more)
    decreases |steps|
  {
    hide Next;
    if steps == [] {
      assert steps + more == more;
    } else {
      FromParts(Next(s, steps[0]), steps[1..], more);
      assert (steps + more)[1..] == steps[1..] + more;
    }
  }

  // Some steps later, with one reader replaced.
  function With(s: State, steps: int, reader: int, r: Reader): State {
    s.(line := Later(s, steps), readers := s.readers[reader := r])
  }

  function Registered(s: State, key: Key): State {
    s.(registered := s.registered + {key}, requested := s.requested + {key})
  }

  lemma WithTwice(s: State, m: int, n: int, reader: int, r: Reader, r': Reader, key: Key)
    ensures With(With(s, m, reader, r), n, reader, r') == With(s, m + n, reader, r')
    ensures With(Registered(s, key), n, reader, r) == Registered(With(s, n, reader, r), key)
  {
  }

  // What such a state still shares with s.
  predicate Shares(s: State, s': State, steps: int) {
    && s'.line == Later(s, steps)
    && s'.results == s.results && s'.locks == s.locks && s'.fills == s.fills && s'.inflight == s.inflight
  }

  lemma WithShares(s: State, steps: int, reader: int, r: Reader, key: Key)
    ensures var s' := With(s, steps, reader, r);
            && Shares(s, s', steps) && reader in s'.readers && s'.readers[reader] == r
            && Shares(s, Registered(s', key), steps) && Registered(s', key).readers == s'.readers
  {
  }

  lemma SharesReading(s: State, s': State, steps: int, request: Request)
    requires Shares(s, s', steps)
    ensures KeyFor(s', request) == KeyFor(s, request) && Current(s', request.scope) == Current(s, request.scope)
    ensures s'.line.now == s.line.now + steps && s'.results == s.results
  {
  }

  lemma Begins(s: State, reader: int, replica: int, request: Request)
    requires reader !in s.readers
    ensures var t := s.line.now + 1;
            Next(s, BeginRead(reader, replica, request))
            == With(s, 1, reader,
                    Reader(replica, request, t, Asking, Key(request, Fallback), None, None, t, false, None))
  {
  }

  lemma ReadsEpoch(s: State, reader: int)
    requires reader in s.readers && s.readers[reader].phase == Asking
    ensures var r := s.readers[reader];
            Next(s, OfReader(reader, ReadEpoch))
            == With(s, 1, reader, r.(phase := Keyed, key := KeyFor(s, r.request)))
  {
  }

  lemma ReadsEntry(s: State, reader: int)
    requires reader in s.readers && s.readers[reader].phase == Keyed && s.readers[reader].entry.None?
    ensures var r := s.readers[reader];
            Next(s, OfReader(reader, ReadEntry))
            == Registered(With(s, 1, reader, r.(entry := Some(if r.key in s.results then Some(s.results[r.key])
                                                              else None))), r.key)
  {
  }

  lemma ReadsGeneration(s: State, reader: int)
    requires reader in s.readers && s.readers[reader].phase == Keyed && s.readers[reader].generation.None?
    ensures var r := s.readers[reader];
            Next(s, OfReader(reader, ReadGeneration))
            == With(s, 1, reader, r.(generation := Some(Current(s, r.request.scope)), generationAt := s.line.now + 1))
  {
  }

  lemma Arrives(s: State, reader: int, replica: int, request: Request)
    requires reader !in s.readers
    ensures RunFrom(s, Arrive(reader, replica, request))
            == Registered(With(s, 4, reader, Informed(s, replica, request)), KeyFor(s, request))
  {
    hide Next, RunFrom, With, Registered, Shares, KeyFor, Current;
    Unroll(s, Arrive(reader, replica, request));
    var t, key := s.line.now, KeyFor(s, request);
    var r1 := Reader(replica, request, t + 1, Asking, Key(request, Fallback), None, None, t + 1, false, None);
    Begins(s, reader, replica, request);
    WithShares(s, 1, reader, r1, key);
    var s1 := With(s, 1, reader, r1);
    SharesReading(s, s1, 1, request);
    var r2 := r1.(phase := Keyed, key := key);
    ReadsEpoch(s1, reader);
    WithTwice(s, 1, 1, reader, r1, r2, key);
    WithShares(s, 2, reader, r2, key);
    var s2 := With(s, 2, reader, r2);
    SharesReading(s, s2, 2, request);
    var r3 := r2.(entry := Some(if key in s.results then Some(s.results[key]) else None));
    ReadsEntry(s2, reader);
    WithTwice(s, 2, 1, reader, r2, r3, key);
    WithShares(s, 3, reader, r3, key);
    var s3 := Registered(With(s, 3, reader, r3), key);
    SharesReading(s, s3, 3, request);
    var r4 := Informed(s, replica, request);
    ReadsGeneration(s3, reader);
    WithTwice(With(s, 3, reader, r3), 0, 1, reader, r4, r4, key);
    WithTwice(s, 3, 1, reader, r3, r4, key);
  }

  /** A fresh entry is the whole answer: a read that meets one of the current generation, less than a minute old,
      and is not disturbed, begins no load and changes nothing but the registration of its request. */
  lemma AFreshEntryAnswers(s: State, reader: int, replica: int, request: Request, nowMs: int)
    requires reader !in s.readers && KeyFor(s, request) in s.results && s.results[KeyFor(s, request)].Entry?
    requires var e := s.results[KeyFor(s, request)];
             e.generation == Current(s, request.scope) && e.calculatedAtMs <= nowMs < e.calculatedAtMs + 60_000
    ensures var s' := RunFrom(s, Arrive(reader, replica, request) + [OfReader(reader, Judge(nowMs))]);
            && reader in s'.readers && s'.readers[reader].phase == Answered
            && s'.readers[reader].answer == Some(s.results[KeyFor(s, request)].data)
            && s' == Registered(With(s, 5, reader, s'.readers[reader]), KeyFor(s, request))
  {
    hide Next, RunFrom, With, Registered, Shares, KeyFor, Current;
    var informed := RunFrom(s, Arrive(reader, replica, request));
    var r, key := Informed(s, replica, request), KeyFor(s, request);
    FromParts(s, Arrive(reader, replica, request), [OfReader(reader, Judge(nowMs))]);
    Arrives(s, reader, replica, request);
    WithShares(s, 4, reader, r, key);
    SharesReading(s, informed, 4, request);
    OneStep(informed, OfReader(reader, Judge(nowMs)));
    Answers(informed, reader, nowMs);
    var r' := r.(phase := Answered, answer := Some(s.results[key].data), judgedFresh := true);
    WithTwice(With(s, 4, reader, r), 0, 1, reader, r', r', key);
    WithTwice(s, 4, 1, reader, r, r', key);
    WithShares(s, 5, reader, r', key);
  }

  lemma OneStep(s: State, step: Step)
    ensures RunFrom(s, [step]) == Next(s, step)
  {
    hide Next;
    assert [step][1..] == [];
  }

  lemma Answers(s: State, reader: int, nowMs: int)
    requires reader in s.readers && ReaderCan(s, s.readers[reader], Judge(nowMs))
    requires s.readers[reader].entry.value.Some? && s.readers[reader].entry.value.value.Entry?
    requires var e := s.readers[reader].entry.value.value;
             e.generation == s.readers[reader].generation.value
             && e.calculatedAtMs <= nowMs < e.calculatedAtMs + 60_000
    ensures var r := s.readers[reader];
            Next(s, OfReader(reader, Judge(nowMs)))
            == With(s, 1, reader, r.(phase := Answered, answer := Some(r.entry.value.value.data), judgedFresh := true))
  {
    hide Next;
    JudgeAnswers(s, reader, nowMs);
  }

  // ---- a load in the quiet ----

  // Some steps later, with one fill replaced and the lock of its key set or removed.
  function Filling(s: State, steps: int, fill: Token, f: Fill, locks: map<Key, Token>): State {
    s.(line := Later(s, steps), fills := s.fills[fill := f], locks := locks)
  }

  lemma FillingTwice(s: State, m: int, n: int, fill: Token, f: Fill, f': Fill, locks: map<Key, Token>,
                     locks': map<Key, Token>)
    ensures Filling(Filling(s, m, fill, f, locks), n, fill, f', locks') == Filling(s, m + n, fill, f', locks')
    ensures var s' := Filling(s, m, fill, f, locks);
            && fill in s'.fills && s'.fills[fill] == f && s'.locks == locks && s'.line == Later(s, m)
            && s'.results == s.results && s'.inflight == s.inflight && s'.readers == s.readers
  {
  }

  lemma Locks(s: State, fill: Token)
    requires fill in s.fills && s.fills[fill].phase == Waiting && s.fills[fill].key !in s.locks
    ensures var f, t := s.fills[fill], s.line.now + 1;
            Next(s, OfFill(fill, TryLock))
            == Filling(s, 1, fill, f.(phase := Locked, locked := true, lockedAt := t, versionAt := t),
                       s.locks[f.key := fill])
  {
  }

  lemma ReadsVersion(s: State, fill: Token)
    requires fill in s.fills && s.fills[fill].phase == Locked
    ensures var f := s.fills[fill];
            Next(s, OfFill(fill, ReadVersion))
            == Filling(s, 1, fill, f.(phase := Versioned, versioned := true, versionAt := s.line.now + 1,
                                      generation := Current(s, f.key.request.scope)), s.locks)
  {
  }

  lemma FindsNothing(s: State, fill: Token, nowMs: int)
    requires fill in s.fills && s.fills[fill].phase == Versioned && s.fills[fill].key !in s.results
    ensures Next(s, OfFill(fill, CheckCurrent(nowMs)))
            == Filling(s, 1, fill, s.fills[fill].(phase := Ready), s.locks)
  {
  }

  lemma StartsLoad(s: State, fill: Token)
    requires fill in s.fills && s.fills[fill].phase == Ready
    ensures Next(s, OfFill(fill, StartLoad))
            == Filling(s, 1, fill, s.fills[fill].(phase := Loading, loadAt := s.line.now + 1), s.locks)
  {
  }

  lemma FinishesLoad(s: State, fill: Token)
    requires fill in s.fills && s.fills[fill].phase == Loading && s.fills[fill].locked
    ensures var f := s.fills[fill];
            Next(s, OfFill(fill, FinishLoad))
            == Filling(s, 1, fill, f.(phase := Loaded, result := Some(Data(f.loadAt))), s.locks)
  {
  }

  // A fill that has taken the lock, found nothing current and loaded.
  function Prepared(s: State, f: Fill): Fill {
    var t := s.line.now;
    f.(phase := Loaded, locked := true, lockedAt := t + 1, versioned := true, versionAt := t + 2,
       generation := Current(s, f.key.request.scope), loadAt := t + 4, result := Some(Data(t + 4)))
  }

  function Prepare(fill: Token, nowMs: int): seq<Step> {
    [OfFill(fill, TryLock), OfFill(fill, ReadVersion), OfFill(fill, CheckCurrent(nowMs)), OfFill(fill, StartLoad)]
  }

  lemma Reserves(s: State, fill: Token)
    requires fill in s.fills && s.fills[fill].phase == Waiting && s.fills[fill].key !in s.locks
    ensures var f, t := s.fills[fill], s.line.now;
            Next(Next(s, OfFill(fill, TryLock)), OfFill(fill, ReadVersion))
            == Filling(s, 2, fill,
                       f.(phase := Versioned, locked := true, lockedAt := t + 1, versioned := true, versionAt := t + 2,
                          generation := Current(s, f.key.request.scope)), s.locks[f.key := fill])
  {
    hide Next, Filling, Current;
    var f, t := s.fills[fill], s.line.now;
    var locks := s.locks[f.key := fill];
    var f1 := f.(phase := Locked, locked := true, lockedAt := t + 1, versionAt := t + 1);
    Locks(s, fill);
    FillingTwice(s, 1, 1, fill, f1, f1, locks, locks);
    CurrentLater(s, 1, fill, f1, locks);
    var f2 := f1.(phase := Versioned, versioned := true, versionAt := t + 2,
                  generation := Current(s, f.key.request.scope));
    ReadsVersion(Filling(s, 1, fill, f1, locks), fill);
    FillingTwice(s, 1, 1, fill, f1, f2, locks, locks);
  }

  lemma Prepares(s: State, fill: Token, nowMs: int)
    requires fill in s.fills && s.fills[fill].phase == Waiting
    requires s.fills[fill].key !in s.locks && s.fills[fill].key !in s.results
    ensures var f := s.fills[fill];
            RunFrom(s, Prepare(fill, nowMs) + [OfFill(fill, FinishLoad)])
            == Filling(s, 5, fill, Prepared(s, f), s.locks[f.key := fill])
  {
    hide Next, RunFrom, Filling, Current;
    FromParts(s, Prepare(fill, nowMs), [OfFill(fill, FinishLoad)]);
    Unroll(s, Prepare(fill, nowMs));
    OneStep(RunFrom(s, Prepare(fill, nowMs)), OfFill(fill, FinishLoad));
    var f, t := s.fills[fill], s.line.now;
    var locks := s.locks[f.key := fill];
    var f2 := f.(phase := Versioned, locked := true, lockedAt := t + 1, versioned := true, versionAt := t + 2,
                 generation := Current(s, f.key.request.scope));
    Reserves(s, fill);
    FillingTwice(s, 2, 1, fill, f2, f2, locks, locks);
    var f3 := f2.(phase := Ready);
    FindsNothing(Filling(s, 2, fill, f2, locks), fill, nowMs);
    FillingTwice(s, 2, 1, fill, f2, f3, locks, locks);
    FillingTwice(s, 3, 1, fill, f3, f3, locks, locks);
    var f4 := f3.(phase := Loading, loadAt := t + 4);
    StartsLoad(Filling(s, 3, fill, f3, locks), fill);
    FillingTwice(s, 3, 1, fill, f3, f4, locks, locks);
    FillingTwice(s, 4, 1, fill, f4, f4, locks, locks);
    FinishesLoad(Filling(s, 4, fill, f4, locks), fill);
    FillingTwice(s, 4, 1, fill, f4, Prepared(s, f), locks, locks);
  }

  lemma CurrentLater(s: State, n: int, fill: Token, f: Fill, locks: map<Key, Token>)
    ensures forall scope :: Current(Filling(s, n, fill, f, locks), scope) == Current(s, scope)
  {
  }

  // The owner stores its result and gives the lock back.
  lemma StoresAndReleases(s: State, fill: Token, nowMs: int)
    requires fill in s.fills && s.fills[fill].phase == Loaded && s.fills[fill].locked
    requires s.fills[fill].key in s.locks && s.locks[s.fills[fill].key] == fill
    ensures var f := s.fills[fill];
            var s' := Next(Next(s, OfFill(fill, StoreResult(nowMs))), OfFill(fill, Release));
            && s'.results == s.results[f.key := Entry(Data(f.loadAt), f.generation, nowMs, f.versionAt)]
            && s'.locks == s.locks - {f.key} && s'.fills == s.fills[fill := f.(phase := Done)]
            && s'.readers == s.readers && s'.inflight == s.inflight
  {
    StoreIs(s, fill, nowMs);
    hide Next;
    var s1 := Next(s, OfFill(fill, StoreResult(nowMs)));
    Releases(s1, fill);
    assert s1.fills[fill := s1.fills[fill].(phase := Done)] == s.fills[fill := s.fills[fill].(phase := Done)];
  }

  lemma Releases(s: State, fill: Token)
    requires fill in s.fills && s.fills[fill].phase == Releasing && s.fills[fill].locked
    requires s.fills[fill].key in s.locks && s.locks[s.fills[fill].key] == fill
    ensures Next(s, OfFill(fill, Release))
            == Filling(s, 1, fill, s.fills[fill].(phase := Done), s.locks - {s.fills[fill].key})
  {
  }

  /** A fill that takes a free lock, finds no entry and is not disturbed stores what it loaded, under the generation
      of the moment before its load, and leaves the lock as free as it was. */
  lemma AMissIsLoaded(s: State, fill: Token, nowMs: int, storedMs: int)
    requires fill in s.fills && s.fills[fill].phase == Waiting
    requires s.fills[fill].key !in s.locks && s.fills[fill].key !in s.results
    ensures var key := s.fills[fill].key;
            var s' := RunFrom(s, Prepare(fill, nowMs) + [OfFill(fill, FinishLoad)]
                                 + [OfFill(fill, StoreResult(storedMs)), OfFill(fill, Release)]);
            var data := Data(s.line.now + 4);
            && key in s'.results && s'.results == s.results[key := s'.results[key]]
            && s'.results[key] == Entry(data, Current(s, key.request.scope), storedMs, s.line.now + 2)
            && s'.locks == s.locks && s'.readers == s.readers && s'.inflight == s.inflight
            && fill in s'.fills && s'.fills[fill].phase == Done && s'.fills[fill].result == Some(data)
            && s'.fills == s.fills[fill := s'.fills[fill]]
  {
    hide Next, RunFrom, Filling, Current;
    var f := s.fills[fill];
    var end := [OfFill(fill, StoreResult(storedMs)), OfFill(fill, Release)];
    var loading := Prepare(fill, nowMs) + [OfFill(fill, FinishLoad)];
    FromParts(s, loading, end);
    Prepares(s, fill, nowMs);
    var loaded := RunFrom(s, loading);
    FillingTwice(s, 5, 0, fill, Prepared(s, f), Prepared(s, f), s.locks[f.key := fill], s.locks);
    FillingFills(s, 5, fill, Prepared(s, f), s.locks[f.key := fill]);
    Unroll2(loaded, end);
    StoresAndReleases(loaded, fill, storedMs);
    assert s.locks[f.key := fill] - {f.key} == s.locks;
  }

  lemma FillingFills(s: State, n: int, fill: Token, f: Fill, locks: map<Key, Token>)
    ensures Filling(s, n, fill, f, locks).fills == s.fills[fill := f]
  {
  }

  /** Whoever waits for it is answered with that, and then it is forgotten. */
  lemma AFillAnswers(s: State, reader: int, fill: Token, p: (int, Key))
    requires reader in s.readers && s.readers[reader].phase == Awaiting(fill)
    requires fill in s.fills && s.fills[fill].phase == Done
    requires p in s.inflight && s.inflight[p] == fill
    ensures var s' := RunFrom(s, [OfReader(reader, AwaitFill), Forget(fill)]);
            && reader in s'.readers && s'.readers == s.readers[reader := s'.readers[reader]]
            && s'.readers[reader].answer == s.fills[fill].result
            && (s'.readers[reader].phase == Answered <==> s.fills[fill].result.Some?)
            && p !in s'.inflight && s'.results == s.results && s'.locks == s.locks && s'.fills == s.fills
  {
    Unroll2(s, [OfReader(reader, AwaitFill), Forget(fill)]);
  }

  /** A fill that finds the lock taken looks for an entry: without one it tries again, with one it ends and shares its
      data, and with one that cannot be parsed it loads without the lock. */
  lemma WhoWaitsShares(s: State, fill: Token)
    requires fill in s.fills
    ensures var f := s.fills[fill];
            f.phase == Waiting && f.key in s.locks ==>
              Next(s, OfFill(fill, TryLock)) == Filling(s, 1, fill, f.(phase := Polling), s.locks)
    ensures var f := s.fills[fill];
            f.phase == Polling ==>
              Next(s, OfFill(fill, Poll))
              == Filling(s, 1, fill,
                         if f.key !in s.results then f.(phase := Waiting)
                         else match s.results[f.key]
                              case Garbage => f.(phase := Ready)
                              case Entry(data, _, _, _) => f.(phase := Done, result := Some(data)), s.locks)
  {
  }

  /** One that holds the lock and finds an entry of the generation it read, less than a minute old, shares it too and
      only gives the lock back. */
  lemma WhoHoldsMayShare(s: State, fill: Token, nowMs: int)
    requires fill in s.fills && s.fills[fill].phase == Versioned
    ensures var f := s.fills[fill];
            Next(s, OfFill(fill, CheckCurrent(nowMs)))
            == Filling(s, 1, fill,
                       if f.key in s.results && s.results[f.key].Entry? && s.results[f.key].generation == f.generation
                          && s.results[f.key].calculatedAtMs <= nowMs < s.results[f.key].calculatedAtMs + 60_000
                       then f.(phase := Releasing, result := Some(s.results[f.key].data))
                       else f.(phase := Ready), s.locks)
  {
  }

  // ---- mishaps ----

  /** A request that fails before the load does not prevent it, and a lock that was granted unheard stays. */
  lemma FaultsLeadToTheLoad(s: State, fill: Token)
    requires fill in s.fills && s.fills[fill].phase in {Waiting, Polling, Locked, Versioned}
    ensures var f := s.fills[fill];
            Next(s, OfFill(fill, LockPhaseFault)) == Filling(s, 1, fill, f.(phase := Ready), s.locks)
    ensures var f := s.fills[fill];
            f.phase == Waiting ==>
              Next(s, OfFill(fill, LockReplyLost))
              == Filling(s, 1, fill, f.(phase := Ready),
                         if f.key in s.locks then s.locks else s.locks[f.key := fill])
  {
  }

  /** A load that fails leaves no result: whoever waits for it fails too, and the lock is given back. */
  lemma FailuresAreShared(s: State, fill: Token, reader: int)
    requires fill in s.fills && reader in s.readers
    ensures var f := s.fills[fill];
            f.phase == Loading ==>
              Next(s, OfFill(fill, FailLoad))
              == Filling(s, 1, fill, f.(phase := if f.locked then Releasing else Done), s.locks)
    ensures s.readers[reader].phase == Awaiting(fill) && s.fills[fill].phase == Done && s.fills[fill].result == None ==>
              Next(s, OfReader(reader, AwaitFill))
              == With(s, 1, reader, s.readers[reader].(phase := Failed, answer := None))
  {
  }

  /** A reader whose requests to Redis fail waits for a fill without Redis, under the key it has. */
  lemma FaultsLeadOn(s: State, reader: int)
    requires reader in s.readers && (s.readers[reader].phase == Asking || s.readers[reader].phase == Keyed)
    ensures var r := s.readers[reader];
            var token := FillFor(Tick(s), r.replica, r.key);
            Next(s, OfReader(reader, ReaderFault))
            == StartFill(Tick(s), r.replica, r.key, false).(
                 readers := s.readers[reader := r.(phase := Awaiting(token))])
  {
  }

  /** A store or a release that throws leaves Redis as it is, and the fill goes on. */
  lemma FaultsChangeNothing(s: State, fill: Token)
    requires fill in s.fills
    ensures var f, later := s.fills[fill], Later(s, 1);
            && (f.phase == Loaded ==>
                  Next(s, OfFill(fill, StoreFault))
                  == s.(line := later, fills := s.fills[fill := f.(phase := Releasing)]))
            && (f.phase == Releasing ==>
                  Next(s, OfFill(fill, ReleaseFault))
                  == s.(line := later, fills := s.fills[fill := f.(phase := Done)]))
  {
  }

  /** What Redis loses of a key, and nothing else: its lock, its entry, the sense of its entry, its registration. */
  lemma LossesAreSingle(s: State, key: Key)
    ensures var later := Later(s, 1);
            && Next(s, ExpireLock(key)) == s.(line := later, locks := s.locks - {key})
            && Next(s, Evict(key)) == s.(line := later, results := s.results - {key})
            && Next(s, Corrupt(key)) == s.(line := later, results := s.results[key := Garbage])
            && Next(s, Unregister(key)) == s.(line := later, registered := s.registered - {key})
  {
  }
}
