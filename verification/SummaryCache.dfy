/** The protocol by which several API replicas share dashboard summaries through Redis
    (api/src/services/summary-cache.ts).

    Every `await` of the source ends one atomic step here, and the steps of all replicas,
    of all readers and of the environment interleave freely. Two devices make the history
    of a run visible in its state:
    - a moment is the number of steps taken so far, so no two steps share one;
    - a token stands for a UUID, numbered in the order of creation; 0 is the empty string
      that the source reads for an absent version key. */
module SummaryCache {
  import opened Wrappers

  type Moment = int
  type Token = int

  datatype Scope = Portfolio | Kraken
  datatype Request = Request(scope: Scope, variant: int)

  /** The epoch inside a result key: the word "fallback", or the token read from Redis. */
  datatype Epoch = Fallback | Tag(token: Token)
  datatype Key = Key(request: Request, epoch: Epoch)

  /** What a load returned, identified by the moment at which the load began. */
  datatype Data = Data(loadedFrom: Moment)

  /** A value under a result key. `versionAt` is history: the moment up to which the
      generation recorded in the entry is known to have been current. */
  datatype Raw = Garbage | Entry(data: Data, generation: Token, calculatedAtMs: int, versionAt: Moment)

  datatype Phase = Waiting | Polling | Locked | Versioned | Ready | Loading | Loaded | Releasing | Done

  /** One call of runFill. `versioned` says that the generation was read after locking. */
  datatype Fill = Fill(
    replica: int, key: Key, phase: Phase, startedAt: Moment,
    locked: bool, lockedAt: Moment,
    versioned: bool, generation: Token, versionAt: Moment,
    loadAt: Moment, result: Option<Data>)

  datatype ReaderPhase = Asking | Keyed | Awaiting(fill: Token) | Answered | Failed

  /** One call of getOrLoad. `judgedFresh` records the outcome of the freshness test. */
  datatype Reader = Reader(
    replica: int, request: Request, startedAt: Moment, phase: ReaderPhase, key: Key,
    entry: Option<Option<Raw>>, generation: Option<Token>, generationAt: Moment,
    judgedFresh: bool, answer: Option<Data>)

  datatype Store = Store(key: Key, at: Moment, owner: Token, data: Data, generation: Token, versioned: bool)
  datatype Change = Change(scope: Scope, token: Token, at: Moment)

  /** The version keys in Redis, and the log of everything that was ever written. */
  datatype Timeline = Timeline(
    now: Moment, nextToken: Token,
    generation: map<Scope, Token>, epoch: map<Scope, Token>,
    stores: set<Store>, bumps: set<Change>, invalidations: set<Change>)

  /** `registered` is the table of requests to refresh. As history, `requested` are all keys that were ever in it,
      since a replica acts on a listing that may be out of date. */
  datatype State = State(
    line: Timeline,
    results: map<Key, Raw>, locks: map<Key, Token>, registered: set<Key>, requested: set<Key>,
    fills: map<Token, Fill>, inflight: map<(int, Key), Token>, readers: map<int, Reader>)

  const FRESH_FOR_MS := 60_000

  function Version(versions: map<Scope, Token>, scope: Scope): Token {
    if scope in versions then versions[scope] else 0
  }

  predicate Fresh(entry: Raw, generation: Token, nowMs: int)
    requires entry.Entry?
  {
    entry.generation == generation && 0 <= nowMs - entry.calculatedAtMs < FRESH_FOR_MS
  }

  const Init := State(Timeline(0, 1, map[], map[], {}, {}, {}), map[], map[], {}, {}, map[], map[], map[])

  // ---- the steps ----

  datatype ReaderAct = ReadEpoch | ReadEntry | ReadGeneration | ReaderFault | Judge(nowMs: int) | AwaitFill

  datatype FillAct =
    | TryLock | LockReplyLost | Poll | LockPhaseFault | ReadVersion | CheckCurrent(nowMs: int)
    | StartLoad | FinishLoad | FailLoad | StoreResult(nowMs: int) | StoreFault | Release | ReleaseFault

  datatype Step =
    | BeginRead(reader: int, replica: int, request: Request)
    | OfReader(reader: int, readerAct: ReaderAct)
    | OfFill(fill: Token, fillAct: FillAct)
    | Forget(fill: Token)
    | RefreshRegistered(replica: int, key: Key)
    | Unregister(key: Key)
    | Bump(scope: Scope)
    | Invalidate(scope: Scope)
    | ExpireLock(key: Key)
    | Corrupt(key: Key)
    | Evict(key: Key)

  predicate ReaderCan(s: State, r: Reader, act: ReaderAct) {
    match act
    case ReadEpoch => r.phase == Asking
    case ReadEntry => r.phase == Keyed && r.entry.None?
    case ReadGeneration => r.phase == Keyed && r.generation.None?
    case ReaderFault => r.phase == Asking || r.phase == Keyed
    case Judge(_) => r.phase == Keyed && r.entry.Some? && r.generation.Some?
    case AwaitFill => r.phase.Awaiting? && r.phase.fill in s.fills && s.fills[r.phase.fill].phase == Done
  }

  predicate FillCan(f: Fill, act: FillAct) {
    match act
    case TryLock => f.phase == Waiting
    case LockReplyLost => f.phase == Waiting
    case Poll => f.phase == Polling
    case LockPhaseFault => f.phase == Waiting || f.phase == Polling || f.phase == Locked || f.phase == Versioned
    case ReadVersion => f.phase == Locked
    case CheckCurrent(_) => f.phase == Versioned
    case StartLoad => f.phase == Ready
    case FinishLoad => f.phase == Loading
    case FailLoad => f.phase == Loading
    case StoreResult(_) => f.phase == Loaded
    case StoreFault => f.phase == Loaded
    case Release => f.phase == Releasing
    case ReleaseFault => f.phase == Releasing
  }

  predicate Enabled(s: State, step: Step) {
    match step
    case BeginRead(r, _, _) => r !in s.readers
    case OfReader(r, act) => r in s.readers && ReaderCan(s, s.readers[r], act)
    case OfFill(f, act) => f in s.fills && FillCan(s.fills[f], act)
    case Forget(f) => f in s.fills && s.fills[f].phase == Done
    case RefreshRegistered(_, key) => key in s.requested
    case _ => true
  }

  // `fill`: join the call in flight in this process, or start one.
  function FillFor(s: State, replica: int, key: Key): Token {
    if (replica, key) in s.inflight then s.inflight[(replica, key)] else s.line.nextToken
  }

  function NewFill(line: Timeline, replica: int, key: Key, connected: bool): Fill {
    Fill(replica, key, if connected then Waiting else Ready, line.now,
         false, line.now, false, 0, line.now, line.now, None)
  }

  function StartFill(s: State, replica: int, key: Key, connected: bool): State {
    if (replica, key) in s.inflight then s
    else
      var token := s.line.nextToken;
      s.(fills := s.fills[token := NewFill(s.line, replica, key, connected)],
         inflight := s.inflight[(replica, key) := token],
         line := s.line.(nextToken := token + 1))
  }

  // Whether an act of getOrLoad calls `fill`, and with a Redis client or without.
  function FillCall(r: Reader, act: ReaderAct): Option<bool>
    requires act.Judge? ==> r.entry.Some? && r.generation.Some?
  {
    match act
    case ReaderFault => Some(false)
    case Judge(nowMs) =>
      if r.entry.value.Some? && r.entry.value.value.Entry?
         && Fresh(r.entry.value.value, r.generation.value, nowMs) then None
      else Some(true)
    case _ => None
  }

  function MoveReader(s: State, r: Reader, act: ReaderAct): Reader
    requires ReaderCan(s, r, act)
  {
    match act
    case ReadEpoch =>
      r.(phase := Keyed, key := Key(r.request, Tag(Version(s.line.epoch, r.request.scope))))
    case ReadEntry => r.(entry := Some(if r.key in s.results then Some(s.results[r.key]) else None))
    case ReadGeneration =>
      r.(generation := Some(Version(s.line.generation, r.request.scope)), generationAt := s.line.now)
    case ReaderFault => r.(phase := Awaiting(FillFor(s, r.replica, r.key)))
    case Judge(nowMs) =>
      if r.entry.value.Some? && r.entry.value.value.Entry? then
        r.(phase := Answered, answer := Some(r.entry.value.value.data),
           judgedFresh := Fresh(r.entry.value.value, r.generation.value, nowMs))
      else r.(phase := Awaiting(FillFor(s, r.replica, r.key)))
    case AwaitFill =>
      var result := s.fills[r.phase.fill].result;
      r.(phase := if result.Some? then Answered else Failed, answer := result)
  }

  function ReaderEffect(s: State, reader: int, act: ReaderAct): State
    requires reader in s.readers && ReaderCan(s, s.readers[reader], act)
  {
    var r := s.readers[reader];
    var call := FillCall(r, act);
    var s' := if call.Some? then StartFill(s, r.replica, r.key, call.value) else s;
    s'.(readers := s.readers[reader := MoveReader(s, r, act)],
        registered := if act.ReadEntry? then s.registered + {r.key} else s.registered,
        requested := if act.ReadEntry? then s.requested + {r.key} else s.requested)
  }

  predicate Owns(s: State, fill: Token, f: Fill) {
    f.locked && f.key in s.locks && s.locks[f.key] == fill
  }

  function MoveFill(s: State, f: Fill, act: FillAct): Fill
    requires FillCan(f, act)
  {
    match act
    case TryLock =>
      if f.key in s.locks then f.(phase := Polling)
      else f.(phase := Locked, locked := true, lockedAt := s.line.now, versionAt := s.line.now)
    case Poll =>
      if f.key !in s.results then f.(phase := Waiting)
      else if s.results[f.key].Garbage? then f.(phase := Ready)
      else f.(phase := Done, result := Some(s.results[f.key].data))
    case LockReplyLost => f.(phase := Ready)
    case LockPhaseFault => f.(phase := Ready)
    case ReadVersion =>
      f.(phase := Versioned, versioned := true, versionAt := s.line.now,
         generation := Version(s.line.generation, f.key.request.scope))
    case CheckCurrent(nowMs) =>
      if f.key in s.results && s.results[f.key].Entry? && Fresh(s.results[f.key], f.generation, nowMs)
      then f.(phase := Releasing, result := Some(s.results[f.key].data))
      else f.(phase := Ready)
    case StartLoad => f.(phase := Loading, loadAt := s.line.now)
    case FinishLoad => f.(phase := if f.locked then Loaded else Done, result := Some(Data(f.loadAt)))
    case FailLoad => f.(phase := if f.locked then Releasing else Done)
    case StoreResult(_) => f.(phase := Releasing)
    case StoreFault => f.(phase := Releasing)
    case Release => f.(phase := Done)
    case ReleaseFault => f.(phase := Done)
  }

  function FillEffect(s: State, fill: Token, act: FillAct): State
    requires fill in s.fills && FillCan(s.fills[fill], act)
  {
    var f := s.fills[fill];
    var s' := s.(fills := s.fills[fill := MoveFill(s, f, act)]);
    match act
    case TryLock => if f.key in s.locks then s' else s'.(locks := s.locks[f.key := fill])
    case LockReplyLost => if f.key in s.locks then s' else s'.(locks := s.locks[f.key := fill])
    case StoreResult(nowMs) =>
      if Owns(s, fill, f) then
        s'.(results := s.results[f.key := Entry(Data(f.loadAt), f.generation, nowMs, f.versionAt)],
            line := s.line.(stores := s.line.stores
                            + {Store(f.key, s.line.now, fill, Data(f.loadAt), f.generation, f.versioned)}))
      else s'
    case Release => if Owns(s, fill, f) then s'.(locks := s.locks - {f.key}) else s'
    case _ => s'
  }

  function Effect(s: State, step: Step): State
    requires Enabled(s, step)
  {
    match step
    case BeginRead(r, replica, request) =>
      s.(readers := s.readers[r := Reader(replica, request, s.line.now, Asking, Key(request, Fallback),
                                          None, None, s.line.now, false, None)])
    case OfReader(r, act) => ReaderEffect(s, r, act)
    case OfFill(f, act) => FillEffect(s, f, act)
    case Forget(f) => s.(inflight := map p | p in s.inflight && s.inflight[p] != f :: s.inflight[p])
    case RefreshRegistered(replica, key) => StartFill(s, replica, key, true)
    case Unregister(key) => s.(registered := s.registered - {key})
    case Bump(scope) =>
      var token := s.line.nextToken;
      s.(line := s.line.(generation := s.line.generation[scope := token], nextToken := token + 1,
                         bumps := s.line.bumps + {Change(scope, token, s.line.now)}))
    case Invalidate(scope) =>
      var token := s.line.nextToken;
      s.(line := s.line.(epoch := s.line.epoch[scope := token], nextToken := token + 1,
                         invalidations := s.line.invalidations + {Change(scope, token, s.line.now)}))
    case ExpireLock(key) => s.(locks := s.locks - {key})
    case Corrupt(key) => s.(results := s.results[key := Garbage])
    case Evict(key) => s.(results := s.results - {key})
  }

  function Tick(s: State): State {
    s.(line := s.line.(now := s.line.now + 1))
  }

  function Next(s: State, step: Step): State {
    if Enabled(s, step) then Effect(Tick(s), step) else s
  }

  // What the owner-checked store does, when it comes.
  lemma StoreIs(s: State, fill: Token, nowMs: int)
    requires fill in s.fills && s.fills[fill].phase == Loaded
    ensures var f, now := s.fills[fill], s.line.now + 1;
            var fills := s.fills[fill := f.(phase := Releasing)];
            var st := Store(f.key, now, fill, Data(f.loadAt), f.generation, f.versioned);
            Next(s, OfFill(fill, StoreResult(nowMs)))
            == if Owns(s, fill, f) then
                 State(s.line.(now := now, stores := s.line.stores + {st}),
                       s.results[f.key := Entry(Data(f.loadAt), f.generation, nowMs, f.versionAt)],
                       s.locks, s.registered, s.requested, fills, s.inflight, s.readers)
               else
                 State(s.line.(now := now), s.results, s.locks, s.registered, s.requested, fills, s.inflight, s.readers)
  {
  }

  /** The call in flight in this process under the key is joined; if there is none, a new one begins. */
  lemma JoinsOrStarts(s: State, replica: int, key: Key, connected: bool)
    ensures var s', token := StartFill(s, replica, key, connected), FillFor(s, replica, key);
            && (replica, key) in s'.inflight && s'.inflight[(replica, key)] == token
            && ((replica, key) in s.inflight ==> s' == s)
            && ((replica, key) !in s.inflight ==>
                  && token == s.line.nextToken && s' == s.(line := s'.line, fills := s'.fills, inflight := s'.inflight)
                  && s'.line == s.line.(nextToken := token + 1)
                  && s'.inflight == s.inflight[(replica, key) := token]
                  && token in s'.fills && s'.fills == s.fills[token := s'.fills[token]]
                  && var f := s'.fills[token];
                     f.replica == replica && f.key == key && !f.locked && !f.versioned && f.generation == 0
                     && f.result == None && f.phase == if connected then Waiting else Ready)
  {
  }

  /** The end of a read that found an entry: it is the answer, and unless it is of the current generation and less
      than a minute old, a fill refreshes it in the background. */
  lemma JudgeAnswers(s: State, reader: int, nowMs: int)
    requires Enabled(s, OfReader(reader, Judge(nowMs)))
    requires s.readers[reader].entry.value.Some? && s.readers[reader].entry.value.value.Entry?
    ensures var r := s.readers[reader];
            var e := r.entry.value.value;
            var recent := e.generation == r.generation.value && e.calculatedAtMs <= nowMs < e.calculatedAtMs + 60_000;
            var s' := if recent then Tick(s) else StartFill(Tick(s), r.replica, r.key, true);
            Next(s, OfReader(reader, Judge(nowMs)))
            == s'.(readers := s.readers[reader := r.(phase := Answered, answer := Some(e.data), judgedFresh := recent)])
  {
  }

  /** Without one the reader waits for a fill. */
  lemma JudgeWaits(s: State, reader: int, nowMs: int)
    requires Enabled(s, OfReader(reader, Judge(nowMs)))
    requires s.readers[reader].entry.value.None? || s.readers[reader].entry.value.value.Garbage?
    ensures var r := s.readers[reader];
            var token := FillFor(Tick(s), r.replica, r.key);
            Next(s, OfReader(reader, Judge(nowMs)))
            == StartFill(Tick(s), r.replica, r.key, true).(readers := s.readers[reader := r.(phase := Awaiting(token))])
  {
  }

  /** The state after any sequence of steps; a step that is not enabled does nothing. */
  function Run(steps: seq<Step>): State {
    if steps == [] then Init else Next(Run(steps[..|steps| - 1]), steps[|steps| - 1])
  }

  lemma RunSnoc(steps: seq<Step>, step: Step)
    ensures Run(steps + [step]) == Next(Run(steps), step)
  {
    assert (steps + [step])[..|steps|] == steps;
  }

  // The state after some more steps.
  function RunFrom(s: State, steps: seq<Step>): State
    decreases |steps|
  {
    if steps == [] then s else RunFrom(Next(s, steps[0]), steps[1..])
  }

  lemma {:induction false} RunAppends(before: seq<Step>, steps: seq<Step>)
    ensures Run(before + steps) == RunFrom(Run(before), steps)
    decreases |steps|
  {
    if steps == [] {
      assert before + steps == before;
    } else {
      RunSnoc(before, steps[0]);
      RunAppends(before + [steps[0]], steps[1..]);
      assert before + [steps[0]] + steps[1..] == before + steps;
    }
  }

  lemma Unroll2(s: State, steps: seq<Step>)
    requires |steps| == 2
    ensures RunFrom(s, steps) == Next(Next(s, steps[0]), steps[1])
  {
    assert RunFrom(s, steps) == RunFrom(Next(s, steps[0]), steps[1..]);
    assert steps[1..] == [steps[1]];
    assert steps[1..][1..] == [];
  }

  /** States that each come from the one before by a step, as those between two calls of the cluster's methods
      do, are states of a run. */
  lemma {:induction false} StatesOfARun(states: seq<State>, steps: seq<Step>)
    requires |states| == |steps| + 1 && states[0] == Init
    requires forall i :: 0 <= i < |steps| ==> states[i + 1] == Next(states[i], steps[i])
    ensures states[|steps|] == Run(steps)
  {
    hide Next;
    if steps != [] {
      StatesOfARun(states[..|steps|], steps[..|steps| - 1]);
    }
  }
}
