/** The refresh-token protocol of the dashboard graphs (api/src/services/graph-cache.ts).

    A data change marks a plan with a fresh token instead of deleting its cached result; the
    fill that recalculates the result removes the token again, but only if it is the token it
    read before its load. Moments and tokens are numbered as in SummaryCache. Unlike there the
    store is not guarded by the lock, so the protocol relies on no fill outliving its lock. */
module GraphCache {
  import opened Wrappers

  type Moment = int
  type Token = int

  /** The identity of a plan: `id` and `revision`, which all three of its Redis keys hash. */
  datatype Plan = Plan(id: int, revision: int)

  /** A cached body, identified by the moment at which its load began. */
  datatype Body = Body(loadedFrom: Moment)

  datatype Phase = Trying | Acquired | TokenRead | Loading | Loaded | Stored | Releasing | Settled

  /** One call of runMaterialize. */
  datatype Fill = Fill(replica: int, plan: Plan, phase: Phase, token: Option<Token>, readAt: Moment, loadAt: Moment)

  /** The three Redis keys of one plan, and the moment of its last mark (-1 if none). */
  datatype Keys = Keys(result: Option<Body>, lock: Option<Token>, refresh: Option<Token>, lastMark: Moment)

  datatype State = State(
    now: Moment, nextToken: Token, keys: map<Plan, Keys>,
    fills: map<Token, Fill>, inflight: map<(int, Plan), Token>)

  const Init := State(0, 1, map[], map[], map[])

  function KeysOf(s: State, plan: Plan): Keys {
    if plan in s.keys then s.keys[plan] else Keys(None, None, None, -1)
  }

  function SetKeys(s: State, plan: Plan, k: Keys): State {
    s.(keys := s.keys[plan := k])
  }

  datatype Act =
    | TryLock | LockFault(granted: bool) | ReadToken | ReadFault | StartLoad | FinishLoad | FailLoad
    | StoreResult | StoreFault(written: bool) | DeleteToken | DeleteFault | Release | ReleaseFault

  datatype Step =
    | Materialize(replica: int, plan: Plan)
    | OfFill(fill: Token, act: Act)
    | Forget(fill: Token)
    | Mark(plan: Plan)
    | Drop(plan: Plan)
    | Crash(replica: int)
    | ExpireLock(plan: Plan)

  predicate Can(f: Fill, act: Act) {
    match act
    case TryLock => f.phase == Trying
    case LockFault(_) => f.phase == Trying
    case ReadToken => f.phase == Acquired
    case ReadFault => f.phase == Acquired
    case StartLoad => f.phase == TokenRead
    case FinishLoad => f.phase == Loading
    case FailLoad => f.phase == Loading
    case StoreResult => f.phase == Loaded
    case StoreFault(_) => f.phase == Loaded
    case DeleteToken => f.phase == Stored && f.token.Some?
    case DeleteFault => f.phase == Stored && f.token.Some?
    case Release => f.phase == Releasing
    case ReleaseFault => f.phase == Releasing
  }

  predicate Enabled(s: State, step: Step) {
    match step
    case Materialize(replica, plan) => (replica, plan) !in s.inflight
    case OfFill(f, act) => f in s.fills && Can(s.fills[f], act)
    case Forget(f) => f in s.fills && s.fills[f].phase == Settled
    case _ => true
  }

  function Move(k: Keys, f: Fill, act: Act, now: Moment): Fill
    requires Can(f, act)
  {
    match act
    case TryLock => f.(phase := if k.lock.Some? then Settled else Acquired)
    case LockFault(_) => f.(phase := Settled)
    case ReadToken => f.(phase := TokenRead, token := k.refresh, readAt := now)
    case ReadFault => f.(phase := Releasing)
    case StartLoad => f.(phase := Loading, loadAt := now)
    case FinishLoad => f.(phase := Loaded)
    case FailLoad => f.(phase := Releasing)
    case StoreResult => f.(phase := if f.token.Some? then Stored else Releasing)
    case StoreFault(_) => f.(phase := Releasing)
    case DeleteToken => f.(phase := Releasing)
    case DeleteFault => f.(phase := Releasing)
    case Release => f.(phase := Settled)
    case ReleaseFault => f.(phase := Settled)
  }

  function Touch(k: Keys, fill: Token, f: Fill, act: Act): Keys
    requires Can(f, act)
  {
    match act
    case TryLock => if k.lock.Some? then k else k.(lock := Some(fill))
    case LockFault(granted) => if granted && k.lock.None? then k.(lock := Some(fill)) else k
    case StoreResult => k.(result := Some(Body(f.loadAt)))
    case StoreFault(written) => if written then k.(result := Some(Body(f.loadAt))) else k
    case DeleteToken => if k.refresh == f.token then k.(refresh := None) else k
    case Release => if k.lock == Some(fill) then k.(lock := None) else k
    case _ => k
  }

  function FillEffect(s: State, fill: Token, act: Act): State
    requires fill in s.fills && Can(s.fills[fill], act)
  {
    var f := s.fills[fill];
    var k := KeysOf(s, f.plan);
    SetKeys(s.(fills := s.fills[fill := Move(k, f, act, s.now)]), f.plan, Touch(k, fill, f, act))
  }

  function Effect(s: State, step: Step): State
    requires Enabled(s, step)
  {
    match step
    case Materialize(replica, plan) =>
      s.(fills := s.fills[s.nextToken := Fill(replica, plan, Trying, None, s.now, s.now)],
         inflight := s.inflight[(replica, plan) := s.nextToken], nextToken := s.nextToken + 1)
    case OfFill(f, act) => FillEffect(s, f, act)
    case Forget(f) => s.(inflight := map p | p in s.inflight && s.inflight[p] != f :: s.inflight[p])
    case Mark(plan) =>
      SetKeys(s, plan, KeysOf(s, plan).(refresh := Some(s.nextToken), lastMark := s.now)).(nextToken := s.nextToken + 1)
    case Drop(plan) => SetKeys(s, plan, KeysOf(s, plan).(result := None))
    case Crash(replica) =>
      s.(fills := map o | o in s.fills ::
                    if s.fills[o].replica == replica then s.fills[o].(phase := Settled) else s.fills[o],
         inflight := map p | p in s.inflight && p.0 != replica :: s.inflight[p])
    case ExpireLock(plan) => SetKeys(s, plan, KeysOf(s, plan).(lock := None))
  }

  function Tick(s: State): State {
    s.(now := s.now + 1)
  }

  function Next(s: State, step: Step): State {
    if Enabled(s, step) then Effect(Tick(s), step) else s
  }

  function Run(steps: seq<Step>): State {
    if steps == [] then Init else Next(Run(steps[..|steps| - 1]), steps[|steps| - 1])
  }

  // ---- fills that keep within their lock ----

  predicate Live(f: Fill) {
    f.phase != Trying && f.phase != Settled
  }

  // The lock expires only once its fill has settled: no fill outlives its lock.
  predicate Punctual(s: State, step: Step) {
    step.ExpireLock? ==> forall o <- s.fills :: s.fills[o].plan == step.plan ==> !Live(s.fills[o])
  }

  predicate PunctualRun(steps: seq<Step>) {
    steps != [] ==> PunctualRun(steps[..|steps| - 1]) && Punctual(Run(steps[..|steps| - 1]), steps[|steps| - 1])
  }

  lemma RunSnoc(steps: seq<Step>, step: Step)
    ensures Run(steps + [step]) == Next(Run(steps), step)
  {
    assert (steps + [step])[..|steps|] == steps;
  }

  /** States that each come from the one before by a step, as those between two calls of the cluster's methods
      do, are states of a run. */
  lemma {:induction false} StatesOfARun(states: seq<State>, steps: seq<Step>)
    requires |states| == |steps| + 1 && states[0] == Init
    requires forall i :: 0 <= i < |steps| ==> states[i + 1] == Next(states[i], steps[i])
    ensures states[|steps|] == Run(steps)
  {
    hide Next;
    if steps != [] {
      StatesOfARun(states[..|steps|], steps[..|steps| - 1]);
    }
  }
}
