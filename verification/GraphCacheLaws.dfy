/** What every punctual run of the graph cache keeps: as long as no fill outlives its lock. */
module GraphCacheLaws {
  import opened Wrappers
  import opened GraphCache

  // ---- the inductive invariant ----

  // The refresh key is what the fill read at the moment m exactly if no mark came since.
  predicate Unmarked(k: Keys, token: Option<Token>, m: Moment) {
    k.refresh == token <==> k.lastMark < m
  }

  predicate Clean(k: Keys) {
    k.result.Some? && k.refresh.None? ==> k.lastMark < k.result.value.loadedFrom
  }

  predicate KeysInv(now: Moment, nextToken: Token, k: Keys) {
    && k.lastMark <= now && (k.refresh.Some? ==> k.refresh.value < nextToken) && Clean(k)
  }

  // Past its reading of the refresh key, before its removal.
  predicate Working(f: Fill) {
    f.phase == TokenRead || f.phase == Loading || f.phase == Loaded || f.phase == Stored
  }

  predicate FillInv(now: Moment, nextToken: Token, k: Keys, fill: Token, f: Fill) {
    && fill < nextToken
    && (Live(f) ==> k.lock == Some(fill))
    && (Working(f) ==>
          && f.readAt <= now
          && (f.token.Some? ==> k.refresh.Some? && f.token.value < nextToken)
          && Unmarked(k, f.token, f.readAt)
          && (f.phase != TokenRead ==> f.readAt <= f.loadAt)
          && (f.phase == Stored ==>
                f.token.Some? && (k.result.Some? ==> k.result.value.loadedFrom == f.loadAt)))
  }

  ghost predicate Inv(s: State) {
    && (forall o <- s.fills :: FillInv(s.now, s.nextToken, KeysOf(s, s.fills[o].plan), o, s.fills[o]))
    && (forall p <- s.keys :: KeysInv(s.now, s.nextToken, s.keys[p]))
    && s.now >= 0
  }

  // At the start of a step every mark is older than the present moment.
  ghost predicate Quiet(s: State) {
    && (forall p <- s.keys :: s.keys[p].lastMark < s.now)
    && s.now >= 0
  }

  lemma InvTick(s: State)
    requires Inv(s)
    ensures Inv(Tick(s)) && Quiet(Tick(s))
  {
  }

  // What an act does to the fill itself and to the keys of its plan.
  lemma ActKeeps(now: Moment, nextToken: Token, k: Keys, fill: Token, f: Fill, act: Act)
    requires Can(f, act) && KeysInv(now, nextToken, k) && k.lastMark < now && FillInv(now, nextToken, k, fill, f)
    ensures var k', f' := Touch(k, fill, f, act), Move(k, f, act, now);
            KeysInv(now, nextToken, k') && FillInv(now, nextToken, k', fill, f')
  {
  }

  // Other fills of the plan are not live, unless this one was refused the lock.
  lemma OthersKept(now: Moment, nextToken: Token, k: Keys, fill: Token, f: Fill, act: Act, o: Token, g: Fill)
    requires Can(f, act) && o != fill && FillInv(now, nextToken, k, fill, f) && FillInv(now, nextToken, k, o, g)
    ensures FillInv(now, nextToken, Touch(k, fill, f, act), o, g)
  {
  }

  lemma InvFill(s: State, fill: Token, act: Act)
    requires Inv(s) && Quiet(s) && Enabled(s, OfFill(fill, act))
    ensures Inv(FillEffect(s, fill, act))
  {
    var f := s.fills[fill];
    var k := KeysOf(s, f.plan);
    ActKeeps(s.now, s.nextToken, k, fill, f, act);
    forall o <- s.fills | o != fill && s.fills[o].plan == f.plan {
      OthersKept(s.now, s.nextToken, k, fill, f, act, o, s.fills[o]);
    }
  }

  lemma InvMark(s: State, plan: Plan)
    requires Inv(s) && Quiet(s)
    ensures Inv(Effect(s, Mark(plan)))
  {
  }

  lemma InvMaterialize(s: State, replica: int, plan: Plan)
    requires Inv(s) && Enabled(s, Materialize(replica, plan))
    ensures Inv(Effect(s, Materialize(replica, plan)))
  {
  }

  lemma InvCrash(s: State, replica: int)
    requires Inv(s)
    ensures Inv(Effect(s, Crash(replica)))
  {
  }

  lemma InvExpiry(s: State, plan: Plan)
    requires Inv(s) && Punctual(s, ExpireLock(plan))
    ensures Inv(Effect(s, ExpireLock(plan)))
  {
  }

  lemma InvDrop(s: State, plan: Plan)
    requires Inv(s)
    ensures Inv(Effect(s, Drop(plan)))
  {
  }

  lemma InvEffect(s: State, step: Step)
    requires Inv(s) && Quiet(s) && Enabled(s, step) && Punctual(s, step)
    ensures Inv(Effect(s, step))
  {
    match step
    case Materialize(replica, plan) => InvMaterialize(s, replica, plan);
    case OfFill(f, act) => InvFill(s, f, act);
    case Forget(_) =>
    case Mark(plan) => InvMark(s, plan);
    case Drop(plan) => InvDrop(s, plan);
    case Crash(replica) => InvCrash(s, replica);
    case ExpireLock(plan) => InvExpiry(s, plan);
  }

  lemma {:induction false} InvRun(steps: seq<Step>)
    requires PunctualRun(steps)
    ensures Inv(Run(steps))
  {
    if steps != [] {
      var s, step := Run(steps[..|steps| - 1]), steps[|steps| - 1];
      InvRun(steps[..|steps| - 1]);
      if Enabled(s, step) {
        InvTick(s);
        InvEffect(Tick(s), step);
      }
    }
  }

  // ---- what holds of every punctual run ----

  /** As long as no fill outlives its lock, a plan with a cached result and without a refresh
      token has a result whose load began after the plan's last mark. */
  lemma UntokenedResultsAreCurrent(steps: seq<Step>, plan: Plan)
    requires PunctualRun(steps)
    requires KeysOf(Run(steps), plan).result.Some? && KeysOf(Run(steps), plan).refresh.None?
    ensures KeysOf(Run(steps), plan).lastMark < KeysOf(Run(steps), plan).result.value.loadedFrom
  {
    InvRun(steps);
  }
}
