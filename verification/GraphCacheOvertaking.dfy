/** What every run of the graph cache keeps, even if fills outlive their locks, and exactly which steps then
    leave an outdated result without a token. */
module GraphCacheOvertaking {
  import opened Wrappers
  import opened GraphCache
  import Laws = GraphCacheLaws

  // ---- the inductive invariant ----

  // The fill has read the refresh token.
  predicate HasRead(f: Fill) {
    f.phase == TokenRead || f.phase == Loading || f.phase == Loaded || f.phase == Stored
  }

  /** While the plan is not marked again, its refresh key holds what the fill read, or nothing; once it is, the key
      never holds that again, since tokens are fresh. */
  predicate ReadInv(now: Moment, nextToken: Token, k: Keys, f: Fill) {
    && f.readAt <= now
    && (f.token.Some? ==> f.token.value < nextToken)
    && (k.lastMark < f.readAt ==> k.refresh == f.token || k.refresh.None?)
    && (f.readAt <= k.lastMark && f.token.Some? ==> k.refresh != f.token)
    && (f.phase != TokenRead ==> f.readAt <= f.loadAt)
  }

  // A fill read a refresh token after the last mark, and is past its removal.
  predicate Removed(g: Fill, plan: Plan, lastMark: Moment) {
    g.plan == plan && g.token.Some? && lastMark < g.readAt && (g.phase == Releasing || g.phase == Settled)
  }

  // A fill has stored the result.
  predicate Wrote(g: Fill, plan: Plan, b: Body) {
    g.plan == plan && g.loadAt == b.loadedFrom && (g.phase == Stored || g.phase == Releasing || g.phase == Settled)
  }

  ghost predicate SomeRemoved(fills: map<Token, Fill>, plan: Plan, lastMark: Moment) {
    exists g <- fills :: Removed(fills[g], plan, lastMark)
  }

  ghost predicate SomeWrote(fills: map<Token, Fill>, plan: Plan, b: Body) {
    exists g <- fills :: Wrote(fills[g], plan, b)
  }

  ghost predicate KeysInv(now: Moment, nextToken: Token, fills: map<Token, Fill>, plan: Plan, k: Keys) {
    && -1 <= k.lastMark <= now
    && (k.refresh.Some? ==> k.refresh.value < nextToken)
    && (k.refresh.None? && k.lastMark >= 0 ==> SomeRemoved(fills, plan, k.lastMark))
    && (k.result.Some? ==> SomeWrote(fills, plan, k.result.value))
  }

  ghost predicate Inv(s: State) {
    && (forall o <- s.fills ::
          && o < s.nextToken
          && (HasRead(s.fills[o]) ==> ReadInv(s.now, s.nextToken, KeysOf(s, s.fills[o].plan), s.fills[o])))
    && (forall p <- s.keys :: KeysInv(s.now, s.nextToken, s.fills, p, s.keys[p]))
    && s.now >= 0
  }

  // At the start of a step every mark is older than the present moment.
  ghost predicate Quiet(s: State) {
    && (forall p <- s.keys :: s.keys[p].lastMark < s.now)
    && s.now >= 0
  }

  lemma InvTick(s: State)
    requires Inv(s)
    ensures Inv(Tick(s)) && Quiet(Tick(s))
  {
    hide SomeRemoved, SomeWrote;
  }

  // ---- an act of a fill ----

  /** Fills stay, and what they have done stays done. */
  ghost predicate Persist(fills: map<Token, Fill>, fills': map<Token, Fill>) {
    forall g <- fills :: g in fills' && fills'[g].plan == fills[g].plan
      && (fills[g].phase == Releasing || fills[g].phase == Settled
          ==> fills'[g].token == fills[g].token && fills'[g].readAt == fills[g].readAt
              && (fills'[g].phase == Releasing || fills'[g].phase == Settled))
      && (fills[g].phase == Stored || fills[g].phase == Releasing || fills[g].phase == Settled
          ==> fills'[g].loadAt == fills[g].loadAt
              && (fills'[g].phase == Stored || fills'[g].phase == Releasing || fills'[g].phase == Settled))
  }

  lemma PersistKeeps(now: Moment, nextToken: Token, fills: map<Token, Fill>, fills': map<Token, Fill>, plan: Plan,
                     k: Keys)
    requires Persist(fills, fills') && KeysInv(now, nextToken, fills, plan, k)
    ensures KeysInv(now, nextToken, fills', plan, k)
  {
    if SomeRemoved(fills, plan, k.lastMark) {
      var g :| g in fills && Removed(fills[g], plan, k.lastMark);
      assert Removed(fills'[g], plan, k.lastMark);
    }
    if k.result.Some? {
      var g :| g in fills && Wrote(fills[g], plan, k.result.value);
      assert Wrote(fills'[g], plan, k.result.value);
    }
  }

  lemma ActKeepsRead(now: Moment, nextToken: Token, k: Keys, fill: Token, f: Fill, act: Act)
    requires Can(f, act) && k.lastMark < now && (k.refresh.Some? ==> k.refresh.value < nextToken)
    requires HasRead(f) ==> ReadInv(now, nextToken, k, f)
    ensures var f' := Move(k, f, act, now); HasRead(f') ==> ReadInv(now, nextToken, Touch(k, fill, f, act), f')
  {
  }

  lemma OthersKeepRead(now: Moment, nextToken: Token, k: Keys, fill: Token, f: Fill, act: Act, g: Fill)
    requires Can(f, act) && ReadInv(now, nextToken, k, g)
    ensures ReadInv(now, nextToken, Touch(k, fill, f, act), g)
  {
  }

  lemma ActPersists(s: State, fill: Token, act: Act)
    requires fill in s.fills && Can(s.fills[fill], act)
    ensures Persist(s.fills, FillEffect(s, fill, act).fills)
  {
  }

  // What the act does to the keys of its plan.
  lemma ActKeepsKeys(s: State, fill: Token, act: Act)
    requires Inv(s) && Quiet(s) && fill in s.fills && Can(s.fills[fill], act)
    ensures var f := s.fills[fill];
            KeysInv(s.now, s.nextToken, FillEffect(s, fill, act).fills, f.plan,
                    Touch(KeysOf(s, f.plan), fill, f, act))
  {
    var f := s.fills[fill];
    var k := KeysOf(s, f.plan);
    var fills' := FillEffect(s, fill, act).fills;
    ActPersists(s, fill, act);
    PersistKeeps(s.now, s.nextToken, s.fills, fills', f.plan, k);
    hide Persist;
    if act == StoreResult || act.StoreFault? {
      assert Wrote(fills'[fill], f.plan, Body(f.loadAt));
    } else if act == DeleteToken && k.refresh == f.token {
      assert k.lastMark < f.readAt;
      assert Removed(fills'[fill], f.plan, k.lastMark);
    }
  }

  lemma InvFill(s: State, fill: Token, act: Act)
    requires Inv(s) && Quiet(s) && fill in s.fills && Can(s.fills[fill], act)
    ensures Inv(FillEffect(s, fill, act))
  {
    var f := s.fills[fill];
    var k := KeysOf(s, f.plan);
    var s' := FillEffect(s, fill, act);
    ActKeepsKeys(s, fill, act);
    ActPersists(s, fill, act);
    assert k.refresh.Some? ==> k.refresh.value < s.nextToken;
    hide Persist, KeysInv, Touch, Move;
    forall p <- s'.keys
      ensures KeysInv(s.now, s.nextToken, s'.fills, p, s'.keys[p])
    {
      if p != f.plan {
        PersistKeeps(s.now, s.nextToken, s.fills, s'.fills, p, s.keys[p]);
      }
    }
    ActKeepsRead(s.now, s.nextToken, k, fill, f, act);
    forall o <- s'.fills | HasRead(s'.fills[o])
      ensures ReadInv(s.now, s.nextToken, KeysOf(s', s'.fills[o].plan), s'.fills[o])
    {
      if o != fill && s.fills[o].plan == f.plan {
        OthersKeepRead(s.now, s.nextToken, k, fill, f, act, s.fills[o]);
      }
    }
  }

  // ---- the other steps ----

  lemma StepPersists(s: State, step: Step)
    requires Inv(s) && Enabled(s, step) && !step.OfFill?
    ensures Persist(s.fills, Effect(s, step).fills)
  {
  }

  lemma InvOther(s: State, step: Step)
    requires Inv(s) && Quiet(s) && Enabled(s, step) && !step.OfFill?
    ensures Inv(Effect(s, step))
  {
    var s' := Effect(s, step);
    StepPersists(s, step);
    hide Persist, Removed, Wrote;
    forall p <- s'.keys
      ensures KeysInv(s.now, s'.nextToken, s'.fills, p, s'.keys[p])
    {
      if p in s.keys {
        PersistKeeps(s.now, s.nextToken, s.fills, s'.fills, p, s.keys[p]);
      }
    }
  }

  lemma {:induction false} InvRun(steps: seq<Step>)
    ensures Inv(Run(steps))
  {
    if steps != [] {
      var s, step := Run(steps[..|steps| - 1]), steps[|steps| - 1];
      InvRun(steps[..|steps| - 1]);
      if Enabled(s, step) {
        InvTick(s);
        if step.OfFill? {
          InvFill(Tick(s), step.fill, step.act);
        } else {
          InvOther(Tick(s), step);
        }
      }
    }
  }

  // ---- what holds of every run ----

  /** The compare-and-delete that ends a fill leaves no token if the plan was not marked after the fill read it, and
      otherwise changes nothing: a mark set during the load survives, whatever became of the lock. */
  lemma MarksDuringLoadSurvive(steps: seq<Step>, fill: Token)
    requires Enabled(Run(steps), OfFill(fill, DeleteToken))
    ensures var f := Run(steps).fills[fill];
            var before := KeysOf(Run(steps), f.plan);
            var after := KeysOf(Run(steps + [OfFill(fill, DeleteToken)]), f.plan);
            after.refresh == if before.lastMark < f.readAt then None else before.refresh
  {
    RunSnoc(steps, OfFill(fill, DeleteToken));
    InvRun(steps);
    var f := Run(steps).fills[fill];
    assert ReadInv(Run(steps).now, Run(steps).nextToken, KeysOf(Run(steps), f.plan), f);
  }

  // ---- exactly which steps hide a change ----

  /** The step leaves a result without a token though its load began before the last mark: a store after the token of
      a mark during its load has been removed, or a removal after an older result has been stored. */
  predicate Hides(s: State, step: Step) {
    step.OfFill? && Enabled(s, step) &&
    var f := s.fills[step.fill];
    var k := KeysOf(s, f.plan);
    match step.act
    case StoreResult => k.refresh.None? && f.loadAt <= k.lastMark
    case StoreFault(written) => written && k.refresh.None? && f.loadAt <= k.lastMark
    case DeleteToken => k.refresh == f.token && k.result.Some? && k.result.value.loadedFrom <= k.lastMark
    case _ => false
  }

  /** Every plan with a result and no token has a result whose load began after its last mark. */
  ghost predicate AllCurrent(s: State) {
    forall p <- s.keys :: Laws.Clean(s.keys[p])
  }

  lemma StepIsCurrentIff(s: State, step: Step)
    requires AllCurrent(s)
    ensures AllCurrent(Next(s, step)) <==> !Hides(s, step)
  {
    var s' := Next(s, step);
    if step.OfFill? && Enabled(s, step) {
      var plan := s.fills[step.fill].plan;
      assert plan in s'.keys;
      assert forall p <- s'.keys :: p != plan ==> p in s.keys && s'.keys[p] == s.keys[p];
    }
  }

  ghost predicate AlwaysCurrent(steps: seq<Step>) {
    AllCurrent(Run(steps)) && (steps != [] ==> AlwaysCurrent(steps[..|steps| - 1]))
  }

  predicate NothingHidden(steps: seq<Step>) {
    steps != [] ==>
      NothingHidden(steps[..|steps| - 1]) && !Hides(Run(steps[..|steps| - 1]), steps[|steps| - 1])
  }

  /** In any run, results without a token are always current exactly if no such step is taken. */
  lemma {:induction false} CurrentIffNothingHidden(steps: seq<Step>)
    ensures AlwaysCurrent(steps) <==> NothingHidden(steps)
  {
    assert AllCurrent(Init);
    hide AllCurrent, Hides, Next;
    if steps != [] {
      var before, step := steps[..|steps| - 1], steps[|steps| - 1];
      CurrentIffNothingHidden(before);
      if AlwaysCurrent(before) {
        StepIsCurrentIff(Run(before), step);
      }
    }
  }

  predicate ReadSince(s: State, fill: Token, g: Token)
    requires fill in s.fills && g in s.fills
  {
    var f := s.fills[fill];
    && g != fill && s.fills[g].plan == f.plan && s.fills[g].token.Some?
    && f.loadAt <= KeysOf(s, f.plan).lastMark < s.fills[g].readAt
  }

  /** A store, reported or not, hides a change only if another fill of the plan overlapped: it read its token after
      this one's load had begun, and is past its removal. */
  lemma HidingStoresAreOvertaken(steps: seq<Step>, fill: Token, act: Act)
    requires Hides(Run(steps), OfFill(fill, act)) && act != DeleteToken
    ensures exists g <- Run(steps).fills :: ReadSince(Run(steps), fill, g)
  {
    InvRun(steps);
    var s := Run(steps);
    var f := s.fills[fill];
    var k := KeysOf(s, f.plan);
    assert ReadInv(s.now, s.nextToken, k, f);
    LoadsInTime(steps, fill);
    assert SomeRemoved(s.fills, f.plan, k.lastMark);
    var g :| g in s.fills && Removed(s.fills[g], f.plan, k.lastMark);
    assert ReadSince(s, fill, g);
  }

  lemma {:induction false} LoadsInTime(steps: seq<Step>, fill: Token)
    requires fill in Run(steps).fills
    ensures 0 <= Run(steps).fills[fill].loadAt && 0 <= Run(steps).now
  {
    if steps != [] {
      var before, step := steps[..|steps| - 1], steps[|steps| - 1];
      if fill in Run(before).fills {
        LoadsInTime(before, fill);
      } else {
        InvRun(before);
      }
    }
  }

  predicate LoadedBefore(s: State, fill: Token, g: Token)
    requires fill in s.fills && g in s.fills
  {
    var f := s.fills[fill];
    && g != fill && s.fills[g].plan == f.plan && s.fills[g].loadAt < f.readAt
    && KeysOf(s, f.plan).result == Some(Body(s.fills[g].loadAt))
  }

  /** A removal hides a change only if the result is that of another fill, whose load began before this one read
      its token. */
  lemma HidingRemovalsAreOvertaken(steps: seq<Step>, fill: Token)
    requires Hides(Run(steps), OfFill(fill, DeleteToken))
    ensures exists g <- Run(steps).fills :: LoadedBefore(Run(steps), fill, g)
  {
    InvRun(steps);
    var s := Run(steps);
    var f := s.fills[fill];
    var k := KeysOf(s, f.plan);
    assert ReadInv(s.now, s.nextToken, k, f);
    assert SomeWrote(s.fills, f.plan, k.result.value);
    var g :| g in s.fills && Wrote(s.fills[g], f.plan, k.result.value);
    assert LoadedBefore(s, fill, g);
  }

  /** Another fill of the plan has read a token since this one's load began, or has stored the result though its
      load began before this one read its token. */
  predicate Overtakes(s: State, g: Token, fill: Token)
    requires fill in s.fills && g in s.fills
  {
    var f := s.fills[fill];
    && g != fill && s.fills[g].plan == f.plan
    && ((s.fills[g].token.Some? && f.loadAt < s.fills[g].readAt)
        || (s.fills[g].loadAt < f.readAt && KeysOf(s, f.plan).result == Some(Body(s.fills[g].loadAt))))
  }

  ghost predicate Overtaken(s: State, fill: Token)
    requires fill in s.fills
  {
    exists g <- s.fills :: Overtakes(s, g, fill)
  }

  predicate Writes(act: Act) {
    act == StoreResult || act.StoreFault? || act == DeleteToken
  }

  /** No fill stores its result or removes its token once another one has overtaken it. */
  ghost predicate NoneOvertaken(steps: seq<Step>) {
    steps != [] ==>
      var s, step := Run(steps[..|steps| - 1]), steps[|steps| - 1];
      && NoneOvertaken(steps[..|steps| - 1])
      && (step.OfFill? && step.fill in s.fills && Writes(step.act) ==> !Overtaken(s, step.fill))
  }

  /** Then results without a token are always current, whatever became of the locks. */
  lemma {:induction false} RunsWithoutOvertakingAreCurrent(steps: seq<Step>)
    requires NoneOvertaken(steps)
    ensures NothingHidden(steps) && AlwaysCurrent(steps)
  {
    CurrentIffNothingHidden(steps);
    if steps != [] {
      var before, step := steps[..|steps| - 1], steps[|steps| - 1];
      RunsWithoutOvertakingAreCurrent(before);
      if Hides(Run(before), step) {
        HidersAreOvertaken(before, step.fill, step.act);
      }
    }
  }

  lemma HidersAreOvertaken(steps: seq<Step>, fill: Token, act: Act)
    requires Hides(Run(steps), OfFill(fill, act))
    ensures Overtaken(Run(steps), fill)
    ensures Writes(act)
  {
    var s := Run(steps);
    if act == DeleteToken {
      HidingRemovalsAreOvertaken(steps, fill);
      var g :| g in s.fills && LoadedBefore(s, fill, g);
      assert Overtakes(s, g, fill);
    } else {
      HidingStoresAreOvertaken(steps, fill, act);
      var g :| g in s.fills && ReadSince(s, fill, g);
      assert Overtakes(s, g, fill);
    }
  }

  /** As long as no fill outlives its lock, nothing is hidden. */
  lemma {:induction false} PunctualRunsHideNothing(steps: seq<Step>)
    requires PunctualRun(steps)
    ensures NothingHidden(steps)
  {
    PunctualRunsAreCurrent(steps);
    CurrentIffNothingHidden(steps);
  }

  lemma {:induction false} PunctualRunsAreCurrent(steps: seq<Step>)
    requires PunctualRun(steps)
    ensures AlwaysCurrent(steps)
  {
    forall p <- Run(steps).keys
      ensures Laws.Clean(Run(steps).keys[p])
    {
      assert KeysOf(Run(steps), p) == Run(steps).keys[p];
      if KeysOf(Run(steps), p).result.Some? && KeysOf(Run(steps), p).refresh.None? {
        Laws.UntokenedResultsAreCurrent(steps, p);
      }
    }
    if steps != [] {
      PunctualRunsAreCurrent(steps[..|steps| - 1]);
    }
  }
}
