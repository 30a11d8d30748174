/** What one fill of a graph does when nothing else happens meanwhile, and what mishaps do. */
module GraphCacheFills {
  import opened Wrappers
  import opened GraphCache

  // Some steps later, with one fill and the keys of its plan replaced.
  function With(s: State, steps: int, fill: Token, f: Fill, k: Keys): State {
    s.(now := s.now + steps, fills := s.fills[fill := f], keys := s.keys[f.plan := k])
  }

  lemma WithTwice(s: State, m: int, n: int, fill: Token, f: Fill, f': Fill, k: Keys, k': Keys)
    requires f'.plan == f.plan
    ensures With(With(s, m, fill, f, k), n, fill, f', k') == With(s, m + n, fill, f', k')
    ensures var s' := With(s, m, fill, f, k);
            && fill in s'.fills && s'.fills[fill] == f && KeysOf(s', f.plan) == k && s'.now == s.now + m
            && s'.inflight == s.inflight
  {
  }

  // ---- a fill in the quiet ----

  lemma Takes(s: State, fill: Token)
    requires fill in s.fills && s.fills[fill].phase == Trying && KeysOf(s, s.fills[fill].plan).lock.None?
    ensures var f := s.fills[fill];
            Next(s, OfFill(fill, TryLock))
            == With(s, 1, fill, f.(phase := Acquired), KeysOf(s, f.plan).(lock := Some(fill)))
  {
  }

  lemma Reads(s: State, fill: Token)
    requires fill in s.fills && s.fills[fill].phase == Acquired
    ensures var f, k := s.fills[fill], KeysOf(s, s.fills[fill].plan);
            Next(s, OfFill(fill, ReadToken))
            == With(s, 1, fill, f.(phase := TokenRead, token := k.refresh, readAt := s.now + 1), k)
  {
  }

  lemma Starts(s: State, fill: Token)
    requires fill in s.fills && s.fills[fill].phase == TokenRead
    ensures var f := s.fills[fill];
            Next(s, OfFill(fill, StartLoad))
            == With(s, 1, fill, f.(phase := Loading, loadAt := s.now + 1), KeysOf(s, f.plan))
  {
  }

  lemma Finishes(s: State, fill: Token)
    requires fill in s.fills && s.fills[fill].phase == Loading
    ensures var f := s.fills[fill];
            Next(s, OfFill(fill, FinishLoad)) == With(s, 1, fill, f.(phase := Loaded), KeysOf(s, f.plan))
  {
  }

  lemma Stores(s: State, fill: Token)
    requires fill in s.fills && s.fills[fill].phase == Loaded
    ensures var f := s.fills[fill];
            Next(s, OfFill(fill, StoreResult))
            == With(s, 1, fill, f.(phase := if f.token.Some? then Stored else Releasing),
                    KeysOf(s, f.plan).(result := Some(Body(f.loadAt))))
  {
  }

  lemma Removes(s: State, fill: Token)
    requires fill in s.fills && s.fills[fill].phase == Stored && s.fills[fill].token.Some?
    ensures var f, k := s.fills[fill], KeysOf(s, s.fills[fill].plan);
            Next(s, OfFill(fill, DeleteToken))
            == With(s, 1, fill, f.(phase := Releasing), k.(refresh := if k.refresh == f.token then None else k.refresh))
  {
  }

  lemma Releases(s: State, fill: Token)
    requires fill in s.fills && s.fills[fill].phase == Releasing
    ensures var f, k := s.fills[fill], KeysOf(s, s.fills[fill].plan);
            Next(s, OfFill(fill, Release))
            == With(s, 1, fill, f.(phase := Settled), k.(lock := if k.lock == Some(fill) then None else k.lock))
  {
  }

  // The steps of a fill from the lock to the load, from the store on, and all of them.
  function Load(s: State, fill: Token): State {
    Next(Next(Next(Next(s, OfFill(fill, TryLock)), OfFill(fill, ReadToken)), OfFill(fill, StartLoad)),
         OfFill(fill, FinishLoad))
  }

  function Finish(s: State, fill: Token): State {
    var s' := Next(s, OfFill(fill, StoreResult));
    Next(if fill in s'.fills && s'.fills[fill].phase == Stored then Next(s', OfFill(fill, DeleteToken)) else s',
         OfFill(fill, Release))
  }

  lemma Loads(s: State, fill: Token)
    requires fill in s.fills && s.fills[fill].phase == Trying && KeysOf(s, s.fills[fill].plan).lock.None?
    ensures var f, k := s.fills[fill], KeysOf(s, s.fills[fill].plan);
            Load(s, fill)
            == With(s, 4, fill, f.(phase := Loaded, token := k.refresh, readAt := s.now + 2, loadAt := s.now + 3),
                    k.(lock := Some(fill)))
  {
    hide Next, With, KeysOf;
    var f, k := s.fills[fill], KeysOf(s, s.fills[fill].plan);
    var k' := k.(lock := Some(fill));
    Takes(s, fill);
    var f1 := f.(phase := Acquired);
    WithTwice(s, 1, 1, fill, f1, f1, k', k');
    Reads(With(s, 1, fill, f1, k'), fill);
    var f2 := f1.(phase := TokenRead, token := k.refresh, readAt := s.now + 2);
    WithTwice(s, 1, 1, fill, f1, f2, k', k');
    WithTwice(s, 2, 1, fill, f2, f2, k', k');
    Starts(With(s, 2, fill, f2, k'), fill);
    var f3 := f2.(phase := Loading, loadAt := s.now + 3);
    WithTwice(s, 2, 1, fill, f2, f3, k', k');
    WithTwice(s, 3, 1, fill, f3, f3, k', k');
    Finishes(With(s, 3, fill, f3, k'), fill);
    WithTwice(s, 3, 1, fill, f3, f3.(phase := Loaded), k', k');
  }

  /** From the store on: the result is the body that was loaded, the token that was read is removed, but no other,
      and the lock is given back if it is still the fill's own. */
  lemma Finishing(s: State, fill: Token)
    requires fill in s.fills && s.fills[fill].phase == Loaded
    ensures var f, k, s' := s.fills[fill], KeysOf(s, s.fills[fill].plan), Finish(s, fill);
            && fill in s'.fills && s'.fills == s.fills[fill := f.(phase := Settled)] && s'.inflight == s.inflight
            && s'.nextToken == s.nextToken
            && KeysOf(s', f.plan)
               == Keys(Some(Body(f.loadAt)), if k.lock == Some(fill) then None else k.lock,
                       if f.token.Some? && k.refresh == f.token then None else k.refresh, k.lastMark)
            && forall p :: p != f.plan ==> KeysOf(s', p) == KeysOf(s, p)
  {
    hide Next;
    var f, k := s.fills[fill], KeysOf(s, s.fills[fill].plan);
    Stores(s, fill);
    var k1 := k.(result := Some(Body(f.loadAt)));
    if f.token.Some? {
      var f1 := f.(phase := Stored);
      WithTwice(s, 1, 1, fill, f1, f1, k1, k1);
      Removes(With(s, 1, fill, f1, k1), fill);
      var k2 := k1.(refresh := if k.refresh == f.token then None else k.refresh);
      var f2 := f.(phase := Releasing);
      WithTwice(s, 1, 1, fill, f1, f2, k1, k2);
      WithTwice(s, 2, 1, fill, f2, f2, k2, k2);
      Releases(With(s, 2, fill, f2, k2), fill);
      WithTwice(s, 2, 1, fill, f2, f.(phase := Settled), k2,
                k2.(lock := if k.lock == Some(fill) then None else k.lock));
    } else {
      var f1 := f.(phase := Releasing);
      WithTwice(s, 1, 1, fill, f1, f1, k1, k1);
      Releases(With(s, 1, fill, f1, k1), fill);
      WithTwice(s, 1, 1, fill, f1, f.(phase := Settled), k1,
                k1.(lock := if k.lock == Some(fill) then None else k.lock));
    }
  }

  lemma Begins(s: State, replica: int, plan: Plan)
    requires (replica, plan) !in s.inflight
    ensures var s', fill := Next(s, Materialize(replica, plan)), s.nextToken;
            && s'.now == s.now + 1 && s'.nextToken == fill + 1 && s'.keys == s.keys
            && s'.inflight == s.inflight[(replica, plan) := fill]
            && fill in s'.fills && s'.fills == s.fills[fill := s'.fills[fill]]
            && s'.fills[fill].plan == plan && s'.fills[fill].phase == Trying
  {
  }

  lemma Ends(s: State, fill: Token)
    requires fill in s.fills && s.fills[fill].phase == Settled
    ensures var s' := Next(s, Forget(fill));
            && s' == s.(now := s.now + 1, inflight := s'.inflight)
            && (forall p :: p in s'.inflight <==> p in s.inflight && s.inflight[p] != fill)
            && forall p <- s'.inflight :: s'.inflight[p] == s.inflight[p]
  {
  }

  /** An undisturbed fill of a plan that is neither locked nor filled in this process leaves the result of a load that
      began after it did, no token and no lock, and the plan can be filled again; nothing else changes. */
  lemma AnUndisturbedFill(s: State, replica: int, plan: Plan, begun: State, loaded: State, finished: State, end: State)
    requires (replica, plan) !in s.inflight && KeysOf(s, plan).lock.None?
    requires forall p <- s.inflight :: s.inflight[p] != s.nextToken
    requires begun == Next(s, Materialize(replica, plan)) && loaded == Load(begun, s.nextToken)
    requires finished == Finish(loaded, s.nextToken) && end == Next(finished, Forget(s.nextToken))
    ensures KeysOf(end, plan) == Keys(Some(Body(s.now + 4)), None, None, KeysOf(s, plan).lastMark)
    ensures forall p :: p != plan ==> KeysOf(end, p) == KeysOf(s, p)
    ensures end.inflight == s.inflight && end.nextToken == s.nextToken + 1
    ensures s.nextToken in end.fills && end.fills == s.fills[s.nextToken := end.fills[s.nextToken]]
  {
    hide Next, Load, Finish;
    var fill := s.nextToken;
    Begins(s, replica, plan);
    SameKeys(s, begun);
    Loads(begun, fill);
    LoadedFacts(begun, fill);
    Finishing(loaded, fill);
    Ends(finished, fill);
    SameKeys(finished, end);
    assert end.fills[fill := end.fills[fill]] == end.fills;
  }

  lemma SameKeys(s: State, s': State)
    requires s'.keys == s.keys
    ensures forall p :: KeysOf(s', p) == KeysOf(s, p)
  {
  }

  lemma LoadedFacts(s: State, fill: Token)
    requires fill in s.fills && s.fills[fill].phase == Trying && KeysOf(s, s.fills[fill].plan).lock.None?
    ensures var f, k, s' := s.fills[fill], KeysOf(s, s.fills[fill].plan), Load(s, fill);
            && fill in s'.fills && s'.fills == s.fills[fill := s'.fills[fill]]
            && s'.fills[fill] == f.(phase := Loaded, token := k.refresh, readAt := s.now + 2, loadAt := s.now + 3)
            && KeysOf(s', f.plan) == k.(lock := Some(fill)) && s'.inflight == s.inflight && s'.nextToken == s.nextToken
            && forall p :: p != f.plan ==> KeysOf(s', p) == KeysOf(s, p)
  {
    Loads(s, fill);
    hide Next, Load;
  }

  /** Whoever does not get the lock ends, and one fill a process and plan is enough. */
  lemma OthersStandBack(s: State, replica: int, plan: Plan, fill: Token)
    ensures (replica, plan) in s.inflight ==> Next(s, Materialize(replica, plan)) == s
    ensures fill in s.fills && s.fills[fill].phase == Trying && KeysOf(s, s.fills[fill].plan).lock.Some?
            ==> var f := s.fills[fill];
                Next(s, OfFill(fill, TryLock)) == With(s, 1, fill, f.(phase := Settled), KeysOf(s, f.plan))
  {
  }

  // ---- forgotten fills ----

  predicate Unlisted(s: State, fill: Token) {
    fill < s.nextToken && forall p <- s.inflight :: s.inflight[p] != fill
  }

  lemma StaysUnlisted(s: State, step: Step, fill: Token)
    requires Unlisted(s, fill)
    ensures Unlisted(Next(s, step), fill)
  {
    hide Move, Touch, Can;
  }

  lemma {:induction false} TokensInTime(steps: seq<Step>)
    ensures forall o <- Run(steps).fills :: o < Run(steps).nextToken
  {
    hide Move, Touch, Can;
    if steps != [] {
      TokensInTime(steps[..|steps| - 1]);
    }
  }

  /** Once a settled fill has been forgotten it is never listed again, and the other entries stay. */
  lemma {:induction false} ForgottenForGood(before: seq<Step>, fill: Token, after: seq<Step>)
    requires Enabled(Run(before), Forget(fill))
    ensures Unlisted(Run(before + [Forget(fill)] + after), fill)
    ensures after == [] ==>
              var s, s' := Run(before), Run(before + [Forget(fill)]);
              forall p <- s.inflight :: s.inflight[p] != fill ==> p in s'.inflight && s'.inflight[p] == s.inflight[p]
    decreases |after|
  {
    if after == [] {
      TokensInTime(before);
      RunSnoc(before, Forget(fill));
      assert before + [Forget(fill)] + [] == before + [Forget(fill)];
    } else {
      hide Next, Unlisted;
      var front, step := after[..|after| - 1], after[|after| - 1];
      ForgottenForGood(before, fill, front);
      RunSnoc(before + [Forget(fill)] + front, step);
      assert before + [Forget(fill)] + front + [step] == before + [Forget(fill)] + after;
      StaysUnlisted(Run(before + [Forget(fill)] + front), step, fill);
    }
  }

  // ---- changes from outside ----

  /** A change gives the plan a fresh token and leaves its result and lock; replacing a plan deletes its result and
      leaves the rest. */
  lemma MarksAndDrops(s: State, plan: Plan)
    ensures var s' := Next(s, Mark(plan));
            && s' == s.(now := s.now + 1, nextToken := s.nextToken + 1, keys := s'.keys)
            && KeysOf(s', plan) == KeysOf(s, plan).(refresh := Some(s.nextToken), lastMark := s.now + 1)
            && forall p :: p != plan ==> KeysOf(s', p) == KeysOf(s, p)
    ensures var s' := Next(s, Drop(plan));
            && s' == s.(now := s.now + 1, keys := s'.keys) && KeysOf(s', plan) == KeysOf(s, plan).(result := None)
            && forall p :: p != plan ==> KeysOf(s', p) == KeysOf(s, p)
  {
  }

  // ---- mishaps ----

  /** What a failing request leaves: the fill goes on to give the lock back, or ends. A lock or a result that was
      granted or written stays, and the token stays. */
  lemma FaultsLeave(s: State, fill: Token, done: bool)
    requires fill in s.fills
    ensures var f, k := s.fills[fill], KeysOf(s, s.fills[fill].plan);
            && (f.phase == Trying ==>
                  Next(s, OfFill(fill, LockFault(done)))
                  == With(s, 1, fill, f.(phase := Settled), if done && k.lock.None? then k.(lock := Some(fill)) else k))
            && (f.phase == Acquired ==>
                  Next(s, OfFill(fill, ReadFault)) == With(s, 1, fill, f.(phase := Releasing), k))
            && (f.phase == Loading ==> Next(s, OfFill(fill, FailLoad)) == With(s, 1, fill, f.(phase := Releasing), k))
            && (f.phase == Loaded ==>
                  Next(s, OfFill(fill, StoreFault(done)))
                  == With(s, 1, fill, f.(phase := Releasing), if done then k.(result := Some(Body(f.loadAt))) else k))
            && (f.phase == Stored && f.token.Some? ==>
                  Next(s, OfFill(fill, DeleteFault)) == With(s, 1, fill, f.(phase := Releasing), k))
            && (f.phase == Releasing ==>
                  Next(s, OfFill(fill, ReleaseFault)) == With(s, 1, fill, f.(phase := Settled), k))
  {
  }

  /** A crash ends the fills of one process and empties its table, an expiry frees the lock of one plan, and neither
      touches anything else. */
  lemma LossesAreSingle(s: State, replica: int, plan: Plan)
    ensures var s' := Next(s, Crash(replica));
            && s' == s.(now := s.now + 1, fills := s'.fills, inflight := s'.inflight) && s'.fills.Keys == s.fills.Keys
            && (forall o <- s.fills ::
                  s'.fills[o] == if s.fills[o].replica == replica then s.fills[o].(phase := Settled) else s.fills[o])
            && (forall p :: p in s'.inflight <==> p in s.inflight && p.0 != replica)
            && (forall p <- s'.inflight :: s'.inflight[p] == s.inflight[p])
    ensures var s' := Next(s, ExpireLock(plan));
            && s' == s.(now := s.now + 1, keys := s'.keys) && KeysOf(s', plan) == KeysOf(s, plan).(lock := None)
            && forall p :: p != plan ==> KeysOf(s', p) == KeysOf(s, p)
  {
  }
}
