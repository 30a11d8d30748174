/** The graph cache as the source runs it: one method for what the code does between two
    `await`s, each proved to take exactly the step of GraphCache that is named after it. The
    states that a sequence of calls on a new cluster passes through are therefore those of a run,
    by GraphCache.StatesOfARun. */
module GraphCacheCluster {
  import opened Wrappers
  import opened GraphCache

  class Cluster {
    // Redis: the result, lock and refresh keys of every plan
    var keys: map<Plan, Keys>
    // the replicas: running calls and the `fills` tables
    var fills: map<Token, Fill>
    var inflight: map<(int, Plan), Token>
    // the step count and the source of UUIDs
    var now: Moment
    var nextToken: Token

    ghost function View(): State
      reads this
    {
      State(now, nextToken, keys, fills, inflight)
    }

    constructor ()
      ensures View() == Init
    {
      keys, fills, inflight := map[], map[], map[];
      now, nextToken := 0, 1;
    }

    function Read(plan: Plan): (k: Keys)
      reads this
      ensures k == KeysOf(View(), plan)
    {
      if plan in keys then keys[plan] else Keys(None, None, None, -1)
    }

    // The keys of one plan are now k, and those of the others as they were.
    twostate predicate OnlyKeys(plan: Plan, k: Keys)
      reads this
    {
      forall p :: Read(p) == if p == plan then k else old(Read(p))
    }

    twostate predicate SameKeys()
      reads this
    {
      forall p :: Read(p) == old(Read(p))
    }

    // `deleteIfUnchanged` on the lock key.
    method DeleteLockIfUnchanged(plan: Plan, owner: Token)
      modifies this`keys
      ensures View() == SetKeys(old(View()), plan, old(Read(plan)).(
                lock := if old(Read(plan)).lock == Some(owner) then None else old(Read(plan)).lock))
    {
      var k := Read(plan);
      if k.lock == Some(owner) {
        k := k.(lock := None);
      }
      keys := keys[plan := k];
    }

    // `deleteIfUnchanged` on the refresh key.
    method DeleteRefreshIfUnchanged(plan: Plan, token: Token)
      modifies this`keys
      ensures View() == SetKeys(old(View()), plan, old(Read(plan)).(
                refresh := if old(Read(plan)).refresh == Some(token) then None else old(Read(plan)).refresh))
    {
      var k := Read(plan);
      if k.refresh == Some(token) {
        k := k.(refresh := None);
      }
      keys := keys[plan := k];
    }

    // ---- materialize and runMaterialize ----

    method Materialize(replica: int, plan: Plan) returns (started: bool)
      modifies this`now, this`fills, this`inflight, this`nextToken
      ensures started == ((replica, plan) !in old(inflight))
      ensures View() == Next(old(View()), GraphCache.Materialize(replica, plan))
      ensures !started ==> fills == old(fills) && inflight == old(inflight)
      ensures started ==>
                var token := old(nextToken);
                && nextToken == token + 1 && now == old(now) + 1 && inflight == old(inflight)[(replica, plan) := token]
                && fills == old(fills)[token := fills[token]]
                && fills[token].plan == plan && fills[token].replica == replica
                && fills[token].phase == Trying && fills[token].token == None
    {
      started := (replica, plan) !in inflight;
      if started {
        now := now + 1;
        fills := fills[nextToken := Fill(replica, plan, Trying, None, now, now)];
        inflight := inflight[(replica, plan) := nextToken];
        nextToken := nextToken + 1;
      }
    }

    method TryLock(fill: Token) returns (acquired: bool)
      requires fill in fills && fills[fill].phase == Trying
      modifies this`now, this`fills, this`keys
      ensures acquired == old(Read(fills[fill].plan)).lock.None?
      ensures View() == Next(old(View()), OfFill(fill, GraphCache.TryLock))
      ensures fills == old(fills)[fill := fills[fill]] && now == old(now) + 1
      ensures fills[fill] == old(fills[fill]).(phase := if acquired then Acquired else Settled)
      ensures var plan := old(fills[fill]).plan;
              OnlyKeys(plan, old(Read(plan)).(lock := if acquired then Some(fill) else old(Read(plan)).lock))
    {
      now := now + 1;
      var f := fills[fill];
      var k := Read(f.plan);
      acquired := k.lock.None?;
      if acquired {
        k := k.(lock := Some(fill));
      }
      keys := keys[f.plan := k];
      fills := fills[fill := f.(phase := if acquired then Acquired else Settled)];
    }

    // The SET throws, whether or not the lock was granted: nobody will release it.
    method LockFault(fill: Token, granted: bool)
      requires fill in fills && fills[fill].phase == Trying
      modifies this`now, this`fills, this`keys
      ensures View() == Next(old(View()), OfFill(fill, GraphCache.LockFault(granted)))
      ensures fills == old(fills)[fill := fills[fill]] && now == old(now) + 1
      ensures fills[fill] == old(fills[fill]).(phase := Settled)
      ensures var plan := old(fills[fill]).plan;
              OnlyKeys(plan, old(Read(plan)).(
                lock := if granted && old(Read(plan)).lock.None? then Some(fill) else old(Read(plan)).lock))
    {
      now := now + 1;
      var f := fills[fill];
      var k := Read(f.plan);
      keys := keys[f.plan := if granted && k.lock.None? then k.(lock := Some(fill)) else k];
      fills := fills[fill := f.(phase := Settled)];
    }

    method ReadToken(fill: Token)
      requires fill in fills && fills[fill].phase == Acquired
      modifies this`now, this`fills, this`keys
      ensures View() == Next(old(View()), OfFill(fill, GraphCache.ReadToken))
      ensures fills == old(fills)[fill := fills[fill]] && now == old(now) + 1
      ensures SameKeys()
      ensures fills[fill]
              == old(fills[fill]).(phase := TokenRead, token := Read(fills[fill].plan).refresh, readAt := now)
    {
      now := now + 1;
      var f := fills[fill];
      keys := keys[f.plan := Read(f.plan)];
      fills := fills[fill := f.(phase := TokenRead, token := Read(f.plan).refresh, readAt := now)];
    }

    method StartLoad(fill: Token)
      requires fill in fills && fills[fill].phase == TokenRead
      modifies this`now, this`fills, this`keys
      ensures View() == Next(old(View()), OfFill(fill, GraphCache.StartLoad))
      ensures fills == old(fills)[fill := fills[fill]] && now == old(now) + 1
      ensures SameKeys()
      ensures fills[fill] == old(fills[fill]).(phase := Loading, loadAt := now)
    {
      now := now + 1;
      var f := fills[fill];
      keys := keys[f.plan := Read(f.plan)];
      fills := fills[fill := f.(phase := Loading, loadAt := now)];
    }

    method FinishLoad(fill: Token, succeeded: bool)
      requires fill in fills && fills[fill].phase == Loading
      modifies this`now, this`fills, this`keys
      ensures View() == Next(old(View()), OfFill(fill, if succeeded then GraphCache.FinishLoad else FailLoad))
      ensures fills == old(fills)[fill := fills[fill]] && now == old(now) + 1
      ensures SameKeys()
      ensures fills[fill] == old(fills[fill]).(phase := if succeeded then Loaded else Releasing)
    {
      now := now + 1;
      var f := fills[fill];
      keys := keys[f.plan := Read(f.plan)];
      fills := fills[fill := f.(phase := if succeeded then Loaded else Releasing)];
    }

    method StoreResult(fill: Token)
      requires fill in fills && fills[fill].phase == Loaded
      modifies this`now, this`fills, this`keys
      ensures View() == Next(old(View()), OfFill(fill, GraphCache.StoreResult))
      ensures fills == old(fills)[fill := fills[fill]] && now == old(now) + 1
      ensures fills[fill] == old(fills[fill]).(phase := if fills[fill].token.Some? then Stored else Releasing)
      ensures var plan := old(fills[fill]).plan;
              OnlyKeys(plan, old(Read(plan)).(result := Some(Body(old(fills[fill]).loadAt))))
    {
      now := now + 1;
      var f := fills[fill];
      keys := keys[f.plan := Read(f.plan).(result := Some(Body(f.loadAt)))];
      fills := fills[fill := f.(phase := if f.token.Some? then Stored else Releasing)];
    }

    method DeleteToken(fill: Token)
      requires fill in fills && fills[fill].phase == Stored && fills[fill].token.Some?
      modifies this`now, this`fills, this`keys
      ensures View() == Next(old(View()), OfFill(fill, GraphCache.DeleteToken))
      ensures fills == old(fills)[fill := fills[fill]] && now == old(now) + 1
      ensures fills[fill] == old(fills[fill]).(phase := Releasing)
      ensures var plan := old(fills[fill]).plan;
              OnlyKeys(plan, old(Read(plan)).(
                refresh := if old(Read(plan)).refresh == old(fills[fill]).token then None else old(Read(plan)).refresh))
    {
      now := now + 1;
      var f := fills[fill];
      DeleteRefreshIfUnchanged(f.plan, f.token.value);
      fills := fills[fill := f.(phase := Releasing)];
    }

    method Release(fill: Token)
      requires fill in fills && fills[fill].phase == Releasing
      modifies this`now, this`fills, this`keys
      ensures View() == Next(old(View()), OfFill(fill, GraphCache.Release))
      ensures fills == old(fills)[fill := fills[fill]] && now == old(now) + 1
      ensures fills[fill] == old(fills[fill]).(phase := Settled)
      ensures var plan := old(fills[fill]).plan;
              OnlyKeys(plan, old(Read(plan)).(
                lock := if old(Read(plan)).lock == Some(fill) then None else old(Read(plan)).lock))
    {
      now := now + 1;
      var f := fills[fill];
      DeleteLockIfUnchanged(f.plan, fill);
      fills := fills[fill := f.(phase := Settled)];
    }

    method Forget(fill: Token)
      requires fill in fills && fills[fill].phase == Settled
      modifies this`now, this`inflight
      ensures View() == Next(old(View()), GraphCache.Forget(fill))
      ensures forall p :: p in inflight <==> p in old(inflight) && old(inflight)[p] != fill
      ensures forall p <- inflight :: inflight[p] == old(inflight)[p]
    {
      now := now + 1;
      inflight := map p | p in inflight && inflight[p] != fill :: inflight[p];
    }

    // ---- activate and refreshAffected ----

    method Mark(plan: Plan)
      modifies this`now, this`keys, this`nextToken
      ensures View() == Next(old(View()), GraphCache.Mark(plan))
      ensures now == old(now) + 1 && nextToken == old(nextToken) + 1
      ensures OnlyKeys(plan, old(Read(plan)).(refresh := Some(old(nextToken)), lastMark := now))
    {
      now := now + 1;
      keys := keys[plan := Read(plan).(refresh := Some(nextToken), lastMark := now)];
      nextToken := nextToken + 1;
    }

    method Drop(plan: Plan)
      modifies this`now, this`keys
      ensures View() == Next(old(View()), GraphCache.Drop(plan))
      ensures OnlyKeys(plan, old(Read(plan)).(result := None))
    {
      now := now + 1;
      keys := keys[plan := Read(plan).(result := None)];
    }
  }
}
