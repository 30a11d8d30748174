/** The summary cache as the source runs it: Redis keys and process tables updated in place,
    one method for what the code does between two `await`s. Each method is proved to take
    exactly the step of SummaryCache that is named after it. The states that a sequence of calls
    on a new cluster passes through are therefore those of a run, by SummaryCache.StatesOfARun,
    and the theorems about all runs are about this code. */
module SummaryCluster {
  import opened Wrappers
  import opened SummaryCache

  class Cluster {
    // Redis
    var results: map<Key, Raw>
    var locks: map<Key, Token>
    var generation: map<Scope, Token>
    var epoch: map<Scope, Token>
    var registered: set<Key>
    // every key that was ever registered: a replica may act on an earlier listing
    ghost var requested: set<Key>
    // the replicas: running calls, the `fills` tables, the pending reads
    var fills: map<Token, Fill>
    var inflight: map<(int, Key), Token>
    var readers: map<int, Reader>
    // the step count, the source of UUIDs and the log
    var now: Moment
    var nextToken: Token
    var stores: set<Store>
    var bumps: set<Change>
    var invalidations: set<Change>

    ghost function View(): State
      reads this
    {
      State(Timeline(now, nextToken, generation, epoch, stores, bumps, invalidations),
            results, locks, registered, requested, fills, inflight, readers)
    }

    constructor ()
      ensures View() == Init
    {
      results, locks, generation, epoch, registered, requested := map[], map[], map[], map[], {}, {};
      fills, inflight, readers := map[], map[], map[];
      now, nextToken, stores, bumps, invalidations := 0, 1, {}, {}, {};
    }

    // ---- getOrLoad ----

    method BeginRead(reader: int, replica: int, request: Request)
      requires reader !in readers
      modifies this`now, this`readers
      ensures View() == Next(old(View()), SummaryCache.BeginRead(reader, replica, request))
      ensures reader in readers && readers == old(readers)[reader := readers[reader]] && now == old(now) + 1
      ensures var r := readers[reader];
              r.replica == replica && r.request == request && r.phase == Asking && r.startedAt == now
    {
      now := now + 1;
      readers := readers[reader := Reader(replica, request, now, Asking, Key(request, Fallback),
                                          None, None, now, false, None)];
    }

    method ReadEpoch(reader: int)
      requires reader in readers && readers[reader].phase == Asking
      modifies this`now, this`readers
      ensures View() == Next(old(View()), OfReader(reader, SummaryCache.ReadEpoch))
      ensures readers == old(readers)[reader := readers[reader]] && now == old(now) + 1
      ensures var r, r' := old(readers[reader]), readers[reader];
              && r'.phase == Keyed && r'.key.request == r.request
              && r'.key.epoch == Tag(if r.request.scope in epoch then epoch[r.request.scope] else 0)
    {
      now := now + 1;
      var r := readers[reader];
      var token := 0;
      if r.request.scope in epoch {
        token := epoch[r.request.scope];
      }
      readers := readers[reader := r.(phase := Keyed, key := Key(r.request, Tag(token)))];
    }

    method ReadEntry(reader: int)
      requires reader in readers && readers[reader].phase == Keyed && readers[reader].entry.None?
      modifies this`now, this`readers, this`registered, this`requested
      ensures View() == Next(old(View()), OfReader(reader, SummaryCache.ReadEntry))
      ensures readers == old(readers)[reader := readers[reader]] && now == old(now) + 1
      ensures var r, r' := old(readers[reader]), readers[reader];
              && r' == r.(entry := r'.entry) && registered == old(registered) + {r.key}
              && r'.entry == Some(if r.key in results then Some(results[r.key]) else None)
    {
      now := now + 1;
      var r := readers[reader];
      var raw: Option<Raw> := None;
      if r.key in results {
        raw := Some(results[r.key]);
      }
      registered, requested := registered + {r.key}, requested + {r.key};
      readers := readers[reader := r.(entry := Some(raw))];
    }

    method ReadGeneration(reader: int)
      requires reader in readers && readers[reader].phase == Keyed && readers[reader].generation.None?
      modifies this`now, this`readers
      ensures View() == Next(old(View()), OfReader(reader, SummaryCache.ReadGeneration))
      ensures readers == old(readers)[reader := readers[reader]] && now == old(now) + 1
      ensures var r, r' := old(readers[reader]), readers[reader];
              && r' == r.(generation := r'.generation, generationAt := now)
              && r'.generation == Some(if r.request.scope in generation then generation[r.request.scope] else 0)
    {
      now := now + 1;
      var r := readers[reader];
      var token := 0;
      if r.request.scope in generation {
        token := generation[r.request.scope];
      }
      readers := readers[reader := r.(generation := Some(token), generationAt := now)];
    }

    // The private `fill`: join the running call, or start one. It runs inside a step.
    method StartFill(replica: int, key: Key, connected: bool) returns (token: Token)
      modifies this`fills, this`inflight, this`nextToken
      ensures View() == SummaryCache.StartFill(old(View()), replica, key, connected)
      ensures token == FillFor(old(View()), replica, key)
    {
      if (replica, key) in inflight {
        token := inflight[(replica, key)];
      } else {
        token := nextToken;
        nextToken := nextToken + 1;
        fills := fills[token := Fill(replica, key, if connected then Waiting else Ready, now,
                                     false, now, false, 0, now, now, None)];
        inflight := inflight[(replica, key) := token];
      }
    }

    method ReaderFault(reader: int)
      requires reader in readers && (readers[reader].phase == Asking || readers[reader].phase == Keyed)
      modifies this`now, this`readers, this`fills, this`inflight, this`nextToken
      ensures View() == Next(old(View()), OfReader(reader, SummaryCache.ReaderFault))
      ensures readers == old(readers)[reader := readers[reader]] && now == old(now) + 1
      ensures var r := readers[reader];
              r.phase.Awaiting? && (r.replica, r.key) in inflight && inflight[(r.replica, r.key)] == r.phase.fill
    {
      now := now + 1;
      var r := readers[reader];
      var token := StartFill(r.replica, r.key, false);
      readers := readers[reader := r.(phase := Awaiting(token))];
    }

    method Judge(reader: int, nowMs: int)
      requires reader in readers && readers[reader].phase == Keyed
      requires readers[reader].entry.Some? && readers[reader].generation.Some?
      modifies this`now, this`readers, this`fills, this`inflight, this`nextToken
      ensures View() == Next(old(View()), OfReader(reader, SummaryCache.Judge(nowMs)))
    {
      hide Next, SummaryCache.StartFill, FillFor;
      ghost var before := View();
      var r := readers[reader];
      now := now + 1;
      if r.entry.value.Some? && r.entry.value.value.Entry? {
        JudgeAnswers(before, reader, nowMs);
        var entry := r.entry.value.value;
        var recent := Fresh(entry, r.generation.value, nowMs);
        if !recent {
          var _ := StartFill(r.replica, r.key, true);
        }
        readers := readers[reader := r.(phase := Answered, answer := Some(entry.data), judgedFresh := recent)];
      } else {
        JudgeWaits(before, reader, nowMs);
        var token := StartFill(r.replica, r.key, true);
        readers := readers[reader := r.(phase := Awaiting(token))];
      }
    }

    method AwaitFill(reader: int)
      requires reader in readers && readers[reader].phase.Awaiting?
      requires readers[reader].phase.fill in fills && fills[readers[reader].phase.fill].phase == Done
      modifies this`now, this`readers
      ensures View() == Next(old(View()), OfReader(reader, SummaryCache.AwaitFill))
      ensures readers == old(readers)[reader := readers[reader]] && now == old(now) + 1
      ensures var result := fills[old(readers[reader]).phase.fill].result;
              readers[reader].answer == result && readers[reader].phase == if result.None? then Failed else Answered
    {
      now := now + 1;
      var r := readers[reader];
      var result := fills[r.phase.fill].result;
      readers := readers[reader := r.(phase := if result.Some? then Answered else Failed, answer := result)];
    }

    // ---- runFill ----

    // The Redis scripts' comparison of the lock with the caller's own token.
    method IsOwner(fill: Token) returns (owner: bool)
      requires fill in fills
      ensures owner == Owns(View(), fill, fills[fill])
    {
      var f := fills[fill];
      owner := f.locked && f.key in locks && locks[f.key] == fill;
    }

    method TryLock(fill: Token)
      requires fill in fills && fills[fill].phase == Waiting
      modifies this`now, this`fills, this`locks
      ensures View() == Next(old(View()), OfFill(fill, SummaryCache.TryLock))
      ensures fills == old(fills)[fill := fills[fill]] && now == old(now) + 1
      ensures var key := old(fills[fill]).key;
              if key in old(locks) then locks == old(locks) && fills[fill] == old(fills[fill]).(phase := Polling)
              else locks == old(locks)[key := fill] && fills[fill].phase == Locked && fills[fill].locked
    {
      now := now + 1;
      var f := fills[fill];
      if f.key in locks {
        f := f.(phase := Polling);
      } else {
        locks := locks[f.key := fill];
        f := f.(phase := Locked, locked := true, lockedAt := now, versionAt := now);
      }
      fills := fills[fill := f];
    }

    // The lock is granted if it is free, but the SET throws: the fill goes on without it.
    method LockReplyLost(fill: Token)
      requires fill in fills && fills[fill].phase == Waiting
      modifies this`now, this`fills, this`locks
      ensures View() == Next(old(View()), OfFill(fill, SummaryCache.LockReplyLost))
      ensures fills == old(fills)[fill := fills[fill]] && now == old(now) + 1
      ensures locks == if fills[fill].key in old(locks) then old(locks) else old(locks)[fills[fill].key := fill]
      ensures fills[fill] == old(fills[fill]).(phase := Ready)
    {
      now := now + 1;
      var f := fills[fill];
      if f.key !in locks {
        locks := locks[f.key := fill];
      }
      fills := fills[fill := f.(phase := Ready)];
    }

    method Poll(fill: Token)
      requires fill in fills && fills[fill].phase == Polling
      modifies this`now, this`fills
      ensures View() == Next(old(View()), OfFill(fill, SummaryCache.Poll))
      ensures fills == old(fills)[fill := fills[fill]] && now == old(now) + 1
      ensures var f := old(fills[fill]);
              && (f.key !in results ==> fills[fill] == f.(phase := Waiting))
              && (f.key in results && results[f.key].Garbage? ==> fills[fill] == f.(phase := Ready))
              && (f.key in results && results[f.key].Entry? ==>
                    fills[fill] == f.(phase := Done, result := Some(results[f.key].data)))
    {
      now := now + 1;
      var f := fills[fill];
      if f.key !in results {
        f := f.(phase := Waiting);
      } else {
        match results[f.key] {
          case Garbage => f := f.(phase := Ready);
          case Entry(data, _, _, _) => f := f.(phase := Done, result := Some(data));
        }
      }
      fills := fills[fill := f];
    }

    method LockPhaseFault(fill: Token)
      requires fill in fills && fills[fill].phase in {Waiting, Polling, Locked, Versioned}
      modifies this`now, this`fills
      ensures View() == Next(old(View()), OfFill(fill, SummaryCache.LockPhaseFault))
      ensures fills == old(fills)[fill := fills[fill]] && now == old(now) + 1
      ensures fills[fill] == old(fills[fill]).(phase := Ready)
    {
      now := now + 1;
      fills := fills[fill := fills[fill].(phase := Ready)];
    }

    method ReadVersion(fill: Token)
      requires fill in fills && fills[fill].phase == Locked
      modifies this`now, this`fills
      ensures View() == Next(old(View()), OfFill(fill, SummaryCache.ReadVersion))
      ensures fills == old(fills)[fill := fills[fill]] && now == old(now) + 1
      ensures var f, scope := old(fills[fill]), old(fills[fill]).key.request.scope;
              && fills[fill] == f.(phase := Versioned, versioned := true, versionAt := now,
                                   generation := fills[fill].generation)
              && fills[fill].generation == if scope in generation then generation[scope] else 0
    {
      now := now + 1;
      var f := fills[fill];
      var token := 0;
      if f.key.request.scope in generation {
        token := generation[f.key.request.scope];
      }
      fills := fills[fill := f.(phase := Versioned, versioned := true, versionAt := now, generation := token)];
    }

    method CheckCurrent(fill: Token, nowMs: int)
      requires fill in fills && fills[fill].phase == Versioned
      modifies this`now, this`fills
      ensures View() == Next(old(View()), OfFill(fill, SummaryCache.CheckCurrent(nowMs)))
      ensures fills == old(fills)[fill := fills[fill]] && now == old(now) + 1
      ensures var f := old(fills[fill]);
              fills[fill] == if f.key in results && results[f.key].Entry? && results[f.key].generation == f.generation
                                && results[f.key].calculatedAtMs <= nowMs < results[f.key].calculatedAtMs + 60_000
                             then f.(phase := Releasing, result := Some(results[f.key].data)) else f.(phase := Ready)
    {
      now := now + 1;
      var f := fills[fill];
      var f' := f.(phase := Ready);
      if f.key in results {
        var current := results[f.key];
        if current.Entry? && Fresh(current, f.generation, nowMs) {
          f' := f.(phase := Releasing, result := Some(current.data));
        }
      }
      fills := fills[fill := f'];
    }

    method StartLoad(fill: Token)
      requires fill in fills && fills[fill].phase == Ready
      modifies this`now, this`fills
      ensures View() == Next(old(View()), OfFill(fill, SummaryCache.StartLoad))
      ensures fills == old(fills)[fill := fills[fill]] && now == old(now) + 1
      ensures fills[fill] == old(fills[fill]).(phase := Loading, loadAt := now)
    {
      now := now + 1;
      fills := fills[fill := fills[fill].(phase := Loading, loadAt := now)];
    }

    method FinishLoad(fill: Token, succeeded: bool)
      requires fill in fills && fills[fill].phase == Loading
      modifies this`now, this`fills
      ensures View() == Next(old(View()), OfFill(fill, if succeeded then SummaryCache.FinishLoad else FailLoad))
      ensures fills == old(fills)[fill := fills[fill]] && now == old(now) + 1
      ensures var f, f' := old(fills[fill]), fills[fill];
              && (succeeded ==> f' == f.(phase := f'.phase, result := Some(Data(f.loadAt))))
              && (!succeeded ==> f' == f.(phase := f'.phase))
              && f'.phase == if !f.locked then Done else if succeeded then Loaded else Releasing
    {
      now := now + 1;
      var f := fills[fill];
      if succeeded {
        f := f.(phase := if f.locked then Loaded else Done, result := Some(Data(f.loadAt)));
      } else {
        f := f.(phase := if f.locked then Releasing else Done);
      }
      fills := fills[fill := f];
    }

    method StoreResult(fill: Token, nowMs: int)
      requires fill in fills && fills[fill].phase == Loaded
      modifies this`now, this`fills, this`results, this`stores
      ensures View() == Next(old(View()), OfFill(fill, SummaryCache.StoreResult(nowMs)))
      ensures fills == old(fills)[fill := fills[fill]] && now == old(now) + 1
      ensures fills[fill] == old(fills[fill]).(phase := Releasing)
      ensures var f := old(fills[fill]);
              if f.locked && f.key in locks && locks[f.key] == fill
              then results == old(results)[f.key := Entry(Data(f.loadAt), f.generation, nowMs, f.versionAt)]
              else results == old(results)
    {
      hide Next;
      StoreIs(View(), fill, nowMs);
      now := now + 1;
      var f := fills[fill];
      var owner := IsOwner(fill);
      if owner {
        results := results[f.key := Entry(Data(f.loadAt), f.generation, nowMs, f.versionAt)];
        stores := stores + {Store(f.key, now, fill, Data(f.loadAt), f.generation, f.versioned)};
      }
      fills := fills[fill := f.(phase := Releasing)];
    }

    method Release(fill: Token)
      requires fill in fills && fills[fill].phase == Releasing
      modifies this`now, this`fills, this`locks
      ensures View() == Next(old(View()), OfFill(fill, SummaryCache.Release))
      ensures fills == old(fills)[fill := fills[fill]] && now == old(now) + 1
      ensures fills[fill] == old(fills[fill]).(phase := Done)
      ensures var f := old(fills[fill]);
              locks == if f.locked && f.key in old(locks) && old(locks)[f.key] == fill then old(locks) - {f.key}
                       else old(locks)
    {
      now := now + 1;
      var f := fills[fill];
      var owner := IsOwner(fill);
      if owner {
        locks := locks - {f.key};
      }
      fills := fills[fill := f.(phase := Done)];
    }

    method Forget(fill: Token)
      requires fill in fills && fills[fill].phase == Done
      modifies this`now, this`inflight
      ensures View() == Next(old(View()), SummaryCache.Forget(fill))
      ensures forall p :: p in inflight <==> p in old(inflight) && old(inflight)[p] != fill
      ensures forall p <- inflight :: inflight[p] == old(inflight)[p]
    {
      now := now + 1;
      inflight := map p | p in inflight && inflight[p] != fill :: inflight[p];
    }

    // ---- refreshAffected and invalidate ----

    // Without Redis, or if the SETEX is not carried out, nothing happens.
    method Bump(scope: Scope, written: bool)
      modifies this`now, this`nextToken, this`generation, this`bumps
      ensures View() == if written then Next(old(View()), SummaryCache.Bump(scope)) else old(View())
      ensures generation == if written then old(generation)[scope := old(nextToken)] else old(generation)
      ensures written ==> now == old(now) + 1 && bumps == old(bumps) + {Change(scope, old(nextToken), now)}
    {
      if !written {
        return;
      }
      now := now + 1;
      generation := generation[scope := nextToken];
      bumps := bumps + {Change(scope, nextToken, now)};
      nextToken := nextToken + 1;
    }

    // What refreshAffected asks of a registration: whether it is recent, and of the current epoch.
    method CheckRegistered(key: Key, recent: bool) returns (kept: bool)
      modifies this`now, this`registered
      ensures kept == (recent && key.epoch == Tag(Version(old(epoch), key.request.scope)))
      ensures View() == if kept then old(View()) else Next(old(View()), Unregister(key))
      ensures registered == if kept then old(registered) else old(registered) - {key}
    {
      var token := 0;
      if key.request.scope in epoch {
        token := epoch[key.request.scope];
      }
      kept := recent && key.epoch == Tag(token);
      if !kept {
        now := now + 1;
        registered := registered - {key};
      }
    }

    method RefreshRegistered(replica: int, key: Key)
      requires key in requested
      modifies this`now, this`fills, this`inflight, this`nextToken
      ensures View() == Next(old(View()), SummaryCache.RefreshRegistered(replica, key))
      ensures (replica, key) in inflight
    {
      now := now + 1;
      var _ := StartFill(replica, key, true);
    }

    // Likewise, and the caller does not learn of it.
    method Invalidate(scope: Scope, written: bool)
      modifies this`now, this`nextToken, this`epoch, this`invalidations
      ensures View() == if written then Next(old(View()), SummaryCache.Invalidate(scope)) else old(View())
      ensures epoch == if written then old(epoch)[scope := old(nextToken)] else old(epoch)
      ensures written ==>
                now == old(now) + 1 && invalidations == old(invalidations) + {Change(scope, old(nextToken), now)}
    {
      if !written {
        return;
      }
      now := now + 1;
      epoch := epoch[scope := nextToken];
      invalidations := invalidations + {Change(scope, nextToken, now)};
      nextToken := nextToken + 1;
    }
  }
}
