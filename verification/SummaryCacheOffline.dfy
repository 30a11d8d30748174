/** What readers that never reached Redis are answered with, in every run of the summary cache. */
module SummaryCacheOffline {
  import opened Wrappers
  import opened SummaryCache

  // ---- the inductive invariant ----

  /** A call under the key `fallback` knows no Redis: it only loads, and its result is what it loaded. */
  predicate FillInv(now: Moment, f: Fill) {
    f.key.epoch == Fallback ==>
      && (f.phase == Ready || f.phase == Loading || f.phase == Done) && !f.locked
      && f.startedAt <= f.loadAt <= now
      && (f.result.Some? ==> f.phase == Done && f.result == Some(Data(f.loadAt)))
  }

  // A settled call of the reader's process and key has the answer.
  predicate Served(r: Reader, f: Fill) {
    f.replica == r.replica && f.key == r.key && f.phase == Done && f.result == r.answer
  }

  ghost predicate ReaderInv(fills: map<Token, Fill>, r: Reader) {
    && r.key.request == r.request
    && (r.phase == Asking ==> r.key.epoch == Fallback && r.answer.None?)
    && (r.phase == Keyed ==> r.key.epoch.Tag?)
    && (r.key.epoch == Fallback ==>
          && (r.phase.Awaiting? ==>
                r.phase.fill in fills && fills[r.phase.fill].replica == r.replica && fills[r.phase.fill].key == r.key)
          && (r.phase == Answered ==> exists n <- fills :: Served(r, fills[n])))
  }

  ghost predicate FillsInv(s: State) {
    && (forall n <- s.fills :: n < s.line.nextToken && FillInv(s.line.now, s.fills[n]))
    && (forall p <- s.inflight ::
          s.inflight[p] in s.fills && s.fills[s.inflight[p]].replica == p.0 && s.fills[s.inflight[p]].key == p.1)
  }

  ghost predicate Inv(s: State) {
    && FillsInv(s)
    && (forall r <- s.readers :: ReaderInv(s.fills, s.readers[r]) && s.readers[r].startedAt <= s.line.now)
    && (forall key <- s.requested :: key.epoch.Tag?)
  }

  // ---- what the steps keep ----

  /** Calls stay, and what they have settled stays settled. */
  ghost predicate Persist(fills: map<Token, Fill>, fills': map<Token, Fill>) {
    forall n <- fills :: n in fills' && fills'[n].replica == fills[n].replica && fills'[n].key == fills[n].key
                         && (fills[n].phase == Done ==> fills'[n] == fills[n])
  }

  lemma ReaderPersists(fills: map<Token, Fill>, fills': map<Token, Fill>, r: Reader)
    requires Persist(fills, fills') && ReaderInv(fills, r)
    ensures ReaderInv(fills', r)
  {
    if r.key.epoch == Fallback && r.phase == Answered {
      var n :| n in fills && Served(r, fills[n]);
      assert Served(r, fills'[n]);
    }
  }

  lemma StartFillKeeps(s: State, replica: int, key: Key, connected: bool)
    requires FillsInv(s) && (connected ==> key.epoch.Tag?)
    ensures var s' := StartFill(s, replica, key, connected);
            && FillsInv(s') && Persist(s.fills, s'.fills) && s'.readers == s.readers && s'.requested == s.requested
            && FillFor(s, replica, key) in s'.fills
            && s'.fills[FillFor(s, replica, key)].replica == replica && s'.fills[FillFor(s, replica, key)].key == key
  {
  }

  lemma MoveKeeps(s: State, f: Fill, act: FillAct)
    requires FillInv(s.line.now, f) && FillCan(f, act)
    ensures FillInv(s.line.now, MoveFill(s, f, act))
    ensures MoveFill(s, f, act).key == f.key && MoveFill(s, f, act).replica == f.replica
  {
    hide Fresh, Version, Owns;
  }

  lemma EffectShape(s: State, fill: Token, act: FillAct)
    requires fill in s.fills && FillCan(s.fills[fill], act)
    ensures var s' := FillEffect(s, fill, act);
            && s'.fills == s.fills[fill := MoveFill(s, s.fills[fill], act)] && s'.inflight == s.inflight
            && s'.readers == s.readers && s'.requested == s.requested
            && s'.line.now == s.line.now && s'.line.nextToken == s.line.nextToken
  {
    hide Fresh, Version, Owns, MoveFill;
  }

  lemma FillActKeeps(s: State, fill: Token, act: FillAct)
    requires FillsInv(s) && fill in s.fills && FillCan(s.fills[fill], act)
    ensures var s' := FillEffect(s, fill, act);
            && FillsInv(s') && Persist(s.fills, s'.fills) && s'.readers == s.readers && s'.requested == s.requested
  {
    hide FillEffect, MoveFill;
    assert FillInv(s.line.now, s.fills[fill]);
    MoveKeeps(s, s.fills[fill], act);
    EffectShape(s, fill, act);
    hide FillInv;
  }

  lemma ReaderMoves(s: State, fills: map<Token, Fill>, r: Reader, act: ReaderAct)
    requires ReaderCan(s, r, act) && ReaderInv(s.fills, r) && Persist(s.fills, fills)
    requires FillCall(r, act).Some? ==>
               var n := FillFor(s, r.replica, r.key);
               n in fills && fills[n].replica == r.replica && fills[n].key == r.key
    ensures ReaderInv(fills, MoveReader(s, r, act))
  {
    hide Fresh, Version;
    ReaderPersists(s.fills, fills, r);
    if act.AwaitFill? && r.key.epoch == Fallback && s.fills[r.phase.fill].result.Some? {
      assert Served(MoveReader(s, r, act), fills[r.phase.fill]);
    }
  }

  lemma InvReader(s: State, reader: int, act: ReaderAct)
    requires Inv(s) && reader in s.readers && ReaderCan(s, s.readers[reader], act)
    ensures Inv(ReaderEffect(s, reader, act))
  {
    var r := s.readers[reader];
    var s' := ReaderEffect(s, reader, act);
    if FillCall(r, act).Some? {
      StartFillKeeps(s, r.replica, r.key, FillCall(r, act).value);
    }
    ReaderMoves(s, s'.fills, r, act);
    hide StartFill, MoveReader, FillCall, FillFor;
    forall q <- s'.readers
      ensures ReaderInv(s'.fills, s'.readers[q])
    {
      if q != reader {
        ReaderPersists(s.fills, s'.fills, s.readers[q]);
      }
    }
  }

  lemma InvEffect(s: State, step: Step)
    requires Inv(s) && Enabled(s, step)
    ensures Inv(Effect(s, step))
  {
    var s' := Effect(s, step);
    match step
    case OfReader(r, act) => InvReader(s, r, act);
    case OfFill(f, act) =>
      FillActKeeps(s, f, act);
      forall q <- s'.readers { ReaderPersists(s.fills, s'.fills, s.readers[q]); }
    case RefreshRegistered(replica, key) =>
      StartFillKeeps(s, replica, key, true);
      forall q <- s'.readers { ReaderPersists(s.fills, s'.fills, s.readers[q]); }
    case _ =>
  }

  lemma InvTick(s: State)
    requires Inv(s)
    ensures Inv(Tick(s))
  {
  }

  lemma {:induction false} InvRun(steps: seq<Step>)
    ensures Inv(Run(steps))
  {
    if steps != [] {
      var s, step := Run(steps[..|steps| - 1]), steps[|steps| - 1];
      InvRun(steps[..|steps| - 1]);
      if Enabled(s, step) {
        InvTick(s);
        InvEffect(Tick(s), step);
      }
    }
  }

  // ---- following one call and one reader ----

  /** The call n under `fallback` has its load behind it, begun at a known moment, or still before it, to begin
      after the moment t. */
  predicate Follows(s: State, n: Token, t: Moment, begun: Option<Moment>) {
    && n in s.fills && s.fills[n].key.epoch == Fallback && t <= s.line.now
    && match begun
       case Some(m) => s.fills[n].phase != Ready && s.fills[n].loadAt == m
       case None => s.fills[n].phase == Ready || t < s.fills[n].loadAt
  }

  // The reader awaits the call n, or has its result.
  predicate Awaits(s: State, reader: int, n: Token) {
    && reader in s.readers && n in s.fills
    && var r := s.readers[reader];
       || (r.phase == Awaiting(n) && r.answer.None?)
       || ((r.phase == Answered || r.phase == Failed) && s.fills[n].phase == Done && r.answer == s.fills[n].result)
  }

  lemma FollowsNext(s: State, step: Step, n: Token, t: Moment, begun: Option<Moment>)
    requires Inv(s) && Follows(s, n, t, begun)
    ensures Follows(Next(s, step), n, t, begun)
  {
    if Enabled(s, step) {
      assert FillInv(s.line.now, s.fills[n]) && n < s.line.nextToken;
      if step.OfFill? && step.fill == n {
        EffectShape(Tick(s), n, step.fillAct);
        hide FillEffect, FillInv, Fresh;
        LoadsLater(Tick(s), s.fills[n], step.fillAct, t, begun);
      } else if step.OfFill? {
        EffectShape(Tick(s), step.fill, step.fillAct);
        hide FillEffect, MoveFill, FillInv;
      }
    }
  }

  lemma LoadsLater(s: State, f: Fill, act: FillAct, t: Moment, begun: Option<Moment>)
    requires FillCan(f, act) && f.key.epoch == Fallback && FillInv(s.line.now, f) && t < s.line.now
    requires match begun
             case Some(m) => f.phase != Ready && f.loadAt == m
             case None => f.phase == Ready || t < f.loadAt
    ensures var f' := MoveFill(s, f, act);
            && f'.key == f.key
            && match begun
               case Some(m) => f'.phase != Ready && f'.loadAt == m
               case None => f'.phase == Ready || t < f'.loadAt
  {
  }

  lemma AwaitsNext(s: State, step: Step, reader: int, n: Token)
    requires Inv(s) && Awaits(s, reader, n)
    ensures Awaits(Next(s, step), reader, n)
  {
    if Enabled(s, step) {
      assert n < s.line.nextToken;
      if step.OfFill? {
        EffectShape(Tick(s), step.fill, step.fillAct);
        hide FillEffect, MoveFill;
      } else {
        hide Fresh, Version;
      }
    }
  }

  lemma {:induction false} Stays(before: seq<Step>, after: seq<Step>, reader: int, n: Token, t: Moment,
                                 begun: Option<Moment>)
    requires Follows(Run(before), n, t, begun) && Awaits(Run(before), reader, n)
    ensures Follows(Run(before + after), n, t, begun) && Awaits(Run(before + after), reader, n)
  {
    if after == [] {
      assert before + after == before;
    } else {
      var last := |after| - 1;
      assert before + after[..last] + [after[last]] == before + after;
      Stays(before, after[..last], reader, n, t, begun);
      RunSnoc(before + after[..last], after[last]);
      InvRun(before + after[..last]);
      hide Follows, Awaits, Next;
      FollowsNext(Run(before + after[..last]), after[last], n, t, begun);
      AwaitsNext(Run(before + after[..last]), after[last], reader, n);
    }
  }

  // ---- what holds of every run ----

  /** When the reader fails to reach Redis, a call of its process under `fallback` is under way that had begun to
      load by the moment m. */
  predicate JoinsLoad(s: State, r: Reader, m: Moment) {
    var p := (r.replica, Key(r.request, Fallback));
    p in s.inflight && s.inflight[p] in s.fills
    && s.fills[s.inflight[p]].phase != Ready && s.fills[s.inflight[p]].loadAt < m
  }

  /** A reader that never reached Redis is answered by a load that began before the reader started exactly if it
      joined a call of its own process that had begun to load by then; nothing else is older than the reader. */
  lemma OfflineReadsAreOldIffJoined(before: seq<Step>, after: seq<Step>, reader: int)
    requires Enabled(Run(before), OfReader(reader, ReaderFault)) && Run(before).readers[reader].phase == Asking
    requires reader in Run(before + [OfReader(reader, ReaderFault)] + after).readers
    requires Run(before + [OfReader(reader, ReaderFault)] + after).readers[reader].answer.Some?
    ensures var r := Run(before).readers[reader];
            Run(before + [OfReader(reader, ReaderFault)] + after).readers[reader].answer.value.loadedFrom < r.startedAt
            <==> JoinsLoad(Run(before), r, r.startedAt)
  {
    var s, step := Run(before), OfReader(reader, ReaderFault);
    var r := s.readers[reader];
    var n := FillFor(Tick(s), r.replica, r.key);
    InvRun(before);
    RunSnoc(before, step);
    assert r.key == Key(r.request, Fallback);
    var begun :=
      if (r.replica, r.key) in s.inflight && s.fills[n].phase != Ready then Some(s.fills[n].loadAt) else None;
    Joined(s, reader, n, begun);
    hide Next, FillFor;
    Stays(before + [step], after, reader, n, r.startedAt, begun);
    InvRun(before + [step] + after);
    var f := Run(before + [step] + after).fills[n];
    assert FillInv(Run(before + [step] + after).line.now, f);
  }

  lemma Joined(s: State, reader: int, n: Token, begun: Option<Moment>)
    requires Inv(s) && Enabled(s, OfReader(reader, ReaderFault)) && s.readers[reader].phase == Asking
    requires n == FillFor(Tick(s), s.readers[reader].replica, s.readers[reader].key)
    requires var r := s.readers[reader];
             begun == if (r.replica, r.key) in s.inflight && s.fills[n].phase != Ready then Some(s.fills[n].loadAt)
                      else None
    ensures var s' := Next(s, OfReader(reader, ReaderFault));
            Follows(s', n, s.readers[reader].startedAt, begun) && Awaits(s', reader, n)
  {
  }
}
