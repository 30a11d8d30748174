/** The replay of ledger deltas, balance snapshots and allocations behind the earn timeline
    (earnOverview of api/src/services/kraken.ts). */
module BalanceReplay {
  import opened Wrappers

  datatype Kind = Delta | Snapshot | Allocation

  datatype Action = Action(at: int, kind: Kind, values: map<int, real>)

  /** What reconstructedQuantities says of an asset: no entry, null, or a quantity. */
  datatype Balance = Untracked | Unknown | Known(quantity: real)

  // ---- one asset ----

  /** One action, for one asset. A snapshot also anchors at zero the assets that any snapshot ever named. */
  function After(b: Balance, a: Action, asset: int, snapshotAssets: set<int>): Balance {
    match a.kind
    case Snapshot =>
      if asset in a.values then Known(a.values[asset]) else if asset in snapshotAssets then Known(0.0) else b
    case Allocation => if asset in a.values then Known(a.values[asset]) else b
    case Delta =>
      if asset !in a.values || !b.Known? then b
      else if b.quantity + a.values[asset] < 0.0 then Unknown
      else Known(b.quantity + a.values[asset])
  }

  // A delta drives a known balance below zero.
  predicate Overdraws(b: Balance, a: Action, asset: int) {
    a.kind == Delta && asset in a.values && b.Known? && b.quantity + a.values[asset] < 0.0
  }

  /** A known balance becomes unknown exactly by an overdraft. */
  lemma OverdraftsLose(b: Balance, a: Action, asset: int, snapshotAssets: set<int>)
    ensures Overdraws(b, a, asset) <==> b.Known? && After(b, a, asset, snapshotAssets) == Unknown
  {
  }

  /** All actions, in order. */
  function BalanceAfter(actions: seq<Action>, asset: int, start: Balance, snapshotAssets: set<int>): Balance {
    if actions == [] then start
    else After(BalanceAfter(actions[..|actions| - 1], asset, start, snapshotAssets),
               actions[|actions| - 1], asset, snapshotAssets)
  }

  // ---- the order of the actions ----

  function Order(kind: Kind): int {
    match kind
    case Delta => 0
    case Snapshot => 1
    case Allocation => 2
  }

  predicate Precedes(a: Action, b: Action) {
    a.at < b.at || (a.at == b.at && Order(a.kind) < Order(b.kind))
  }

  function InsertAction(sorted: seq<Action>, a: Action): (r: seq<Action>)
    ensures |r| == |sorted| + 1
  {
    if sorted == [] || !Precedes(a, sorted[|sorted| - 1]) then sorted + [a]
    else InsertAction(sorted[..|sorted| - 1], a) + [sorted[|sorted| - 1]]
  }

  function SortActions(actions: seq<Action>): (r: seq<Action>)
    ensures |r| == |actions|
  {
    if actions == [] then [] else InsertAction(SortActions(actions[..|actions| - 1]), actions[|actions| - 1])
  }

  predicate InTime(actions: seq<Action>) {
    forall i, j :: 0 <= i < j < |actions| ==> actions[i].at <= actions[j].at
  }

  /** Earlier, or of the same moment and not of a later kind: deltas come before snapshots and these before
      allocations. */
  predicate NotAfter(a: Action, b: Action) {
    || a.at < b.at
    || (a.at == b.at && (b.kind == Delta ==> a.kind == Delta) && (b.kind == Snapshot ==> a.kind != Allocation))
  }

  lemma NotAfterIff(a: Action, b: Action)
    ensures NotAfter(a, b) <==> !Precedes(b, a)
  {
  }

  predicate InOrder(actions: seq<Action>) {
    forall i, j :: 0 <= i < j < |actions| ==> NotAfter(actions[i], actions[j])
  }

  // The actions of one moment and kind, in their order.
  function Alike(actions: seq<Action>, t: int, kind: Kind): seq<Action> {
    if actions == [] then []
    else
      var rest, a := Alike(actions[..|actions| - 1], t, kind), actions[|actions| - 1];
      if a.at == t && a.kind == kind then rest + [a] else rest
  }

  lemma AlikeSnoc(actions: seq<Action>, a: Action, t: int, kind: Kind)
    ensures Alike(actions + [a], t, kind)
            == if a.at == t && a.kind == kind then Alike(actions, t, kind) + [a] else Alike(actions, t, kind)
  {
    assert (actions + [a])[..|actions|] == actions;
  }

  lemma {:induction false} InsertKeepsAlike(sorted: seq<Action>, a: Action, t: int, kind: Kind)
    ensures Alike(InsertAction(sorted, a), t, kind) == Alike(sorted + [a], t, kind)
    decreases |sorted|
  {
    hide Alike;
    AlikeSnoc(sorted, a, t, kind);
    if sorted != [] && Precedes(a, sorted[|sorted| - 1]) {
      var front, last := sorted[..|sorted| - 1], sorted[|sorted| - 1];
      InsertKeepsAlike(front, a, t, kind);
      AlikeSnoc(InsertAction(front, a), last, t, kind);
      AlikeSnoc(front, a, t, kind);
      AlikeSnoc(front, last, t, kind);
      assert sorted == front + [last];
    }
  }

  /** The sort is stable: of several actions of one moment and kind the last one stays the last. */
  lemma {:induction false} SortIsStable(actions: seq<Action>, t: int, kind: Kind)
    ensures Alike(SortActions(actions), t, kind) == Alike(actions, t, kind)
  {
    if actions != [] {
      var front, last := actions[..|actions| - 1], actions[|actions| - 1];
      SortIsStable(front, t, kind);
      InsertKeepsAlike(SortActions(front), last, t, kind);
      AlikeSnoc(SortActions(front), last, t, kind);
      AlikeSnoc(front, last, t, kind);
      assert actions == front + [last];
    }
  }

  predicate NoneBehind(actions: seq<Action>, a: Action) {
    forall i :: 0 <= i < |actions| ==> NotAfter(actions[i], a)
  }

  lemma {:induction false} InsertNoneBehind(sorted: seq<Action>, a: Action, b: Action)
    requires NoneBehind(sorted, b) && NotAfter(a, b)
    ensures NoneBehind(InsertAction(sorted, a), b)
    decreases |sorted|
  {
    hide NotAfter, Precedes;
    if sorted != [] && Precedes(a, sorted[|sorted| - 1]) {
      InsertNoneBehind(sorted[..|sorted| - 1], a, b);
    }
  }

  lemma NotAfterFollows(a: Action, b: Action, c: Action)
    requires NotAfter(a, b) && NotAfter(b, c)
    ensures NotAfter(a, c)
  {
  }

  lemma PrecedesNotAfter(a: Action, b: Action)
    requires Precedes(a, b)
    ensures NotAfter(a, b)
  {
  }

  lemma {:induction false} InsertInOrder(sorted: seq<Action>, a: Action)
    requires InOrder(sorted)
    ensures InOrder(InsertAction(sorted, a))
    decreases |sorted|
  {
    hide NotAfter, Precedes;
    if sorted != [] {
      var front, last := sorted[..|sorted| - 1], sorted[|sorted| - 1];
      NotAfterIff(last, a);
      if Precedes(a, last) {
        InsertInOrder(front, a);
        PrecedesNotAfter(a, last);
        InsertNoneBehind(front, a, last);
      } else {
        forall i | 0 <= i < |front| {
          NotAfterFollows(front[i], last, a);
        }
      }
    }
  }

  lemma {:induction false} InsertPermutes(sorted: seq<Action>, a: Action)
    ensures multiset(InsertAction(sorted, a)) == multiset(sorted) + multiset{a}
    decreases |sorted|
  {
    hide Precedes;
    if sorted != [] && Precedes(a, sorted[|sorted| - 1]) {
      InsertPermutes(sorted[..|sorted| - 1], a);
      assert sorted == sorted[..|sorted| - 1] + [sorted[|sorted| - 1]];
    }
  }

  /** The sort keeps every action, and leaves none before an earlier one, or before one of the same moment whose
      kind comes first: deltas, then snapshots, then allocations. */
  lemma {:induction false} SortInOrder(actions: seq<Action>)
    ensures InOrder(SortActions(actions)) && multiset(SortActions(actions)) == multiset(actions)
  {
    hide InOrder;
    if actions == [] {
      NothingInOrder();
    } else {
      var front, last := actions[..|actions| - 1], actions[|actions| - 1];
      SortInOrder(front);
      InsertInOrder(SortActions(front), last);
      InsertPermutes(SortActions(front), last);
      assert actions == front + [last];
    }
  }

  lemma NothingInOrder()
    ensures InOrder([])
  {
  }

  lemma SortInTime(actions: seq<Action>)
    ensures InTime(SortActions(actions))
  {
    SortInOrder(actions);
  }

  /** The actions at or before t. */
  function Until(actions: seq<Action>, t: int): seq<Action> {
    if actions == [] then []
    else
      var rest, a := Until(actions[..|actions| - 1], t), actions[|actions| - 1];
      if a.at <= t then rest + [a] else rest
  }

  lemma {:induction false} UntilIsPrefix(actions: seq<Action>, t: int, n: int)
    requires 0 <= n <= |actions|
    requires forall i :: 0 <= i < |actions| ==> (actions[i].at <= t <==> i < n)
    ensures Until(actions, t) == actions[..n]
    decreases |actions|
  {
    if actions != [] {
      var last := |actions| - 1;
      UntilIsPrefix(actions[..last], t, if n <= last then n else last);
      assert n <= last ==> actions[..last][..n] == actions[..n];
      assert n > last ==> actions[..n] == actions[..last] + [actions[last]];
    }
  }

  // ---- the scan ----

  function BalanceOf(quantities: map<int, Option<real>>, asset: int): Balance {
    if asset !in quantities then Untracked
    else if quantities[asset].None? then Unknown
    else Known(quantities[asset].value)
  }

  function Start(assetIds: set<int>, ledgerComplete: bool, asset: int): Balance {
    if asset !in assetIds then Untracked else if ledgerComplete then Known(0.0) else Unknown
  }

  // The loop over the values of a snapshot or an allocation.
  method SetAll(quantities: map<int, Option<real>>, values: map<int, real>) returns (next: map<int, Option<real>>)
    ensures forall asset :: BalanceOf(next, asset)
                            == if asset in values then Known(values[asset]) else BalanceOf(quantities, asset)
  {
    next := quantities;
    var left := values.Keys;
    while left != {}
      invariant left <= values.Keys
      invariant forall asset :: BalanceOf(next, asset)
                                == if asset in values && asset !in left then Known(values[asset])
                                   else BalanceOf(quantities, asset)
      decreases |left|
    {
      HasElement(left);
      var asset :| asset in left;
      left := left - {asset};
      next := next[asset := Some(values[asset])];
    }
  }

  // The loop over the values of a delta.
  method AddAll(quantities: map<int, Option<real>>, a: Action) returns (next: map<int, Option<real>>, gap: bool)
    requires a.kind == Delta
    ensures forall asset :: BalanceOf(next, asset) == After(BalanceOf(quantities, asset), a, asset, {})
    ensures gap <==> exists asset :: asset in a.values && Overdraws(BalanceOf(quantities, asset), a, asset)
  {
    next, gap := quantities, false;
    var left := a.values.Keys;
    while left != {}
      invariant left <= a.values.Keys
      invariant forall asset :: BalanceOf(next, asset)
                                == if asset in a.values && asset !in left
                                   then After(BalanceOf(quantities, asset), a, asset, {})
                                   else BalanceOf(quantities, asset)
      invariant gap <==> exists asset :: asset in a.values && asset !in left
                                         && Overdraws(BalanceOf(quantities, asset), a, asset)
      decreases |left|
    {
      HasElement(left);
      var asset :| asset in left;
      left := left - {asset};
      assert BalanceOf(next, asset) == BalanceOf(quantities, asset);
      if asset in next && next[asset].Some? {
        var sum := next[asset].value + a.values[asset];
        if sum < 0.0 {
          next := next[asset := None];
          gap := true;
          assert Overdraws(BalanceOf(quantities, asset), a, asset);
        } else {
          next := next[asset := Some(sum)];
        }
      }
    }
  }

  method ApplyAction(quantities: map<int, Option<real>>, a: Action, snapshotAssets: set<int>)
    returns (next: map<int, Option<real>>, gap: bool)
    ensures forall asset :: BalanceOf(next, asset) == After(BalanceOf(quantities, asset), a, asset, snapshotAssets)
    ensures gap <==> exists asset :: asset in a.values && Overdraws(BalanceOf(quantities, asset), a, asset)
  {
    gap := false;
    if a.kind == Snapshot {
      var zeros := map asset | asset in snapshotAssets :: 0.0;
      next := SetAll(quantities, zeros);
      next := SetAll(next, a.values);
    } else if a.kind == Allocation {
      next := SetAll(quantities, a.values);
    } else {
      next, gap := AddAll(quantities, a);
    }
  }

  // Some delta among these actions overdraws a balance.
  ghost predicate HasGap(actions: seq<Action>, assetIds: set<int>, ledgerComplete: bool, snapshotAssets: set<int>) {
    exists n, asset :: 0 <= n < |actions| && asset in actions[n].values
                       && GapAt(actions, assetIds, ledgerComplete, snapshotAssets, n, asset)
  }

  ghost predicate GapAt(actions: seq<Action>, assetIds: set<int>, ledgerComplete: bool, snapshotAssets: set<int>,
                        n: int, asset: int)
    requires 0 <= n < |actions|
  {
    Overdraws(BalanceAfter(actions[..n], asset, Start(assetIds, ledgerComplete, asset), snapshotAssets),
              actions[n], asset)
  }

  predicate Ascending(timestamps: seq<int>) {
    forall i, j :: 0 <= i < j < |timestamps| ==> timestamps[i] <= timestamps[j]
  }

  lemma GapNext(actions: seq<Action>, k: int, assetIds: set<int>, ledgerComplete: bool, snapshotAssets: set<int>)
    requires 0 <= k < |actions|
    ensures HasGap(actions[..k + 1], assetIds, ledgerComplete, snapshotAssets)
            <==> (HasGap(actions[..k], assetIds, ledgerComplete, snapshotAssets)
                  || exists asset :: asset in actions[k].values
                       && GapAt(actions, assetIds, ledgerComplete, snapshotAssets, k, asset))
  {
    forall n, asset | 0 <= n < k
      ensures GapAt(actions[..k + 1], assetIds, ledgerComplete, snapshotAssets, n, asset)
              <==> GapAt(actions[..k], assetIds, ledgerComplete, snapshotAssets, n, asset)
    {
      assert actions[..k + 1][..n] == actions[..n] == actions[..k][..n];
    }
    forall asset
      ensures GapAt(actions[..k + 1], assetIds, ledgerComplete, snapshotAssets, k, asset)
              <==> GapAt(actions, assetIds, ledgerComplete, snapshotAssets, k, asset)
    {
      assert actions[..k + 1][..k] == actions[..k];
    }
  }

  // The state after the first k actions.
  ghost predicate Reaches(quantities: map<int, Option<real>>, actions: seq<Action>, assetIds: set<int>,
                          ledgerComplete: bool, snapshotAssets: set<int>)
  {
    forall asset :: BalanceOf(quantities, asset)
                    == BalanceAfter(actions, asset, Start(assetIds, ledgerComplete, asset), snapshotAssets)
  }

  lemma ReachesNext(quantities: map<int, Option<real>>, next: map<int, Option<real>>, actions: seq<Action>, k: int,
                    assetIds: set<int>, ledgerComplete: bool, snapshotAssets: set<int>, gap: bool)
    requires 0 <= k < |actions| && Reaches(quantities, actions[..k], assetIds, ledgerComplete, snapshotAssets)
    requires forall asset :: BalanceOf(next, asset)
                             == After(BalanceOf(quantities, asset), actions[k], asset, snapshotAssets)
    requires gap <==> exists asset :: asset in actions[k].values
                                      && Overdraws(BalanceOf(quantities, asset), actions[k], asset)
    ensures Reaches(next, actions[..k + 1], assetIds, ledgerComplete, snapshotAssets)
    ensures gap <==> exists asset :: asset in actions[k].values
                                     && GapAt(actions, assetIds, ledgerComplete, snapshotAssets, k, asset)
  {
    hide After, Overdraws;
    assert actions[..k + 1][..k] == actions[..k];
    forall asset
      ensures GapAt(actions, assetIds, ledgerComplete, snapshotAssets, k, asset)
              <==> Overdraws(BalanceOf(quantities, asset), actions[k], asset)
    {
    }
  }

  /** The scan over the timestamps: at each of them it stands exactly where all actions at or before it lead,
      and it reports a gap exactly if one of the actions applied overdrew a balance. */
  method Scan(actions: seq<Action>, timestamps: seq<int>, assetIds: set<int>, ledgerComplete: bool,
              snapshotAssets: set<int>)
    returns (states: seq<map<int, Option<real>>>, hasBalanceGap: bool)
    requires InTime(actions) && Ascending(timestamps)
    ensures |states| == |timestamps|
    ensures forall i :: 0 <= i < |timestamps| ==>
              Reaches(states[i], Until(actions, timestamps[i]), assetIds, ledgerComplete, snapshotAssets)
    ensures hasBalanceGap
            <==> timestamps != []
                 && HasGap(Until(actions, timestamps[|timestamps| - 1]), assetIds, ledgerComplete, snapshotAssets)
  {
    hide After, Overdraws, HasGap, Reaches, GapAt;
    var quantities: map<int, Option<real>> :=
      map asset | asset in assetIds :: if ledgerComplete then Some(0.0) else None;
    states, hasBalanceGap := [], false;
    var actionIndex := 0;
    StartReaches(quantities, assetIds, ledgerComplete, snapshotAssets);
    assert actions[..0] == [];
    NoGap(assetIds, ledgerComplete, snapshotAssets);
    for k := 0 to |timestamps|
      invariant 0 <= actionIndex <= |actions|
      invariant Reaches(quantities, actions[..actionIndex], assetIds, ledgerComplete, snapshotAssets)
      invariant hasBalanceGap <==> HasGap(actions[..actionIndex], assetIds, ledgerComplete, snapshotAssets)
      invariant forall i :: 0 <= i < actionIndex ==> k > 0 && actions[i].at <= timestamps[k - 1]
      invariant k == 0 ==> actionIndex == 0
      invariant k > 0 ==> actions[..actionIndex] == Until(actions, timestamps[k - 1])
      invariant |states| == k
      invariant forall i :: 0 <= i < k ==>
                  Reaches(states[i], Until(actions, timestamps[i]), assetIds, ledgerComplete, snapshotAssets)
    {
      var t := timestamps[k];
      while actionIndex < |actions| && actions[actionIndex].at <= t
        invariant 0 <= actionIndex <= |actions|
        invariant Reaches(quantities, actions[..actionIndex], assetIds, ledgerComplete, snapshotAssets)
        invariant hasBalanceGap <==> HasGap(actions[..actionIndex], assetIds, ledgerComplete, snapshotAssets)
        invariant forall i :: 0 <= i < actionIndex ==> actions[i].at <= t
      {
        var next, gap := ApplyAction(quantities, actions[actionIndex], snapshotAssets);
        ReachesNext(quantities, next, actions, actionIndex, assetIds, ledgerComplete, snapshotAssets, gap);
        GapNext(actions, actionIndex, assetIds, ledgerComplete, snapshotAssets);
        quantities := next;
        hasBalanceGap := hasBalanceGap || gap;
        actionIndex := actionIndex + 1;
      }
      UntilIsPrefix(actions, t, actionIndex);
      states := states + [quantities];
    }
  }

  lemma StartReaches(quantities: map<int, Option<real>>, assetIds: set<int>, ledgerComplete: bool,
                     snapshotAssets: set<int>)
    requires quantities == map asset | asset in assetIds :: if ledgerComplete then Some(0.0) else None
    ensures Reaches(quantities, [], assetIds, ledgerComplete, snapshotAssets)
  {
  }

  lemma NoGap(assetIds: set<int>, ledgerComplete: bool, snapshotAssets: set<int>)
    ensures !HasGap([], assetIds, ledgerComplete, snapshotAssets)
  {
  }

  /** The replay as a whole: sort, then scan. The known quantities at timestamp i are those in states[i]. */
  method Replay(actions: seq<Action>, timestamps: seq<int>, assetIds: set<int>, ledgerComplete: bool,
                snapshotAssets: set<int>)
    returns (states: seq<map<int, Option<real>>>, hasBalanceGap: bool)
    requires Ascending(timestamps)
    ensures |states| == |timestamps|
    ensures forall i :: 0 <= i < |timestamps| ==>
              Reaches(states[i], Until(SortActions(actions), timestamps[i]), assetIds, ledgerComplete, snapshotAssets)
    ensures hasBalanceGap
            <==> timestamps != []
                 && HasGap(Until(SortActions(actions), timestamps[|timestamps| - 1]), assetIds, ledgerComplete,
                           snapshotAssets)
  {
    hide HasGap, Reaches;
    SortInTime(actions);
    states, hasBalanceGap := Scan(SortActions(actions), timestamps, assetIds, ledgerComplete, snapshotAssets);
  }

  // ---- what the balance of an asset is ----

  // The action sets the balance, whatever it was.
  predicate Anchors(a: Action, asset: int, snapshotAssets: set<int>) {
    || (a.kind == Snapshot && (asset in a.values || asset in snapshotAssets))
    || (a.kind == Allocation && asset in a.values)
  }

  function Anchor(a: Action, asset: int): real {
    if asset in a.values then a.values[asset] else 0.0
  }

  function Change(a: Action, asset: int): real {
    if a.kind == Delta && asset in a.values then a.values[asset] else 0.0
  }

  // How many actions there are up to and including the last that anchors the asset.
  function LastAnchor(actions: seq<Action>, asset: int, snapshotAssets: set<int>): (n: int)
    ensures 0 <= n <= |actions|
    ensures n > 0 ==> Anchors(actions[n - 1], asset, snapshotAssets)
    ensures forall i :: n <= i < |actions| ==> !Anchors(actions[i], asset, snapshotAssets)
  {
    if actions == [] then 0
    else if Anchors(actions[|actions| - 1], asset, snapshotAssets) then |actions|
    else LastAnchor(actions[..|actions| - 1], asset, snapshotAssets)
  }

  function Sum(actions: seq<Action>, asset: int): real {
    if actions == [] then 0.0 else Sum(actions[..|actions| - 1], asset) + Change(actions[|actions| - 1], asset)
  }

  // No delta leaves less than nothing, starting with q.
  predicate Solvent(q: real, actions: seq<Action>, asset: int) {
    forall n :: 0 <= n < |actions| && actions[n].kind == Delta && asset in actions[n].values ==>
      q + Sum(actions[..n + 1], asset) >= 0.0
  }

  lemma SolventNext(q: real, actions: seq<Action>, asset: int)
    requires actions != []
    ensures var front, a := actions[..|actions| - 1], actions[|actions| - 1];
            Solvent(q, actions, asset)
            <==> Solvent(q, front, asset)
                 && (a.kind == Delta && asset in a.values ==> q + Sum(actions, asset) >= 0.0)
  {
    var front := actions[..|actions| - 1];
    forall n | 0 <= n < |front|
      ensures front[..n + 1] == actions[..n + 1] && front[n] == actions[n]
    {
    }
    assert actions[..|actions|] == actions;
  }

  // Without anchors only the sum of the deltas counts.
  lemma {:induction false} Drift(actions: seq<Action>, asset: int, start: Balance, snapshotAssets: set<int>)
    requires forall i :: 0 <= i < |actions| ==> !Anchors(actions[i], asset, snapshotAssets)
    ensures BalanceAfter(actions, asset, start, snapshotAssets)
            == if !start.Known? then start
               else if Solvent(start.quantity, actions, asset) then Known(start.quantity + Sum(actions, asset))
               else Unknown
  {
    hide Solvent;
    if actions == [] {
      NothingIsSolvent(start, asset);
    } else {
      Drift(actions[..|actions| - 1], asset, start, snapshotAssets);
      if start.Known? {
        SolventNext(start.quantity, actions, asset);
      }
    }
  }

  lemma NothingIsSolvent(start: Balance, asset: int)
    ensures start.Known? ==> Solvent(start.quantity, [], asset)
  {
  }

  lemma {:induction false} AfterBoth(before: seq<Action>, after: seq<Action>, asset: int, start: Balance,
                                       snapshotAssets: set<int>)
    ensures BalanceAfter(before + after, asset, start, snapshotAssets)
            == BalanceAfter(after, asset, BalanceAfter(before, asset, start, snapshotAssets), snapshotAssets)
    decreases |after|
  {
    hide After;
    if after == [] {
      assert before + after == before;
    } else {
      AfterBoth(before, after[..|after| - 1], asset, start, snapshotAssets);
      assert (before + after)[..|before + after| - 1] == before + after[..|after| - 1];
    }
  }

  lemma AnchorSets(actions: seq<Action>, asset: int, start: Balance, snapshotAssets: set<int>)
    requires actions != [] && Anchors(actions[|actions| - 1], asset, snapshotAssets)
    ensures BalanceAfter(actions, asset, start, snapshotAssets) == Known(Anchor(actions[|actions| - 1], asset))
  {
  }

  /** The balance of an asset in closed form: its last anchor, or else the start, plus the deltas since, as long
      as none of them overdraws; then, and while there is no anchor to start from, it is unknown. */
  lemma BalanceInClosedForm(actions: seq<Action>, asset: int, start: Balance, snapshotAssets: set<int>)
    ensures var n := LastAnchor(actions, asset, snapshotAssets);
            var base := if n > 0 then Known(Anchor(actions[n - 1], asset)) else start;
            BalanceAfter(actions, asset, start, snapshotAssets)
            == if !base.Known? then base
               else if Solvent(base.quantity, actions[n..], asset) then Known(base.quantity + Sum(actions[n..], asset))
               else Unknown
  {
    hide Solvent, Sum, After, Anchor;
    var n := LastAnchor(actions, asset, snapshotAssets);
    AfterBoth(actions[..n], actions[n..], asset, start, snapshotAssets);
    assert actions[..n] + actions[n..] == actions;
    Drift(actions[n..], asset, BalanceAfter(actions[..n], asset, start, snapshotAssets), snapshotAssets);
    if n > 0 {
      AnchorSets(actions[..n], asset, start, snapshotAssets);
    }
  }

  predicate NonNegative(actions: seq<Action>, asset: int) {
    forall i :: 0 <= i < |actions| && actions[i].kind != Delta && asset in actions[i].values ==>
      actions[i].values[asset] >= 0.0
  }

  /** With snapshots and allocations that are not negative, no known balance ever is. */
  lemma {:induction false} KnownIsNonNegative(actions: seq<Action>, asset: int, start: Balance,
                                                snapshotAssets: set<int>)
    requires NonNegative(actions, asset) && (start.Known? ==> start.quantity >= 0.0)
    ensures var b := BalanceAfter(actions, asset, start, snapshotAssets); b.Known? ==> b.quantity >= 0.0
  {
    if actions != [] {
      KnownIsNonNegative(actions[..|actions| - 1], asset, start, snapshotAssets);
    }
  }
}
