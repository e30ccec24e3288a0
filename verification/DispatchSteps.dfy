/** A dispatch is a run of marks, stamps and forgets, so all that is proved over whole runs
    of the queue holds of the stores that dispatches leave. */
module DispatchSteps {
  import opened RunStore
  import opened Protocol
  import opened Dispatch
  import opened DispatchProps
  import opened DispatchRun

  function MarkSteps(keys: seq<Key>, plats: seq<Platform>, parent: string, t0: int): seq<Step> {
    if keys == [] then [] else [Mark(keys[0], plats, parent, t0, t0)] + MarkSteps(keys[1..], plats, parent, t0)
  }

  function ForgetSteps(keys: seq<Key>): seq<Step> {
    if keys == [] then [] else [Forget(keys[0])] + ForgetSteps(keys[1..])
  }

  function PaintUnitSteps(cfg: Config, u: Unit, t0: int): seq<Step> {
    match u
    case Snapshots(_, _) => MarkSteps(UnitKeys(u), ["all"], "", t0)
    case BatchUnit(g) => MarkSteps(UnitKeys(u), [g.plat], "", t0)
    case Revision(x, plats) => if x.cap in cfg.rt then MarkSteps(UnitKeys(u), plats, x.parent, t0) else []
  }

  function PaintSteps(cfg: Config, chain: seq<Unit>, t0: int): seq<Step> {
    if chain == [] then [] else PaintUnitSteps(cfg, chain[0], t0) + PaintSteps(cfg, chain[1..], t0)
  }

  function StampSteps(chain: seq<Unit>): seq<Step> {
    if chain == [] then []
    else if chain[0].BatchUnit? then [Stamp((set k | k in UnitKeys(chain[0])), chain[0].g.wf)] + StampSteps(chain[1..])
    else StampSteps(chain[1..])
  }

  function SettleUnitSteps(cfg: Config, u: Unit, ans: Answers, i: nat, t0: int): seq<Step> {
    if !Dispatchable(cfg, u) then []
    else if u.Revision? then
      var okPlats := AcceptedPlats(u.plats, ans, i, 0);
      if okPlats != [] then [Mark(Key(u.x.cap, u.x.sha), okPlats, u.x.parent, t0, t0)]
      else [Forget(Key(u.x.cap, u.x.sha))]
    else if ans(i, 0) == ACCEPTED then []
    else ForgetSteps(UnitKeys(u))
  }

  function SettleSteps(cfg: Config, chain: seq<Unit>, ans: Answers, i: nat, t0: int): seq<Step>
    decreases |chain| - i
  {
    if i >= |chain| then []
    else SettleUnitSteps(cfg, chain[i], ans, i, t0) + SettleSteps(cfg, chain, ans, i + 1, t0)
  }

  function DispatchSteps(cfg: Config, chain: seq<Unit>, ans: Answers, t0: int): seq<Step> {
    PaintSteps(cfg, chain, t0) + StampSteps(chain) + SettleSteps(cfg, chain, ans, 0, t0)
  }

  /** steps is a possible run, and leads from store to store'. */
  ghost predicate LeadsTo(w: World, store: Store, steps: seq<Step>, store': Store) {
    AllAllowed(w, steps) && Exec(w, store, steps) == store'
  }

  lemma Nothing(w: World, store: Store)
    ensures LeadsTo(w, store, [], store)
  {
  }

  lemma OneStep(w: World, store: Store, s: Step)
    requires Allowed(w, s)
    ensures LeadsTo(w, store, [s], Next(w, store, s))
  {
    assert [s][1..] == [];
  }

  lemma Then(w: World, a: Store, steps: seq<Step>, b: Store, more: seq<Step>, c: Store)
    requires LeadsTo(w, a, steps, b) && LeadsTo(w, b, more, c)
    ensures LeadsTo(w, a, steps + more, c)
  {
    ExecAppend(w, a, steps, more);
  }

  lemma {:induction false} MarkStepsRun(w: World, store: Store, keys: seq<Key>, plats: seq<Platform>, parent: string,
                                        t0: int)
    requires t0 > 0
    ensures LeadsTo(w, store, MarkSteps(keys, plats, parent, t0), MarkKeys(store, keys, plats, parent, t0))
    decreases |keys|
  {
    if keys != [] {
      var s, mid := Mark(keys[0], plats, parent, t0, t0), MarkStore(store, keys[0], plats, parent, t0, t0);
      OneStep(w, store, s);
      MarkStepsRun(w, mid, keys[1..], plats, parent, t0);
      Then(w, store, [s], mid, MarkSteps(keys[1..], plats, parent, t0), MarkKeys(store, keys, plats, parent, t0));
    }
  }

  lemma {:induction false} ForgetStepsRun(w: World, store: Store, keys: seq<Key>)
    ensures LeadsTo(w, store, ForgetSteps(keys), ForgetKeys(store, keys))
    decreases |keys|
  {
    if keys != [] {
      OneStep(w, store, Forget(keys[0]));
      ForgetStepsRun(w, ForgetStore(store, keys[0]), keys[1..]);
      Then(w, store, [Forget(keys[0])], ForgetStore(store, keys[0]), ForgetSteps(keys[1..]), ForgetKeys(store, keys));
    }
  }

  lemma PaintUnitRun(w: World, cfg: Config, store: Store, u: Unit, t0: int)
    requires t0 > 0
    ensures LeadsTo(w, store, PaintUnitSteps(cfg, u, t0), PaintUnit(cfg, store, u, t0))
  {
    match u
    case Snapshots(_, _) => MarkStepsRun(w, store, UnitKeys(u), ["all"], "", t0);
    case BatchUnit(g) => MarkStepsRun(w, store, UnitKeys(u), [g.plat], "", t0);
    case Revision(x, plats) => MarkStepsRun(w, store, UnitKeys(u), plats, x.parent, t0);
  }

  lemma {:induction false} PaintRun(w: World, cfg: Config, store: Store, chain: seq<Unit>, t0: int)
    requires t0 > 0
    ensures LeadsTo(w, store, PaintSteps(cfg, chain, t0), PaintAll(cfg, store, chain, t0))
    decreases |chain|
  {
    if chain != [] {
      var mid := PaintUnit(cfg, store, chain[0], t0);
      PaintUnitRun(w, cfg, store, chain[0], t0);
      PaintRun(w, cfg, mid, chain[1..], t0);
      Then(w, store, PaintUnitSteps(cfg, chain[0], t0), mid, PaintSteps(cfg, chain[1..], t0),
          PaintAll(cfg, store, chain, t0));
    }
  }

  ghost predicate BatchesShared(w: World, chain: seq<Unit>) {
    forall i :: 0 <= i < |chain| && chain[i].BatchUnit? ==> chain[i].g.wf in w.shared
  }

  lemma {:induction false} StampRun(w: World, store: Store, chain: seq<Unit>)
    requires BatchesShared(w, chain)
    ensures LeadsTo(w, store, StampSteps(chain), StampAll(store, chain))
    decreases |chain|
  {
    if chain != [] {
      StampRun(w, StampUnit(store, chain[0]), chain[1..]);
      if chain[0].BatchUnit? {
        var s := Stamp((set k | k in UnitKeys(chain[0])), chain[0].g.wf);
        OneStep(w, store, s);
        Then(w, store, [s], StampUnit(store, chain[0]), StampSteps(chain[1..]), StampAll(store, chain));
      }
    }
  }

  lemma SettleUnitRun(w: World, cfg: Config, store: Store, u: Unit, ans: Answers, i: nat, t0: int)
    requires t0 > 0
    ensures LeadsTo(w, store, SettleUnitSteps(cfg, u, ans, i, t0), SettleStore(cfg, store, u, ans, i, t0))
  {
    Nothing(w, store);
    if Dispatchable(cfg, u) && u.Revision? {
      OneStep(w, store, SettleUnitSteps(cfg, u, ans, i, t0)[0]);
    } else if Dispatchable(cfg, u) {
      ForgetStepsRun(w, store, UnitKeys(u));
    }
  }

  lemma {:induction false} SettleRun(w: World, cfg: Config, store: Store, chain: seq<Unit>, ans: Answers, i: nat,
                                     t0: int)
    requires t0 > 0
    ensures LeadsTo(w, store, SettleSteps(cfg, chain, ans, i, t0), SettleAll(cfg, store, chain, ans, i, t0))
    decreases |chain| - i
  {
    if i < |chain| {
      var mid := SettleStore(cfg, store, chain[i], ans, i, t0);
      SettleUnitRun(w, cfg, store, chain[i], ans, i, t0);
      SettleRun(w, cfg, mid, chain, ans, i + 1, t0);
      Then(w, store, SettleUnitSteps(cfg, chain[i], ans, i, t0), mid,
           SettleSteps(cfg, chain, ans, i + 1, t0), SettleAll(cfg, store, chain, ans, i, t0));
    }
  }

  /** The store that a dispatch leaves is reached by a run of marks, stamps and forgets. */
  lemma DispatchIsARun(w: World, cfg: Config, store: Store, chain: seq<Unit>, ans: Answers, t0: int)
    requires t0 > 0 && BatchesShared(w, chain)
    ensures LeadsTo(w, store, DispatchSteps(cfg, chain, ans, t0), FinalStore(cfg, store, chain, ans, t0))
  {
    var painted := PaintAll(cfg, store, chain, t0);
    var stamped := StampAll(painted, chain);
    PaintRun(w, cfg, store, chain, t0);
    StampRun(w, painted, chain);
    SettleRun(w, cfg, stamped, chain, ans, 0, t0);
    Then(w, store, PaintSteps(cfg, chain, t0), painted, StampSteps(chain), stamped);
    Then(w, store, PaintSteps(cfg, chain, t0) + StampSteps(chain), stamped,
         SettleSteps(cfg, chain, ans, 0, t0), FinalStore(cfg, store, chain, ans, t0));
  }

  /** The backfill workflows of the run targets serve many cells. */
  ghost predicate BackfillsShared(w: World, cfg: Config) {
    forall cap, p :: Known(cfg, cap, p) && cfg.rt[cap].targets[p].batch.Some? ==>
      cfg.rt[cap].targets[p].batch.value.wf in w.shared
  }

  lemma BatchPlaces(cfg: Config, cells: seq<DCell>, i: nat)
    requires i < |Chain(cfg, cells)| && Chain(cfg, cells)[i].BatchUnit?
    ensures |SnapshotUnits(cells)| <= i < |SnapshotUnits(cells)| + |BatchesOf(cfg, cells)|
  {
    var n, b := |SnapshotUnits(cells)|, |BatchesOf(cfg, cells)|;
    ChainLength(cfg, cells);
    if i >= n + b {
      ChainRevisionAt(cfg, cells, i - n - b);
      RevisionUnitsAre(cfg, SortedCells(cells), i - n - b);
    }
  }

  lemma ChainBatchesShared(w: World, cfg: Config, cells: seq<DCell>)
    requires BackfillsShared(w, cfg)
    ensures BatchesShared(w, Chain(cfg, cells))
  {
    forall i | 0 <= i < |Chain(cfg, cells)| && Chain(cfg, cells)[i].BatchUnit?
      ensures Chain(cfg, cells)[i].g.wf in w.shared
    {
      var m := i - |SnapshotUnits(cells)|;
      BatchPlaces(cfg, cells, i);
      ChainBatchAt(cfg, cells, m);
      BatchCarriesItsMembers(cfg, cells, m);
    }
  }

  /** Whatever happened before a dispatch and whatever its answers: claims are still
      exclusive, with one run per platform, each of the workflow stored beside it. */
  lemma DispatchKeepsClaimsExclusive(w: World, steps: seq<Step>, cfg: Config, cells: seq<DCell>, ans: Answers, t0: int)
    requires Sane(w) && AllAllowed(w, steps) && BackfillsShared(w, cfg) && t0 > 0
    ensures var store := FinalStore(cfg, Exec(w, map[], steps), Chain(cfg, cells), ans, t0);
      && ExclusiveClaims(w, store)
      && forall k :: k in store ==> OnePerPlatform(store[k].runs) && WellAttributed(w, store[k].runs)
  {
    var store, more := Exec(w, map[], steps), DispatchSteps(cfg, Chain(cfg, cells), ans, t0);
    ChainBatchesShared(w, cfg, cells);
    DispatchIsARun(w, cfg, store, Chain(cfg, cells), ans, t0);
    ExecAppend(w, map[], steps, more);
    ClaimsStayExclusive(w, steps + more);
  }
}
