/** Running the chain of dispatches: the optimistic marks painted up front, the answers
    as they arrive, and the tally reported at the end. */
module DispatchRun {
  import opened Options
  import opened RunStore
  import opened Dispatch
  import opened DispatchProps
  import opened Grouping
  import Sorting
  import Q = RunQueue

  /** The HTTP status of request j of unit i. */
  type Answers = (nat, nat) -> int

  const ACCEPTED: int := 204
  const UNAUTHORIZED: int := 401

  function ShaKeys(cap: string, shas: seq<string>): seq<Key> {
    if shas == [] then [] else [Key(cap, shas[0])] + ShaKeys(cap, shas[1..])
  }

  /** The cells a unit speaks for. */
  function UnitKeys(u: Unit): seq<Key> {
    match u
    case Snapshots(shas, _) => ShaKeys(SNAPSHOTS_CAP, shas)
    case BatchUnit(g) => ShaKeys(g.cap, g.shas)
    case Revision(x, _) => [Key(x.cap, x.sha)]
  }

  /** Every request of the unit has a run target. The script skips a revision of an
      unknown capability, and an exception on an unknown platform loses the answers to
      the whole cell. */
  predicate Dispatchable(cfg: Config, u: Unit) {
    u.Revision? ==> forall i :: 0 <= i < |u.plats| ==> Known(cfg, u.x.cap, u.plats[i])
  }

  predicate GetsPainted(cfg: Config, u: Unit) {
    u.Revision? ==> u.x.cap in cfg.rt
  }

  // ----- the store -----

  function MarkKeys(store: Store, keys: seq<Key>, plats: seq<Platform>, parent: string, t0: int): Store
    decreases |keys|
  {
    if keys == [] then store
    else MarkKeys(MarkStore(store, keys[0], plats, parent, t0, t0), keys[1..], plats, parent, t0)
  }

  function ForgetKeys(store: Store, keys: seq<Key>): Store
    decreases |keys|
  {
    if keys == [] then store else ForgetKeys(ForgetStore(store, keys[0]), keys[1..])
  }

  function PaintUnit(cfg: Config, store: Store, u: Unit, t0: int): Store {
    match u
    case Snapshots(_, _) => MarkKeys(store, UnitKeys(u), ["all"], "", t0)
    case BatchUnit(g) => MarkKeys(store, UnitKeys(u), [g.plat], "", t0)
    case Revision(x, plats) => if x.cap in cfg.rt then MarkKeys(store, UnitKeys(u), plats, x.parent, t0) else store
  }

  function PaintAll(cfg: Config, store: Store, chain: seq<Unit>, t0: int): Store
    decreases |chain|
  {
    if chain == [] then store else PaintAll(cfg, PaintUnit(cfg, store, chain[0], t0), chain[1..], t0)
  }

  function StampUnit(store: Store, u: Unit): Store {
    if u.BatchUnit? then StampStore(store, (set k | k in UnitKeys(u)), u.g.wf) else store
  }

  function StampAll(store: Store, chain: seq<Unit>): Store
    decreases |chain|
  {
    if chain == [] then store else StampAll(StampUnit(store, chain[0]), chain[1..])
  }

  /** The platforms of a revision whose requests were accepted. */
  function AcceptedPlats(plats: seq<Platform>, ans: Answers, i: nat, j: nat): seq<Platform>
    decreases |plats| - j
  {
    if j >= |plats| then []
    else if ans(i, j) == ACCEPTED then [plats[j]] + AcceptedPlats(plats, ans, i, j + 1)
    else AcceptedPlats(plats, ans, i, j + 1)
  }

  function SettleStore(cfg: Config, store: Store, u: Unit, ans: Answers, i: nat, t0: int): Store {
    if !Dispatchable(cfg, u) then store
    else if u.Revision? then
      var okPlats := AcceptedPlats(u.plats, ans, i, 0);
      if okPlats != [] then MarkStore(store, Key(u.x.cap, u.x.sha), okPlats, u.x.parent, t0, t0)
      else ForgetStore(store, Key(u.x.cap, u.x.sha))
    else if ans(i, 0) == ACCEPTED then store
    else ForgetKeys(store, UnitKeys(u))
  }

  function SettleAll(cfg: Config, store: Store, chain: seq<Unit>, ans: Answers, i: nat, t0: int): Store
    decreases |chain| - i
  {
    if i >= |chain| then store
    else SettleAll(cfg, SettleStore(cfg, store, chain[i], ans, i, t0), chain, ans, i + 1, t0)
  }

  function FinalStore(cfg: Config, store: Store, chain: seq<Unit>, ans: Answers, t0: int): Store {
    SettleAll(cfg, StampAll(PaintAll(cfg, store, chain, t0), chain), chain, ans, 0, t0)
  }

  // ----- the tally -----

  datatype Tally = Tally(ok: nat, err: nat, done: nat, fails: seq<(Workflow, int)>, tokenCleared: bool)

  const ZERO: Tally := Tally(0, 0, 0, [], false)

  function WorkflowOf(cfg: Config, u: Unit, j: nat): Workflow {
    match u
    case Snapshots(_, _) => SNAPSHOTS_WF
    case BatchUnit(g) => g.wf
    case Revision(x, plats) =>
      if j < |plats| && Known(cfg, x.cap, plats[j]) then cfg.rt[x.cap].targets[plats[j]].wf else ""
  }

  /** The refusals among the requests of unit i, from request j on. */
  function Refusals(cfg: Config, u: Unit, ans: Answers, i: nat, j: nat): seq<(Workflow, int)>
    decreases Size(u) - j
  {
    if j >= Size(u) then []
    else if ans(i, j) == ACCEPTED then Refusals(cfg, u, ans, i, j + 1)
    else [(WorkflowOf(cfg, u, j), ans(i, j))] + Refusals(cfg, u, ans, i, j + 1)
  }

  predicate Accepts(u: Unit, ans: Answers, i: nat) {
    exists j :: 0 <= j < Size(u) && ans(i, j) == ACCEPTED
  }

  predicate Unauthorized(u: Unit, ans: Answers, i: nat) {
    exists j :: 0 <= j < Size(u) && ans(i, j) == UNAUTHORIZED
  }

  function SettleTally(cfg: Config, t: Tally, u: Unit, ans: Answers, i: nat): Tally {
    if !Dispatchable(cfg, u) then t
    else
      var won := Accepts(u, ans, i);
      Tally(t.ok + (if won then 1 else 0), t.err + (if won then 0 else 1), t.done + Size(u),
            t.fails + Refusals(cfg, u, ans, i, 0), t.tokenCleared || Unauthorized(u, ans, i))
  }

  function TallyAll(cfg: Config, t: Tally, chain: seq<Unit>, ans: Answers, i: nat): Tally
    decreases |chain| - i
  {
    if i >= |chain| then t else TallyAll(cfg, SettleTally(cfg, t, chain[i], ans, i), chain, ans, i + 1)
  }

  // ----- the script's loops -----

  method MarkEach(q: Q.Queue, keys: seq<Key>, plats: seq<Platform>, parent: string, t0: int)
    modifies q`store
    ensures q.store == MarkKeys(old(q.store), keys, plats, parent, t0)
  {
    var i := 0;
    while i < |keys|
      invariant 0 <= i <= |keys|
      invariant MarkKeys(old(q.store), keys, plats, parent, t0) == MarkKeys(q.store, keys[i..], plats, parent, t0)
    {
      q.MarkQueued(keys[i], plats, parent, t0, t0);
      i := i + 1;
    }
  }

  method ForgetEach(q: Q.Queue, keys: seq<Key>)
    modifies q`store
    ensures q.store == ForgetKeys(old(q.store), keys)
  {
    var i := 0;
    while i < |keys|
      invariant 0 <= i <= |keys|
      invariant ForgetKeys(old(q.store), keys) == ForgetKeys(q.store, keys[i..])
    {
      q.Forget(keys[i]);
      i := i + 1;
    }
  }

  /** Marks every targeted cell in one pass, then stamps the batch members. */
  method PaintAndStamp(cfg: Config, q: Q.Queue, chain: seq<Unit>, t0: int)
    modifies q`store
    ensures q.store == StampAll(PaintAll(cfg, old(q.store), chain, t0), chain)
  {
    var i := 0;
    while i < |chain|
      invariant 0 <= i <= |chain|
      invariant PaintAll(cfg, old(q.store), chain, t0) == PaintAll(cfg, q.store, chain[i..], t0)
    {
      match chain[i] {
        case Snapshots(shas, _) => MarkEach(q, ShaKeys(SNAPSHOTS_CAP, shas), ["all"], "", t0);
        case BatchUnit(g) => MarkEach(q, ShaKeys(g.cap, g.shas), [g.plat], "", t0);
        case Revision(x, plats) =>
          if x.cap in cfg.rt {
            MarkEach(q, [Key(x.cap, x.sha)], plats, x.parent, t0);
          }
      }
      i := i + 1;
    }
    i := 0;
    ghost var painted := q.store;
    while i < |chain|
      invariant 0 <= i <= |chain|
      invariant StampAll(painted, chain) == StampAll(q.store, chain[i..])
    {
      if chain[i].BatchUnit? {
        q.Stamp(UnitKeys(chain[i]), chain[i].g.wf);
      }
      i := i + 1;
    }
  }

  /** The answers to one unit's requests: which were accepted, which refused. */
  method Collect(cfg: Config, u: Unit, ans: Answers, i: nat)
    returns (okPlats: seq<Platform>, won: bool, refused: seq<(Workflow, int)>, unauthorized: bool)
    ensures u.Revision? ==> okPlats == AcceptedPlats(u.plats, ans, i, 0)
    ensures won == Accepts(u, ans, i) && unauthorized == Unauthorized(u, ans, i)
    ensures refused == Refusals(cfg, u, ans, i, 0)
  {
    okPlats, won, refused, unauthorized := [], false, [], false;
    var j := 0;
    while j < Size(u)
      invariant 0 <= j <= Size(u)
      invariant u.Revision? ==> okPlats + AcceptedPlats(u.plats, ans, i, j) == AcceptedPlats(u.plats, ans, i, 0)
      invariant won <==> exists m :: 0 <= m < j && ans(i, m) == ACCEPTED
      invariant unauthorized <==> exists m :: 0 <= m < j && ans(i, m) == UNAUTHORIZED
      invariant refused + Refusals(cfg, u, ans, i, j) == Refusals(cfg, u, ans, i, 0)
    {
      if ans(i, j) == ACCEPTED {
        won := true;
        if u.Revision? {
          okPlats := okPlats + [u.plats[j]];
        }
      } else {
        refused := refused + [(WorkflowOf(cfg, u, j), ans(i, j))];
        if ans(i, j) == UNAUTHORIZED {
          unauthorized := true;
        }
      }
      j := j + 1;
    }
  }

  lemma AcceptedPlatsNonempty(u: Unit, ans: Answers, i: nat, j: nat)
    requires u.Revision? && j <= |u.plats|
    ensures AcceptedPlats(u.plats, ans, i, j) != [] <==> exists m :: j <= m < |u.plats| && ans(i, m) == ACCEPTED
    decreases |u.plats| - j
  {
    if j < |u.plats| {
      AcceptedPlatsNonempty(u, ans, i, j + 1);
    }
  }

  /** One link of the chain: its answers arrive and are booked. */
  method Settle(cfg: Config, q: Q.Queue, u: Unit, ans: Answers, i: nat, t0: int, tally: Tally) returns (tally': Tally)
    modifies q`store
    ensures q.store == SettleStore(cfg, old(q.store), u, ans, i, t0)
    ensures tally' == SettleTally(cfg, tally, u, ans, i)
  {
    if !Dispatchable(cfg, u) {
      return tally;
    }
    var okPlats, won, refused, unauthorized := Collect(cfg, u, ans, i);
    tally' := Tally(tally.ok + (if won then 1 else 0), tally.err + (if won then 0 else 1), tally.done + Size(u),
                    tally.fails + refused, tally.tokenCleared || unauthorized);
    if u.Revision? {
      AcceptedPlatsNonempty(u, ans, i, 0);
      if won {
        q.MarkQueued(Key(u.x.cap, u.x.sha), okPlats, u.x.parent, t0, t0);
      } else {
        q.Forget(Key(u.x.cap, u.x.sha));
      }
    } else if !won {
      ForgetEach(q, UnitKeys(u));
    }
  }

  /** The dispatch of a whole selection: split, paint, dispatch in order, and report. */
  method DispatchCells(cfg: Config, q: Q.Queue, cells: seq<DCell>, ans: Answers, t0: int)
    returns (tally: Tally, total: nat)
    modifies q`store
    ensures var chain := Chain(cfg, cells);
      && q.store == FinalStore(cfg, old(q.store), chain, ans, t0)
      && tally == TallyAll(cfg, ZERO, chain, ans, 0)
      && total == Requests(chain)
  {
    var chain;
    chain, total := Plan(cfg, cells);
    PaintAndStamp(cfg, q, chain, t0);
    ghost var painted := q.store;
    tally := ZERO;
    var i := 0;
    while i < |chain|
      invariant 0 <= i <= |chain|
      invariant SettleAll(cfg, painted, chain, ans, 0, t0) == SettleAll(cfg, q.store, chain, ans, i, t0)
      invariant TallyAll(cfg, ZERO, chain, ans, 0) == TallyAll(cfg, tally, chain, ans, i)
    {
      tally := Settle(cfg, q, chain[i], ans, i, t0, tally);
      i := i + 1;
    }
  }

  // ----- what the tally says -----

  ghost predicate AllDispatchable(cfg: Config, chain: seq<Unit>) {
    forall i :: 0 <= i < |chain| ==> Dispatchable(cfg, chain[i])
  }

  /** Requests of units that the chain drops without an answer, and how many such
      units there are, from unit i on. */
  ghost function Dropped(cfg: Config, chain: seq<Unit>, i: nat): (nat, nat)
    decreases |chain| - i
  {
    if i >= |chain| then (0, 0)
    else
      var (r, n) := Dropped(cfg, chain, i + 1);
      if Dispatchable(cfg, chain[i]) then (r, n) else (r + Size(chain[i]), n + 1)
  }

  ghost function AcceptedIn(u: Unit, ans: Answers, i: nat, j: nat): nat
    decreases Size(u) - j
  {
    if j >= Size(u) then 0 else (if ans(i, j) == ACCEPTED then 1 else 0) + AcceptedIn(u, ans, i, j + 1)
  }

  /** The requests accepted by the dispatchable units from unit i on. */
  ghost function AcceptedFrom(cfg: Config, chain: seq<Unit>, ans: Answers, i: nat): nat
    decreases |chain| - i
  {
    if i >= |chain| then 0
    else
      (if Dispatchable(cfg, chain[i]) then AcceptedIn(chain[i], ans, i, 0) else 0)
      + AcceptedFrom(cfg, chain, ans, i + 1)
  }

  ghost predicate NoEmptyUnit(chain: seq<Unit>) {
    forall i :: 0 <= i < |chain| ==> Size(chain[i]) > 0
  }

  lemma {:induction false} RefusalsCount(cfg: Config, u: Unit, ans: Answers, i: nat, j: nat)
    requires j <= Size(u)
    ensures AcceptedIn(u, ans, i, j) + |Refusals(cfg, u, ans, i, j)| == Size(u) - j
    ensures (forall m :: j <= m < Size(u) ==> ans(i, m) != ACCEPTED) <==> AcceptedIn(u, ans, i, j) == 0
    decreases Size(u) - j
  {
    if j < Size(u) {
      RefusalsCount(cfg, u, ans, i, j + 1);
    }
  }

  lemma {:induction false} TallyFacts(cfg: Config, t: Tally, chain: seq<Unit>, ans: Answers, i: nat)
    requires i <= |chain| && NoEmptyUnit(chain)
    ensures var r := TallyAll(cfg, t, chain, ans, i);
      && r.done - t.done == AcceptedFrom(cfg, chain, ans, i) + |r.fails| - |t.fails|
      && r.done - t.done + Dropped(cfg, chain, i).0 == Requests(chain[i..])
      && r.ok + r.err - t.ok - t.err + Dropped(cfg, chain, i).1 == |chain| - i
      && r.err >= t.err && |r.fails| >= |t.fails|
      && (r.err > t.err ==> |r.fails| > |t.fails|)
    decreases |chain| - i
  {
    if i < |chain| {
      var t1 := SettleTally(cfg, t, chain[i], ans, i);
      RefusalsCount(cfg, chain[i], ans, i, 0);
      TallyFacts(cfg, t1, chain, ans, i + 1);
      assert chain[i..][1..] == chain[i + 1..];
    }
  }

  lemma {:induction false} DroppedNothing(cfg: Config, chain: seq<Unit>, i: nat)
    requires i <= |chain| && NoEmptyUnit(chain)
    ensures var d := Dropped(cfg, chain, i);
      && (d.0 == 0 <==> forall m :: i <= m < |chain| ==> Dispatchable(cfg, chain[m]))
      && (d.1 == 0 <==> forall m :: i <= m < |chain| ==> Dispatchable(cfg, chain[m]))
    decreases |chain| - i
  {
    if i < |chain| {
      DroppedNothing(cfg, chain, i + 1);
    }
  }

  lemma {:induction false} RevisionsAreNonempty(cfg: Config, s: seq<DCell>)
    ensures NoEmptyUnit(Revisions(cfg, s))
  {
    if s != [] {
      RevisionsAreNonempty(cfg, s[1..]);
    }
  }

  lemma {:induction false} RevisionUnitsAre(cfg: Config, s: seq<DCell>, m: nat)
    requires m < |Revisions(cfg, s)|
    ensures var u := Revisions(cfg, s)[m];
      u.Revision? && u.x in s && u.plats == Kept(cfg, u.x.cap, CellPlatforms(cfg, u.x)) != []
  {
    var here := Kept(cfg, s[0].cap, CellPlatforms(cfg, s[0])) != [];
    if !here || m > 0 {
      RevisionUnitsAre(cfg, s[1..], if here then m - 1 else m);
    }
  }

  lemma {:induction false} KeptAreUnbatched(cfg: Config, cap: string, plats: seq<Platform>)
    ensures forall p :: p in Kept(cfg, cap, plats) <==> p in plats && !Batched(cfg, cap, p)
  {
    if plats != [] {
      KeptAreUnbatched(cfg, cap, plats[1..]);
      assert forall p :: p in plats <==> p == plats[0] || p in plats[1..];
    }
  }

  lemma SortedMembers(cells: seq<DCell>, y: DCell)
    ensures y in SortedCells(cells) <==> y in cells && Eligible(y)
  {
    Sorting.SortMembers(EligibleCells(cells), OldestRowFirst);
    EligibleMembers(cells, y);
  }

  lemma Middle(a: seq<Unit>, b: seq<Unit>, c: seq<Unit>, m: nat)
    requires m < |b|
    ensures |a| + m < |a + b + c| && (a + b + c)[|a| + m] == b[m]
  {
    assert (a + b + c)[|a| + m] == (a + b)[|a| + m];
  }

  lemma ChainBatchAt(cfg: Config, cells: seq<DCell>, m: nat)
    requires m < |Summaries(cfg, BatchesOf(cfg, cells))|
    ensures var i := |SnapshotUnits(cells)| + m;
      i < |Chain(cfg, cells)| && Chain(cfg, cells)[i] == BatchUnit(Summaries(cfg, BatchesOf(cfg, cells))[m])
  {
    Middle(SnapshotUnits(cells), BatchUnits(Summaries(cfg, BatchesOf(cfg, cells))),
           Revisions(cfg, SortedCells(cells)), m);
  }

  lemma ChainLength(cfg: Config, cells: seq<DCell>)
    ensures |Chain(cfg, cells)|
        == |SnapshotUnits(cells)| + |BatchesOf(cfg, cells)| + |Revisions(cfg, SortedCells(cells))|
  {
  }

  lemma ChainRevisionAt(cfg: Config, cells: seq<DCell>, m: nat)
    requires m < |Revisions(cfg, SortedCells(cells))|
    ensures var i := |SnapshotUnits(cells)| + |BatchesOf(cfg, cells)| + m;
      i < |Chain(cfg, cells)| && Chain(cfg, cells)[i] == Revisions(cfg, SortedCells(cells))[m]
  {
  }

  /** Every platform that the cell is to run on has a run target. */
  ghost predicate CellKnown(cfg: Config, x: DCell) {
    forall p :: p in CellPlatforms(cfg, x) ==> Known(cfg, x.cap, p)
  }

  ghost predicate AllKnown(cfg: Config, cells: seq<DCell>) {
    forall x :: x in cells && Eligible(x) ==> CellKnown(cfg, x)
  }

  lemma KnownUnit(cfg: Config, cells: seq<DCell>, i: nat)
    requires AllKnown(cfg, cells) && i < |Chain(cfg, cells)|
    ensures Dispatchable(cfg, Chain(cfg, cells)[i])
  {
    var n := |SnapshotUnits(cells)| + |BatchesOf(cfg, cells)|;
    ChainLength(cfg, cells);
    if i >= n {
      ChainRevisionAt(cfg, cells, i - n);
      RevisionUnitsAre(cfg, SortedCells(cells), i - n);
      var u := Chain(cfg, cells)[i];
      SortedMembers(cells, u.x);
      KeptAreUnbatched(cfg, u.x.cap, CellPlatforms(cfg, u.x));
      forall j | 0 <= j < |u.plats|
        ensures Known(cfg, u.x.cap, u.plats[j])
      {
        assert u.plats[j] in u.plats;
      }
    }
  }

  lemma UnknownCell(cfg: Config, cells: seq<DCell>, x: DCell, p: Platform)
    requires AllDispatchable(cfg, Chain(cfg, cells)) && x in cells && Eligible(x) && p in CellPlatforms(cfg, x)
    ensures Known(cfg, x.cap, p)
  {
    if !Batched(cfg, x.cap, p) {
      KeptAreUnbatched(cfg, x.cap, CellPlatforms(cfg, x));
      SortedMembers(cells, x);
      var m := RevisionUnitExists(cfg, SortedCells(cells), x);
      ChainRevisionAt(cfg, cells, m);
      var u := Revisions(cfg, SortedCells(cells))[m];
      var j :| 0 <= j < |u.plats| && u.plats[j] == p;
      assert Dispatchable(cfg, u);
    }
  }

  /** Which selections can be dispatched in full, in terms of the cells. */
  lemma DispatchableIffKnown(cfg: Config, cells: seq<DCell>)
    ensures AllDispatchable(cfg, Chain(cfg, cells)) <==> AllKnown(cfg, cells)
  {
    if AllKnown(cfg, cells) {
      forall i | 0 <= i < |Chain(cfg, cells)|
        ensures Dispatchable(cfg, Chain(cfg, cells)[i])
      {
        KnownUnit(cfg, cells, i);
      }
    }
    if AllDispatchable(cfg, Chain(cfg, cells)) {
      forall x, p | x in cells && Eligible(x) && p in CellPlatforms(cfg, x)
        ensures Known(cfg, x.cap, p)
      {
        UnknownCell(cfg, cells, x, p);
      }
    }
  }

  /** The final report, for any list of cells: every answered request is counted once, as
      accepted or as a recorded failure; `done` reaches `total`, and `ok + err` the number
      of dispatches, exactly when every platform of every eligible cell has a run target;
      an error always leaves a failure. */
  lemma TallyIsExact(cfg: Config, cells: seq<DCell>, ans: Answers)
    ensures var chain := Chain(cfg, cells);
      var t := TallyAll(cfg, ZERO, chain, ans, 0);
      && t.done == AcceptedFrom(cfg, chain, ans, 0) + |t.fails|
      && t.done <= Requests(chain) && t.ok + t.err <= |chain|
      && (t.done == Requests(chain) <==> AllKnown(cfg, cells))
      && (t.ok + t.err == |chain| <==> AllKnown(cfg, cells))
      && (t.err > 0 ==> t.fails != [])
  {
    var chain := Chain(cfg, cells);
    RevisionsAreNonempty(cfg, SortedCells(cells));
    TallyFacts(cfg, ZERO, chain, ans, 0);
    DroppedNothing(cfg, chain, 0);
    DispatchableIffKnown(cfg, cells);
    assert chain[0..] == chain;
  }

  // ----- the cells that the program dispatches -----

  /** The platforms of a capability and their targets come from one object's keys. */
  ghost predicate Listed(cfg: Config) {
    forall cap, p :: cap in cfg.rt && p in cfg.rt[cap].order ==> p in cfg.rt[cap].targets
  }

  /** A cell of the page leaves the platform open; a cell of the dialog may name one of
      those selected. */
  ghost predicate FromProgram(cfg: Config, x: DCell) {
    x.platform == "" || x.platform in SelectedPlatforms(cfg, x.cap)
  }

  lemma ProgramCellsAreKnown(cfg: Config, x: DCell)
    requires Listed(cfg) && FromProgram(cfg, x)
    ensures CellKnown(cfg, x)
  {
    forall p | p in SelectedPlatforms(cfg, x.cap)
      ensures Known(cfg, x.cap, p)
    {
      assert p in CapPlatforms(cfg, x.cap);
    }
  }

  /** Nothing that the program dispatches is dropped: for the cells of the page's run
      glyphs and for those of the dialog, whatever the answers, `done` ends at `total` and
      `ok + err` at the number of dispatches. */
  lemma TallyIsComplete(cfg: Config, cells: seq<DCell>, ans: Answers)
    requires Listed(cfg) && forall x :: x in cells ==> FromProgram(cfg, x)
    ensures var chain := Chain(cfg, cells);
      var t := TallyAll(cfg, ZERO, chain, ans, 0);
      t.done == Requests(chain) && t.ok + t.err == |chain|
  {
    forall x | x in cells && Eligible(x)
      ensures CellKnown(cfg, x)
    {
      ProgramCellsAreKnown(cfg, x);
    }
    TallyIsExact(cfg, cells, ans);
  }

  lemma TallyOfHistory(cfg: Config, all: seq<DCell>, scope: set<string>, mode: map<string, Choice>, ans: Answers)
    requires Listed(cfg)
    ensures var chain := Chain(cfg, HistCells(cfg, all, scope, mode));
      var t := TallyAll(cfg, ZERO, chain, ans, 0);
      t.done == Requests(chain) && t.ok + t.err == |chain|
  {
    HistCellsDispatchable(cfg, all, scope, mode);
    TallyIsComplete(cfg, HistCells(cfg, all, scope, mode), ans);
  }

  /** The failing family is inhabited, though not by the program's own callers: a cell that
      names a platform without a run target is announced but never counted. */
  lemma UnknownPlatformIsNotCounted(ans: Answers)
    ensures var cfg := Config(
        map["unit-tests" := Capability(["windows"], map["windows" := Target("unit-tests.yml", None)])], map[], false);
      var cells := [DCell("unit-tests", "a", "", 0, false, false, "linux")];
      var t := TallyAll(cfg, ZERO, Chain(cfg, cells), ans, 0);
      Listed(cfg) && t.done == 0 < Requests(Chain(cfg, cells)) && t.ok + t.err == 0 < |Chain(cfg, cells)|
  {
    var cfg := Config(
      map["unit-tests" := Capability(["windows"], map["windows" := Target("unit-tests.yml", None)])], map[], false);
    var x := DCell("unit-tests", "a", "", 0, false, false, "linux");
    assert EligibleCells([x]) == [x];
    assert SortedCells([x]) == [x];
    assert Kept(cfg, x.cap, ["linux"]) == ["linux"];
    assert Revisions(cfg, [x]) == [Revision(x, ["linux"])];
    assert SnapshotShas([x]) == [];
    assert Filed(cfg, x, ["linux"]) == [];
    assert AllFiled(cfg, [x]) == [];
    assert BatchesOf(cfg, [x]) == [];
    assert Chain(cfg, [x]) == [Revision(x, ["linux"])];
    assert !Dispatchable(cfg, Chain(cfg, [x])[0]);
  }

  ghost predicate Touches(u: Unit, k: Key) {
    k in UnitKeys(u)
  }

  lemma {:induction false} MarkedKeys(store: Store, keys: seq<Key>, plats: seq<Platform>, parent: string, t0: int,
                                      k: Key)
    ensures k in MarkKeys(store, keys, plats, parent, t0) <==> k in store || k in keys
    decreases |keys|
  {
    if keys != [] {
      MarkedKeys(MarkStore(store, keys[0], plats, parent, t0, t0), keys[1..], plats, parent, t0, k);
    }
  }

  lemma {:induction false} ForgottenKeys(store: Store, keys: seq<Key>, k: Key)
    ensures k in ForgetKeys(store, keys) <==> k in store && k !in keys
    decreases |keys|
  {
    if keys != [] {
      ForgottenKeys(ForgetStore(store, keys[0]), keys[1..], k);
    }
  }

  lemma {:induction false} PaintedKeys(cfg: Config, store: Store, chain: seq<Unit>, t0: int, k: Key)
    ensures k in PaintAll(cfg, store, chain, t0) <==>
      k in store || exists i :: 0 <= i < |chain| && GetsPainted(cfg, chain[i]) && Touches(chain[i], k)
    decreases |chain|
  {
    if chain != [] {
      var u := chain[0];
      var store1 := PaintUnit(cfg, store, u, t0);
      assert k in store1 <==> k in store || (GetsPainted(cfg, u) && Touches(u, k)) by {
        match u
        case Snapshots(_, _) => MarkedKeys(store, UnitKeys(u), ["all"], "", t0, k);
        case BatchUnit(g) => MarkedKeys(store, UnitKeys(u), [g.plat], "", t0, k);
        case Revision(x, plats) => MarkedKeys(store, UnitKeys(u), plats, x.parent, t0, k);
      }
      PaintedKeys(cfg, store1, chain[1..], t0, k);
      if i :| 0 <= i < |chain[1..]| && GetsPainted(cfg, chain[1..][i]) && Touches(chain[1..][i], k) {
        assert GetsPainted(cfg, chain[i + 1]) && Touches(chain[i + 1], k);
      }
      if i :| 0 <= i < |chain| && GetsPainted(cfg, chain[i]) && Touches(chain[i], k) && i > 0 {
        assert GetsPainted(cfg, chain[1..][i - 1]) && Touches(chain[1..][i - 1], k);
      }
    }
  }

  lemma {:induction false} StampedKeys(store: Store, chain: seq<Unit>, k: Key)
    ensures k in StampAll(store, chain) <==> k in store
    decreases |chain|
  {
    if chain != [] {
      StampedKeys(StampUnit(store, chain[0]), chain[1..], k);
    }
  }

  lemma SettledKeys(cfg: Config, store: Store, u: Unit, ans: Answers, i: nat, t0: int, k: Key)
    ensures k in SettleStore(cfg, store, u, ans, i, t0) <==>
      if !Dispatchable(cfg, u) || !Touches(u, k) then k in store
      else if u.Revision? then Accepts(u, ans, i)
      else k in store && Accepts(u, ans, i)
  {
    if u.Revision? {
      AcceptedPlatsNonempty(u, ans, i, 0);
    } else {
      ForgottenKeys(store, UnitKeys(u), k);
      if ans(i, 0) == ACCEPTED {
        assert Accepts(u, ans, i);
      }
    }
  }

  /** Units that do not speak for a cell leave its mark alone. */
  lemma {:induction false} UntouchedTail(cfg: Config, store: Store, chain: seq<Unit>, ans: Answers, i: nat, t0: int,
                                         k: Key)
    requires i <= |chain|
    requires forall m :: i <= m < |chain| ==> !Touches(chain[m], k)
    ensures k in SettleAll(cfg, store, chain, ans, i, t0) <==> k in store
    decreases |chain| - i
  {
    if i < |chain| {
      SettledKeys(cfg, store, chain[i], ans, i, t0, k);
      UntouchedTail(cfg, SettleStore(cfg, store, chain[i], ans, i, t0), chain, ans, i + 1, t0, k);
    }
  }

  /** The last unit that speaks for a cell decides its mark: a mark that reaches it stays
      exactly when it is accepted, and refused, the mark is gone. */
  lemma LastUnitSettles(cfg: Config, store: Store, chain: seq<Unit>, ans: Answers, last: nat, t0: int, k: Key)
    requires last < |chain| && Dispatchable(cfg, chain[last]) && Touches(chain[last], k)
    requires forall m :: last < m < |chain| ==> !Touches(chain[m], k)
    ensures k in SettleAll(cfg, store, chain, ans, last, t0) ==> Accepts(chain[last], ans, last)
    ensures k in store ==> (k in SettleAll(cfg, store, chain, ans, last, t0) <==> Accepts(chain[last], ans, last))
  {
    SettledKeys(cfg, store, chain[last], ans, last, t0, k);
    UntouchedTail(cfg, SettleStore(cfg, store, chain[last], ans, last, t0), chain, ans, last + 1, t0, k);
  }

  lemma {:induction false} LastUnitDecides(cfg: Config, store: Store, chain: seq<Unit>, ans: Answers, i: nat,
                                           last: nat, t0: int, k: Key)
    requires i <= last < |chain| && Dispatchable(cfg, chain[last]) && Touches(chain[last], k)
    requires forall m :: last < m < |chain| ==> !Touches(chain[m], k)
    ensures k in SettleAll(cfg, store, chain, ans, i, t0) ==> Accepts(chain[last], ans, last)
    decreases last - i
  {
    if i == last {
      LastUnitSettles(cfg, store, chain, ans, last, t0, k);
    } else {
      LastUnitDecides(cfg, SettleStore(cfg, store, chain[i], ans, i, t0), chain, ans, i + 1, last, t0, k);
    }
  }

  /** Units before the only one that speaks for the cell keep its mark. */
  lemma {:induction false} ReachesUnit(cfg: Config, store: Store, chain: seq<Unit>, ans: Answers, i: nat, only: nat,
                                       t0: int, k: Key)
    requires i <= only < |chain| && k in store
    requires forall m :: i <= m < only ==> !Touches(chain[m], k)
    ensures exists store': Store ::
      k in store' && SettleAll(cfg, store, chain, ans, i, t0) == SettleAll(cfg, store', chain, ans, only, t0)
    decreases only - i
  {
    if i < only {
      SettledKeys(cfg, store, chain[i], ans, i, t0, k);
      ReachesUnit(cfg, SettleStore(cfg, store, chain[i], ans, i, t0), chain, ans, i + 1, only, t0, k);
    }
  }

  /** Some request that speaks for the cell was accepted. */
  ghost predicate Served(chain: seq<Unit>, ans: Answers, k: Key) {
    exists i :: 0 <= i < |chain| && Touches(chain[i], k) && Accepts(chain[i], ans, i)
  }

  /** Whatever the answers, the cell ends marked exactly when it was served. */
  ghost predicate MarkTellsTruth(cfg: Config, store: Store, chain: seq<Unit>, t0: int, k: Key) {
    forall ans: Answers :: k in FinalStore(cfg, store, chain, ans, t0) <==> Served(chain, ans, k)
  }

  /** Every request of the units that speak for the cell has a run target. */
  ghost predicate KeyDispatchable(cfg: Config, chain: seq<Unit>, k: Key) {
    forall i :: 0 <= i < |chain| && Touches(chain[i], k) ==> Dispatchable(cfg, chain[i])
  }

  ghost predicate OneUnit(chain: seq<Unit>, k: Key) {
    forall i, j :: 0 <= i < j < |chain| ==> !(Touches(chain[i], k) && Touches(chain[j], k))
  }

  lemma DispatchableIsPainted(cfg: Config, u: Unit)
    requires Dispatchable(cfg, u) && Size(u) > 0
    ensures GetsPainted(cfg, u)
  {
    if u.Revision? {
      assert Known(cfg, u.x.cap, u.plats[0]);
    }
  }

  lemma OthersAreSilent(chain: seq<Unit>, k: Key, only: nat, m: nat)
    requires only < |chain| && m < |chain| && m != only && Touches(chain[only], k) && OneUnit(chain, k)
    ensures !Touches(chain[m], k)
  {
  }

  /** With one unit per cell the mark is kept exactly when the unit was accepted. */
  lemma MarkFollowsItsUnit(cfg: Config, store: Store, chain: seq<Unit>, ans: Answers, t0: int, k: Key, only: nat)
    requires only < |chain| && Touches(chain[only], k) && OneUnit(chain, k)
    requires Dispatchable(cfg, chain[only]) && Size(chain[only]) > 0
    ensures k in FinalStore(cfg, store, chain, ans, t0) <==> Accepts(chain[only], ans, only)
    ensures Served(chain, ans, k) <==> Accepts(chain[only], ans, only)
  {
    PaintedKeys(cfg, store, chain, t0, k);
    DispatchableIsPainted(cfg, chain[only]);
    var start := StampAll(PaintAll(cfg, store, chain, t0), chain);
    StampedKeys(PaintAll(cfg, store, chain, t0), chain, k);
    forall m | 0 <= m < |chain| && m != only
      ensures !Touches(chain[m], k)
    {
      OthersAreSilent(chain, k, only, m);
    }
    ReachesUnit(cfg, start, chain, ans, 0, only, t0, k);
    var store': Store :|
      k in store' && SettleAll(cfg, start, chain, ans, 0, t0) == SettleAll(cfg, store', chain, ans, only, t0);
    LastUnitSettles(cfg, store', chain, ans, only, t0, k);
  }

  lemma {:induction false} LastTrue(mask: seq<bool>, i: nat) returns (last: nat)
    requires i < |mask| && mask[i]
    ensures last < |mask| && mask[last] && forall m :: last < m < |mask| ==> !mask[m]
    decreases |mask|
  {
    var n := |mask| - 1;
    if mask[n] {
      last := n;
    } else {
      last := LastTrue(mask[..n], i);
    }
  }

  /** The last unit that speaks for k. */
  lemma LastTouching(chain: seq<Unit>, k: Key, i: nat) returns (last: nat)
    requires i < |chain| && Touches(chain[i], k)
    ensures last < |chain| && Touches(chain[last], k) && forall m :: last < m < |chain| ==> !Touches(chain[m], k)
  {
    var mask := seq(|chain|, m requires 0 <= m < |chain| => Touches(chain[m], k));
    last := LastTrue(mask, i);
    assert forall m :: 0 <= m < |chain| ==> mask[m] == Touches(chain[m], k);
  }

  /** Everything is accepted except unit `refused`. */
  function AllBut(refused: nat): Answers {
    (i: nat, j: nat) => if i == refused then 500 else ACCEPTED
  }

  /** Two units speak for the cell: an outcome that refuses only the last one erases a
      mark that another has earned. */
  lemma LastRefusalErases(cfg: Config, store: Store, chain: seq<Unit>, t0: int, k: Key, i: nat, j: nat)
    returns (last: nat)
    requires KeyDispatchable(cfg, chain, k) && NoEmptyUnit(chain)
    requires i < j < |chain| && Touches(chain[i], k) && Touches(chain[j], k)
    ensures Served(chain, AllBut(last), k) && k !in FinalStore(cfg, store, chain, AllBut(last), t0)
  {
    last := LastTouching(chain, k, i);
    var other := if i == last then j else i;
    var ans := AllBut(last);
    assert Accepts(chain[other], ans, other) by {
      assert ans(other, 0) == ACCEPTED;
    }
    LastUnitDecides(cfg, StampAll(PaintAll(cfg, store, chain, t0), chain), chain, ans, 0, last, t0, k);
  }

  /** A mark tells the truth about its cell, for every course of answers, exactly when
      one single unit speaks for the cell. */
  lemma MarkIsTrueIffOneUnit(cfg: Config, store: Store, chain: seq<Unit>, t0: int, k: Key, only: nat)
    requires KeyDispatchable(cfg, chain, k) && NoEmptyUnit(chain)
    requires only < |chain| && Touches(chain[only], k)
    ensures MarkTellsTruth(cfg, store, chain, t0, k) <==> OneUnit(chain, k)
  {
    if OneUnit(chain, k) {
      forall ans: Answers
        ensures k in FinalStore(cfg, store, chain, ans, t0) <==> Served(chain, ans, k)
      {
        MarkFollowsItsUnit(cfg, store, chain, ans, t0, k, only);
      }
    } else {
      var i, j :| 0 <= i < j < |chain| && Touches(chain[i], k) && Touches(chain[j], k);
      var last := LastRefusalErases(cfg, store, chain, t0, k, i, j);
    }
  }

  /** The chains that `dispatchCells` builds hold no unit without a request. */
  lemma ChainsHaveNoEmptyUnit(cfg: Config, cells: seq<DCell>)
    ensures NoEmptyUnit(Chain(cfg, cells))
  {
    RevisionsAreNonempty(cfg, SortedCells(cells));
  }

  /** The marks of cells the selection does not target are left alone. */
  lemma OtherMarksStay(cfg: Config, store: Store, chain: seq<Unit>, ans: Answers, t0: int, k: Key)
    requires forall i :: 0 <= i < |chain| ==> !Touches(chain[i], k)
    ensures k in FinalStore(cfg, store, chain, ans, t0) <==> k in store
  {
    PaintedKeys(cfg, store, chain, t0, k);
    StampedKeys(PaintAll(cfg, store, chain, t0), chain, k);
    UntouchedTail(cfg, StampAll(PaintAll(cfg, store, chain, t0), chain), chain, ans, 0, t0, k);
  }

  lemma {:induction false} RevisionUnitExists(cfg: Config, s: seq<DCell>, x: DCell) returns (i: nat)
    requires x in s && Kept(cfg, x.cap, CellPlatforms(cfg, x)) != []
    ensures i < |Revisions(cfg, s)| && Revisions(cfg, s)[i] == Revision(x, Kept(cfg, x.cap, CellPlatforms(cfg, x)))
  {
    if s[0] == x {
      i := 0;
    } else {
      i := RevisionUnitExists(cfg, s[1..], x);
      if Kept(cfg, s[0].cap, CellPlatforms(cfg, s[0])) != [] {
        i := i + 1;
      }
    }
  }

  lemma {:induction false} ShaKeysMember(cap: string, shas: seq<string>, sha: string)
    requires sha in shas
    ensures Key(cap, sha) in ShaKeys(cap, shas)
  {
    if shas[0] != sha {
      ShaKeysMember(cap, shas[1..], sha);
    }
  }

  lemma BatchHolds(cfg: Config, cells: seq<DCell>, x: DCell, p: Platform) returns (i: nat)
    requires x in cells && Eligible(x) && p in CellPlatforms(cfg, x) && Batched(cfg, x.cap, p)
    ensures var groups := BatchesOf(cfg, cells);
      i < |groups| && groups[i].key == (x.cap, p) && x in groups[i].members
  {
    var groups := BatchesOf(cfg, cells);
    SplitIsPartition(cfg, cells, x, p);
    DemandIsPositive(cfg, cells, x, p);
    assert x in multiset(Members(groups, (x.cap, p)));
    i := Find(groups, (x.cap, p));
  }

  /** The batch that carries a cell for one of its platforms. */
  lemma BatchUnitExists(cfg: Config, cells: seq<DCell>, x: DCell, p: Platform) returns (i: nat)
    requires x in cells && Eligible(x) && p in CellPlatforms(cfg, x) && Batched(cfg, x.cap, p)
    ensures var groups := Summaries(cfg, BatchesOf(cfg, cells));
      i < |groups| && groups[i].plat == p && Touches(BatchUnit(groups[i]), Key(x.cap, x.sha))
  {
    var groups := BatchesOf(cfg, cells);
    i := BatchHolds(cfg, cells, x, p);
    BatchCarriesItsMembers(cfg, cells, i);
    var a :| 0 <= a < |groups[i].members| && groups[i].members[a] == x;
    ShaKeysMember(x.cap, Summaries(cfg, groups)[i].shas, x.sha);
  }

  lemma {:induction false} TimesPositive(m: nat, n: nat)
    requires m > 0 && n > 0
    ensures Times(m, n) > 0
  {
  }

  lemma DemandIsPositive(cfg: Config, cells: seq<DCell>, x: DCell, p: Platform)
    requires x in cells && Eligible(x) && p in CellPlatforms(cfg, x)
    ensures Demand(cfg, cells, x, p) > 0
  {
    assert x in multiset(cells) && p in multiset(CellPlatforms(cfg, x));
    TimesPositive(multiset(cells)[x], multiset(CellPlatforms(cfg, x))[p]);
  }

  /** Where in the chain the units of one cell stand. */
  lemma BatchPosition(cfg: Config, cells: seq<DCell>, x: DCell, p: Platform) returns (i: nat)
    requires x in cells && Eligible(x) && p in CellPlatforms(cfg, x) && Batched(cfg, x.cap, p)
    ensures var chain := Chain(cfg, cells);
      i < |chain| && chain[i].BatchUnit? && chain[i].g.plat == p && Touches(chain[i], Key(x.cap, x.sha))
  {
    var m := BatchUnitExists(cfg, cells, x, p);
    i := |SnapshotUnits(cells)| + m;
    ChainBatchAt(cfg, cells, m);
  }

  lemma RevisionPosition(cfg: Config, cells: seq<DCell>, x: DCell, q: Platform) returns (i: nat)
    requires x in cells && Eligible(x) && q in CellPlatforms(cfg, x) && !Batched(cfg, x.cap, q)
    ensures var chain := Chain(cfg, cells);
      i < |chain| && chain[i].Revision? && Touches(chain[i], Key(x.cap, x.sha))
  {
    KeptAreUnbatched(cfg, x.cap, CellPlatforms(cfg, x));
    EligibleMembers(cells, x);
    Sorting.SortMembers(EligibleCells(cells), OldestRowFirst);
    var m := RevisionUnitExists(cfg, SortedCells(cells), x);
    i := |SnapshotUnits(cells)| + |BatchesOf(cfg, cells)| + m;
    ChainRevisionAt(cfg, cells, m);
  }
}
