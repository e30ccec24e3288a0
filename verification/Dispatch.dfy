/** The dispatch engine: how a set of dashboard cells is split into requests, and three
    counts of those requests that the script computes independently. */
module Dispatch {
  import opened Options
  import opened RunStore
  import opened Sorting
  import opened Grouping

  // ----- run targets and cells -----

  datatype Batch = Batch(wf: Workflow, shasInput: string)

  datatype Target = Target(wf: Workflow, batch: Option<Batch>)

  /** The platforms of a capability, in the order they are listed. */
  datatype Capability = Capability(order: seq<Platform>, targets: map<Platform, Target>)

  datatype Config = Config(rt: map<string, Capability>, platState: map<string, seq<Platform>>, reuse: bool)

  /** A cell to dispatch; order is its row (larger is older), platform "" when any. */
  datatype DCell = DCell(cap: string, sha: string, parent: string, order: int, rerun: bool, done: bool,
                         platform: Platform)

  const VIDIFF: string := "vidiff"

  predicate PlatformCap(cap: string) {
    cap == "snapshots2" || cap == "vidiff" || cap == "masscompile" || cap == "vi-analyzer" || cap == "builds"
  }

  function CapPlatforms(cfg: Config, cap: string): seq<Platform> {
    if cap in cfg.rt then cfg.rt[cap].order else []
  }

  function KeepKnown(s: seq<Platform>, known: seq<Platform>): (r: seq<Platform>)
    ensures forall p :: p in r ==> p in s && p in known
  {
    if s == [] then []
    else if s[0] in known then [s[0]] + KeepKnown(s[1..], known)
    else KeepKnown(s[1..], known)
  }

  /** The user's platform choice, reduced to platforms that exist; all of them when the
      capability offers no choice or nothing is left of it. */
  function SelectedPlatforms(cfg: Config, cap: string): seq<Platform> {
    var keys := CapPlatforms(cfg, cap);
    if !PlatformCap(cap) || |keys| <= 1 then keys
    else
      var chosen := KeepKnown(if cap in cfg.platState then cfg.platState[cap] else keys, keys);
      if chosen == [] then keys else chosen
  }

  function CellPlatforms(cfg: Config, x: DCell): seq<Platform> {
    if x.platform != "" then [x.platform] else SelectedPlatforms(cfg, x.cap)
  }

  predicate Known(cfg: Config, cap: string, plat: Platform) {
    cap in cfg.rt && plat in cfg.rt[cap].targets
  }

  /** The warm-container route is on and the platform has a backfill workflow. */
  predicate Batched(cfg: Config, cap: string, plat: Platform) {
    cfg.reuse && Known(cfg, cap, plat) && cfg.rt[cap].targets[plat].batch.Some?
  }

  predicate Again(x: DCell) {
    x.rerun || x.done
  }

  predicate IsSnapshot(x: DCell) {
    x.cap == SNAPSHOTS_CAP
  }

  /** Dispatched per revision or in a batch: not a snapshot, and not a diff of a root
      commit, which has nothing to compare with. */
  predicate Eligible(x: DCell) {
    !IsSnapshot(x) && !(x.cap == VIDIFF && x.parent == "")
  }

  // ----- the split -----

  type GroupKey = (string, Platform)

  /** One batch dispatch and the commits it carries. */
  datatype BatchGroup = BatchGroup(cap: string, plat: Platform, wf: Workflow, shasInput: string, shas: seq<string>,
                                   force: bool)

  /** One link of the promise chain. */
  datatype Unit =
    | Snapshots(shas: seq<string>, force: bool)
    | BatchUnit(g: BatchGroup)
    | Revision(x: DCell, plats: seq<Platform>)

  predicate OldestRowFirst(a: DCell, b: DCell) {
    a.order >= b.order
  }

  function EligibleCells(cells: seq<DCell>): seq<DCell> {
    if cells == [] then []
    else if Eligible(cells[0]) then [cells[0]] + EligibleCells(cells[1..])
    else EligibleCells(cells[1..])
  }

  function SnapshotShas(cells: seq<DCell>): seq<string> {
    if cells == [] then []
    else if IsSnapshot(cells[0]) then [cells[0].sha] + SnapshotShas(cells[1..])
    else SnapshotShas(cells[1..])
  }

  predicate SnapshotForce(cells: seq<DCell>) {
    exists i :: 0 <= i < |cells| && IsSnapshot(cells[i]) && Again(cells[i])
  }

  /** The platforms of a cell that no batch takes. */
  function Kept(cfg: Config, cap: string, plats: seq<Platform>): seq<Platform> {
    if plats == [] then []
    else if Batched(cfg, cap, plats[0]) then Kept(cfg, cap, plats[1..])
    else [plats[0]] + Kept(cfg, cap, plats[1..])
  }

  /** What one cell files under batches: its batched (capability, platform) pairs. */
  function Filed(cfg: Config, x: DCell, plats: seq<Platform>): seq<(GroupKey, DCell)> {
    if plats == [] then []
    else if Batched(cfg, x.cap, plats[0]) then [((x.cap, plats[0]), x)] + Filed(cfg, x, plats[1..])
    else Filed(cfg, x, plats[1..])
  }

  function AllFiled(cfg: Config, cells: seq<DCell>): seq<(GroupKey, DCell)> {
    if cells == [] then [] else Filed(cfg, cells[0], CellPlatforms(cfg, cells[0])) + AllFiled(cfg, cells[1..])
  }

  /** The commits of the members, each at its first appearance. */
  function Shas(members: seq<DCell>, seen: seq<string>): seq<string>
    decreases |members|
  {
    if members == [] then seen
    else Shas(members[1..], if members[0].sha in seen then seen else seen + [members[0].sha])
  }

  predicate AnyAgain(members: seq<DCell>) {
    exists i :: 0 <= i < |members| && Again(members[i])
  }

  function Summary(cfg: Config, g: Group<GroupKey, DCell>): BatchGroup {
    var b := if Batched(cfg, g.key.0, g.key.1) then cfg.rt[g.key.0].targets[g.key.1].batch.value else Batch("", "");
    BatchGroup(g.key.0, g.key.1, b.wf, b.shasInput, Shas(g.members, []), AnyAgain(g.members))
  }

  function Summaries(cfg: Config, groups: seq<Group<GroupKey, DCell>>): (r: seq<BatchGroup>)
    ensures |r| == |groups|
    ensures forall i :: 0 <= i < |r| ==> r[i] == Summary(cfg, groups[i])
  {
    if groups == [] then [] else [Summary(cfg, groups[0])] + Summaries(cfg, groups[1..])
  }

  function Revisions(cfg: Config, cells: seq<DCell>): seq<Unit> {
    if cells == [] then []
    else
      var keep := Kept(cfg, cells[0].cap, CellPlatforms(cfg, cells[0]));
      if keep != [] then [Revision(cells[0], keep)] + Revisions(cfg, cells[1..]) else Revisions(cfg, cells[1..])
  }

  function BatchUnits(groups: seq<BatchGroup>): (r: seq<Unit>)
    ensures |r| == |groups|
    ensures forall i :: 0 <= i < |r| ==> r[i] == BatchUnit(groups[i])
  {
    if groups == [] then [] else [BatchUnit(groups[0])] + BatchUnits(groups[1..])
  }

  function SortedCells(cells: seq<DCell>): seq<DCell> {
    Sort(EligibleCells(cells), OldestRowFirst)
  }

  function BatchesOf(cfg: Config, cells: seq<DCell>): seq<Group<GroupKey, DCell>> {
    GroupBy(AllFiled(cfg, SortedCells(cells)))
  }

  function SnapshotUnits(cells: seq<DCell>): seq<Unit> {
    if SnapshotShas(cells) != [] then [Snapshots(SnapshotShas(cells), SnapshotForce(cells))] else []
  }

  /** The chain of dispatches: one snapshots backfill, then the batches, then the
      revisions, oldest first. */
  function Chain(cfg: Config, cells: seq<DCell>): seq<Unit> {
    SnapshotUnits(cells) + BatchUnits(Summaries(cfg, BatchesOf(cfg, cells))) + Revisions(cfg, SortedCells(cells))
  }

  function Size(u: Unit): nat {
    if u.Revision? then |u.plats| else 1
  }

  function Requests(chain: seq<Unit>): nat {
    if chain == [] then 0 else Size(chain[0]) + Requests(chain[1..])
  }

  // ----- building the chain, as the script does -----

  /** A batch group after one more member. */
  function Joined(g: BatchGroup, x: DCell): BatchGroup {
    g.(shas := if x.sha in g.shas then g.shas else g.shas + [x.sha], force := g.force || Again(x))
  }

  /** A batch group before its first member. */
  function Opened(cfg: Config, cap: string, plat: Platform): BatchGroup
    requires Batched(cfg, cap, plat)
  {
    var b := cfg.rt[cap].targets[plat].batch.value;
    BatchGroup(cap, plat, b.wf, b.shasInput, [], false)
  }

  lemma {:induction false} ShasAppend(members: seq<DCell>, seen: seq<string>, x: DCell)
    ensures var s := Shas(members, seen);
      Shas(members + [x], seen) == if x.sha in s then s else s + [x.sha]
    decreases |members|
  {
    if members == [] {
      assert (members + [x])[1..] == [];
    } else {
      assert (members + [x])[1..] == members[1..] + [x];
      ShasAppend(members[1..], if members[0].sha in seen then seen else seen + [members[0].sha], x);
    }
  }

  lemma AnyAgainAppend(members: seq<DCell>, x: DCell)
    ensures AnyAgain(members + [x]) <==> AnyAgain(members) || Again(x)
  {
    assert (members + [x])[|members|] == x;
    assert forall i :: 0 <= i < |members| ==> (members + [x])[i] == members[i];
  }

  lemma SummaryJoin(cfg: Config, key: GroupKey, members: seq<DCell>, x: DCell)
    ensures Summary(cfg, Group(key, members + [x])) == Joined(Summary(cfg, Group(key, members)), x)
  {
    ShasAppend(members, [], x);
    AnyAgainAppend(members, x);
  }

  lemma SummariesUpdate(cfg: Config, filed: seq<Group<GroupKey, DCell>>, i: nat, g: Group<GroupKey, DCell>)
    requires i < |filed|
    ensures Summaries(cfg, filed[i := g]) == Summaries(cfg, filed)[i := Summary(cfg, g)]
  {
  }

  lemma SummariesSnoc(cfg: Config, filed: seq<Group<GroupKey, DCell>>, g: Group<GroupKey, DCell>)
    ensures Summaries(cfg, filed + [g]) == Summaries(cfg, filed) + [Summary(cfg, g)]
  {
  }

  /** What a newly filed cell does to the summaries of the groups. */
  lemma SummariesOfAdd(cfg: Config, filed: seq<Group<GroupKey, DCell>>, x: DCell, plat: Platform, i: nat)
    requires Batched(cfg, x.cap, plat) && i == Find(filed, (x.cap, plat))
    ensures Summaries(cfg, Add(filed, (x.cap, plat), x)) ==
      if i < |filed| then Summaries(cfg, filed)[i := Joined(Summaries(cfg, filed)[i], x)]
      else Summaries(cfg, filed) + [Joined(Opened(cfg, x.cap, plat), x)]
  {
    var key := (x.cap, plat);
    if i < |filed| {
      SummaryJoin(cfg, key, filed[i].members, x);
      SummariesUpdate(cfg, filed, i, Group(key, filed[i].members + [x]));
    } else {
      SummaryJoin(cfg, key, [], x);
      assert [] + [x] == [x];
      SummariesSnoc(cfg, filed, Group(key, [x]));
    }
  }

  function GroupKeyOf(g: BatchGroup): GroupKey {
    (g.cap, g.plat)
  }

  method FindGroup(cfg: Config, cap: string, plat: Platform, groups: seq<BatchGroup>,
                   ghost filed: seq<Group<GroupKey, DCell>>)
    returns (j: nat)
    requires groups == Summaries(cfg, filed)
    ensures j == Find(filed, (cap, plat))
  {
    j := IndexOfKey(groups, GroupKeyOf, (cap, plat));
    FindIs(filed, (cap, plat), j);
  }

  /** Files one cell under one batch group, opening the group if need be. */
  method FileInGroup(cfg: Config, x: DCell, plat: Platform, groups: seq<BatchGroup>,
                     ghost filed: seq<Group<GroupKey, DCell>>)
    returns (groups': seq<BatchGroup>)
    requires Batched(cfg, x.cap, plat) && groups == Summaries(cfg, filed)
    ensures groups' == Summaries(cfg, Add(filed, (x.cap, plat), x))
  {
    var j := FindGroup(cfg, x.cap, plat, groups, filed);
    SummariesOfAdd(cfg, filed, x, plat, j);
    if j < |groups| {
      groups' := groups[j := Joined(groups[j], x)];
    } else {
      groups' := groups + [Joined(Opened(cfg, x.cap, plat), x)];
    }
  }

  /** Routes the platforms of one cell: each joins a batch group or is kept. */
  method RoutePlatforms(cfg: Config, x: DCell, groups: seq<BatchGroup>, ghost filed: seq<Group<GroupKey, DCell>>)
    returns (groups': seq<BatchGroup>, keep: seq<Platform>)
    requires groups == Summaries(cfg, filed)
    ensures keep == Kept(cfg, x.cap, CellPlatforms(cfg, x))
    ensures groups' == Summaries(cfg, AddAll(filed, Filed(cfg, x, CellPlatforms(cfg, x))))
  {
    groups', keep := groups, [];
    ghost var filed' := filed;
    var plats := CellPlatforms(cfg, x);
    var i := 0;
    while i < |plats|
      invariant 0 <= i <= |plats|
      invariant keep + Kept(cfg, x.cap, plats[i..]) == Kept(cfg, x.cap, plats)
      invariant groups' == Summaries(cfg, filed')
      invariant AddAll(filed', Filed(cfg, x, plats[i..])) == AddAll(filed, Filed(cfg, x, plats))
    {
      if Batched(cfg, x.cap, plats[i]) {
        groups' := FileInGroup(cfg, x, plats[i], groups', filed');
        assert Filed(cfg, x, plats[i..])[1..] == Filed(cfg, x, plats[i + 1..]);
        filed' := Add(filed', (x.cap, plats[i]), x);
      } else {
        keep := keep + [plats[i]];
      }
      i := i + 1;
    }
  }

  /** Sorts out the snapshot cells and the cells dispatched per revision. */
  method Sift(cells: seq<DCell>) returns (perRev: seq<DCell>, snapShas: seq<string>, snapForce: bool)
    ensures perRev == EligibleCells(cells)
    ensures snapShas == SnapshotShas(cells) && snapForce == SnapshotForce(cells)
  {
    perRev, snapShas, snapForce := [], [], false;
    var i := 0;
    while i < |cells|
      invariant 0 <= i <= |cells|
      invariant perRev + EligibleCells(cells[i..]) == EligibleCells(cells)
      invariant snapShas + SnapshotShas(cells[i..]) == SnapshotShas(cells)
      invariant snapForce <==> exists j :: 0 <= j < i && IsSnapshot(cells[j]) && Again(cells[j])
    {
      var x := cells[i];
      if x.cap == SNAPSHOTS_CAP {
        snapShas := snapShas + [x.sha];
        if Again(x) {
          snapForce := true;
        }
      } else if !(x.cap == VIDIFF && x.parent == "") {
        perRev := perRev + [x];
      }
      i := i + 1;
    }
  }

  /** Routes every cell; what is left to dispatch per revision becomes a unit. */
  method Route(cfg: Config, perRev: seq<DCell>) returns (groups: seq<BatchGroup>, active: seq<Unit>)
    ensures groups == Summaries(cfg, GroupBy(AllFiled(cfg, perRev)))
    ensures active == Revisions(cfg, perRev)
  {
    groups, active := [], [];
    ghost var filed: seq<Group<GroupKey, DCell>> := [];
    var i := 0;
    while i < |perRev|
      invariant 0 <= i <= |perRev|
      invariant groups == Summaries(cfg, filed)
      invariant AddAll(filed, AllFiled(cfg, perRev[i..])) == GroupBy(AllFiled(cfg, perRev))
      invariant active + Revisions(cfg, perRev[i..]) == Revisions(cfg, perRev)
    {
      AddAllJoin(filed, Filed(cfg, perRev[i], CellPlatforms(cfg, perRev[i])), AllFiled(cfg, perRev[i + 1..]));
      var keep;
      groups, keep := RoutePlatforms(cfg, perRev[i], groups, filed);
      filed := AddAll(filed, Filed(cfg, perRev[i], CellPlatforms(cfg, perRev[i])));
      if keep != [] {
        active := active + [Revision(perRev[i], keep)];
      }
      i := i + 1;
    }
  }

  /** Splits the cells into the chain of dispatches and counts its requests. */
  method Plan(cfg: Config, cells: seq<DCell>) returns (chain: seq<Unit>, total: nat)
    ensures chain == Chain(cfg, cells)
    ensures total == Requests(chain)
  {
    var perRev, snapShas, snapForce := Sift(cells);
    perRev := Sort(perRev, OldestRowFirst);
    var groups, active := Route(cfg, perRev);
    var snaps := if snapShas != [] then [Snapshots(snapShas, snapForce)] else [];
    chain := snaps + BatchUnits(groups) + active;
    total := Requests(active) + (if snapShas != [] then 1 else 0) + |groups|;
    RequestsOfBatches(groups);
    RequestsAppend(snaps, BatchUnits(groups));
    RequestsAppend(snaps + BatchUnits(groups), active);
  }

  lemma {:induction false} RequestsAppend(a: seq<Unit>, b: seq<Unit>)
    ensures Requests(a + b) == Requests(a) + Requests(b)
  {
    if a == [] {
      assert a + b == b;
    } else {
      assert (a + b)[1..] == a[1..] + b;
      RequestsAppend(a[1..], b);
    }
  }

  lemma {:induction false} RequestsOfBatches(groups: seq<BatchGroup>)
    ensures Requests(BatchUnits(groups)) == |groups|
  {
    if groups != [] {
      RequestsOfBatches(groups[1..]);
    }
  }
}
