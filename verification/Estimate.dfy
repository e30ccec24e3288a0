/** The time estimate of the Populate-history dialog: a fresh container for every
    revision against one warm container per batch. Times are exact rationals. */
module Estimate {
  import opened RunStore
  import opened Dispatch

  /** Measured medians for one (capability, platform), in seconds; 0 when unmeasured. */
  datatype Measured = Measured(total: real, work: real)

  datatype Timing = Timing(startup: real, work: real, measured: bool)

  type Timings = map<GroupKey, Measured>

  function DefaultTiming(plat: Platform): Timing {
    if plat == "linux" then Timing(45.0, 90.0, false)
    else if plat == "all" then Timing(120.0, 90.0, false)
    else Timing(600.0, 120.0, false)
  }

  /** Startup and in-container work of one run: the measured medians where there are
      any, with startup never below 20 seconds. */
  function TimingFor(times: Timings, cap: string, plat: Platform): (t: Timing)
    ensures var k := (cap, plat);
      var measured := k in times && times[k].total > 0.0;
      && t.startup > 0.0 && t.work > 0.0 && t.measured == measured
      && (k in times && times[k].work > 0.0 ==> t.work == times[k].work)
      && (measured ==> t.startup >= 20.0 && t.startup + t.work >= times[k].total)
      && (measured && t.startup > 20.0 ==> t.startup + t.work == times[k].total)
      && (!measured ==> t.startup == DefaultTiming(plat).startup)
  {
    var d := DefaultTiming(plat);
    var m := if (cap, plat) in times then times[(cap, plat)] else Measured(0.0, 0.0);
    var work := if m.work > 0.0 then m.work else d.work;
    if m.total > 0.0 then Timing(if m.total - work > 20.0 then m.total - work else 20.0, work, true)
    else Timing(d.startup, work, false)
  }

  /** Every (capability, platform) pair to run, cell by cell; snapshots are one run of
      their own and are not estimated. */
  function PlatPairs(cap: string, plats: seq<Platform>): seq<GroupKey> {
    if plats == [] then [] else [(cap, plats[0])] + PlatPairs(cap, plats[1..])
  }

  function RunPairs(cfg: Config, cells: seq<DCell>): seq<GroupKey> {
    if cells == [] then []
    else if IsSnapshot(cells[0]) then RunPairs(cfg, cells[1..])
    else PlatPairs(cells[0].cap, CellPlatforms(cfg, cells[0])) + RunPairs(cfg, cells[1..])
  }

  function Cost(times: Timings, k: GroupKey): real {
    var t := TimingFor(times, k.0, k.1);
    t.startup + t.work
  }

  /** The total when every run pays its own startup. */
  function FreshTotal(times: Timings, pairs: seq<GroupKey>): real {
    if pairs == [] then 0.0 else Cost(times, pairs[0]) + FreshTotal(times, pairs[1..])
  }

  /** The runs of one batch group. */
  datatype WarmGroup = WarmGroup(key: GroupKey, n: nat)

  function FindWarm(groups: seq<WarmGroup>, k: GroupKey): (i: nat)
    ensures i <= |groups|
    ensures i < |groups| ==> groups[i].key == k
  {
    if groups == [] then 0 else if groups[0].key == k then 0 else 1 + FindWarm(groups[1..], k)
  }

  function AddWarm(groups: seq<WarmGroup>, k: GroupKey): seq<WarmGroup> {
    var i := FindWarm(groups, k);
    if i < |groups| then groups[i := WarmGroup(k, groups[i].n + 1)] else groups + [WarmGroup(k, 1)]
  }

  function WarmGroups(cfg: Config, pairs: seq<GroupKey>, groups: seq<WarmGroup>): seq<WarmGroup>
    decreases |pairs|
  {
    if pairs == [] then groups
    else WarmGroups(cfg, pairs[1..], if Batched(cfg, pairs[0].0, pairs[0].1) then AddWarm(groups, pairs[0]) else groups)
  }

  /** The runs that no batch takes pay as before. */
  function ColdTotal(cfg: Config, times: Timings, pairs: seq<GroupKey>): real {
    if pairs == [] then 0.0
    else
      (if Batched(cfg, pairs[0].0, pairs[0].1) then 0.0 else Cost(times, pairs[0]))
      + ColdTotal(cfg, times, pairs[1..])
  }

  /** A batch pays its startup once and the work of each of its runs. */
  function GroupTotal(times: Timings, groups: seq<WarmGroup>): real {
    if groups == [] then 0.0
    else
      GroupShare(times, groups[0]) + GroupTotal(times, groups[1..])
  }

  /** What the warm containers save: every start but the first of each batch. */
  function Saving(times: Timings, groups: seq<WarmGroup>): real {
    if groups == [] then 0.0
    else
      SavingShare(times, groups[0]) + Saving(times, groups[1..])
  }

  lemma {:induction false} GroupTotalAppend(times: Timings, a: seq<WarmGroup>, b: seq<WarmGroup>)
    ensures GroupTotal(times, a + b) == GroupTotal(times, a) + GroupTotal(times, b)
    ensures Saving(times, a + b) == Saving(times, a) + Saving(times, b)
  {
    if a == [] {
      assert a + b == b;
    } else {
      assert (a + b)[1..] == a[1..] + b;
      GroupTotalAppend(times, a[1..], b);
    }
  }

  lemma OneMoreTime(n: int, x: real)
    ensures (n + 1) as real * x == n as real * x + x
  {
    assert (n + 1) as real == n as real + 1.0;
  }

  /** The share of one group in the warm total, and in the saving. */
  function GroupShare(times: Timings, g: WarmGroup): real {
    var t := TimingFor(times, g.key.0, g.key.1);
    t.startup + g.n as real * t.work
  }

  function SavingShare(times: Timings, g: WarmGroup): real {
    (g.n - 1) as real * TimingFor(times, g.key.0, g.key.1).startup
  }

  lemma SharesGrow(times: Timings, k: GroupKey, n: nat)
    ensures var t := TimingFor(times, k.0, k.1);
      && GroupShare(times, WarmGroup(k, n + 1)) == GroupShare(times, WarmGroup(k, n)) + t.work
      && SavingShare(times, WarmGroup(k, n + 1)) == SavingShare(times, WarmGroup(k, n)) + t.startup
  {
    var t := TimingFor(times, k.0, k.1);
    OneMoreTime(n, t.work);
    OneMoreTime(n - 1, t.startup);
  }

  lemma {:induction false} GroupTotalBump(times: Timings, groups: seq<WarmGroup>, i: nat, g: WarmGroup)
    requires i < |groups|
    ensures GroupTotal(times, groups[i := g])
        == GroupTotal(times, groups) - GroupShare(times, groups[i]) + GroupShare(times, g)
    ensures Saving(times, groups[i := g])
        == Saving(times, groups) - SavingShare(times, groups[i]) + SavingShare(times, g)
  {
    if i == 0 {
      assert groups[i := g][1..] == groups[1..];
    } else {
      GroupTotalBump(times, groups[1..], i - 1, g);
      assert groups[i := g][1..] == groups[1..][i - 1 := g];
    }
  }

  /** One more run of a batch adds its cost, less its startup if the batch exists. */
  lemma AddWarmBalance(times: Timings, groups: seq<WarmGroup>, k: GroupKey)
    ensures var groups' := AddWarm(groups, k);
      GroupTotal(times, groups') + Saving(times, groups')
      == GroupTotal(times, groups) + Saving(times, groups) + Cost(times, k)
  {
    var i := FindWarm(groups, k);
    if i < |groups| {
      GroupTotalBump(times, groups, i, WarmGroup(k, groups[i].n + 1));
      SharesGrow(times, k, groups[i].n);
    } else {
      var one := [WarmGroup(k, 1)];
      GroupTotalAppend(times, groups, one);
      assert GroupTotal(times, one) == Cost(times, k) + GroupTotal(times, one[1..]);
      assert Saving(times, one) == 0.0 + Saving(times, one[1..]);
    }
  }

  lemma {:induction false} WarmBalance(cfg: Config, times: Timings, pairs: seq<GroupKey>, groups: seq<WarmGroup>)
    ensures var r := WarmGroups(cfg, pairs, groups);
      ColdTotal(cfg, times, pairs) + GroupTotal(times, r) + Saving(times, r)
      == FreshTotal(times, pairs) + GroupTotal(times, groups) + Saving(times, groups)
    decreases |pairs|
  {
    if pairs != [] {
      if Batched(cfg, pairs[0].0, pairs[0].1) {
        AddWarmBalance(times, groups, pairs[0]);
        WarmBalance(cfg, times, pairs[1..], AddWarm(groups, pairs[0]));
      } else {
        WarmBalance(cfg, times, pairs[1..], groups);
      }
    }
  }

  lemma {:induction false} WarmGroupsNonempty(cfg: Config, pairs: seq<GroupKey>, groups: seq<WarmGroup>)
    requires forall i :: 0 <= i < |groups| ==> groups[i].n >= 1
    ensures forall i :: 0 <= i < |WarmGroups(cfg, pairs, groups)| ==> WarmGroups(cfg, pairs, groups)[i].n >= 1
    decreases |pairs|
  {
    if pairs != [] {
      WarmGroupsNonempty(cfg, pairs[1..],
        if Batched(cfg, pairs[0].0, pairs[0].1) then AddWarm(groups, pairs[0]) else groups);
    }
  }

  lemma {:induction false} SavingNonnegative(times: Timings, groups: seq<WarmGroup>)
    requires forall i :: 0 <= i < |groups| ==> groups[i].n >= 1
    ensures Saving(times, groups) >= 0.0
  {
    if groups != [] {
      SavingNonnegative(times, groups[1..]);
      var t := TimingFor(times, groups[0].key.0, groups[0].key.1);
      assert (groups[0].n - 1) as real * t.startup >= 0.0;
    }
  }

  /** Fresh minus warm is exactly the startups saved, one for every member of a batch
      beyond its first; with the option off nothing is saved. */
  lemma SavingIsExact(cfg: Config, times: Timings, pairs: seq<GroupKey>)
    ensures var groups := WarmGroups(cfg, pairs, []);
      var warm := ColdTotal(cfg, times, pairs) + GroupTotal(times, groups);
      && FreshTotal(times, pairs) - warm == Saving(times, groups)
      && warm <= FreshTotal(times, pairs)
      && (!cfg.reuse ==> groups == [] && warm == FreshTotal(times, pairs))
  {
    WarmBalance(cfg, times, pairs, []);
    WarmGroupsNonempty(cfg, pairs, []);
    SavingNonnegative(times, WarmGroups(cfg, pairs, []));
    if !cfg.reuse {
      NoWarmGroups(cfg, pairs);
    }
  }

  lemma {:induction false} NoWarmGroups(cfg: Config, pairs: seq<GroupKey>)
    requires !cfg.reuse
    ensures WarmGroups(cfg, pairs, []) == []
    decreases |pairs|
  {
    if pairs != [] {
      NoWarmGroups(cfg, pairs[1..]);
    }
  }

  lemma {:induction false} WarmCount(cfg: Config, pairs: seq<GroupKey>, groups: seq<WarmGroup>, k: GroupKey)
    requires DistinctWarm(groups)
    ensures DistinctWarm(WarmGroups(cfg, pairs, groups))
    ensures Runs(WarmGroups(cfg, pairs, groups), k) ==
      Runs(groups, k) + (if Batched(cfg, k.0, k.1) then multiset(pairs)[k] else 0)
    decreases |pairs|
  {
    if pairs != [] {
      assert pairs == [pairs[0]] + pairs[1..];
      if Batched(cfg, pairs[0].0, pairs[0].1) {
        AddWarmRuns(groups, pairs[0], k);
        WarmCount(cfg, pairs[1..], AddWarm(groups, pairs[0]), k);
      } else {
        WarmCount(cfg, pairs[1..], groups, k);
      }
    }
  }

  ghost predicate DistinctWarm(groups: seq<WarmGroup>) {
    forall i, j :: 0 <= i < j < |groups| ==> groups[i].key != groups[j].key
  }

  /** The number of runs filed under a batch. */
  function Runs(groups: seq<WarmGroup>, k: GroupKey): nat {
    var i := FindWarm(groups, k);
    if i < |groups| then groups[i].n else 0
  }

  lemma {:induction false} FindWarmFirst(groups: seq<WarmGroup>, k: GroupKey)
    ensures forall j :: 0 <= j < FindWarm(groups, k) ==> groups[j].key != k
  {
    if groups != [] && groups[0].key != k {
      FindWarmFirst(groups[1..], k);
    }
  }

  lemma AddWarmRuns(groups: seq<WarmGroup>, k: GroupKey, q: GroupKey)
    requires DistinctWarm(groups)
    ensures DistinctWarm(AddWarm(groups, k))
    ensures Runs(AddWarm(groups, k), q) == Runs(groups, q) + (if q == k then 1 else 0)
  {
    var r := AddWarm(groups, k);
    var i, j := FindWarm(groups, k), FindWarm(groups, q);
    FindWarmFirst(groups, k);
    FindWarmFirst(groups, q);
    FindWarmFirst(r, q);
    if q == k {
      assert r[i].key == k;
    } else if j < |groups| {
      assert r[j] == groups[j];
    }
  }

  /** The dialog's loop over the warm batches: one startup per batch. */
  method AddGroups(times: Timings, groups: seq<WarmGroup>, cold: real) returns (sum: real)
    ensures sum == cold + GroupTotal(times, groups)
  {
    sum := cold;
    var j := 0;
    while j < |groups|
      invariant 0 <= j <= |groups|
      invariant sum + GroupTotal(times, groups[j..]) == cold + GroupTotal(times, groups)
    {
      var t := TimingFor(times, groups[j].key.0, groups[j].key.1);
      sum := sum + (t.startup + groups[j].n as real * t.work);
      j := j + 1;
    }
  }

  /** The dialog's loop over the cells and their platforms. */
  method HistEstimate(cfg: Config, times: Timings, cells: seq<DCell>) returns (freshSum: real, warmSum: real)
    ensures var pairs := RunPairs(cfg, cells);
      var groups := WarmGroups(cfg, pairs, []);
      && freshSum == FreshTotal(times, pairs)
      && warmSum == ColdTotal(cfg, times, pairs) + GroupTotal(times, groups)
      && freshSum - warmSum == Saving(times, groups) >= 0.0
      && (!cfg.reuse ==> freshSum == warmSum)
  {
    var groups: seq<WarmGroup> := [];
    freshSum, warmSum := 0.0, 0.0;
    var pairs := RunPairs(cfg, cells);
    var i := 0;
    while i < |pairs|
      invariant 0 <= i <= |pairs|
      invariant freshSum + FreshTotal(times, pairs[i..]) == FreshTotal(times, pairs)
      invariant warmSum + ColdTotal(cfg, times, pairs[i..]) == ColdTotal(cfg, times, pairs)
      invariant WarmGroups(cfg, pairs[i..], groups) == WarmGroups(cfg, pairs, [])
    {
      var t := TimingFor(times, pairs[i].0, pairs[i].1);
      freshSum := freshSum + (t.startup + t.work);
      if Batched(cfg, pairs[i].0, pairs[i].1) {
        groups := AddWarm(groups, pairs[i]);
      } else {
        warmSum := warmSum + (t.startup + t.work);
      }
      i := i + 1;
    }
    warmSum := AddGroups(times, groups, warmSum);
    SavingIsExact(cfg, times, pairs);
  }
}
