/** The first half of the reconciler: which lookups it starts, and from which moment each
    may claim runs. */
module SyncRouting {
  import opened RunStore
  import opened Sorting

  /** A live entry that no run has been attributed to. */
  predicate Untied(store: Store, k: Key) {
    k in store && !Terminal(store[k]) && store[k].runs == []
  }

  predicate LiveSnapshot(store: Store, k: Key) {
    k in store && !Terminal(store[k]) && k.cap == SNAPSHOTS_CAP
  }

  predicate WantsBatch(store: Store, k: Key, wf: Workflow) {
    Untied(store, k) && wf != "" && store[k].batchWf == wf
  }

  predicate WantsChain(store: Store, k: Key) {
    Untied(store, k) && k.cap != SNAPSHOTS_CAP && store[k].batchWf == ""
  }

  /** t is the earliest time stamp of the keys, none of which may be without one. */
  ghost predicate Earliest(store: Store, keys: set<Key>, t: int)
    requires keys <= store.Keys
  {
    (forall k :: k in keys ==> t <= store[k].ts) && exists k :: k in keys && store[k].ts == t
  }

  lemma EarliestNext(store: Store, keys: set<Key>, k: Key, t: int)
    requires keys <= store.Keys && k in store && (keys != {} ==> Earliest(store, keys, t))
    ensures Earliest(store, keys + {k}, if keys == {} || store[k].ts < t then store[k].ts else t)
  {
    assert k in keys + {k};
    if keys != {} && store[k].ts >= t {
      var q :| q in keys && store[q].ts == t;
      assert q in keys + {k};
    }
  }

  function LiveSnapshots(store: Store, among: seq<Key>): set<Key> {
    set k | k in among && LiveSnapshot(store, k)
  }

  function WaitingMembers(store: Store, among: seq<Key>, wf: Workflow): set<Key> {
    set k | k in among && WantsBatch(store, k, wf)
  }

  ghost predicate SomeUntiedSnapshot(store: Store, among: seq<Key>) {
    exists k :: k in among && Untied(store, k) && k.cap == SNAPSHOTS_CAP
  }

  /** ask and t0 plan the one lookup of the snapshots run; 0 means no time yet. */
  ghost predicate PlansSnapshot(store: Store, among: seq<Key>, ask: bool, t0: int) {
    && (ask <==> SomeUntiedSnapshot(store, among))
    && (t0 == 0 <==> LiveSnapshots(store, among) == {})
    && (t0 != 0 ==> Earliest(store, LiveSnapshots(store, among), t0))
  }

  lemma SnapshotNext(store: Store, among: seq<Key>, k: Key, ask: bool, t0: int)
    requires k in store && store[k].ts > 0 && PlansSnapshot(store, among, ask, t0)
    ensures var live, ts := LiveSnapshot(store, k), store[k].ts;
      PlansSnapshot(store, among + [k], ask || (live && store[k].runs == []),
                    if live && (t0 == 0 || ts < t0) then ts else t0)
  {
    var keys := LiveSnapshots(store, among);
    assert SomeUntiedSnapshot(store, among + [k]) <==>
      SomeUntiedSnapshot(store, among) || (Untied(store, k) && k.cap == SNAPSHOTS_CAP) by {
      assert k in among + [k];
      assert forall q :: q in among + [k] <==> q in among || q == k;
    }
    if LiveSnapshot(store, k) {
      assert LiveSnapshots(store, among + [k]) == keys + {k};
      EarliestNext(store, keys, k, t0);
    } else {
      assert LiveSnapshots(store, among + [k]) == keys;
    }
  }

  /** The snapshots run is looked for once, from the earliest live snapshot entry on. */
  method PlanSnapshotLookup(store: Store, order: seq<Key>) returns (ask: bool, t0: int)
    requires Enumerates(order, store.Keys)
    requires forall k :: k in store ==> store[k].ts > 0
    ensures PlansSnapshot(store, order, ask, t0)
  {
    ask, t0 := false, 0;
    var i := 0;
    while i < |order|
      invariant 0 <= i <= |order|
      invariant PlansSnapshot(store, order[..i], ask, t0)
    {
      var k := order[i];
      assert order[..i + 1] == order[..i] + [k];
      SnapshotNext(store, order[..i], k, ask, t0);
      if LiveSnapshot(store, k) {
        if t0 == 0 || store[k].ts < t0 {
          t0 := store[k].ts;
        }
        if store[k].runs == [] {
          ask := true;
        }
      }
      i := i + 1;
    }
    assert order[..i] == order;
  }

  /** t0 plans the lookups of the batches that the keys wait for. */
  ghost predicate PlansBatches(store: Store, among: seq<Key>, t0: map<Workflow, int>) {
    forall wf :: PlansBatch(store, among, wf, t0)
  }

  ghost predicate PlansBatch(store: Store, among: seq<Key>, wf: Workflow, t0: map<Workflow, int>) {
    if wf in t0 then Earliest(store, WaitingMembers(store, among, wf), t0[wf])
    else WaitingMembers(store, among, wf) == {}
  }

  function NextBatches(store: Store, k: Key, t0: map<Workflow, int>): map<Workflow, int>
    requires k in store
  {
    var e := store[k];
    if Untied(store, k) && e.batchWf != "" && (e.batchWf !in t0 || e.ts < t0[e.batchWf])
    then t0[e.batchWf := e.ts] else t0
  }

  lemma PlansNext(store: Store, among: seq<Key>, k: Key, t0: map<Workflow, int>)
    requires k in store && PlansBatches(store, among, t0)
    ensures PlansBatches(store, among + [k], NextBatches(store, k, t0))
  {
    forall wf
      ensures PlansBatch(store, among + [k], wf, NextBatches(store, k, t0))
    {
      assert PlansBatch(store, among, wf, t0);
      var keys := WaitingMembers(store, among, wf);
      if WantsBatch(store, k, wf) {
        assert WaitingMembers(store, among + [k], wf) == keys + {k};
        EarliestNext(store, keys, k, if wf in t0 then t0[wf] else 0);
      } else {
        assert WaitingMembers(store, among + [k], wf) == keys;
      }
    }
  }

  /** Each batch's run is looked for once, from its earliest waiting member on. */
  method PlanBatchLookups(store: Store, order: seq<Key>) returns (t0: map<Workflow, int>)
    requires Enumerates(order, store.Keys)
    ensures PlansBatches(store, order, t0)
  {
    t0 := map[];
    var i := 0;
    while i < |order|
      invariant 0 <= i <= |order|
      invariant PlansBatches(store, order[..i], t0)
    {
      var k := order[i];
      assert order[..i + 1] == order[..i] + [k];
      PlansNext(store, order[..i], k, t0);
      var e := store[k];
      if Untied(store, k) && e.batchWf != "" {
        if e.batchWf !in t0 || e.ts < t0[e.batchWf] {
          t0 := t0[e.batchWf := e.ts];
        }
      }
      i := i + 1;
    }
    assert order[..i] == order;
  }

  /** Every other untied cell gets a lookup of its own, once. */
  method PlanChains(store: Store, order: seq<Key>) returns (keys: seq<Key>)
    requires Enumerates(order, store.Keys)
    ensures Enumerates(keys, set k | k in store && WantsChain(store, k))
  {
    keys := [];
    var i := 0;
    while i < |order|
      invariant 0 <= i <= |order|
      invariant forall k :: k in keys <==> k in order[..i] && WantsChain(store, k)
      invariant forall a, b :: 0 <= a < b < |keys| ==> keys[a] != keys[b]
    {
      var k := order[i];
      assert order[..i + 1] == order[..i] + [k];
      assert k !in order[..i];
      if WantsChain(store, k) {
        keys := keys + [k];
      }
      i := i + 1;
    }
    assert order[..i] == order;
  }

  datatype Plan = Plan(askSnapshots: bool, snapshotsT0: int, batches: map<Workflow, int>, chains: seq<Key>)

  /** How many of the planned lookups look for the runs of one cell. */
  function LookupsFor(store: Store, p: Plan, k: Key): nat
    requires k in store
  {
    (if p.askSnapshots && k.cap == SNAPSHOTS_CAP then 1 else 0)
    + (if store[k].batchWf != "" && store[k].batchWf in p.batches then 1 else 0)
    + (if k in p.chains then 1 else 0)
  }

  /** The entry has no verdict and no run. */
  ghost predicate Searching(store: Store, k: Key) {
    k in store && store[k].failed.None? && store[k].done == 0 && |store[k].runs| == 0
  }

  /** Every cell without a verdict and without a run is looked for, by exactly one lookup
      unless a snapshot cell has been stamped with a batch, and no shared lookup starts after
      the cell was marked. Nothing else is looked for. */
  method PlanLookups(store: Store, order: seq<Key>) returns (p: Plan)
    requires Enumerates(order, store.Keys)
    requires forall k :: k in store ==> store[k].ts > 0
    ensures forall k :: Searching(store, k) ==>
      LookupsFor(store, p, k) == if k.cap == SNAPSHOTS_CAP && store[k].batchWf != "" then 2 else 1
    ensures forall k :: Searching(store, k) && k.cap == SNAPSHOTS_CAP ==>
      p.askSnapshots && p.snapshotsT0 <= store[k].ts
    ensures forall k :: Searching(store, k) && store[k].batchWf != "" ==>
      store[k].batchWf in p.batches && p.batches[store[k].batchWf] <= store[k].ts
    ensures p.askSnapshots ==> exists k :: Searching(store, k) && k.cap == SNAPSHOTS_CAP
    ensures forall wf :: wf in p.batches ==> wf != "" && exists k :: Searching(store, k) && store[k].batchWf == wf
    ensures forall k :: k in p.chains <==> Searching(store, k) && k.cap != SNAPSHOTS_CAP && store[k].batchWf == ""
    ensures forall i, j :: 0 <= i < j < |p.chains| ==> p.chains[i] != p.chains[j]
  {
    var ask, snapshotsT0 := PlanSnapshotLookup(store, order);
    var batches := PlanBatchLookups(store, order);
    var chains := PlanChains(store, order);
    p := Plan(ask, snapshotsT0, batches, chains);
    forall wf | wf in batches
      ensures wf != "" && exists k :: Searching(store, k) && store[k].batchWf == wf
    {
      assert PlansBatch(store, order, wf, batches);
      var k :| k in WaitingMembers(store, order, wf);
      assert Searching(store, k);
    }
    forall k | Searching(store, k)
      ensures k.cap == SNAPSHOTS_CAP ==> ask && snapshotsT0 <= store[k].ts
      ensures store[k].batchWf != "" ==> store[k].batchWf in batches && batches[store[k].batchWf] <= store[k].ts
      ensures k in chains <==> WantsChain(store, k)
    {
      assert k in order;
      if k.cap == SNAPSHOTS_CAP {
        assert k in LiveSnapshots(store, order);
      }
      assert PlansBatch(store, order, store[k].batchWf, batches);
      if store[k].batchWf != "" {
        assert k in WaitingMembers(store, order, store[k].batchWf);
      }
    }
  }
}
