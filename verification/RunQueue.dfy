/** The run queue as the dashboard script keeps it: handlers that load the store, change
    it in place and save it. Each is proved against the functions of RunStore, whose
    properties over whole runs are proved in Protocol, Lifecycle, Places and Lookups.
    The order in which a handler visits the keys is a parameter: the outcome does not
    depend on it. */
module RunQueue {
  import opened Options
  import opened RunStore
  import opened Sorting
  import opened Grouping
  import opened Places
  import opened Labels
  import L = Lookups

  /** The (workflow, platform) pairs of an entry whose platform still has no run. */
  function Needed(targets: Targets, cap: string, plats: seq<Platform>, runs: seq<Slot>): seq<(Workflow, Platform)> {
    if plats == [] || cap !in targets then []
    else if plats[0] in targets[cap] && !HasPlat(runs, plats[0]) then
      [(targets[cap][plats[0]], plats[0])] + Needed(targets, cap, plats[1..], runs)
    else Needed(targets, cap, plats[1..], runs)
  }

  function AsksOf(groups: seq<Group<Workflow, Platform>>): (asks: seq<Ask>)
    ensures |asks| == |groups|
    ensures forall i :: 0 <= i < |asks| ==> asks[i] == Ask(groups[i].key, groups[i].members)
  {
    if groups == [] then [] else [Ask(groups[0].key, groups[0].members)] + AsksOf(groups[1..])
  }

  lemma AsksOfAdd(groups: seq<Group<Workflow, Platform>>, wf: Workflow, plat: Platform)
    ensures var i := Find(groups, wf);
      AsksOf(Add(groups, wf, plat)) ==
        if i < |groups| then AsksOf(groups)[i := Ask(wf, AsksOf(groups)[i].plats + [plat])]
        else AsksOf(groups) + [Ask(wf, [plat])]
  {
    var i := Find(groups, wf);
    var r := Add(groups, wf, plat);
    forall j | 0 <= j < |r|
      ensures AsksOf(r)[j] == Ask(r[j].key, r[j].members)
    {
    }
  }

  function AskedWorkflow(a: Ask): Workflow {
    a.wf
  }

  /** The questions a lookup puts to GitHub: one per workflow. */
  function Questions(targets: Targets, key: Key, e: Entry): seq<Ask> {
    AsksOf(GroupBy(Needed(targets, key.cap, e.plats, e.runs)))
  }

  lemma AskedIffNeeded(targets: Targets, key: Key, e: Entry)
    ensures Questions(targets, key, e) != [] <==> Needed(targets, key.cap, e.plats, e.runs) != []
  {
    var need := Needed(targets, key.cap, e.plats, e.runs);
    if need != [] {
      GroupByPartitions(need, need[0].0);
      assert ValuesOf(need, need[0].0) != [];
    }
  }

  /** The platform runs on the workflow wf, and no slot stands for it. */
  predicate Lacks(targets: Targets, cap: string, runs: seq<Slot>, wf: Workflow, plat: Platform) {
    && cap in targets && plat in targets[cap] && targets[cap][plat] == wf
    && forall i :: 0 <= i < |runs| ==> runs[i].plat != plat
  }

  /** The platforms of the workflow without a run, in the order of `plats`. */
  ghost function Lacking(targets: Targets, cap: string, plats: seq<Platform>, runs: seq<Slot>, wf: Workflow)
    : seq<Platform>
  {
    Filter(plats, (p: Platform) => Lacks(targets, cap, runs, wf, p))
  }

  lemma {:induction false} NeededAreLacking(targets: Targets, cap: string, plats: seq<Platform>, runs: seq<Slot>,
                                            wf: Workflow)
    ensures ValuesOf(Needed(targets, cap, plats, runs), wf) == Lacking(targets, cap, plats, runs, wf)
    decreases |plats|
  {
    if plats != [] {
      NeededAreLacking(targets, cap, plats[1..], runs, wf);
      if cap in targets && plats[0] in targets[cap] && !HasPlat(runs, plats[0]) {
        var rest := Needed(targets, cap, plats[1..], runs);
        var first := (targets[cap][plats[0]], plats[0]);
        assert ([first] + rest)[1..] == rest;
      }
      if cap !in targets {
        NothingLacks(targets, cap, plats, runs, wf);
      }
    }
  }

  lemma {:induction false} NothingLacks(targets: Targets, cap: string, plats: seq<Platform>, runs: seq<Slot>,
                                        wf: Workflow)
    requires cap !in targets
    ensures Lacking(targets, cap, plats, runs, wf) == []
  {
    if plats != [] {
      NothingLacks(targets, cap, plats[1..], runs, wf);
    }
  }

  /** No workflow is asked about twice; the question about a workflow is about exactly those
      platforms of the entry that run on it and have no slot, in the entry's order; and a
      workflow with such a platform is asked about. */
  lemma QuestionsCoverNeeds(targets: Targets, key: Key, e: Entry, wf: Workflow)
    ensures var asks := Questions(targets, key, e);
      var lacking := Lacking(targets, key.cap, e.plats, e.runs, wf);
      && (forall i, j :: 0 <= i < j < |asks| ==> asks[i].wf != asks[j].wf)
      && (forall i :: 0 <= i < |asks| && asks[i].wf == wf ==> asks[i].plats == lacking != [])
      && (lacking != [] ==> exists i :: 0 <= i < |asks| && asks[i].wf == wf)
  {
    var need := Needed(targets, key.cap, e.plats, e.runs);
    var groups := GroupBy(need);
    NeededAreLacking(targets, key.cap, e.plats, e.runs, wf);
    GroupByPartitions(need, wf);
    forall i | 0 <= i < |groups| && groups[i].key == wf
      ensures groups[i].members == ValuesOf(need, wf)
    {
      FindUnique(groups, i);
    }
    if ValuesOf(need, wf) != [] {
      assert AsksOf(groups)[Find(groups, wf)].wf == wf;
    }
  }

  /** The entry of the cell lacks a run for its platform plat, on the workflow wf. */
  ghost predicate Missing(targets: Targets, store: Store, key: Key, wf: Workflow, plat: Platform) {
    key in store && plat in store[key].plats && Lacks(targets, key.cap, store[key].runs, wf, plat)
  }

  ghost predicate SomeMissing(targets: Targets, store: Store, key: Key) {
    exists wf, plat :: Missing(targets, store, key, wf, plat)
  }

  ghost predicate Asked(asks: seq<Ask>, wf: Workflow, plat: Platform) {
    exists i :: 0 <= i < |asks| && asks[i].wf == wf && plat in asks[i].plats
  }

  /** The questions are about the missing runs and nothing else. */
  ghost predicate AskedIffMissing(asks: seq<Ask>, targets: Targets, store: Store, key: Key) {
    forall wf, plat :: Asked(asks, wf, plat) <==> Missing(targets, store, key, wf, plat)
  }

  lemma QuestionsAskForMissing(targets: Targets, store: Store, key: Key)
    requires key in store
    ensures AskedIffMissing(Questions(targets, key, store[key]), targets, store, key)
  {
    var e := store[key];
    forall wf, plat
      ensures Asked(Questions(targets, key, e), wf, plat) <==> Missing(targets, store, key, wf, plat)
    {
      QuestionsCoverNeeds(targets, key, e, wf);
      FilterMembers(e.plats, (p: Platform) => Lacks(targets, key.cap, e.runs, wf, p));
    }
  }

  /** A lookup goes on exactly while some platform lacks its run. */
  lemma NeededIffMissing(targets: Targets, store: Store, key: Key)
    requires key in store
    ensures Needed(targets, key.cap, store[key].plats, store[key].runs) != [] <==> SomeMissing(targets, store, key)
  {
    var e := store[key];
    var asks := Questions(targets, key, e);
    QuestionsAskForMissing(targets, store, key);
    AskedIffNeeded(targets, key, e);
    if asks != [] {
      QuestionsCoverNeeds(targets, key, e, asks[0].wf);
      assert Asked(asks, asks[0].wf, asks[0].plats[0]);
    }
  }

  predicate HasVerdict(e: Entry, byId: map<RunId, RunInfo>) {
    var ids := EntryIds(e.runs);
    !Terminal(e) && ids != []
    && (AnyActive(ids, byId) || (AnyBroke(ids, byId) && AllKnown(ids, byId)) || AllCompleted(ids, byId))
  }

  ghost predicate AnyVerdict(store: Store, byId: map<RunId, RunInfo>) {
    exists k :: k in store && HasVerdict(store[k], byId)
  }

  ghost predicate VerdictAmong(store: Store, byId: map<RunId, RunInfo>, keys: seq<Key>) {
    exists k :: k in keys && k in store && HasVerdict(store[k], byId)
  }

  lemma VerdictAmongNext(store: Store, byId: map<RunId, RunInfo>, keys: seq<Key>, k: Key)
    ensures VerdictAmong(store, byId, keys + [k]) <==>
      VerdictAmong(store, byId, keys) || (k in store && HasVerdict(store[k], byId))
  {
    if VerdictAmong(store, byId, keys) {
      var q :| q in keys && q in store && HasVerdict(store[q], byId);
      assert q in keys + [k];
    }
    assert k in keys + [k];
  }

  predicate OldestFirst(a: (Key, int), b: (Key, int)) {
    a.1 <= b.1
  }

  function LiveOf(store: Store, order: seq<Key>, now: int, tok: bool): seq<(Key, int)> {
    if order == [] then []
    else if order[0] in store && InQueue(store[order[0]], now, tok) then
      [(order[0], store[order[0]].ts)] + LiveOf(store, order[1..], now, tok)
    else LiveOf(store, order[1..], now, tok)
  }

  lemma {:induction false} LiveOfMembers(store: Store, order: seq<Key>, now: int, tok: bool)
    ensures forall p :: p in LiveOf(store, order, now, tok) <==>
      p.0 in order && p.0 in store && InQueue(store[p.0], now, tok) && p.1 == store[p.0].ts
  {
    if order != [] {
      LiveOfMembers(store, order[1..], now, tok);
      forall p
        ensures p in LiveOf(store, order, now, tok) <==>
          p.0 in order && p.0 in store && InQueue(store[p.0], now, tok) && p.1 == store[p.0].ts
      {
        assert p.0 in order <==> p.0 == order[0] || p.0 in order[1..];
      }
    }
  }

  class Queue {
    var store: Store
    var page: Page
    var capturing: map<Key, seq<L.Callback>>
    var havePositions: bool
    var queuePos: map<RunId, nat>
    var queueTotal: nat
    var queueAt: int
    var flight: seq<L.Chain>          // the closures waiting for a reply or a timer
    ghost var invoked: seq<L.Callback>

    constructor ()
      ensures store == map[] && page == map[] && !havePositions
      ensures LookupState() == L.IDLE
    {
      store, page, capturing := map[], map[], map[];
      havePositions, queuePos, queueTotal, queueAt := false, map[], 0, 0;
      flight, invoked := [], [];
    }

    ghost function LookupState(): L.State
      reads this
    {
      L.State(capturing, flight, invoked)
    }

    // ----- marking and forgetting -----

    method MarkQueued(key: Key, plats: seq<Platform>, parent: string, ts: int, now: int)
      modifies this`store
      ensures store == MarkStore(old(store), key, plats, parent, ts, now)
    {
      var ts', parent', runs' := ts, parent, [];
      if key in store {
        var prev := store[key];
        if ts' == 0 {
          ts' := prev.ts;
        }
        if parent' == "" {
          parent' := prev.parent;
        }
        runs' := prev.runs;
      }
      if ts' == 0 {
        ts' := now;
      }
      store := store[key := Entry(ts', plats, parent', runs', "", 0, None, 0)];
    }

    /** A report page queues its own cell anew. */
    method Rerun(key: Key, plat: Platform, now: int)
      modifies this`store
      ensures store == RerunStore(old(store), key, plat, now)
    {
      store := store[key := Entry(now, [plat], "", [], "", 0, None, 0)];
    }

    method Forget(key: Key)
      modifies this`store
      ensures store == ForgetStore(old(store), key)
    {
      store := store - {key};
    }

    /** Records the backfill workflow on the members of a batch. */
    method Stamp(keys: seq<Key>, wf: Workflow)
      modifies this`store
      ensures store == StampStore(old(store), (set k | k in keys), wf)
    {
      var i := 0;
      while i < |keys|
        invariant 0 <= i <= |keys|
        invariant store == StampStore(old(store), (set k | k in keys[..i]), wf)
      {
        var k := keys[i];
        assert keys[..i + 1] == keys[..i] + [k];
        if k in store {
          store := store[k := store[k].(batchWf := wf)];
        }
        i := i + 1;
      }
      assert keys[..i] == keys;
    }

    // ----- attributing runs -----

    method ClaimedRunIds(order: seq<Key>) returns (claim: set<RunId>)
      requires Enumerates(order, store.Keys)
      ensures claim == ClaimedIds(store)
    {
      claim := {};
      var i := 0;
      while i < |order|
        invariant 0 <= i <= |order|
        invariant claim == set k, j | k in order[..i] && k in store && 0 <= j < |store[k].runs|
            && store[k].runs[j].id != ""
                                   :: store[k].runs[j].id
      {
        var ids := SlotIds(store[order[i]].runs);
        assert order[..i + 1] == order[..i] + [order[i]];
        claim := claim + ids;
        i := i + 1;
      }
      assert order[..i] == order;
    }

    /** Groups the platforms still without a run by their workflow. */
    method AskPerWorkflow(need: seq<(Workflow, Platform)>) returns (asks: seq<Ask>)
      ensures asks == AsksOf(GroupBy(need))
    {
      asks := [];
      ghost var groups: seq<Group<Workflow, Platform>> := [];
      var i := 0;
      while i < |need|
        invariant 0 <= i <= |need|
        invariant asks == AsksOf(groups)
        invariant AddAll(groups, need[i..]) == GroupBy(need)
      {
        var (wf, plat) := need[i];
        var j := IndexOfKey(asks, AskedWorkflow, wf);
        FindIs(groups, wf, j);
        AsksOfAdd(groups, wf, plat);
        groups := Add(groups, wf, plat);
        if j < |asks| {
          asks := asks[j := Ask(wf, asks[j].plats + [plat])];
        } else {
          asks := asks + [Ask(wf, [plat])];
        }
        i := i + 1;
      }
    }

    method Done(key: Key)
      modifies this`capturing, this`invoked
      ensures LookupState() == L.Finish(old(LookupState()), key)
    {
      if key in capturing {
        invoked := invoked + capturing[key];
        capturing := capturing - {key};
      }
    }

    /** The questions that the entry of a cell needs answered. */
    function QuestionsNow(targets: Targets, key: Key): seq<Ask>
      reads this`store
    {
      if key in store then Questions(targets, key, store[key]) else []
    }

    /** A caller asks which runs belong to a cell. Returns the questions to send: none when
        the caller joins a lookup in flight or there is nothing to look up, and some exactly
        when a chain starts. */
    method CaptureRuns(targets: Targets, key: Key, cb: Option<L.Callback>, tok: bool) returns (asks: seq<Ask>)
      modifies this`capturing, this`flight, this`invoked
      ensures LookupState() == L.Call(old(LookupState()), key, cb,
        tok && key in store && Needed(targets, key.cap, store[key].plats, store[key].runs) != [])
      ensures asks == if key !in old(capturing) && tok then QuestionsNow(targets, key) else []
      ensures |flight| > |old(flight)| <==> key !in old(capturing) && tok && SomeMissing(targets, store, key)
      ensures if |flight| > |old(flight)| then AskedIffMissing(asks, targets, store, key) else asks == []
    {
      asks := [];
      if key in capturing {
        if cb.Some? {
          capturing := capturing[key := capturing[key] + [cb.value]];
        } else {
          assert capturing[key] + [] == capturing[key];
          assert capturing[key := capturing[key]] == capturing;
        }
        return;
      }
      capturing := capturing[key := if cb.Some? then [cb.value] else []];
      if !tok || key !in store {
        Done(key);
        return;
      }
      var need := Needed(targets, key.cap, store[key].plats, store[key].runs);
      NeededIffMissing(targets, store, key);
      QuestionsAskForMissing(targets, store, key);
      AskedIffNeeded(targets, key, store[key]);
      if need == [] {
        Done(key);
        return;
      }
      asks := AskPerWorkflow(need);
      flight := flight + [L.Chain(key, 1, 1, L.AwaitReply)];
    }

    /** Hands candidates of one workflow to the platforms that still need a run. */
    method ClaimFor(wf: Workflow, plats: seq<Platform>, candidates: seq<RunInfo>, runs: seq<Slot>, claim: set<RunId>)
      returns (slots: seq<Slot>, held: set<RunId>)
      ensures slots == Assign(wf, plats, candidates, runs)
      ensures held + SlotIds(runs) == claim + SlotIds(slots)
      ensures claim <= held
    {
      slots, held := runs, claim;
      var cands := candidates;
      var i := 0;
      while i < |plats|
        invariant 0 <= i <= |plats|
        invariant Assign(wf, plats, candidates, runs) == Assign(wf, plats[i..], cands, slots)
        invariant held + SlotIds(runs) == claim + SlotIds(slots)
        invariant claim <= held
      {
        if !HasPlat(slots, plats[i]) && cands != [] {
          var c := cands[0];
          cands := cands[1..];
          var slot := Slot(wf, plats[i], c.id, c.url, c.status);
          SlotIdsAppend(slots, slot);
          slots := slots + [slot];
          if c.id != "" {
            held := held + {c.id};
          }
        }
        i := i + 1;
      }
    }

    /** The replies of one pass: attributes runs, then ends the lookup or starts the
        timer of the next pass. */
    method CaptureReply(targets: Targets, i: nat, asks: seq<Ask>, replies: seq<seq<RunInfo>>, t0: int, order: seq<Key>)
      requires |asks| == |replies|
      requires i < |flight| && flight[i].phase.AwaitReply?
      requires Enumerates(order, store.Keys)
      modifies this`store, this`capturing, this`flight, this`invoked
      ensures store == CaptureStore(old(store), old(flight[i].key), asks, replies, t0)
      ensures var key := old(flight[i].key);
        LookupState() == L.Reply(old(LookupState()), i,
          key in store && Needed(targets, key.cap, store[key].plats, store[key].runs) != [])
      ensures var c := old(flight[i]);
        if c.attempt < L.MAX_PASSES && SomeMissing(targets, store, c.key)
        then flight == old(flight)[i := c.(phase := L.AwaitTimer)] && capturing == old(capturing)
        else flight == old(flight[..i] + flight[i + 1..]) && c.key !in capturing
    {
      var chain := flight[i];
      var key := chain.key;
      if key !in store {
        flight := L.Without(flight, i);
        Done(key);
        return;
      }
      var claim := ClaimedRunIds(order);
      ghost var base := claim;
      var e := store[key];
      var runs' := e.runs;
      OwnIdsAreClaimed(store, key);
      var j := 0;
      while j < |asks|
        invariant 0 <= j <= |asks|
        invariant claim == base + SlotIds(runs')
        invariant SlotIds(e.runs) <= base
        modifies {}
        invariant ClaimReplies(asks, replies, t0, base, e.runs)
            == ClaimReplies(asks[j..], replies[j..], t0, base, runs')
      {
        var cands := Candidates(replies[j], t0, claim);
        assert asks[j..][1..] == asks[j + 1..] && replies[j..][1..] == replies[j + 1..];
        ghost var before := runs';
        runs', claim := ClaimFor(asks[j].wf, asks[j].plats, cands, runs', claim);
        AssignKeepsIds(asks[j].wf, asks[j].plats, cands, before);
        j := j + 1;
      }
      store := store[key := e.(runs := runs')];
      NeededIffMissing(targets, store, key);
      if Needed(targets, key.cap, e.plats, runs') != [] && chain.attempt < L.MAX_PASSES {
        flight := flight[i := chain.(phase := L.AwaitTimer)];
      } else {
        flight := L.Without(flight, i);
        Done(key);
      }
    }

    /** The timer of a chain fires: ask again, unless the token or the entry has gone or
        nothing is left to find. */
    method CaptureTimer(targets: Targets, i: nat, tok: bool) returns (asks: seq<Ask>)
      requires i < |flight| && flight[i].phase.AwaitTimer?
      modifies this`capturing, this`flight, this`invoked
      ensures var key := old(flight[i].key);
        LookupState() == L.Timer(old(LookupState()), i,
          tok && key in store && Needed(targets, key.cap, store[key].plats, store[key].runs) != [])
      ensures asks == if tok then QuestionsNow(targets, old(flight[i].key)) else []
      ensures var c := old(flight[i]);
        if tok && SomeMissing(targets, store, c.key)
        then flight == old(flight)[i := L.Chain(c.key, c.attempt + 1, c.passes + 1, L.AwaitReply)]
             && capturing == old(capturing) && AskedIffMissing(asks, targets, store, c.key)
        else flight == old(flight[..i] + flight[i + 1..]) && c.key !in capturing && asks == []
    {
      asks := [];
      var chain := flight[i];
      var key := chain.key;
      if tok && key in store {
        var need := Needed(targets, key.cap, store[key].plats, store[key].runs);
        NeededIffMissing(targets, store, key);
        QuestionsAskForMissing(targets, store, key);
        AskedIffNeeded(targets, key, store[key]);
        if need != [] {
          asks := AskPerWorkflow(need);
          flight := flight[i := L.Chain(key, chain.attempt + 1, chain.passes + 1, L.AwaitReply)];
          return;
        }
      }
      flight := L.Without(flight, i);
      Done(key);
    }

    /** Writes the one snapshots backfill run into every snapshot entry without a run. */
    method CaptureSnapshotRun(runs: seq<RunInfo>, t0: int, order: seq<Key>)
      requires Enumerates(order, store.Keys)
      modifies this`store
      ensures store == SnapshotStore(old(store), runs, t0)
    {
      var found := Newest(runs, t0);
      if found.None? {
        return;
      }
      var run := found.value;
      ghost var was := store;
      var i := 0;
      while i < |order|
        invariant 0 <= i <= |order|
        invariant ChangedUpTo(was, Sharing(SnapshotKeys(was), SNAPSHOTS_WF, false, run), order[..i], store)
      {
        var k := order[i];
        assert order[..i + 1] == order[..i] + [k] && k !in order[..i];
        SharedNext(was, SnapshotKeys(was), SNAPSHOTS_WF, false, run, order[..i], store, k);
        if k.cap == SNAPSHOTS_CAP && store[k].runs == [] {
          store := store[k := store[k].(runs := [Slot(SNAPSHOTS_WF, "all", run.id, run.url, run.status)])];
        }
        i := i + 1;
      }
      assert order[..i] == order;
      SharedAll(was, SnapshotKeys(was), SNAPSHOTS_WF, false, run, order, store);
    }

    /** Writes the one run of a warm-container batch into every entry stamped with its
        workflow that has no run yet. */
    method CaptureBatchRun(wf: Workflow, runs: seq<RunInfo>, t0: int, order: seq<Key>)
      requires Enumerates(order, store.Keys)
      modifies this`store
      ensures store == BatchStore(old(store), wf, runs, t0)
    {
      var found := Newest(runs, t0);
      if found.None? {
        return;
      }
      var run := found.value;
      ghost var was := store;
      var i := 0;
      while i < |order|
        invariant 0 <= i <= |order|
        invariant ChangedUpTo(was, Sharing(BatchKeys(was, wf), wf, true, run), order[..i], store)
      {
        var k := order[i];
        assert order[..i + 1] == order[..i] + [k] && k !in order[..i];
        SharedNext(was, BatchKeys(was, wf), wf, true, run, order[..i], store, k);
        if store[k].batchWf == wf && store[k].runs == [] {
          store := store[k := store[k].(runs := [Slot(wf, FirstPlat(store[k]), run.id, run.url, run.status)])];
        }
        i := i + 1;
      }
      assert order[..i] == order;
      SharedAll(was, BatchKeys(was, wf), wf, true, run, order, store);
    }

    // ----- reconciling with the live run list -----

    /** Collects the runs that wait for a runner. */
    method CollectWaiting(byId: map<RunId, RunInfo>, ids: seq<RunId>) returns (inLine: seq<InLine>)
      requires Enumerates(ids, byId.Keys)
      ensures inLine == WaitingRuns(ids, byId)
    {
      inLine := [];
      var i := 0;
      while i < |ids|
        invariant 0 <= i <= |ids|
        invariant inLine + WaitingRuns(ids[i..], byId) == WaitingRuns(ids, byId)
      {
        if Waits(byId[ids[i]].status) {
          inLine := inLine + [InLine(ids[i], byId[ids[i]].created)];
        }
        i := i + 1;
      }
    }

    /** Numbers the runs that wait for a runner, oldest first. */
    method BuildLine(byId: map<RunId, RunInfo>, ids: seq<RunId>, now: int)
      requires Enumerates(ids, byId.Keys)
      modifies this`havePositions, this`queuePos, this`queueTotal, this`queueAt
      ensures havePositions && Numbers(queuePos, Line(ids, byId)) && queueTotal == |Line(ids, byId)| && queueAt == now
    {
      var inLine := CollectWaiting(byId, ids);
      inLine := Sort(inLine, BeforeOrSame);
      LineIsStrict(ids, byId);
      NumberLine(inLine);
      havePositions, queueTotal, queueAt := true, |inLine|, now;
    }

    /** Gives the runs of the line their numbers. */
    method NumberLine(inLine: seq<InLine>)
      requires Apart(inLine, LineId)
      modifies this`queuePos
      ensures Numbers(queuePos, inLine)
    {
      queuePos := map[];
      var i := 0;
      while i < |inLine|
        invariant 0 <= i <= |inLine|
        invariant Numbers(queuePos, inLine[..i])
      {
        NumbersNext(queuePos, inLine, i);
        queuePos := queuePos[inLine[i].id := i + 1];
        i := i + 1;
      }
      assert inLine[..i] == inLine;
    }

    /** The flag loop that decides one entry's verdict. */
    method Judge(e: Entry, byId: map<RunId, RunInfo>, now: int) returns (e': Entry, changed: bool)
      ensures e' == Judged(e, byId, now)
      ensures changed == HasVerdict(e, byId)
    {
      e', changed := e, false;
      if Terminal(e) {
        return;
      }
      var ids := EntryIds(e.runs);
      if ids == [] {
        return;
      }
      var anyActive, anyFail, allKnown, allDone, failUrl := false, false, true, true, "";
      var i := 0;
      while i < |ids|
        invariant 0 <= i <= |ids|
        invariant anyActive == AnyActive(ids[..i], byId)
        invariant anyFail == AnyBroke(ids[..i], byId)
        invariant allKnown == AllKnown(ids[..i], byId)
        invariant allDone == AllCompleted(ids[..i], byId)
        invariant FailUrl(ids, byId) == if failUrl != "" then failUrl else FailUrl(ids[i..], byId)
      {
        var id := ids[i];
        assert ids[..i + 1] == ids[..i] + [id];
        FlagsNext(ids[..i], id, byId);
        if id !in byId {
          allKnown, allDone := false, false;
        } else {
          var run := byId[id];
          if Active(run.status) {
            anyActive, allDone := true, false;
          } else if run.status.Completed? {
            if Failing(run.conclusion) {
              anyFail := true;
              if failUrl == "" {
                failUrl := run.url;
              }
            }
          } else {
            allDone := false;
          }
        }
        i := i + 1;
      }
      assert ids[..i] == ids;
      if anyActive {
        e', changed := e.(activeAt := now), true;
      } else if anyFail && allKnown {
        e', changed := e.(failed := Some(failUrl)), true;
      } else if allKnown && allDone {
        e', changed := e.(done := now), true;
      }
    }

    /** Judges every entry; reports whether any verdict was reached. */
    method JudgeAll(byId: map<RunId, RunInfo>, now: int, order: seq<Key>) returns (changed: bool)
      requires Enumerates(order, store.Keys)
      modifies this`store
      ensures store == SyncStore(old(store), byId, now)
      ensures changed <==> AnyVerdict(old(store), byId)
    {
      ghost var was := store;
      changed := false;
      var i := 0;
      while i < |order|
        invariant 0 <= i <= |order| && ChangedUpTo(was, Judging(byId, now), order[..i], store)
        invariant changed <==> VerdictAmong(was, byId, order[..i])
      {
        var k := order[i];
        assert order[..i + 1] == order[..i] + [k] && k !in order[..i];
        JudgedNext(was, byId, now, order[..i], store, k);
        var e', verdict := Judge(store[k], byId, now);
        VerdictAmongNext(was, byId, order[..i], k);
        store := store[k := e'];
        changed := changed || verdict;
        i := i + 1;
      }
      assert order[..i] == order;
      JudgedAll(was, byId, now, order, store);
      assert VerdictAmong(was, byId, order) <==> AnyVerdict(was, byId);
    }

    /** The live run list arrives: rebuild the line, judge every entry, re-apply the overlays
        if any verdict was reached, and number the badges by their real places. */
    method SyncReply(byId: map<RunId, RunInfo>, ids: seq<RunId>, now: int, tok: bool, order: seq<Key>)
      returns (labels: map<Key, nat>, live: seq<Key>)
      requires Enumerates(ids, byId.Keys) && Enumerates(order, store.Keys)
      modifies this`store, this`page, this`havePositions, this`queuePos, this`queueTotal, this`queueAt
      ensures var applied := AnyVerdict(old(store), byId);
        && store == Synced(old(store), old(page), byId, now, tok, applied)
        && page == (if applied then ApplyPage(SyncStore(old(store), byId, now), old(page), now, tok) else old(page))
      ensures PlacesAreFresh(now) && Numbers(queuePos, Line(ids, byId)) && queueTotal == |Line(ids, byId)|
      ensures Labelled(store, page, now, tok, true, queuePos, queueTotal, live, labels)
    {
      BuildLine(byId, ids, now);
      var changed := JudgeAll(byId, now, order);
      if changed {
        ApplyQueued(now, tok, order);
      }
      labels, live := RenumberKept(order, now, tok);
    }

    /** Numbers the badges after some of the keys have been dropped. */
    method RenumberKept(order: seq<Key>, now: int, tok: bool) returns (labels: map<Key, nat>, live: seq<Key>)
      requires (forall i, j :: 0 <= i < j < |order| ==> order[i] != order[j]) && store.Keys <= (set k | k in order)
      ensures Labelled(store, page, now, tok, PlacesAreFresh(now), queuePos, queueTotal, live, labels)
    {
      var kept := [];
      var i := 0;
      while i < |order|
        invariant 0 <= i <= |order|
        invariant forall k :: k in kept <==> k in order[..i] && k in store
        invariant forall a, b :: 0 <= a < b < |kept| ==> kept[a] != kept[b]
      {
        assert order[..i + 1] == order[..i] + [order[i]];
        assert order[i] !in order[..i];
        if order[i] in store {
          kept := kept + [order[i]];
        }
        i := i + 1;
      }
      assert order[..i] == order;
      labels, live := Renumber(kept, now, tok);
    }

    /** Re-applies the remembered badges to the page, dropping the entries that are
        settled or that can no longer be tied to a run. */
    method ApplyQueued(now: int, tok: bool, order: seq<Key>)
      requires Enumerates(order, store.Keys)
      modifies this`store, this`page
      ensures store == ApplyStore(old(store), old(page), now, tok)
      ensures page == ApplyPage(old(store), old(page), now, tok)
    {
      ghost var was, pageWas := store, page;
      var i := 0;
      while i < |order|
        invariant 0 <= i <= |order|
        invariant Applied(was, pageWas, order[..i], now, tok, store, page)
      {
        var k := order[i];
        assert order[..i + 1] == order[..i] + [k];
        assert k !in order[..i];
        AppliedNext(was, pageWas, order[..i], k, now, tok, store, page);
        ApplyOne(k, now, tok);
        i := i + 1;
      }
      assert order[..i] == order;
      AppliedAll(was, pageWas, order, now, tok, store, page);
    }

    /** One key of `ApplyQueued`, with the branches of the script. */
    method ApplyOne(k: Key, now: int, tok: bool)
      requires k in store
      modifies this`store, this`page
      ensures var keeps := Keeps(old(store)[k], CellAt(old(page), k), now, tok);
        && store == (if keeps then old(store) else old(store) - {k})
        && page == (if keeps && k in old(page)
                    then old(page)[k := PaintedCell(old(store)[k], old(page)[k])] else old(page))
    {
      var e := store[k];
      var c := CellAt(page, k);
      if e.failed.Some? {
        if c.result.Some? && c.result.value != 0 && c.result.value > e.ts {
          store := store - {k};
          return;
        }
        PaintFailed(k, c);
        return;
      }
      if e.done != 0 && (c.result.Some? || now - e.done > QDONE) {
        store := store - {k};
        return;
      }
      var alive := (HasRun(e) && tok) || now - e.ts <= QTTL || (e.activeAt != 0 && now - e.activeAt <= QTTL);
      if !alive {
        store := store - {k};
        return;
      }
      if Painted(c) {
        assert page == if k in page then page[k := c] else page;
      } else if c.glyph {
        PaintIfShown(k, c.(badge := QueuedBadge, glyph := false));
      } else if c.result.Some? {
        if c.result.value != 0 && c.result.value > e.ts {
          store := store - {k};
        } else {
          PaintIfShown(k, c.(badge := QueuedBadge));
        }
      } else {
        store := store - {k};
      }
    }

    method PaintFailed(k: Key, c: Cell)
      requires c == CellAt(page, k)
      modifies this`page
      ensures page == if k in old(page) && OnPage(c)
        then old(page)[k := c.(badge := FailedBadge, glyph := c.glyph && Painted(c))] else old(page)
    {
      if Painted(c) {
        PaintIfShown(k, c.(badge := FailedBadge));
      } else if c.glyph {
        PaintIfShown(k, c.(badge := FailedBadge, glyph := false));
      } else if c.result.Some? {
        PaintIfShown(k, c.(badge := FailedBadge));
      }
    }

    method PaintIfShown(k: Key, c: Cell)
      modifies this`page
      ensures page == if k in old(page) then old(page)[k := c] else old(page)
    {
      if k in page {
        page := page[k := c];
      }
    }

    // ----- numbering -----

    /** The cells still in line, oldest first. */
    method LiveEntries(order: seq<Key>, now: int, tok: bool) returns (live: seq<Key>)
      requires Enumerates(order, store.Keys)
      ensures IsLine(store, now, tok, live)
    {
      var found := Sort(LiveOf(store, order, now, tok), OldestFirst);
      LiveLineFacts(store, order, now, tok);
      live := [];
      var i := 0;
      while i < |found|
        invariant 0 <= i <= |found|
        invariant |live| == i
        invariant forall j :: 0 <= j < i ==> live[j] == found[j].0
      {
        live := live + [found[i].0];
        i := i + 1;
      }
      FoundIsLine(store, now, tok, found, live);
    }

    /** Whether the place of every waiting run is known and fresh. */
    predicate PlacesAreFresh(now: int)
      reads this`havePositions, this`queueAt
    {
      havePositions && now - queueAt <= QPOSTTL
    }

    /** Stamps the number of every queued badge that is still in line; 0 is a blank. */
    method Renumber(order: seq<Key>, now: int, tok: bool) returns (labels: map<Key, nat>, live: seq<Key>)
      requires Enumerates(order, store.Keys)
      ensures var fetched := havePositions && now - queueAt <= QPOSTTL;
        Labelled(store, page, now, tok, fetched, queuePos, queueTotal, live, labels)
    {
      live := LiveEntries(order, now, tok);
      var fetched := havePositions && now - queueAt <= QPOSTTL;
      var inLine := if fetched then queueTotal else |live|;
      labels := map[];
      var i := 0;
      while i < |live|
        invariant 0 <= i <= |live|
        invariant forall k :: k in labels <==> k in live[..i] && CellAt(page, k).badge.QueuedBadge?
        invariant forall j :: 0 <= j < i && live[j] in labels ==>
          labels[live[j]] == Label(fetched, queuePos, inLine, store[live[j]].runs, j + 1)
      {
        var k := live[i];
        assert live[..i + 1] == live[..i] + [k];
        if CellAt(page, k).badge.QueuedBadge? {
          var earliest := 0;
          if fetched {
            earliest := EarliestPlace(store[k].runs);
          }
          labels := labels[k := if inLine <= 1 then 0
                                else if earliest != 0 then earliest
                                else if !fetched then i + 1 else 0];
        }
        i := i + 1;
      }
      assert live[..i] == live;
    }

    method EarliestPlace(runs: seq<Slot>) returns (earliest: nat)
      ensures earliest == BestPlace(runs, queuePos, 0)
    {
      earliest := 0;
      var i := 0;
      while i < |runs|
        invariant 0 <= i <= |runs|
        invariant BestPlace(runs, queuePos, 0) == BestPlace(runs[i..], queuePos, earliest)
      {
        var p := if runs[i].id != "" && runs[i].id in queuePos then queuePos[runs[i].id] else 0;
        if p != 0 && (earliest == 0 || p < earliest) {
          earliest := p;
        }
        i := i + 1;
      }
    }
  }

  // ----- facts the methods use -----

  /** The store after the entries of the keys in `seen` have been changed by f. */
  ghost predicate ChangedUpTo(was: Store, f: (Key, Entry) -> Entry, seen: seq<Key>, store: Store) {
    store.Keys == was.Keys && forall k :: k in was ==> store[k] == if k in seen then f(k, was[k]) else was[k]
  }

  lemma ChangedNext(was: Store, f: (Key, Entry) -> Entry, seen: seq<Key>, store: Store, k: Key)
    requires ChangedUpTo(was, f, seen, store) && k in was && k !in seen
    ensures k in store && store[k] == was[k] && ChangedUpTo(was, f, seen + [k], store[k := f(k, was[k])])
  {
  }

  lemma ChangedAll(was: Store, f: (Key, Entry) -> Entry, order: seq<Key>, store: Store)
    requires Enumerates(order, was.Keys) && ChangedUpTo(was, f, order, store)
    ensures store == map k | k in was :: f(k, was[k])
  {
  }

  function Judging(byId: map<RunId, RunInfo>, now: int): (Key, Entry) -> Entry {
    (k: Key, e: Entry) => Judged(e, byId, now)
  }

  lemma JudgedNext(was: Store, byId: map<RunId, RunInfo>, now: int, seen: seq<Key>, store: Store, k: Key)
    requires ChangedUpTo(was, Judging(byId, now), seen, store) && k in was && k !in seen
    ensures k in store && store[k] == was[k]
    ensures ChangedUpTo(was, Judging(byId, now), seen + [k], store[k := Judged(was[k], byId, now)])
  {
  }

  lemma JudgedAll(was: Store, byId: map<RunId, RunInfo>, now: int, order: seq<Key>, store: Store)
    requires Enumerates(order, was.Keys) && ChangedUpTo(was, Judging(byId, now), order, store)
    ensures store == SyncStore(was, byId, now)
  {
  }

  /** What a shared run does to the entries that it belongs to. */
  function Sharing(wanted: set<Key>, wf: Workflow, batch: bool, run: RunInfo): (Key, Entry) -> Entry {
    (k: Key, e: Entry) => if k in wanted && e.runs == [] then Shared(e, wf, batch, run) else e
  }

  lemma SharedNext(was: Store, wanted: set<Key>, wf: Workflow, batch: bool, run: RunInfo,
                   seen: seq<Key>, store: Store, k: Key)
    requires ChangedUpTo(was, Sharing(wanted, wf, batch, run), seen, store) && k in was && k !in seen
    ensures k in store && store[k] == was[k]
    ensures ChangedUpTo(was, Sharing(wanted, wf, batch, run), seen + [k],
              if k in wanted && was[k].runs == [] then store[k := Shared(was[k], wf, batch, run)] else store)
  {
  }

  lemma SharedAll(was: Store, wanted: set<Key>, wf: Workflow, batch: bool, run: RunInfo, order: seq<Key>, store: Store)
    requires Enumerates(order, was.Keys) && ChangedUpTo(was, Sharing(wanted, wf, batch, run), order, store)
    ensures store == ShareStore(was, wanted, wf, batch, run)
  {
  }

  /** The store and the page after the keys in `seen` have been applied. */
  ghost predicate Applied(was: Store, pageWas: Page, seen: seq<Key>, now: int, tok: bool, store: Store, page: Page) {
    && (forall k :: k in store <==> k in was && (k in seen ==> Keeps(was[k], CellAt(pageWas, k), now, tok)))
    && (forall k :: k in store ==> store[k] == was[k])
    && page.Keys == pageWas.Keys
    && (forall k :: k in page ==> page[k] == CellAfter(was, pageWas, seen, now, tok, k))
  }

  ghost function CellAfter(was: Store, pageWas: Page, seen: seq<Key>, now: int, tok: bool, k: Key): Cell
    requires k in pageWas
  {
    if k in seen && k in was && Keeps(was[k], pageWas[k], now, tok) then PaintedCell(was[k], pageWas[k]) else pageWas[k]
  }

  lemma AppliedNext(was: Store, pageWas: Page, seen: seq<Key>, k: Key, now: int, tok: bool, store: Store, page: Page)
    requires Applied(was, pageWas, seen, now, tok, store, page) && k !in seen && k in was
    ensures k in store && CellAt(page, k) == CellAt(pageWas, k)
    ensures var keeps := Keeps(was[k], CellAt(pageWas, k), now, tok);
      Applied(was, pageWas, seen + [k], now, tok, if keeps then store else store - {k},
              if keeps && k in page then page[k := PaintedCell(was[k], page[k])] else page)
  {
  }

  lemma AppliedAll(was: Store, pageWas: Page, order: seq<Key>, now: int, tok: bool, store: Store, page: Page)
    requires Enumerates(order, was.Keys) && Applied(was, pageWas, order, now, tok, store, page)
    ensures store == ApplyStore(was, pageWas, now, tok) && page == ApplyPage(was, pageWas, now, tok)
  {
  }

  lemma SlotIdsAppend(runs: seq<Slot>, s: Slot)
    ensures SlotIds(runs + [s]) == SlotIds(runs) + (if s.id != "" then {s.id} else {})
  {
    var r := runs + [s];
    forall id | id in SlotIds(runs)
      ensures id in SlotIds(r)
    {
      var i :| 0 <= i < |runs| && runs[i].id == id;
      assert r[i].id == id;
    }
    if s.id != "" {
      assert r[|runs|].id == s.id;
    }
  }

  lemma {:induction false} AssignKeepsIds(wf: Workflow, plats: seq<Platform>, cands: seq<RunInfo>, runs: seq<Slot>)
    ensures SlotIds(runs) <= SlotIds(Assign(wf, plats, cands, runs))
    decreases |plats|
  {
    if plats != [] {
      if HasPlat(runs, plats[0]) || cands == [] {
        AssignKeepsIds(wf, plats[1..], cands, runs);
      } else {
        var s := Slot(wf, plats[0], cands[0].id, cands[0].url, cands[0].status);
        SlotIdsAppend(runs, s);
        AssignKeepsIds(wf, plats[1..], cands[1..], runs + [s]);
      }
    }
  }

  lemma OwnIdsAreClaimed(store: Store, key: Key)
    requires key in store
    ensures SlotIds(store[key].runs) <= ClaimedIds(store)
  {
  }

  lemma NumbersNext(pos: map<RunId, nat>, line: seq<InLine>, i: nat)
    requires i < |line| && Apart(line, LineId) && Numbers(pos, line[..i])
    ensures Numbers(pos[line[i].id := i + 1], line[..i + 1])
  {
    var pos' := pos[line[i].id := i + 1];
    forall id | id in pos'
      ensures InTheLine(line[..i + 1], id)
    {
      if id == line[i].id {
        assert line[..i + 1][i].id == id;
      } else {
        var j :| 0 <= j < |line[..i]| && line[..i][j].id == id;
        assert line[..i + 1][j].id == id;
      }
    }
    forall j | 0 <= j < i
      ensures line[j].id in pos' && pos'[line[j].id] == j + 1
    {
      assert line[..i][j].id in pos;
    }
  }

  lemma FlagsNext(ids: seq<RunId>, id: RunId, byId: map<RunId, RunInfo>)
    ensures AnyActive(ids + [id], byId) <==> AnyActive(ids, byId) || (id in byId && Active(byId[id].status))
    ensures AnyBroke(ids + [id], byId) <==> AnyBroke(ids, byId) || (id in byId && Broke(byId[id]))
    ensures AllKnown(ids + [id], byId) <==> AllKnown(ids, byId) && id in byId
    ensures AllCompleted(ids + [id], byId) <==> AllCompleted(ids, byId) && id in byId && byId[id].status.Completed?
  {
    var all := ids + [id];
    assert all[|ids|] == id;
    assert forall i :: 0 <= i < |ids| ==> all[i] == ids[i];
  }

  function KeyOf(p: (Key, int)): Key {
    p.0
  }

  lemma {:induction false} LiveOfDistinct(store: Store, order: seq<Key>, now: int, tok: bool)
    requires forall i, j :: 0 <= i < j < |order| ==> order[i] != order[j]
    ensures Apart(LiveOf(store, order, now, tok), KeyOf)
  {
    if order != [] {
      var rest := order[1..];
      assert forall i, j :: 0 <= i < j < |rest| ==> rest[i] != rest[j];
      LiveOfDistinct(store, rest, now, tok);
      LiveOfMembers(store, rest, now, tok);
      var l := LiveOf(store, rest, now, tok);
      forall j | 0 <= j < |l|
        ensures l[j].0 != order[0]
      {
        assert l[j] in l;
        var m :| 0 <= m < |rest| && rest[m] == l[j].0;
        assert order[m + 1] == l[j].0;
      }
    }
  }

  /** The keys of the sorted live entries are the line. */
  lemma FoundIsLine(store: Store, now: int, tok: bool, found: seq<(Key, int)>, live: seq<Key>)
    requires Apart(found, KeyOf) && SortedBy(found, OldestFirst)
    requires forall p :: p in found <==> p.0 in store && InQueue(store[p.0], now, tok) && p.1 == store[p.0].ts
    requires |live| == |found| && forall j :: 0 <= j < |live| ==> live[j] == found[j].0
    ensures IsLine(store, now, tok, live)
  {
    forall k
      ensures k in live <==> k in store && InQueue(store[k], now, tok)
    {
      if k in store && InQueue(store[k], now, tok) {
        assert (k, store[k].ts) in found;
        var j :| 0 <= j < |found| && found[j] == (k, store[k].ts);
        assert live[j] == k;
      }
      if k in live {
        var j :| 0 <= j < |live| && live[j] == k;
        assert found[j] in found;
      }
    }
    forall j, m | 0 <= j < m < |live|
      ensures live[j] != live[m] && store[live[j]].ts <= store[live[m]].ts
    {
      assert KeyOf(found[j]) != KeyOf(found[m]);
      assert found[j] in found && found[m] in found;
      assert OldestFirst(found[j], found[m]);
    }
  }

  lemma LiveLineFacts(store: Store, order: seq<Key>, now: int, tok: bool)
    requires Enumerates(order, store.Keys)
    ensures var found := Sort(LiveOf(store, order, now, tok), OldestFirst);
      && Apart(found, KeyOf) && SortedBy(found, OldestFirst)
      && forall p :: p in found <==> p.0 in store && InQueue(store[p.0], now, tok) && p.1 == store[p.0].ts
  {
    var l := LiveOf(store, order, now, tok);
    LiveOfMembers(store, order, now, tok);
    LiveOfDistinct(store, order, now, tok);
    SortKeepsApart(l, OldestFirst, KeyOf);
    SortMembers(l, OldestFirst);
    SortSorted(l, OldestFirst);
  }
}
