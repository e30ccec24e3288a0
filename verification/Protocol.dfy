/** Every run of the queue: the handlers of RunStore interleaved in any order, with
    network replies, clocks and pages chosen by the environment. */
module Protocol {
  import opened RunStore
  import opened Sorting

  /** What is assumed of GitHub: which workflow every run id belongs to and when the run
      was created, and which workflows are shared by many cells (the snapshots workflow
      and the batch backfill workflows). */
  datatype World = World(wfOf: RunId -> Workflow, shared: set<Workflow>, born: RunId -> int)

  ghost predicate Sane(w: World) {
    SNAPSHOTS_WF in w.shared && "" !in w.shared
  }

  /** A reply to a question about one workflow: real ids, each once, all of that workflow,
      with their creation times. */
  ghost predicate FaithfulReply(w: World, wf: Workflow, runs: seq<RunInfo>) {
    && (forall i :: 0 <= i < |runs| ==>
          runs[i].id != "" && w.wfOf(runs[i].id) == wf && runs[i].created == w.born(runs[i].id))
    && (forall i, j :: 0 <= i < j < |runs| ==> runs[i].id != runs[j].id)
  }

  datatype Step =
    | Mark(key: Key, plats: seq<Platform>, parent: string, ts: int, now: int)
    | Rerun(key: Key, plat: Platform, now: int)
    | Stamp(keys: set<Key>, wf: Workflow)
    | Forget(key: Key)
    | Capture(key: Key, asks: seq<Ask>, replies: seq<seq<RunInfo>>, t0: int)
    | SnapshotReply(runs: seq<RunInfo>, t0: int)
    | BatchReply(wf: Workflow, runs: seq<RunInfo>, t0: int)
    | Sync(byId: map<RunId, RunInfo>, now: int)
    | Apply(page: Page, now: int, tok: bool)

  ghost predicate Allowed(w: World, s: Step) {
    match s
    case Mark(_, _, _, _, now) => now > 0
    case Rerun(_, _, now) => now > 0
    case Stamp(_, wf) => wf in w.shared
    case Forget(_) => true
    case Capture(_, asks, replies, _) =>
      |asks| == |replies| && forall i :: 0 <= i < |asks| ==> FaithfulReply(w, asks[i].wf, replies[i])
    case SnapshotReply(runs, _) => FaithfulReply(w, SNAPSHOTS_WF, runs)
    case BatchReply(wf, runs, _) => wf in w.shared && FaithfulReply(w, wf, runs)
    case Sync(_, now) => now > 0
    case Apply(_, now, _) => now > 0
  }

  ghost function Next(w: World, store: Store, s: Step): Store
    requires Allowed(w, s)
  {
    match s
    case Mark(key, plats, parent, ts, now) => MarkStore(store, key, plats, parent, ts, now)
    case Rerun(key, plat, now) => RerunStore(store, key, plat, now)
    case Stamp(keys, wf) => StampStore(store, keys, wf)
    case Forget(key) => ForgetStore(store, key)
    case Capture(key, asks, replies, t0) => CaptureStore(store, key, asks, replies, t0)
    case SnapshotReply(runs, t0) => SnapshotStore(store, runs, t0)
    case BatchReply(wf, runs, t0) => BatchStore(store, wf, runs, t0)
    case Sync(byId, now) => SyncStore(store, byId, now)
    case Apply(page, now, tok) => ApplyStore(store, page, now, tok)
  }

  ghost predicate AllAllowed(w: World, steps: seq<Step>) {
    forall i :: 0 <= i < |steps| ==> Allowed(w, steps[i])
  }

  /** The store after a whole run. */
  ghost function Exec(w: World, store: Store, steps: seq<Step>): Store
    requires AllAllowed(w, steps)
    decreases |steps|
  {
    if steps == [] then store
    else Exec(w, Next(w, store, steps[0]), steps[1..])
  }

  lemma {:induction false} ExecAppend(w: World, store: Store, a: seq<Step>, b: seq<Step>)
    requires AllAllowed(w, a) && AllAllowed(w, b)
    ensures AllAllowed(w, a + b) && Exec(w, store, a + b) == Exec(w, Exec(w, store, a), b)
    decreases |a|
  {
    if a == [] {
      assert a + b == b;
    } else {
      assert (a + b)[1..] == a[1..] + b;
      ExecAppend(w, Next(w, store, a[0]), a[1..], b);
    }
  }

  // ----- the invariant -----

  ghost predicate HasSlot(store: Store, k: Key, i: int) {
    k in store && 0 <= i < |store[k].runs|
  }

  /** Two slots hold the same run only if the run belongs to a shared workflow. */
  ghost predicate ExclusiveClaims(w: World, store: Store) {
    forall k, i, k', i' ::
      HasSlot(store, k, i) && HasSlot(store, k', i') && (k != k' || i != i')
      && store[k].runs[i].id == store[k'].runs[i'].id
      ==> store[k].runs[i].wf in w.shared
  }

  ghost predicate WellAttributed(w: World, runs: seq<Slot>) {
    forall i :: 0 <= i < |runs| ==> runs[i].id != "" && w.wfOf(runs[i].id) == runs[i].wf
  }

  ghost predicate OnePerPlatform(runs: seq<Slot>) {
    forall i, j :: 0 <= i < j < |runs| ==> runs[i].plat != runs[j].plat
  }

  /** An entry was judged, or seen active, only if it is tied to a run; it is never
      both failed and done; its batch stamp names a shared workflow. */
  ghost predicate SoundEntry(w: World, e: Entry) {
    && WellAttributed(w, e.runs)
    && OnePerPlatform(e.runs)
    && (e.activeAt != 0 || Terminal(e) ==> HasRun(e))
    && !(e.failed.Some? && e.done != 0)
    && (e.batchWf != "" ==> e.batchWf in w.shared)
  }

  ghost predicate Sound(w: World, store: Store) {
    && (forall k :: k in store ==> SoundEntry(w, store[k]))
    && ExclusiveClaims(w, store)
  }

  // ----- one capture reply -----

  lemma {:induction false} ClaimableMember(runs: seq<RunInfo>, t0: int, claim: set<RunId>)
    ensures forall r :: r in ClaimableRuns(runs, t0, claim) ==> r in runs && Claimable(r, t0, claim)
    ensures (forall i, j :: 0 <= i < j < |runs| ==> runs[i].id != runs[j].id)
        ==> DistinctIds(ClaimableRuns(runs, t0, claim))
  {
    if runs != [] {
      ClaimableMember(runs[1..], t0, claim);
      var rest := ClaimableRuns(runs[1..], t0, claim);
      if forall i, j :: 0 <= i < j < |runs| ==> runs[i].id != runs[j].id {
        assert forall i, j :: 0 <= i < j < |runs[1..]| ==> runs[1..][i].id != runs[1..][j].id;
        forall j | 0 <= j < |rest|
          ensures rest[j].id != runs[0].id
        {
          assert rest[j] in runs[1..];
          var k :| 0 <= k < |runs[1..]| && runs[1..][k] == rest[j];
          assert runs[k + 1] == rest[j];
        }
      }
    }
  }

  function IdOf(run: RunInfo): RunId {
    run.id
  }

  ghost predicate DistinctIds(runs: seq<RunInfo>) {
    Apart(runs, IdOf)
  }

  /** Candidates are usable runs of the asked workflow that nobody holds, each once. */
  ghost predicate FreshCandidates(w: World, wf: Workflow, cands: seq<RunInfo>, taken: set<RunId>) {
    && DistinctIds(cands)
    && forall i :: 0 <= i < |cands| ==> cands[i].id != "" && w.wfOf(cands[i].id) == wf && cands[i].id !in taken
  }

  lemma CandidatesAreFresh(w: World, wf: Workflow, runs: seq<RunInfo>, t0: int, claim: set<RunId>)
    requires FaithfulReply(w, wf, runs)
    ensures FreshCandidates(w, wf, Candidates(runs, t0, claim), claim)
  {
    ClaimableMember(runs, t0, claim);
    var c := ClaimableRuns(runs, t0, claim);
    SortKeepsApart(c, NewestFirst, IdOf);
    SortMembers(c, NewestFirst);
    var s := Sort(c, NewestFirst);
    forall i | 0 <= i < |s|
      ensures s[i].id != "" && w.wfOf(s[i].id) == wf && s[i].id !in claim
    {
      assert s[i] in c;
      assert s[i] in runs;
    }
  }

  /** runs' extends runs by slots whose ids are new: outside `base` and unlike every
      id before them. */
  ghost predicate FreshTail(base: set<RunId>, runs: seq<Slot>, runs': seq<Slot>) {
    && |runs| <= |runs'| && runs'[..|runs|] == runs
    && (forall i :: |runs| <= i < |runs'| ==> runs'[i].id !in base)
    && (forall i, j :: |runs| <= i < |runs'| && 0 <= j < i ==> runs'[i].id != runs'[j].id)
  }

  lemma FreshTailTransitive(base: set<RunId>, a: seq<Slot>, b: seq<Slot>, c: seq<Slot>)
    requires FreshTail(base, a, b) && FreshTail(base, b, c)
    ensures FreshTail(base, a, c)
  {
    assert c[..|a|] == c[..|b|][..|a|];
    forall i | 0 <= i < |b|
      ensures c[i] == b[i]
    {
      assert c[..|b|][i] == b[i];
    }
  }

  /** The slot that hands a run to a platform. */
  function SlotFor(wf: Workflow, plat: Platform, c: RunInfo): Slot {
    Slot(wf, plat, c.id, c.url, c.status)
  }

  /** Handing out the first candidate adds one new slot. */
  lemma FirstSlotIsNew(w: World, wf: Workflow, plat: Platform, cands: seq<RunInfo>, base: set<RunId>, runs: seq<Slot>)
    requires FreshCandidates(w, wf, cands, base + SlotIds(runs)) && cands != []
    requires WellAttributed(w, runs) && OnePerPlatform(runs) && !HasPlat(runs, plat)
    ensures var mid := runs + [SlotFor(wf, plat, cands[0])];
      WellAttributed(w, mid) && OnePerPlatform(mid) && FreshTail(base, runs, mid)
  {
    forall j | 0 <= j < |runs|
      ensures runs[j].id != cands[0].id
    {
      assert runs[j].id in SlotIds(runs);
    }
  }

  /** The candidates left over are still new. */
  lemma CandidatesLeft(w: World, wf: Workflow, plat: Platform, cands: seq<RunInfo>, base: set<RunId>, runs: seq<Slot>)
    requires FreshCandidates(w, wf, cands, base + SlotIds(runs)) && cands != []
    ensures FreshCandidates(w, wf, cands[1..], base + SlotIds(runs + [SlotFor(wf, plat, cands[0])]))
  {
    forall i | 0 <= i < |cands[1..]|
      ensures cands[1..][i] == cands[i + 1] && IdOf(cands[i + 1]) != IdOf(cands[0])
    {
    }
    forall id | id in SlotIds(runs + [SlotFor(wf, plat, cands[0])])
      ensures id in SlotIds(runs) || id == cands[0].id
    {
    }
  }

  lemma {:induction false} AssignSound(w: World, wf: Workflow, plats: seq<Platform>, cands: seq<RunInfo>,
                                       base: set<RunId>, runs: seq<Slot>)
    requires FreshCandidates(w, wf, cands, base + SlotIds(runs))
    requires WellAttributed(w, runs) && OnePerPlatform(runs)
    ensures var r := Assign(wf, plats, cands, runs);
      WellAttributed(w, r) && OnePerPlatform(r) && FreshTail(base, runs, r)
    decreases |plats|
  {
    if plats != [] {
      if HasPlat(runs, plats[0]) || cands == [] {
        AssignSound(w, wf, plats[1..], cands, base, runs);
      } else {
        var mid := runs + [SlotFor(wf, plats[0], cands[0])];
        FirstSlotIsNew(w, wf, plats[0], cands, base, runs);
        CandidatesLeft(w, wf, plats[0], cands, base, runs);
        AssignSound(w, wf, plats[1..], cands[1..], base, mid);
        FreshTailTransitive(base, runs, mid, Assign(wf, plats[1..], cands[1..], mid));
      }
    }
  }

  lemma {:induction false} ClaimRepliesSound(w: World, asks: seq<Ask>, replies: seq<seq<RunInfo>>, t0: int,
                                             base: set<RunId>, runs: seq<Slot>)
    requires |asks| == |replies|
    requires forall i :: 0 <= i < |asks| ==> FaithfulReply(w, asks[i].wf, replies[i])
    requires WellAttributed(w, runs) && OnePerPlatform(runs)
    ensures var r := ClaimReplies(asks, replies, t0, base, runs);
      WellAttributed(w, r) && OnePerPlatform(r) && FreshTail(base, runs, r)
    decreases |asks|
  {
    if asks != [] {
      var cands := Candidates(replies[0], t0, base + SlotIds(runs));
      CandidatesAreFresh(w, asks[0].wf, replies[0], t0, base + SlotIds(runs));
      AssignSound(w, asks[0].wf, asks[0].plats, cands, base, runs);
      var mid := Assign(asks[0].wf, asks[0].plats, cands, runs);
      ClaimRepliesSound(w, asks[1..], replies[1..], t0, base, mid);
      FreshTailTransitive(base, runs, mid, ClaimReplies(asks[1..], replies[1..], t0, base, mid));
    }
  }

  // ----- every step keeps the invariant -----

  lemma CaptureSound(w: World, store: Store, key: Key, asks: seq<Ask>, replies: seq<seq<RunInfo>>, t0: int)
    requires Sound(w, store)
    requires Allowed(w, Capture(key, asks, replies, t0))
    ensures Sound(w, CaptureStore(store, key, asks, replies, t0))
  {
    if key in store {
      var e := store[key];
      var base := ClaimedIds(store);
      var runs' := ClaimReplies(asks, replies, t0, base, e.runs);
      ClaimRepliesSound(w, asks, replies, t0, base, e.runs);
      var store' := CaptureStore(store, key, asks, replies, t0);
      assert HasRun(e) ==> HasRun(store'[key]) by {
        if HasRun(e) {
          var i :| 0 <= i < |e.runs| && e.runs[i].id != "";
          assert runs'[i] == runs'[..|e.runs|][i];
        }
      }
      forall k, i, k', i' | HasSlot(store', k, i) && HasSlot(store', k', i') && (k != k' || i != i')
                            && store'[k].runs[i].id == store'[k'].runs[i'].id
        ensures store'[k].runs[i].wf in w.shared
      {
        if NewSlot(store, key, k, i) {
          FreshSlotIsAlone(store, key, runs', i, k', i', base);
        } else if NewSlot(store, key, k', i') {
          FreshSlotIsAlone(store, key, runs', i', k, i, base);
        } else {
          assert store'[k].runs[i] == store[k].runs[i] by { PrefixSlot(store, key, runs', k, i); }
          assert store'[k'].runs[i'] == store[k'].runs[i'] by { PrefixSlot(store, key, runs', k', i'); }
          assert HasSlot(store, k, i) && HasSlot(store, k', i');
        }
      }
    }
  }

  ghost predicate NewSlot(store: Store, key: Key, k: Key, i: int)
    requires key in store
  {
    k == key && i >= |store[key].runs|
  }

  lemma PrefixSlot(store: Store, key: Key, runs': seq<Slot>, k: Key, i: int)
    requires key in store && |store[key].runs| <= |runs'| && runs'[..|store[key].runs|] == store[key].runs
    requires HasSlot(store[key := store[key].(runs := runs')], k, i) && !NewSlot(store, key, k, i)
    ensures HasSlot(store, k, i) && store[key := store[key].(runs := runs')][k].runs[i] == store[k].runs[i]
  {
    if k == key {
      assert runs'[i] == runs'[..|store[key].runs|][i];
    }
  }

  /** A slot added by a capture reply shares its id with no other slot. */
  lemma FreshSlotIsAlone(store: Store, key: Key, runs': seq<Slot>, i: int, k': Key, i': int, base: set<RunId>)
    requires key in store && base == ClaimedIds(store) && FreshTail(base, store[key].runs, runs')
    requires |store[key].runs| <= i < |runs'| && runs'[i].id != ""
    requires HasSlot(store[key := store[key].(runs := runs')], k', i') && (k' != key || i' != i)
    ensures runs'[i].id != store[key := store[key].(runs := runs')][k'].runs[i'].id
  {
    var id' := store[key := store[key].(runs := runs')][k'].runs[i'].id;
    if NewSlot(store, key, k', i') {
    } else {
      PrefixSlot(store, key, runs', k', i');
      if id' != "" {
        assert id' in ClaimedIds(store) by { assert k' in store && 0 <= i' < |store[k'].runs|; }
      }
    }
  }

  lemma {:induction false} NewestIsListed(runs: seq<RunInfo>, t0: int)
    ensures Newest(runs, t0).Some? ==>
      Newest(runs, t0).value in runs && Newest(runs, t0).value.created >= t0 - CLOCK_SLACK
  {
    RecentMembers(runs, t0);
    var r := Recent(runs, t0);
    SortMembers(r, NewestFirst);
    var s := Sort(r, NewestFirst);
    if s != [] {
      assert s[0] in s;
    }
  }

  lemma {:induction false} RecentMembers(runs: seq<RunInfo>, t0: int)
    ensures forall r :: r in Recent(runs, t0) <==> r in runs && r.created >= t0 - CLOCK_SLACK
  {
    if runs != [] {
      RecentMembers(runs[1..], t0);
      forall r
        ensures r in Recent(runs, t0) <==> r in runs && r.created >= t0 - CLOCK_SLACK
      {
        assert r in runs <==> r == runs[0] || r in runs[1..];
      }
    }
  }

  lemma HolderIsShared(w: World, e: Entry, i: int, run: RunInfo)
    requires SoundEntry(w, e) && 0 <= i < |e.runs| && e.runs[i].id == run.id
    ensures e.runs[i].wf == w.wfOf(run.id)
  {
  }

  lemma ShareSound(w: World, store: Store, wanted: set<Key>, wf: Workflow, batch: bool, run: RunInfo)
    requires Sound(w, store) && wf in w.shared
    requires run.id != "" && w.wfOf(run.id) == wf
    ensures Sound(w, ShareStore(store, wanted, wf, batch, run))
  {
    var store' := ShareStore(store, wanted, wf, batch, run);
    forall k, i, k', i' | HasSlot(store', k, i) && HasSlot(store', k', i') && (k != k' || i != i')
                          && store'[k].runs[i].id == store'[k'].runs[i'].id
      ensures store'[k].runs[i].wf in w.shared
    {
      if store'[k] == store[k] && store'[k'] == store[k'] {
        assert HasSlot(store, k, i) && HasSlot(store, k', i');
      } else if store'[k] != store[k] {
        assert store'[k].runs[i].wf == wf;
      } else {
        HolderIsShared(w, store[k], i, run);
      }
    }
  }

  /** Steps that drop entries, or change them without adding a run. */
  lemma SameRunsSound(w: World, store: Store, store': Store)
    requires Sound(w, store)
    requires forall k :: k in store' ==> SoundEntry(w, store'[k])
    requires forall k :: k in store' ==> store'[k].runs == [] || (k in store && store'[k].runs == store[k].runs)
    ensures Sound(w, store')
  {
    forall k, i, k', i' | HasSlot(store', k, i) && HasSlot(store', k', i') && (k != k' || i != i')
                          && store'[k].runs[i].id == store'[k'].runs[i'].id
      ensures store'[k].runs[i].wf in w.shared
    {
      assert HasSlot(store, k, i) && HasSlot(store, k', i');
    }
  }

  lemma {:induction false} EntryIdsNonempty(runs: seq<Slot>)
    ensures EntryIds(runs) != [] <==> exists i :: 0 <= i < |runs| && runs[i].id != ""
    ensures forall id :: id in EntryIds(runs) <==> id != "" && exists i :: 0 <= i < |runs| && runs[i].id == id
  {
    if runs != [] {
      EntryIdsNonempty(runs[1..]);
      forall id
        ensures id in EntryIds(runs) <==> id != "" && exists i :: 0 <= i < |runs| && runs[i].id == id
      {
        if id != "" && id in EntryIds(runs[1..]) {
          var i :| 0 <= i < |runs[1..]| && runs[1..][i].id == id;
          assert runs[i + 1].id == id;
        }
        if i :| 0 <= i < |runs| && runs[i].id == id && i > 0 {
          assert runs[1..][i - 1].id == id;
        }
      }
      if EntryIds(runs) != [] {
        assert EntryIds(runs)[0] in EntryIds(runs);
      }
      if i :| 0 <= i < |runs| && runs[i].id != "" {
        assert runs[i].id in EntryIds(runs);
      }
    }
  }

  lemma JudgedSound(w: World, e: Entry, byId: map<RunId, RunInfo>, now: int)
    requires SoundEntry(w, e) && now > 0
    ensures SoundEntry(w, Judged(e, byId, now)) && Judged(e, byId, now).runs == e.runs
  {
    EntryIdsNonempty(e.runs);
  }

  /** One handler, whatever its input, keeps the invariant. */
  lemma StepSound(w: World, store: Store, s: Step)
    requires Sane(w) && Sound(w, store) && Allowed(w, s)
    ensures Sound(w, Next(w, store, s))
  {
    match s
    case Mark(key, plats, parent, ts, now) =>
      SameRunsSound(w, store, Next(w, store, s));
    case Rerun(key, plat, now) =>
      SameRunsSound(w, store, Next(w, store, s));
    case Stamp(keys, wf) =>
      SameRunsSound(w, store, Next(w, store, s));
    case Forget(key) =>
      SameRunsSound(w, store, Next(w, store, s));
    case Capture(key, asks, replies, t0) =>
      CaptureSound(w, store, key, asks, replies, t0);
    case SnapshotReply(runs, t0) =>
      NewestIsListed(runs, t0);
      if Newest(runs, t0).Some? {
        ShareSound(w, store, SnapshotKeys(store), SNAPSHOTS_WF, false, Newest(runs, t0).value);
      }
    case BatchReply(wf, runs, t0) =>
      NewestIsListed(runs, t0);
      if Newest(runs, t0).Some? {
        ShareSound(w, store, BatchKeys(store, wf), wf, true, Newest(runs, t0).value);
      }
    case Sync(byId, now) =>
      forall k | k in store
        ensures SoundEntry(w, Judged(store[k], byId, now)) && Judged(store[k], byId, now).runs == store[k].runs
      {
        JudgedSound(w, store[k], byId, now);
      }
      SameRunsSound(w, store, Next(w, store, s));
    case Apply(page, now, tok) =>
      SameRunsSound(w, store, Next(w, store, s));
  }

  lemma {:induction false} ExecSound(w: World, store: Store, steps: seq<Step>)
    requires Sane(w) && Sound(w, store) && AllAllowed(w, steps)
    ensures Sound(w, Exec(w, store, steps))
    decreases |steps|
  {
    if steps != [] {
      StepSound(w, store, steps[0]);
      ExecSound(w, Next(w, store, steps[0]), steps[1..]);
    }
  }

  /** Over every run from an empty store: two slots hold the same run only if its
      workflow is shared, every entry holds at most one run per platform, and every
      recorded run belongs to the workflow stored beside it. */
  lemma ClaimsStayExclusive(w: World, steps: seq<Step>)
    requires Sane(w) && AllAllowed(w, steps)
    ensures var store := Exec(w, map[], steps);
      && ExclusiveClaims(w, store)
      && forall k :: k in store ==> OnePerPlatform(store[k].runs) && WellAttributed(w, store[k].runs)
  {
    ExecSound(w, map[], steps);
  }
}
