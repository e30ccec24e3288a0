/** Whether the verdict on a cell concerns the runs of its latest mark. A mark carries the
    old runs over, and a lookup started before it may still claim an older run. */
module FreshRuns {
  import opened Options
  import opened RunStore
  import opened Protocol
  import opened Sorting

  /** The runs were created at t or later, up to the slack allowed for the clocks. */
  ghost predicate RunsSince(w: World, runs: seq<Slot>, t: int) {
    forall i :: 0 <= i < |runs| ==> w.born(runs[i].id) >= t - CLOCK_SLACK
  }

  /** The entry's runs are runs of its latest mark. */
  ghost predicate SinceMark(w: World, e: Entry) {
    RunsSince(w, e.runs, e.ts)
  }

  /** Nothing brings an older run to the cell: a mark carries none over, and a lookup claims
      runs from the latest mark on. */
  ghost predicate Timely(w: World, store: Store, s: Step, k: Key) {
    k in store ==>
      match s
      case Mark(key, plats, parent, ts, now) =>
        key == k ==> RunsSince(w, store[k].runs, Marked(Some(store[k]), plats, parent, ts, now).ts)
      case Capture(key, _, _, t0) => key == k ==> t0 >= store[k].ts
      case SnapshotReply(_, t0) => k.cap == SNAPSHOTS_CAP && store[k].runs == [] ==> t0 >= store[k].ts
      case BatchReply(wf, _, t0) => store[k].batchWf == wf && store[k].runs == [] ==> t0 >= store[k].ts
      case _ => true
  }

  lemma CandidatesSince(w: World, wf: Workflow, runs: seq<RunInfo>, t0: int, claim: set<RunId>)
    requires FaithfulReply(w, wf, runs)
    ensures forall c :: c in Candidates(runs, t0, claim) ==> w.born(c.id) >= t0 - CLOCK_SLACK
  {
    ClaimableMember(runs, t0, claim);
    SortMembers(ClaimableRuns(runs, t0, claim), NewestFirst);
  }

  lemma {:induction false} AssignSince(w: World, wf: Workflow, plats: seq<Platform>, cands: seq<RunInfo>,
                                       runs: seq<Slot>, t: int)
    requires RunsSince(w, runs, t) && forall c :: c in cands ==> w.born(c.id) >= t - CLOCK_SLACK
    ensures RunsSince(w, Assign(wf, plats, cands, runs), t)
    decreases |plats|
  {
    if plats != [] {
      if HasPlat(runs, plats[0]) || cands == [] {
        AssignSince(w, wf, plats[1..], cands, runs, t);
      } else {
        assert cands[0] in cands && forall c :: c in cands[1..] ==> c in cands;
        AssignSince(w, wf, plats[1..], cands[1..], runs + [SlotFor(wf, plats[0], cands[0])], t);
      }
    }
  }

  lemma {:induction false} ClaimRepliesSince(w: World, asks: seq<Ask>, replies: seq<seq<RunInfo>>, t0: int,
                                             base: set<RunId>, runs: seq<Slot>, t: int)
    requires |asks| == |replies| && t0 >= t && RunsSince(w, runs, t)
    requires forall i :: 0 <= i < |asks| ==> FaithfulReply(w, asks[i].wf, replies[i])
    ensures RunsSince(w, ClaimReplies(asks, replies, t0, base, runs), t)
    decreases |asks|
  {
    if asks != [] {
      var cands := Candidates(replies[0], t0, base + SlotIds(runs));
      CandidatesSince(w, asks[0].wf, replies[0], t0, base + SlotIds(runs));
      AssignSince(w, asks[0].wf, asks[0].plats, cands, runs, t);
      ClaimRepliesSince(w, asks[1..], replies[1..], t0, base, Assign(asks[0].wf, asks[0].plats, cands, runs), t);
    }
  }

  lemma NewestSince(w: World, wf: Workflow, runs: seq<RunInfo>, t0: int)
    requires FaithfulReply(w, wf, runs)
    ensures Newest(runs, t0).Some? ==> w.born(Newest(runs, t0).value.id) >= t0 - CLOCK_SLACK
  {
    NewestIsListed(runs, t0);
  }

  /** A timely step keeps the entry's runs those of its latest mark. */
  lemma StepKeepsSince(w: World, store: Store, s: Step, k: Key)
    requires Allowed(w, s) && Timely(w, store, s, k) && (k in store ==> SinceMark(w, store[k]))
    ensures k in Next(w, store, s) ==> SinceMark(w, Next(w, store, s)[k])
  {
    match s
    case Capture(key, asks, replies, t0) =>
      if key == k && k in store {
        ClaimRepliesSince(w, asks, replies, t0, ClaimedIds(store), store[k].runs, store[k].ts);
      }
    case SnapshotReply(runs, t0) =>
      NewestSince(w, SNAPSHOTS_WF, runs, t0);
    case BatchReply(wf, runs, t0) =>
      NewestSince(w, wf, runs, t0);
    case _ =>
  }

  ghost predicate TimelyRun(w: World, store: Store, steps: seq<Step>, k: Key)
    requires AllAllowed(w, steps)
    decreases |steps|
  {
    steps == [] || (Timely(w, store, steps[0], k) && TimelyRun(w, Next(w, store, steps[0]), steps[1..], k))
  }

  lemma {:induction false} ExecKeepsSince(w: World, store: Store, steps: seq<Step>, k: Key)
    requires AllAllowed(w, steps) && TimelyRun(w, store, steps, k) && (k in store ==> SinceMark(w, store[k]))
    ensures k in Exec(w, store, steps) ==> SinceMark(w, Exec(w, store, steps)[k])
    decreases |steps|
  {
    if steps != [] {
      StepKeepsSince(w, store, steps[0], k);
      ExecKeepsSince(w, Next(w, store, steps[0]), steps[1..], k);
    }
  }

  ghost predicate BrokeSince(w: World, e: Entry, byId: map<RunId, RunInfo>, i: int) {
    && 0 <= i < |e.runs| && e.runs[i].id in byId && Broke(byId[e.runs[i].id])
    && w.born(e.runs[i].id) >= e.ts - CLOCK_SLACK
  }

  ghost predicate CompletedSince(w: World, e: Entry, byId: map<RunId, RunInfo>, i: int) {
    && 0 <= i < |e.runs| && e.runs[i].id in byId && byId[e.runs[i].id].status.Completed?
    && w.born(e.runs[i].id) >= e.ts - CLOCK_SLACK
  }

  /** The verdict that the live runs give concerns the latest mark: failed only if a run of
      that mark broke, done only if the entry has runs and all of them are completed runs
      of that mark. */
  ghost predicate VerdictIsCurrent(w: World, e: Entry, byId: map<RunId, RunInfo>, now: int) {
    && (Judged(e, byId, now).failed.Some? ==> exists i :: BrokeSince(w, e, byId, i))
    && (Judged(e, byId, now).done != 0 ==>
          && e.runs != []
          && forall i :: 0 <= i < |e.runs| ==> CompletedSince(w, e, byId, i))
  }

  lemma SinceMarkGivesCurrent(w: World, e: Entry, byId: map<RunId, RunInfo>, now: int)
    requires WellAttributed(w, e.runs) && !Terminal(e) && SinceMark(w, e)
    ensures VerdictIsCurrent(w, e, byId, now)
  {
    EntryIdsNonempty(e.runs);
    var ids := EntryIds(e.runs);
    if Judged(e, byId, now).failed.Some? {
      var a :| 0 <= a < |ids| && ids[a] in byId && Broke(byId[ids[a]]);
      assert ids[a] in ids;
      var i :| 0 <= i < |e.runs| && e.runs[i].id == ids[a];
      assert BrokeSince(w, e, byId, i);
    }
    if Judged(e, byId, now).done != 0 {
      forall i | 0 <= i < |e.runs|
        ensures CompletedSince(w, e, byId, i)
      {
        assert e.runs[i].id in ids;
        var a :| 0 <= a < |ids| && ids[a] == e.runs[i].id;
      }
    }
  }

  /** The reply in which every run of the entry has completed, and the older ones broke. */
  ghost function OldOnesBroke(w: World, e: Entry): map<RunId, RunInfo> {
    map id | id in EntryIds(e.runs) ::
      RunInfo(id, w.born(id), Completed, if w.born(id) < e.ts - CLOCK_SLACK then Failure else OtherConclusion, "")
  }

  lemma OldRunMisleads(w: World, e: Entry, i: int, now: int)
    requires WellAttributed(w, e.runs) && !Terminal(e)
    requires 0 <= i < |e.runs| && w.born(e.runs[i].id) < e.ts - CLOCK_SLACK
    ensures !VerdictIsCurrent(w, e, OldOnesBroke(w, e), now)
  {
    var ids := EntryIds(e.runs);
    EntryIdsNonempty(e.runs);
    assert e.runs[i].id in ids;
    var a :| 0 <= a < |ids| && ids[a] == e.runs[i].id;
    assert Broke(OldOnesBroke(w, e)[ids[a]]);
    assert Judged(e, OldOnesBroke(w, e), now).failed.Some?;
  }

  /** Every reply gives a verdict on the latest mark if and only if all the entry's runs
      were created for that mark. */
  lemma VerdictIsCurrentIff(w: World, e: Entry, now: int)
    requires WellAttributed(w, e.runs) && !Terminal(e)
    ensures (forall byId :: VerdictIsCurrent(w, e, byId, now)) <==> SinceMark(w, e)
  {
    if SinceMark(w, e) {
      forall byId
        ensures VerdictIsCurrent(w, e, byId, now)
      {
        SinceMarkGivesCurrent(w, e, byId, now);
      }
    } else {
      var i :| 0 <= i < |e.runs| && w.born(e.runs[i].id) < e.ts - CLOCK_SLACK;
      OldRunMisleads(w, e, i, now);
    }
  }

  /** In every reachable store: a new mark, made after all the runs so far, can be trusted to
      be judged by its own runs if and only if the entry it replaces holds no run. */
  lemma NewMarkIsJudgedByItsRunsIff(w: World, steps: seq<Step>, k: Key, plats: seq<Platform>, parent: string,
                                    ts: int, marked: int, now: int)
    requires Sane(w) && AllAllowed(w, steps) && ts != 0 && k in Exec(w, map[], steps)
    requires forall i :: 0 <= i < |Exec(w, map[], steps)[k].runs| ==>
               w.born(Exec(w, map[], steps)[k].runs[i].id) < ts - CLOCK_SLACK
    ensures var e := MarkStore(Exec(w, map[], steps), k, plats, parent, ts, marked)[k];
      (forall byId :: VerdictIsCurrent(w, e, byId, now)) <==> Exec(w, map[], steps)[k].runs == []
  {
    ExecSound(w, map[], steps);
    var was := Exec(w, map[], steps)[k];
    assert SoundEntry(w, was);
    var e := MarkStore(Exec(w, map[], steps), k, plats, parent, ts, marked)[k];
    assert e.runs == was.runs && e.ts == ts;
    VerdictIsCurrentIff(w, e, now);
    if was.runs != [] {
      assert w.born(e.runs[0].id) < e.ts - CLOCK_SLACK;
      assert !SinceMark(w, e);
    }
  }

  /** Over every timely run each verdict concerns the latest mark. */
  lemma VerdictConcernsTheMark(w: World, steps: seq<Step>, byId: map<RunId, RunInfo>, now: int, k: Key)
    requires Sane(w) && AllAllowed(w, steps) && TimelyRun(w, map[], steps, k)
    requires k in Exec(w, map[], steps) && !Terminal(Exec(w, map[], steps)[k])
    ensures VerdictIsCurrent(w, Exec(w, map[], steps)[k], byId, now)
  {
    ExecSound(w, map[], steps);
    ExecKeepsSince(w, map[], steps, k);
    assert SoundEntry(w, Exec(w, map[], steps)[k]);
    SinceMarkGivesCurrent(w, Exec(w, map[], steps)[k], byId, now);
  }

  /** What goes wrong otherwise: the run of time 0 that broke fails a mark of a million
      milliseconds later, although no run has been dispatched for that mark. */
  lemma StaleVerdict(w: World)
    requires w.born("7") == 0
    ensures var k := Key("masscompile", "a");
      var broken := Entry(1, ["windows"], "", [Slot("a.yml", "windows", "7", "u", Completed)], "", 0, Some("u"), 0);
      var byId := map["7" := RunInfo("7", 0, Completed, Failure, "u")];
      var marked := MarkStore(map[k := broken], k, ["windows"], "", 1000000, 1000000);
      && !VerdictIsCurrent(w, marked[k], byId, 1000001)
      && SyncStore(marked, byId, 1000001)[k].failed.Some?
  {
    var k := Key("masscompile", "a");
    var slot := Slot("a.yml", "windows", "7", "u", Completed);
    var broken := Entry(1, ["windows"], "", [slot], "", 0, Some("u"), 0);
    var byId := map["7" := RunInfo("7", 0, Completed, Failure, "u")];
    var marked := MarkStore(map[k := broken], k, ["windows"], "", 1000000, 1000000);
    assert EntryIds([slot][1..]) == [];
    assert EntryIds([slot]) == ["7"];
    assert Broke(byId[EntryIds([slot])[0]]);
  }
}
