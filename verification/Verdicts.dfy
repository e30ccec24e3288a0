/** What a sync makes of an entry, said of its slots and of the runs as they are listed. */
module Verdicts {
  import opened Options
  import opened RunStore
  import opened Protocol
  import opened RunQueue

  /** Slot i is tied to a run, and the live list has it. */
  ghost predicate ListedSlot(e: Entry, byId: map<RunId, RunInfo>, i: int) {
    0 <= i < |e.runs| && e.runs[i].id != "" && e.runs[i].id in byId
  }

  /** The run of slot i is neither completed nor in a status that the script does not know. */
  ghost predicate RunsOn(e: Entry, byId: map<RunId, RunInfo>, i: int) {
    && ListedSlot(e, byId, i)
    && var status := byId[e.runs[i].id].status; !status.Completed? && !status.OtherStatus?
  }

  ghost predicate CompletedSlot(e: Entry, byId: map<RunId, RunInfo>, i: int) {
    ListedSlot(e, byId, i) && byId[e.runs[i].id].status.Completed?
  }

  /** The run of slot i is over and did not succeed. */
  ghost predicate BrokenSlot(e: Entry, byId: map<RunId, RunInfo>, i: int) {
    && CompletedSlot(e, byId, i)
    && var c := byId[e.runs[i].id].conclusion; c.Failure? || c.TimedOut? || c.StartupFailure? || c.Cancelled?
  }

  ghost predicate StillRuns(e: Entry, byId: map<RunId, RunInfo>) {
    exists i :: RunsOn(e, byId, i)
  }

  ghost predicate SomeBroke(e: Entry, byId: map<RunId, RunInfo>) {
    exists i :: BrokenSlot(e, byId, i)
  }

  ghost predicate AllListed(e: Entry, byId: map<RunId, RunInfo>) {
    forall i :: 0 <= i < |e.runs| && e.runs[i].id != "" ==> ListedSlot(e, byId, i)
  }

  ghost predicate AllOver(e: Entry, byId: map<RunId, RunInfo>) {
    forall i :: 0 <= i < |e.runs| && e.runs[i].id != "" ==> CompletedSlot(e, byId, i)
  }

  /** The address recorded with a failure: that of the first broken run that has one. */
  ghost predicate FailureAddress(e: Entry, byId: map<RunId, RunInfo>, url: string) {
    if url == "" then forall i :: BrokenSlot(e, byId, i) ==> byId[e.runs[i].id].url == ""
    else exists i :: BrokenSlot(e, byId, i) && byId[e.runs[i].id].url == url
           && forall j :: j < i && BrokenSlot(e, byId, j) ==> byId[e.runs[j].id].url == ""
  }

  lemma {:induction false} IdOfSlot(runs: seq<Slot>, i: nat) returns (a: nat)
    requires i < |runs| && runs[i].id != ""
    ensures a < |EntryIds(runs)| && EntryIds(runs)[a] == runs[i].id
  {
    if i == 0 {
      a := 0;
    } else {
      a := IdOfSlot(runs[1..], i - 1);
      if runs[0].id != "" {
        a := a + 1;
      }
    }
  }

  lemma {:induction false} SlotOfId(runs: seq<Slot>, a: nat) returns (i: nat)
    requires a < |EntryIds(runs)|
    ensures i < |runs| && runs[i].id == EntryIds(runs)[a] != ""
  {
    if runs[0].id == "" {
      i := SlotOfId(runs[1..], a);
      i := i + 1;
    } else if a == 0 {
      i := 0;
    } else {
      i := SlotOfId(runs[1..], a - 1);
      i := i + 1;
    }
  }

  // ----- the flags of the judging loop, slot by slot -----

  lemma ActiveIffRunsOn(e: Entry, byId: map<RunId, RunInfo>)
    ensures AnyActive(EntryIds(e.runs), byId) <==> StillRuns(e, byId)
  {
    var ids := EntryIds(e.runs);
    if AnyActive(ids, byId) {
      var a :| 0 <= a < |ids| && ids[a] in byId && Active(byId[ids[a]].status);
      var i := SlotOfId(e.runs, a);
      assert RunsOn(e, byId, i);
    }
    if StillRuns(e, byId) {
      var i :| RunsOn(e, byId, i);
      var a := IdOfSlot(e.runs, i);
    }
  }

  lemma BrokeIffSlotBroke(e: Entry, byId: map<RunId, RunInfo>)
    ensures AnyBroke(EntryIds(e.runs), byId) <==> SomeBroke(e, byId)
  {
    var ids := EntryIds(e.runs);
    if AnyBroke(ids, byId) {
      var a :| 0 <= a < |ids| && ids[a] in byId && Broke(byId[ids[a]]);
      var i := SlotOfId(e.runs, a);
      assert BrokenSlot(e, byId, i);
    }
    if SomeBroke(e, byId) {
      var i :| BrokenSlot(e, byId, i);
      var a := IdOfSlot(e.runs, i);
    }
  }

  lemma KnownIffListed(e: Entry, byId: map<RunId, RunInfo>)
    ensures AllKnown(EntryIds(e.runs), byId) <==> AllListed(e, byId)
  {
    var ids := EntryIds(e.runs);
    if AllListed(e, byId) {
      forall a | 0 <= a < |ids|
        ensures ids[a] in byId
      {
        var i := SlotOfId(e.runs, a);
        assert ListedSlot(e, byId, i);
      }
    }
    if AllKnown(ids, byId) {
      forall i | 0 <= i < |e.runs| && e.runs[i].id != ""
        ensures ListedSlot(e, byId, i)
      {
        var a := IdOfSlot(e.runs, i);
      }
    }
  }

  lemma CompletedIffOver(e: Entry, byId: map<RunId, RunInfo>)
    ensures AllCompleted(EntryIds(e.runs), byId) <==> AllOver(e, byId)
  {
    var ids := EntryIds(e.runs);
    if AllOver(e, byId) {
      forall a | 0 <= a < |ids|
        ensures ids[a] in byId && byId[ids[a]].status.Completed?
      {
        var i := SlotOfId(e.runs, a);
        assert CompletedSlot(e, byId, i);
      }
    }
    if AllCompleted(ids, byId) {
      forall i | 0 <= i < |e.runs| && e.runs[i].id != ""
        ensures CompletedSlot(e, byId, i)
      {
        var a := IdOfSlot(e.runs, i);
      }
    }
  }

  lemma OverMeansNoneRuns(e: Entry, byId: map<RunId, RunInfo>)
    requires AllOver(e, byId)
    ensures AllListed(e, byId) && !StillRuns(e, byId)
  {
    forall i | 0 <= i < |e.runs| && e.runs[i].id != ""
      ensures ListedSlot(e, byId, i) && !RunsOn(e, byId, i)
    {
      assert CompletedSlot(e, byId, i);
    }
  }

  lemma {:induction false} FailUrlIs(e: Entry, byId: map<RunId, RunInfo>)
    ensures FailureAddress(e, byId, FailUrl(EntryIds(e.runs), byId))
    decreases |e.runs|
  {
    if e.runs != [] {
      var rest := e.(runs := e.runs[1..]);
      FailUrlIs(rest, byId);
      var url := FailUrl(EntryIds(rest.runs), byId);
      forall i | 0 < i < |e.runs|
        ensures BrokenSlot(e, byId, i) <==> BrokenSlot(rest, byId, i - 1)
      {
      }
      if BrokenSlot(e, byId, 0) && byId[e.runs[0].id].url != "" {
        assert FailUrl(EntryIds(e.runs), byId) == byId[e.runs[0].id].url;
      } else {
        assert FailUrl(EntryIds(e.runs), byId) == url;
        if url != "" {
          var i :| BrokenSlot(rest, byId, i) && byId[rest.runs[i].id].url == url
            && forall j :: j < i && BrokenSlot(rest, byId, j) ==> byId[rest.runs[j].id].url == "";
          assert BrokenSlot(e, byId, i + 1) && byId[e.runs[i + 1].id].url == url;
          forall j | j < i + 1 && BrokenSlot(e, byId, j)
            ensures byId[e.runs[j].id].url == ""
          {
            assert j == 0 || BrokenSlot(rest, byId, j - 1);
          }
        } else {
          forall i | BrokenSlot(e, byId, i)
            ensures byId[e.runs[i].id].url == ""
          {
            assert i == 0 || BrokenSlot(rest, byId, i - 1);
          }
        }
      }
    }
  }

  /** A sync leaves an entry alone that has a verdict or is tied to no run. Of any other:
      while a run of it is going on, it gets no verdict, and the sync is noted; it becomes
      failed exactly when none is, all its runs are listed and one broke; it becomes done
      exactly when all its runs are completed and none broke. */
  lemma SyncJudgesByTheRuns(store: Store, byId: map<RunId, RunInfo>, now: int, k: Key)
    requires k in store && now > 0
    ensures var e := store[k];
      var e' := SyncStore(store, byId, now)[k];
      && SyncStore(store, byId, now).Keys == store.Keys
      && (e.failed.Some? || e.done != 0 || !HasRun(e) ==> e' == e)
      && (e.failed.None? && e.done == 0 && HasRun(e) ==>
            && e' == e.(activeAt := e'.activeAt, failed := e'.failed, done := e'.done)
            && e'.activeAt == (if StillRuns(e, byId) then now else e.activeAt)
            && (e'.failed.Some? <==> !StillRuns(e, byId) && AllListed(e, byId) && SomeBroke(e, byId))
            && (e'.done != 0 <==> AllOver(e, byId) && !SomeBroke(e, byId))
            && (e'.done != 0 ==> e'.done == now)
            && (e'.failed.Some? ==> FailureAddress(e, byId, e'.failed.value)))
  {
    var e := store[k];
    EntryIdsNonempty(e.runs);
    ActiveIffRunsOn(e, byId);
    BrokeIffSlotBroke(e, byId);
    KnownIffListed(e, byId);
    CompletedIffOver(e, byId);
    FailUrlIs(e, byId);
    if AllOver(e, byId) {
      OverMeansNoneRuns(e, byId);
    }
  }

  /** The badges are re-applied exactly when the sync has changed some entry. */
  lemma ReappliedIffChanged(store: Store, byId: map<RunId, RunInfo>, now: int)
    requires now > 0 && forall k :: k in store ==> store[k].activeAt != now
    ensures AnyVerdict(store, byId) <==> SyncStore(store, byId, now) != store
  {
    var store' := SyncStore(store, byId, now);
    forall k | k in store
      ensures HasVerdict(store[k], byId) <==> store'[k] != store[k]
    {
    }
    if AnyVerdict(store, byId) {
      var k :| k in store && HasVerdict(store[k], byId);
      assert store'[k] != store[k];
    } else {
      assert forall k :: k in store ==> store'[k] == store[k];
    }
  }
}
