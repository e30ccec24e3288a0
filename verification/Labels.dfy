/** The numbers stamped on queued badges. */
module Labels {
  import opened RunStore
  import opened Protocol
  import opened Places
  import Sorting

  /** The cells still in line, each once, oldest first. */
  ghost predicate IsLine(store: Store, now: int, tok: bool, live: seq<Key>) {
    && (forall k :: k in live <==> k in store && InQueue(store[k], now, tok))
    && (forall i, j :: 0 <= i < j < |live| ==> live[i] != live[j] && store[live[i]].ts <= store[live[j]].ts)
  }

  /** The number of one badge, 0 for a blank: nothing while at most one run is in line; the
      place of the cell's earliest run once the live queue is known; before that, the cell's
      rank in this browser. */
  function Label(fetched: bool, pos: map<RunId, nat>, inLine: nat, runs: seq<Slot>, rank: nat): nat {
    if inLine <= 1 then 0 else if fetched then BestPlace(runs, pos, 0) else rank
  }

  ghost predicate Labelled(store: Store, page: Page, now: int, tok: bool, fetched: bool, pos: map<RunId, nat>,
                           total: nat, live: seq<Key>, labels: map<Key, nat>) {
    && IsLine(store, now, tok, live)
    && (forall k :: k in labels <==> k in live && CellAt(page, k).badge.QueuedBadge?)
    && (forall i :: 0 <= i < |live| && live[i] in labels ==>
          labels[live[i]] == Label(fetched, pos, if fetched then total else |live|, store[live[i]].runs, i + 1))
  }

  /** In every reachable store, whether the live queue is known or not: no two per-revision
      cells show the same number. */
  lemma LabelsAreNotShared(w: World, steps: seq<Step>, page: Page, now: int, tok: bool, fetched: bool,
                           ids: seq<RunId>, byId: map<RunId, RunInfo>, pos: map<RunId, nat>, total: nat,
                           live: seq<Key>, labels: map<Key, nat>, k: Key, k': Key)
    requires Sane(w) && AllAllowed(w, steps)
    requires Labelled(Exec(w, map[], steps), page, now, tok, fetched, pos, total, live, labels)
    requires fetched ==> Sorting.Enumerates(ids, byId.Keys) && Numbers(pos, Line(ids, byId))
    requires k in labels && k' in labels && k != k' && labels[k] != 0
    requires PerRevision(w, Exec(w, map[], steps)[k]) && PerRevision(w, Exec(w, map[], steps)[k'])
    ensures labels[k] != labels[k']
  {
    var i :| 0 <= i < |live| && live[i] == k;
    var j :| 0 <= j < |live| && live[j] == k';
    if fetched {
      NumbersAreNotShared(w, steps, ids, byId, pos, k, k');
    }
  }

  /** The waiting run at place n of the live queue belongs to the cell. */
  ghost predicate HoldsPlace(e: Entry, ids: seq<RunId>, byId: map<RunId, RunInfo>, n: int) {
    && 1 <= n <= |Line(ids, byId)|
    && exists i :: 0 <= i < |e.runs| && e.runs[i].id != "" && e.runs[i].id == Line(ids, byId)[n - 1].id
  }

  lemma BestPlaceIsHeld(e: Entry, ids: seq<RunId>, byId: map<RunId, RunInfo>, pos: map<RunId, nat>)
    requires Sorting.Enumerates(ids, byId.Keys) && Numbers(pos, Line(ids, byId))
    ensures var b := BestPlace(e.runs, pos, 0);
      && (b != 0 ==> HoldsPlace(e, ids, byId, b))
      && forall n :: HoldsPlace(e, ids, byId, n) ==> 0 < b <= n
  {
    var runs := e.runs;
    BestPlaceIsAPlace(runs, pos, 0);
    var b := BestPlace(runs, pos, 0);
    if b != 0 {
      var m :| 0 <= m < |runs| && runs[m].id != "" && runs[m].id in pos && pos[runs[m].id] == b;
      PlaceOf(ids, byId, pos, runs[m].id);
    }
    forall n | HoldsPlace(e, ids, byId, n)
      ensures 0 < b <= n
    {
      assert Line(ids, byId)[n - 1].id in pos && pos[Line(ids, byId)[n - 1].id] == n;
    }
  }

  /** What a number says. Exactly the cells in line that show a queued badge are labelled.
      Once the live queue is known, a number is the first place in it that a run of the cell
      holds, and a blank means that it holds none, or that at most one run is in line;
      before, a number is the cell's rank by age among this browser's cells in line. */
  lemma LabelsTellPlaces(store: Store, page: Page, now: int, tok: bool, fetched: bool, ids: seq<RunId>,
                         byId: map<RunId, RunInfo>, pos: map<RunId, nat>, live: seq<Key>, labels: map<Key, nat>, k: Key)
    requires Labelled(store, page, now, tok, fetched, pos, |Line(ids, byId)|, live, labels)
    requires Sorting.Enumerates(ids, byId.Keys) && Numbers(pos, Line(ids, byId))
    ensures k in labels <==> k in store && InQueue(store[k], now, tok) && CellAt(page, k).badge.QueuedBadge?
    ensures k in labels && fetched && |Line(ids, byId)| > 1 ==>
      && (labels[k] != 0 ==> HoldsPlace(store[k], ids, byId, labels[k]))
      && forall n :: HoldsPlace(store[k], ids, byId, n) ==> 0 < labels[k] <= n
    ensures k in labels && !fetched && |live| > 1 ==> 1 <= labels[k] <= |live| && live[labels[k] - 1] == k
    ensures k in labels && (if fetched then |Line(ids, byId)| else |live|) <= 1 ==> labels[k] == 0
  {
    if k in labels {
      var i :| 0 <= i < |live| && live[i] == k;
      BestPlaceIsHeld(store[k], ids, byId, pos);
    }
  }

  /** The store once a live run list has been handled. */
  function Synced(store: Store, page: Page, byId: map<RunId, RunInfo>, now: int, tok: bool, applied: bool): Store {
    var judged := SyncStore(store, byId, now);
    if applied then ApplyStore(judged, page, now, tok) else judged
  }

  function SyncSteps(page: Page, byId: map<RunId, RunInfo>, now: int, tok: bool, applied: bool): seq<Step> {
    if applied then [Sync(byId, now), Apply(page, now, tok)] else [Sync(byId, now)]
  }

  /** A sync leads from a reachable store to a reachable store. */
  lemma SyncedIsReached(w: World, steps: seq<Step>, page: Page, byId: map<RunId, RunInfo>, now: int, tok: bool,
                        applied: bool)
    requires AllAllowed(w, steps) && now > 0
    ensures AllAllowed(w, steps + SyncSteps(page, byId, now, tok, applied))
    ensures Exec(w, map[], steps + SyncSteps(page, byId, now, tok, applied))
         == Synced(Exec(w, map[], steps), page, byId, now, tok, applied)
  {
    var store, more := Exec(w, map[], steps), SyncSteps(page, byId, now, tok, applied);
    ExecAppend(w, map[], steps, more);
    var judged := Next(w, store, Sync(byId, now));
    assert Exec(w, store, more) == Exec(w, judged, more[1..]);
    if applied {
      assert more[1..] == [Apply(page, now, tok)];
      assert Exec(w, judged, more[1..]) == Next(w, judged, Apply(page, now, tok));
    }
  }

  /** After a sync of any reachable store the numbers are the real places in line, and no two
      per-revision cells show the same one. */
  lemma SyncedLabelsAreNotShared(w: World, steps: seq<Step>, page: Page, page': Page, now: int, tok: bool,
                                 applied: bool, ids: seq<RunId>, byId: map<RunId, RunInfo>,
                                 pos: map<RunId, nat>, total: nat, live: seq<Key>, labels: map<Key, nat>,
                                 k: Key, k': Key)
    requires Sane(w) && AllAllowed(w, steps) && now > 0 && Sorting.Enumerates(ids, byId.Keys)
    requires Numbers(pos, Line(ids, byId))
    requires Labelled(Synced(Exec(w, map[], steps), page, byId, now, tok, applied), page', now, tok, true,
                      pos, total, live, labels)
    requires k in labels && k' in labels && k != k' && labels[k] != 0
    requires var store := Exec(w, map[], steps);
      k in store && k' in store && PerRevision(w, store[k]) && PerRevision(w, store[k'])
    ensures labels[k] != labels[k']
  {
    var store := Exec(w, map[], steps);
    SyncedIsReached(w, steps, page, byId, now, tok, applied);
    JudgedRuns(store, byId, now, k);
    JudgedRuns(store, byId, now, k');
    LabelsAreNotShared(w, steps + SyncSteps(page, byId, now, tok, applied), page', now, tok, true, ids, byId,
                       pos, total, live, labels, k, k');
  }

  lemma JudgedRuns(store: Store, byId: map<RunId, RunInfo>, now: int, k: Key)
    requires k in store
    ensures SyncStore(store, byId, now)[k].runs == store[k].runs
  {
  }
}
