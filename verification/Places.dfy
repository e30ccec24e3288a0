/** The place in line of every run still waiting for a runner. */
module Places {
  import opened RunStore
  import opened Protocol
  import opened Sorting

  datatype InLine = InLine(id: RunId, at: int)

  /** Older first; runs created at the same moment in the order of their ids. */
  predicate Before(a: InLine, b: InLine) {
    a.at < b.at || (a.at == b.at && TextLess(a.id, b.id))
  }

  predicate BeforeOrSame(a: InLine, b: InLine) {
    a.at < b.at || (a.at == b.at && (a.id == b.id || TextLess(a.id, b.id)))
  }

  lemma BeforeOrSameIsOrder()
    ensures TotalPreorder(BeforeOrSame)
  {
    forall x: InLine, y: InLine
      ensures BeforeOrSame(x, y) || BeforeOrSame(y, x)
    {
      TextTrichotomy(x.id, y.id);
    }
    forall x: InLine, y: InLine, z: InLine | BeforeOrSame(x, y) && BeforeOrSame(y, z)
      ensures BeforeOrSame(x, z)
    {
      if TextLess(x.id, y.id) && TextLess(y.id, z.id) {
        TextTransitive(x.id, y.id, z.id);
      }
    }
  }

  /** The runs of byId that wait for a runner, in the order the ids are enumerated. */
  function WaitingRuns(ids: seq<RunId>, byId: map<RunId, RunInfo>): seq<InLine> {
    if ids == [] then []
    else if ids[0] in byId && Waits(byId[ids[0]].status) then
      [InLine(ids[0], byId[ids[0]].created)] + WaitingRuns(ids[1..], byId)
    else WaitingRuns(ids[1..], byId)
  }

  function Line(ids: seq<RunId>, byId: map<RunId, RunInfo>): seq<InLine> {
    Sort(WaitingRuns(ids, byId), BeforeOrSame)
  }

  /** pos gives the i-th run of the line the number i + 1. */
  ghost predicate Numbers(pos: map<RunId, nat>, line: seq<InLine>) {
    && (forall i :: 0 <= i < |line| ==> line[i].id in pos && pos[line[i].id] == i + 1)
    && (forall id :: id in pos ==> InTheLine(line, id))
  }

  ghost predicate InTheLine(line: seq<InLine>, id: RunId) {
    exists i :: 0 <= i < |line| && line[i].id == id
  }

  function LineId(r: InLine): RunId {
    r.id
  }

  lemma {:induction false} WaitingRunsMembers(ids: seq<RunId>, byId: map<RunId, RunInfo>)
    requires forall i, j :: 0 <= i < j < |ids| ==> ids[i] != ids[j]
    ensures forall r :: r in WaitingRuns(ids, byId) <==>
      r.id in ids && r.id in byId && Waits(byId[r.id].status) && r.at == byId[r.id].created
    ensures Apart(WaitingRuns(ids, byId), LineId)
  {
    if ids != [] {
      var rest := ids[1..];
      assert forall i, j :: 0 <= i < j < |rest| ==> rest[i] != rest[j];
      WaitingRunsMembers(rest, byId);
      forall r
        ensures r in WaitingRuns(ids, byId) <==>
          r.id in ids && r.id in byId && Waits(byId[r.id].status) && r.at == byId[r.id].created
      {
        assert r.id in ids <==> r.id == ids[0] || r.id in rest;
        if r.id == ids[0] {
          assert r.id !in rest;
        }
      }
      var l := WaitingRuns(rest, byId);
      forall j | 0 <= j < |l|
        ensures l[j].id != ids[0]
      {
        assert l[j] in l;
        assert l[j].id in rest;
      }
    }
  }

  /** The run is listed, is not over, and has neither a runner nor a question to be answered
      by hand. */
  ghost predicate IsWaiting(id: RunId, byId: map<RunId, RunInfo>) {
    && id in byId
    && var status := byId[id].status;
      !status.Completed? && !status.InProgress? && !status.ActionRequired? && !status.OtherStatus?
  }

  ghost predicate Taken(pos: map<RunId, nat>, n: nat) {
    exists id :: id in pos && pos[id] == n
  }

  ghost predicate CreatedBefore(a: RunId, b: RunId, byId: map<RunId, RunInfo>) {
    && a in byId && b in byId
    && (byId[a].created < byId[b].created || (byId[a].created == byId[b].created && TextLess(a, b)))
  }

  /** The line holds the waiting runs, each once, in strictly ascending order. */
  lemma LineIsStrict(ids: seq<RunId>, byId: map<RunId, RunInfo>)
    requires Enumerates(ids, byId.Keys)
    ensures Apart(Line(ids, byId), LineId)
    ensures forall r :: r in Line(ids, byId) <==> IsWaiting(r.id, byId) && r.at == byId[r.id].created
    ensures forall i, j :: 0 <= i < j < |Line(ids, byId)| ==> Before(Line(ids, byId)[i], Line(ids, byId)[j])
  {
    WaitingRunsMembers(ids, byId);
    SortKeepsApart(WaitingRuns(ids, byId), BeforeOrSame, LineId);
    SortMembers(WaitingRuns(ids, byId), BeforeOrSame);
    BeforeOrSameIsOrder();
    SortSorted(WaitingRuns(ids, byId), BeforeOrSame);
  }

  lemma PlaceOf(ids: seq<RunId>, byId: map<RunId, RunInfo>, pos: map<RunId, nat>, id: RunId)
    requires Enumerates(ids, byId.Keys) && Numbers(pos, Line(ids, byId))
    ensures id in pos <==> IsWaiting(id, byId)
    ensures id in pos ==>
      1 <= pos[id] <= |Line(ids, byId)| && Line(ids, byId)[pos[id] - 1] == InLine(id, byId[id].created)
  {
    var line := Line(ids, byId);
    LineIsStrict(ids, byId);
    if IsWaiting(id, byId) {
      assert InLine(id, byId[id].created) in line;
      var i :| 0 <= i < |line| && line[i] == InLine(id, byId[id].created);
      assert line[i].id in pos;
    }
    if id in pos {
      var i :| 0 <= i < |line| && line[i].id == id;
      assert line[i] in line;
    }
  }

  lemma PlacesFollowTime(ids: seq<RunId>, byId: map<RunId, RunInfo>, pos: map<RunId, nat>, a: RunId, b: RunId)
    requires Enumerates(ids, byId.Keys) && Numbers(pos, Line(ids, byId)) && a in pos && b in pos
    ensures pos[a] < pos[b] <==> CreatedBefore(a, b, byId)
    ensures pos[a] == pos[b] ==> a == b
  {
    PlaceOf(ids, byId, pos, a);
    PlaceOf(ids, byId, pos, b);
    LineIsStrict(ids, byId);
    TextTrichotomy(a, b);
    var line := Line(ids, byId);
    if pos[a] < pos[b] {
      assert Before(line[pos[a] - 1], line[pos[b] - 1]);
    } else if pos[b] < pos[a] {
      assert Before(line[pos[b] - 1], line[pos[a] - 1]);
    }
  }

  /** The numbers are a bijection from the waiting runs onto 1..total, and a run has a
      smaller number exactly when it was created earlier, or at the same moment with a
      smaller id. The order in which the ids are enumerated plays no part. */
  lemma PlacesAreBijection(ids: seq<RunId>, byId: map<RunId, RunInfo>, pos: map<RunId, nat>)
    requires Enumerates(ids, byId.Keys) && Numbers(pos, Line(ids, byId))
    ensures forall id :: id in pos <==> IsWaiting(id, byId)
    ensures forall id :: id in pos ==> 1 <= pos[id] <= |Line(ids, byId)|
    ensures forall n: nat :: 1 <= n <= |Line(ids, byId)| ==> Taken(pos, n)
    ensures forall a, b :: a in pos && b in pos ==> (pos[a] < pos[b] <==> CreatedBefore(a, b, byId))
    ensures forall a, b :: a in pos && b in pos && pos[a] == pos[b] ==> a == b
  {
    var line := Line(ids, byId);
    forall id
      ensures id in pos <==> IsWaiting(id, byId)
      ensures id in pos ==> 1 <= pos[id] <= |line|
    {
      PlaceOf(ids, byId, pos, id);
    }
    forall n: nat | 1 <= n <= |line|
      ensures Taken(pos, n)
    {
      assert line[n - 1].id in pos && pos[line[n - 1].id] == n;
    }
    forall a, b | a in pos && b in pos
      ensures pos[a] < pos[b] <==> CreatedBefore(a, b, byId)
      ensures pos[a] == pos[b] ==> a == b
    {
      PlacesFollowTime(ids, byId, pos, a, b);
    }
  }

  /** A cell starts when its earliest run starts: the lowest place among its runs, 0
      when none of them waits. */
  function BestPlace(runs: seq<Slot>, pos: map<RunId, nat>, best: nat): nat {
    if runs == [] then best
    else
      var p := if runs[0].id != "" && runs[0].id in pos then pos[runs[0].id] else 0;
      BestPlace(runs[1..], pos, if p != 0 && (best == 0 || p < best) then p else best)
  }

  lemma {:induction false} BestPlaceIsAPlace(runs: seq<Slot>, pos: map<RunId, nat>, best: nat)
    ensures var b := BestPlace(runs, pos, best);
      && (b == best || exists i :: 0 <= i < |runs| && runs[i].id != "" && runs[i].id in pos && pos[runs[i].id] == b)
      && (best != 0 ==> 0 < b <= best)
      && (forall i :: 0 <= i < |runs| && runs[i].id != "" && runs[i].id in pos && pos[runs[i].id] != 0
            ==> 0 < b <= pos[runs[i].id])
  {
    if runs != [] {
      var p := if runs[0].id != "" && runs[0].id in pos then pos[runs[0].id] else 0;
      var best' := if p != 0 && (best == 0 || p < best) then p else best;
      BestPlaceIsAPlace(runs[1..], pos, best');
      var b := BestPlace(runs[1..], pos, best');
      if i :| 0 <= i < |runs[1..]| && runs[1..][i].id != "" && runs[1..][i].id in pos && pos[runs[1..][i].id] == b {
        assert runs[i + 1].id in pos && pos[runs[i + 1].id] == b;
      }
      forall i | 0 <= i < |runs| && runs[i].id != "" && runs[i].id in pos && pos[runs[i].id] != 0
        ensures 0 < b <= pos[runs[i].id]
      {
        if i > 0 {
          assert runs[1..][i - 1] == runs[i];
        }
      }
    }
  }

  /** Every run of the entry belongs to a workflow that serves one cell at a time. */
  ghost predicate PerRevision(w: World, e: Entry) {
    forall i :: 0 <= i < |e.runs| ==> e.runs[i].wf !in w.shared
  }

  /** Exclusive claims and distinct places together: in every reachable store no two
      per-revision cells show the same number. */
  lemma NumbersAreNotShared(w: World, steps: seq<Step>, ids: seq<RunId>, byId: map<RunId, RunInfo>,
                            pos: map<RunId, nat>, k: Key, k': Key)
    requires Sane(w) && AllAllowed(w, steps)
    requires Enumerates(ids, byId.Keys) && Numbers(pos, Line(ids, byId))
    requires k in Exec(w, map[], steps) && k' in Exec(w, map[], steps) && k != k'
    requires PerRevision(w, Exec(w, map[], steps)[k]) && PerRevision(w, Exec(w, map[], steps)[k'])
    requires BestPlace(Exec(w, map[], steps)[k].runs, pos, 0) != 0
    ensures BestPlace(Exec(w, map[], steps)[k].runs, pos, 0) != BestPlace(Exec(w, map[], steps)[k'].runs, pos, 0)
  {
    var store := Exec(w, map[], steps);
    ExecSound(w, map[], steps);
    PlacesAreBijection(ids, byId, pos);
    BestPlaceIsAPlace(store[k].runs, pos, 0);
    BestPlaceIsAPlace(store[k'].runs, pos, 0);
    forall i, i' | HasSlot(store, k, i) && HasSlot(store, k', i')
      ensures store[k].runs[i].id != store[k'].runs[i'].id
    {
      assert WellAttributed(w, store[k].runs);
    }
    SeparateBestPlaces(store[k].runs, store[k'].runs, pos);
  }

  /** Entries without a run in common have different places. */
  lemma SeparateBestPlaces(a: seq<Slot>, b: seq<Slot>, pos: map<RunId, nat>)
    requires forall x, y :: x in pos && y in pos && pos[x] == pos[y] ==> x == y
    requires forall i, j :: 0 <= i < |a| && 0 <= j < |b| ==> a[i].id != b[j].id
    requires BestPlace(a, pos, 0) != 0
    ensures BestPlace(a, pos, 0) != BestPlace(b, pos, 0)
  {
    BestPlaceIsAPlace(a, pos, 0);
    BestPlaceIsAPlace(b, pos, 0);
    var n := BestPlace(a, pos, 0);
    var i :| 0 <= i < |a| && a[i].id in pos && pos[a[i].id] == n;
    if j :| 0 <= j < |b| && b[j].id in pos && pos[b[j].id] == BestPlace(b, pos, 0) {
      assert a[i].id != b[j].id;
    }
  }
}
