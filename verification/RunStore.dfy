/** The browser's store of optimistically queued runs, and what each handler of the
    dashboard script makes of it, as functions from the old store to the new one. */
module RunStore {
  import opened Options
  import opened Sorting

  // ----- data -----

  type RunId = string      // the decimal text of a GitHub run id; "" when absent
  type Workflow = string
  type Platform = string

  /** A cell of the dashboard: one capability at one commit. The script joins the two
      with '|'; no capability name contains that character. */
  datatype Key = Key(cap: string, sha: string)

  datatype Status = Queued | InProgress | Requested | Waiting | Pending | ActionRequired | Completed | OtherStatus

  datatype Conclusion = Failure | TimedOut | StartupFailure | Cancelled | OtherConclusion

  /** One run as GitHub reports it. */
  datatype RunInfo = RunInfo(id: RunId, created: int, status: Status, conclusion: Conclusion, url: string)

  /** One run attributed to an entry. */
  datatype Slot = Slot(wf: Workflow, plat: Platform, id: RunId, url: string, status: Status)

  /** A remembered cell. Absent numbers are 0 and absent strings "", as in the script's
      own `||` defaults. */
  datatype Entry = Entry(
    ts: int,
    plats: seq<Platform>,
    parent: string,
    runs: seq<Slot>,
    batchWf: Workflow,
    activeAt: int,
    failed: Option<string>,
    done: int)

  type Store = map<Key, Entry>

  /** The run targets of one capability: the workflow of each platform. */
  type Targets = map<string, map<Platform, Workflow>>

  const QTTL: int := 20 * 60 * 1000
  const QDONE: int := 5 * 60 * 1000
  const QPOSTTL: int := 5 * 60 * 1000
  const CLOCK_SLACK: int := 12000
  const SNAPSHOTS_CAP: string := "snapshots"
  const SNAPSHOTS_WF: Workflow := "vi-snapshots.yml"
  const DEFAULT_PLATFORM: Platform := "windows"

  // ----- small readings of the data -----

  predicate Waits(s: Status) {
    s.Queued? || s.Requested? || s.Waiting? || s.Pending?
  }

  predicate Active(s: Status) {
    Waits(s) || s.InProgress? || s.ActionRequired?
  }

  predicate Failing(c: Conclusion) {
    !c.OtherConclusion?
  }

  predicate HasRun(e: Entry) {
    exists i :: 0 <= i < |e.runs| && e.runs[i].id != ""
  }

  predicate HasPlat(runs: seq<Slot>, plat: Platform) {
    exists i :: 0 <= i < |runs| && runs[i].plat == plat
  }

  predicate Terminal(e: Entry) {
    e.failed.Some? || e.done != 0
  }

  function SlotIds(runs: seq<Slot>): set<RunId> {
    set i | 0 <= i < |runs| && runs[i].id != "" :: runs[i].id
  }

  /** Every run id some entry already holds. */
  function ClaimedIds(store: Store): set<RunId> {
    set k, i | k in store && 0 <= i < |store[k].runs| && store[k].runs[i].id != "" :: store[k].runs[i].id
  }

  // ----- marking and forgetting -----

  function Marked(prev: Option<Entry>, plats: seq<Platform>, parent: string, ts: int, now: int): Entry {
    var prevTs := if prev.Some? then prev.value.ts else 0;
    var prevParent := if prev.Some? then prev.value.parent else "";
    Entry(
      if ts != 0 then ts else if prevTs != 0 then prevTs else now,
      plats,
      if parent != "" then parent else prevParent,
      if prev.Some? then prev.value.runs else [],
      "", 0, None, 0)
  }

  function Lookup(store: Store, key: Key): Option<Entry> {
    if key in store then Some(store[key]) else None
  }

  function MarkStore(store: Store, key: Key, plats: seq<Platform>, parent: string, ts: int, now: int): Store {
    store[key := Marked(Lookup(store, key), plats, parent, ts, now)]
  }

  /** A re-run started from a report page: the page knows nothing of the old entry. */
  function RerunStore(store: Store, key: Key, plat: Platform, now: int): Store {
    store[key := Entry(now, [plat], "", [], "", 0, None, 0)]
  }

  function StampStore(store: Store, keys: set<Key>, wf: Workflow): Store {
    map k | k in store :: if k in keys then store[k].(batchWf := wf) else store[k]
  }

  function ForgetStore(store: Store, key: Key): Store {
    store - {key}
  }

  // ----- attributing runs -----

  predicate NewestFirst(a: RunInfo, b: RunInfo) {
    a.created >= b.created
  }

  predicate Claimable(run: RunInfo, t0: int, claim: set<RunId>) {
    !run.status.OtherStatus? && run.created >= t0 - CLOCK_SLACK && run.id !in claim
  }

  function ClaimableRuns(runs: seq<RunInfo>, t0: int, claim: set<RunId>): seq<RunInfo> {
    if runs == [] then []
    else if Claimable(runs[0], t0, claim) then [runs[0]] + ClaimableRuns(runs[1..], t0, claim)
    else ClaimableRuns(runs[1..], t0, claim)
  }

  function Candidates(runs: seq<RunInfo>, t0: int, claim: set<RunId>): seq<RunInfo> {
    Sort(ClaimableRuns(runs, t0, claim), NewestFirst)
  }

  /** Hands the candidates out, in order, to the platforms still without a run. */
  function Assign(wf: Workflow, plats: seq<Platform>, cands: seq<RunInfo>, runs: seq<Slot>): seq<Slot> {
    if plats == [] then runs
    else if HasPlat(runs, plats[0]) || cands == [] then Assign(wf, plats[1..], cands, runs)
    else
      var c := cands[0];
      Assign(wf, plats[1..], cands[1..], runs + [Slot(wf, plats[0], c.id, c.url, c.status)])
  }

  /** One question put to GitHub: the recent dispatch runs of one workflow, wanted by
      the platforms that use it. */
  datatype Ask = Ask(wf: Workflow, plats: seq<Platform>)

  function ClaimReplies(asks: seq<Ask>, replies: seq<seq<RunInfo>>, t0: int, base: set<RunId>,
                        runs: seq<Slot>): seq<Slot>
    requires |asks| == |replies|
  {
    if asks == [] then runs
    else
      var cands := Candidates(replies[0], t0, base + SlotIds(runs));
      ClaimReplies(asks[1..], replies[1..], t0, base, Assign(asks[0].wf, asks[0].plats, cands, runs))
  }

  function CaptureStore(store: Store, key: Key, asks: seq<Ask>, replies: seq<seq<RunInfo>>, t0: int): Store
    requires |asks| == |replies|
  {
    if key !in store then store
    else store[key := store[key].(runs := ClaimReplies(asks, replies, t0, ClaimedIds(store), store[key].runs))]
  }

  function Recent(runs: seq<RunInfo>, t0: int): seq<RunInfo> {
    if runs == [] then []
    else if runs[0].created >= t0 - CLOCK_SLACK then [runs[0]] + Recent(runs[1..], t0)
    else Recent(runs[1..], t0)
  }

  /** The newest run dispatched at or after t0, if any. */
  function Newest(runs: seq<RunInfo>, t0: int): Option<RunInfo> {
    var s := Sort(Recent(runs, t0), NewestFirst);
    if s == [] then None else Some(s[0])
  }

  /** The entry with a shared run attributed to it. */
  function Shared(e: Entry, wf: Workflow, batch: bool, run: RunInfo): Entry {
    e.(runs := [Slot(wf, if batch then FirstPlat(e) else "all", run.id, run.url, run.status)])
  }

  /** Attributes one shared run to every entry of `wanted` that has no run yet. */
  function ShareStore(store: Store, wanted: set<Key>, wf: Workflow, batch: bool, run: RunInfo): Store {
    map k | k in store ::
      if k in wanted && store[k].runs == [] then Shared(store[k], wf, batch, run) else store[k]
  }

  function FirstPlat(e: Entry): Platform {
    if e.plats != [] && e.plats[0] != "" then e.plats[0] else DEFAULT_PLATFORM
  }

  function SnapshotKeys(store: Store): set<Key> {
    set k | k in store && k.cap == SNAPSHOTS_CAP
  }

  function BatchKeys(store: Store, wf: Workflow): set<Key> {
    set k | k in store && store[k].batchWf == wf
  }

  function SnapshotStore(store: Store, runs: seq<RunInfo>, t0: int): Store {
    match Newest(runs, t0)
    case None => store
    case Some(run) => ShareStore(store, SnapshotKeys(store), SNAPSHOTS_WF, false, run)
  }

  function BatchStore(store: Store, wf: Workflow, runs: seq<RunInfo>, t0: int): Store {
    match Newest(runs, t0)
    case None => store
    case Some(run) => ShareStore(store, BatchKeys(store, wf), wf, true, run)
  }

  // ----- judging runs -----

  function EntryIds(runs: seq<Slot>): seq<RunId> {
    if runs == [] then []
    else if runs[0].id != "" then [runs[0].id] + EntryIds(runs[1..])
    else EntryIds(runs[1..])
  }

  predicate AnyActive(ids: seq<RunId>, byId: map<RunId, RunInfo>) {
    exists i :: 0 <= i < |ids| && ids[i] in byId && Active(byId[ids[i]].status)
  }

  predicate AllKnown(ids: seq<RunId>, byId: map<RunId, RunInfo>) {
    forall i :: 0 <= i < |ids| ==> ids[i] in byId
  }

  predicate Broke(run: RunInfo) {
    run.status.Completed? && Failing(run.conclusion)
  }

  predicate AnyBroke(ids: seq<RunId>, byId: map<RunId, RunInfo>) {
    exists i :: 0 <= i < |ids| && ids[i] in byId && Broke(byId[ids[i]])
  }

  predicate AllCompleted(ids: seq<RunId>, byId: map<RunId, RunInfo>) {
    forall i :: 0 <= i < |ids| ==> ids[i] in byId && byId[ids[i]].status.Completed?
  }

  /** The address of the first failed run that has one. */
  function FailUrl(ids: seq<RunId>, byId: map<RunId, RunInfo>): string {
    if ids == [] then ""
    else if ids[0] in byId && Broke(byId[ids[0]]) && byId[ids[0]].url != "" then byId[ids[0]].url
    else FailUrl(ids[1..], byId)
  }

  /** What the live run list says of one entry: any active run means still live;
      otherwise failed once every run is known and one broke; otherwise done once all
      completed; otherwise nothing yet. */
  function Judged(e: Entry, byId: map<RunId, RunInfo>, now: int): Entry {
    var ids := EntryIds(e.runs);
    if Terminal(e) || ids == [] then e
    else if AnyActive(ids, byId) then e.(activeAt := now)
    else if AnyBroke(ids, byId) && AllKnown(ids, byId) then e.(failed := Some(FailUrl(ids, byId)))
    else if AllCompleted(ids, byId) then e.(done := now)
    else e
  }

  function SyncStore(store: Store, byId: map<RunId, RunInfo>, now: int): Store {
    map k | k in store :: Judged(store[k], byId, now)
  }

  // ----- keeping or dropping -----

  datatype Badge = NoBadge | QueuedBadge | FailedBadge

  /** What the page shows for a cell: an overlay badge, an empty run glyph, and the
      time stamp of a server result (0 when it carries none). */
  datatype Cell = Cell(badge: Badge, glyph: bool, result: Option<int>)

  type Page = map<Key, Cell>

  const NO_CELL: Cell := Cell(NoBadge, false, None)

  function CellAt(page: Page, k: Key): Cell {
    if k in page then page[k] else NO_CELL
  }

  predicate Painted(c: Cell) {
    !c.badge.NoBadge?
  }

  predicate OnPage(c: Cell) {
    Painted(c) || c.glyph || c.result.Some?
  }

  predicate NewerResult(e: Entry, c: Cell) {
    c.result.Some? && c.result.value != 0 && c.result.value > e.ts
  }

  predicate Alive(e: Entry, now: int, tok: bool) {
    || (HasRun(e) && tok)
    || now - e.ts <= QTTL
    || (e.activeAt != 0 && now - e.activeAt <= QTTL)
  }

  /** Still in line, as `qLiveEntries` selects it. */
  predicate InQueue(e: Entry, now: int, tok: bool) {
    !Terminal(e) && Alive(e, now, tok)
  }

  predicate Keeps(e: Entry, c: Cell, now: int, tok: bool) {
    if e.failed.Some? then !NewerResult(e, c)
    else if e.done != 0 && (c.result.Some? || now - e.done > QDONE) then false
    else if !Alive(e, now, tok) then false
    else if Painted(c) || c.glyph then true
    else c.result.Some? && !NewerResult(e, c)
  }

  function ApplyStore(store: Store, page: Page, now: int, tok: bool): Store {
    map k | k in store && Keeps(store[k], CellAt(page, k), now, tok) :: store[k]
  }

  /** The overlay painted on a kept entry's cell. A queued badge never replaces a
      badge that is already there; a failed one does. */
  function PaintedCell(e: Entry, c: Cell): Cell {
    if e.failed.Some? then
      if Painted(c) then c.(badge := FailedBadge)
      else if c.glyph then c.(badge := FailedBadge, glyph := false)
      else if c.result.Some? then c.(badge := FailedBadge)
      else c
    else if Painted(c) then c
    else if c.glyph then c.(badge := QueuedBadge, glyph := false)
    else if c.result.Some? then c.(badge := QueuedBadge)
    else c
  }

  function ApplyPage(store: Store, page: Page, now: int, tok: bool): Page {
    map k | k in page ::
      if k in store && Keeps(store[k], page[k], now, tok) then PaintedCell(store[k], page[k]) else page[k]
  }
}
