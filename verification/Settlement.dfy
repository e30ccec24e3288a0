/** What a dispatch leaves behind: the whole entry of a cell, and the whole report. */
module Settlement {
  import opened Options
  import opened RunStore
  import opened Dispatch
  import opened DispatchRun

  // ----- marks painted up front -----

  /** What a unit's mark says. */
  function MarkedPlats(u: Unit): seq<Platform> {
    match u
    case Snapshots(_, _) => ["all"]
    case BatchUnit(g) => [g.plat]
    case Revision(_, plats) => plats
  }

  function MarkedParent(u: Unit): string {
    if u.Revision? then u.x.parent else ""
  }

  lemma {:induction false} MarkKeysAt(store: Store, keys: seq<Key>, plats: seq<Platform>, parent: string, t0: int,
                                      k: Key)
    requires t0 != 0
    ensures Lookup(MarkKeys(store, keys, plats, parent, t0), k) ==
      if k in keys then Some(Marked(Lookup(store, k), plats, parent, t0, t0)) else Lookup(store, k)
    decreases |keys|
  {
    if keys != [] {
      var store1 := MarkStore(store, keys[0], plats, parent, t0, t0);
      MarkKeysAt(store1, keys[1..], plats, parent, t0, k);
      assert Marked(Some(Marked(Lookup(store, k), plats, parent, t0, t0)), plats, parent, t0, t0)
          == Marked(Lookup(store, k), plats, parent, t0, t0);
    }
  }

  lemma PaintUnitAt(cfg: Config, store: Store, u: Unit, t0: int, k: Key)
    requires t0 != 0
    ensures Lookup(PaintUnit(cfg, store, u, t0), k) ==
      if GetsPainted(cfg, u) && Touches(u, k)
      then Some(Marked(Lookup(store, k), MarkedPlats(u), MarkedParent(u), t0, t0))
      else Lookup(store, k)
  {
    MarkKeysAt(store, UnitKeys(u), MarkedPlats(u), MarkedParent(u), t0, k);
  }

  /** Units from i up to j do not speak for the cell. */
  ghost predicate Silent(chain: seq<Unit>, k: Key, i: nat, j: nat) {
    forall m :: i <= m < j && m < |chain| ==> !Touches(chain[m], k)
  }

  lemma {:induction false} PaintAllAt(cfg: Config, store: Store, chain: seq<Unit>, t0: int, k: Key, only: nat)
    requires t0 != 0 && Silent(chain, k, 0, only) && Silent(chain, k, only + 1, |chain|)
    ensures Lookup(PaintAll(cfg, store, chain, t0), k) ==
      if only < |chain| && GetsPainted(cfg, chain[only]) && Touches(chain[only], k)
      then Some(Marked(Lookup(store, k), MarkedPlats(chain[only]), MarkedParent(chain[only]), t0, t0))
      else Lookup(store, k)
    decreases |chain|
  {
    if chain != [] {
      PaintUnitAt(cfg, store, chain[0], t0, k);
      var rest := chain[1..];
      assert forall m :: 0 <= m < |rest| ==> rest[m] == chain[m + 1];
      if only == 0 {
        PaintAllAt(cfg, PaintUnit(cfg, store, chain[0], t0), rest, t0, k, |rest|);
      } else {
        PaintAllAt(cfg, PaintUnit(cfg, store, chain[0], t0), rest, t0, k, only - 1);
      }
    }
  }

  function Stamped(e: Option<Entry>, u: Unit): Option<Entry> {
    if e.Some? && u.BatchUnit? then Some(e.value.(batchWf := u.g.wf)) else e
  }

  lemma {:induction false} StampAllAt(store: Store, chain: seq<Unit>, k: Key, only: nat)
    requires Silent(chain, k, 0, only) && Silent(chain, k, only + 1, |chain|)
    ensures Lookup(StampAll(store, chain), k) ==
      if only < |chain| && Touches(chain[only], k) then Stamped(Lookup(store, k), chain[only]) else Lookup(store, k)
    decreases |chain|
  {
    if chain != [] {
      var rest := chain[1..];
      assert forall m :: 0 <= m < |rest| ==> rest[m] == chain[m + 1];
      StampAllAt(StampUnit(store, chain[0]), rest, k, if only == 0 then |rest| else only - 1);
    }
  }

  // ----- answers -----

  lemma {:induction false} ForgetKeysAt(store: Store, keys: seq<Key>, k: Key)
    ensures Lookup(ForgetKeys(store, keys), k) == if k in keys then None else Lookup(store, k)
    decreases |keys|
  {
    if keys != [] {
      ForgetKeysAt(ForgetStore(store, keys[0]), keys[1..], k);
    }
  }

  lemma SettleSilent(cfg: Config, store: Store, u: Unit, ans: Answers, i: nat, t0: int, k: Key)
    requires !Touches(u, k)
    ensures Lookup(SettleStore(cfg, store, u, ans, i, t0), k) == Lookup(store, k)
  {
    if !u.Revision? {
      ForgetKeysAt(store, UnitKeys(u), k);
    }
  }

  lemma {:induction false} SettleAllSilent(cfg: Config, store: Store, chain: seq<Unit>, ans: Answers, i: nat, t0: int,
                                           k: Key)
    requires i <= |chain| && Silent(chain, k, i, |chain|)
    ensures Lookup(SettleAll(cfg, store, chain, ans, i, t0), k) == Lookup(store, k)
    decreases |chain| - i
  {
    if i < |chain| {
      SettleSilent(cfg, store, chain[i], ans, i, t0, k);
      SettleAllSilent(cfg, SettleStore(cfg, store, chain[i], ans, i, t0), chain, ans, i + 1, t0, k);
    }
  }

  lemma {:induction false} SettleAllAt(cfg: Config, store: Store, chain: seq<Unit>, ans: Answers, i: nat, only: nat,
                                       t0: int, k: Key) returns (store': Store)
    requires i <= only < |chain| && Silent(chain, k, i, only) && Silent(chain, k, only + 1, |chain|)
    ensures Lookup(store', k) == Lookup(store, k)
    ensures Lookup(SettleAll(cfg, store, chain, ans, i, t0), k) ==
      Lookup(SettleStore(cfg, store', chain[only], ans, only, t0), k)
    decreases only - i
  {
    var store1 := SettleStore(cfg, store, chain[i], ans, i, t0);
    if i == only {
      store' := store;
      SettleAllSilent(cfg, store1, chain, ans, i + 1, t0, k);
    } else {
      SettleSilent(cfg, store, chain[i], ans, i, t0, k);
      store' := SettleAllAt(cfg, store1, chain, ans, i + 1, only, t0, k);
    }
  }

  /** The requests from j on that were accepted, in order. */
  lemma {:induction false} AcceptedAt(plats: seq<Platform>, ans: Answers, i: nat, j: nat) returns (at: seq<nat>)
    requires j <= |plats|
    ensures ArePlatsOf(AcceptedPlats(plats, ans, i, j), plats, at)
    ensures forall m :: m in at <==> j <= m < |plats| && ans(i, m) == ACCEPTED
    decreases |plats| - j
  {
    at := [];
    if j < |plats| {
      var rest := AcceptedAt(plats, ans, i, j + 1);
      at := rest;
      if ans(i, j) == ACCEPTED {
        at := [j] + rest;
        PlatsOfCons(AcceptedPlats(plats, ans, i, j + 1), plats, rest, j);
        forall m
          ensures m in at <==> m == j || m in rest
        {
        }
      }
    }
  }

  lemma PlatsOfCons(plats: seq<Platform>, all: seq<Platform>, rest: seq<nat>, j: nat)
    requires ArePlatsOf(plats, all, rest) && j < |all| && forall m :: m in rest ==> j < m
    ensures ArePlatsOf([all[j]] + plats, all, [j] + rest)
  {
    var at := [j] + rest;
    forall m | 0 < m < |at|
      ensures at[m] == rest[m - 1] && j < at[m]
    {
      assert at[m] in rest;
    }
  }

  /** The platforms are those at the places `at` of all, in the same order. */
  ghost predicate ArePlatsOf(plats: seq<Platform>, all: seq<Platform>, at: seq<nat>) {
    && |plats| == |at|
    && (forall m :: 0 <= m < |at| ==> at[m] < |all| && plats[m] == all[at[m]])
    && (forall m, n :: 0 <= m < n < |at| ==> at[m] < at[n])
  }

  /** The platforms of the accepted requests, in the order of the requests. */
  ghost predicate ExactlyAccepted(plats: seq<Platform>, all: seq<Platform>, ans: Answers, i: nat) {
    exists at :: ArePlatsOf(plats, all, at) && forall j :: j in at <==> 0 <= j < |all| && ans(i, j) == ACCEPTED
  }

  /** What a cell's entry says once the only dispatch that speaks for it has been accepted:
      the time of the dispatch; the platforms of exactly the requests that were accepted, or
      what the shared run covers; the runs and the parent known before, the stamp of its
      batch, and no verdict. */
  lemma AcceptedEntry(cfg: Config, store: Store, chain: seq<Unit>, ans: Answers, t0: int, k: Key, only: nat)
    requires only < |chain| && Touches(chain[only], k) && OneUnit(chain, k) && t0 > 0
    requires Dispatchable(cfg, chain[only]) && Accepts(chain[only], ans, only)
    ensures k in FinalStore(cfg, store, chain, ans, t0)
    ensures var u := chain[only];
      var e := FinalStore(cfg, store, chain, ans, t0)[k];
      var parent := if k in store then store[k].parent else "";
      && e.ts == t0 && e.runs == (if k in store then store[k].runs else [])
      && e.failed.None? && e.done == 0 && e.activeAt == 0
      && e.batchWf == (if u.BatchUnit? then u.g.wf else "")
      && e.parent == (if u.Revision? && u.x.parent != "" then u.x.parent else parent)
      && match u
         case Snapshots(_, _) => e.plats == ["all"]
         case BatchUnit(g) => e.plats == [g.plat]
         case Revision(_, plats) => ExactlyAccepted(e.plats, plats, ans, only)
  {
    var u := chain[only];
    var store' := EntryBeforeAnswer(cfg, store, chain, ans, t0, k, only);
    if u.Revision? {
      AcceptedPlatsNonempty(u, ans, only, 0);
      var at := AcceptedAt(u.plats, ans, only, 0);
      assert ExactlyAccepted(AcceptedPlats(u.plats, ans, only, 0), u.plats, ans, only);
    }
  }

  /** The only dispatch that speaks for the cell finds its mark, and decides the outcome. */
  lemma EntryBeforeAnswer(cfg: Config, store: Store, chain: seq<Unit>, ans: Answers, t0: int, k: Key, only: nat)
    returns (store': Store)
    requires only < |chain| && Touches(chain[only], k) && OneUnit(chain, k) && t0 > 0
    requires Dispatchable(cfg, chain[only]) && Accepts(chain[only], ans, only)
    ensures var u := chain[only];
      && Lookup(store', k) == Stamped(Some(Marked(Lookup(store, k), MarkedPlats(u), MarkedParent(u), t0, t0)), u)
      && Lookup(FinalStore(cfg, store, chain, ans, t0), k) ==
           Lookup(SettleStore(cfg, store', u, ans, only, t0), k)
  {
    DispatchableIsPainted(cfg, chain[only]);
    OnlyOneSpeaks(chain, k, only);
    var painted := PaintAll(cfg, store, chain, t0);
    PaintAllAt(cfg, store, chain, t0, k, only);
    StampAllAt(painted, chain, k, only);
    store' := SettleAllAt(cfg, StampAll(painted, chain), chain, ans, 0, only, t0, k);
  }

  lemma OnlyOneSpeaks(chain: seq<Unit>, k: Key, only: nat)
    requires only < |chain| && Touches(chain[only], k) && OneUnit(chain, k)
    ensures Silent(chain, k, 0, only) && Silent(chain, k, only + 1, |chain|)
  {
    forall m | 0 <= m < |chain| && m != only
      ensures !Touches(chain[m], k)
    {
      OthersAreSilent(chain, k, only, m);
    }
  }

  /** Cells that no dispatch speaks for keep their entry, or their lack of one. */
  lemma OtherEntriesStay(cfg: Config, store: Store, chain: seq<Unit>, ans: Answers, t0: int, k: Key)
    requires t0 > 0 && forall i :: 0 <= i < |chain| ==> !Touches(chain[i], k)
    ensures Lookup(FinalStore(cfg, store, chain, ans, t0), k) == Lookup(store, k)
  {
    var painted := PaintAll(cfg, store, chain, t0);
    PaintAllAt(cfg, store, chain, t0, k, |chain|);
    StampAllAt(painted, chain, k, |chain|);
    SettleAllSilent(cfg, StampAll(painted, chain), chain, ans, 0, t0, k);
  }

  // ----- the report -----

  /** Request j of unit i was sent and answered with the status s. */
  ghost predicate Answered(cfg: Config, chain: seq<Unit>, ans: Answers, i: int, j: int, s: int) {
    0 <= i < |chain| && Dispatchable(cfg, chain[i]) && 0 <= j < Size(chain[i]) && ans(i, j) == s
  }

  /** The workflow that request j of a unit goes to. */
  ghost predicate GoesTo(cfg: Config, u: Unit, j: int, wf: Workflow) {
    match u
    case Snapshots(_, _) => wf == SNAPSHOTS_WF
    case BatchUnit(g) => wf == g.wf
    case Revision(x, plats) =>
      0 <= j < |plats| && Known(cfg, x.cap, plats[j]) && wf == cfg.rt[x.cap].targets[plats[j]].wf
  }

  ghost predicate RefusedAt(cfg: Config, chain: seq<Unit>, ans: Answers, wf: Workflow, s: int, i: int, j: int) {
    s != ACCEPTED && Answered(cfg, chain, ans, i, j, s) && GoesTo(cfg, chain[i], j, wf)
  }

  lemma {:induction false} RefusalsAre(cfg: Config, u: Unit, ans: Answers, i: nat, j: nat, wf: Workflow, s: int)
    requires Dispatchable(cfg, u) && j <= Size(u)
    ensures (wf, s) in Refusals(cfg, u, ans, i, j) <==>
      exists m :: j <= m < Size(u) && ans(i, m) == s != ACCEPTED && GoesTo(cfg, u, m, wf)
    decreases Size(u) - j
  {
    if j < Size(u) {
      RefusalsAre(cfg, u, ans, i, j + 1, wf, s);
      assert GoesTo(cfg, u, j, wf) <==> wf == WorkflowOf(cfg, u, j);
      var rest := Refusals(cfg, u, ans, i, j + 1);
      assert (wf, s) in [(WorkflowOf(cfg, u, j), ans(i, j))] + rest <==>
        (wf, s) == (WorkflowOf(cfg, u, j), ans(i, j)) || (wf, s) in rest;
    }
  }

  ghost predicate AnsweredSomewhere(cfg: Config, chain: seq<Unit>, ans: Answers, i: int, s: int) {
    exists j :: Answered(cfg, chain, ans, i, j, s)
  }

  /** The units from i on of which a request was accepted. */
  ghost function Winners(cfg: Config, chain: seq<Unit>, ans: Answers, i: nat): set<nat> {
    set m: nat | i <= m < |chain| && AnsweredSomewhere(cfg, chain, ans, m, ACCEPTED)
  }

  lemma AnswersOfUnit(cfg: Config, chain: seq<Unit>, ans: Answers, i: nat)
    requires i < |chain| && Dispatchable(cfg, chain[i])
    ensures Accepts(chain[i], ans, i) <==> AnsweredSomewhere(cfg, chain, ans, i, ACCEPTED)
    ensures Unauthorized(chain[i], ans, i) <==> AnsweredSomewhere(cfg, chain, ans, i, UNAUTHORIZED)
  {
    if Accepts(chain[i], ans, i) {
      var j :| 0 <= j < Size(chain[i]) && ans(i, j) == ACCEPTED;
      assert Answered(cfg, chain, ans, i, j, ACCEPTED);
    }
    if Unauthorized(chain[i], ans, i) {
      var j :| 0 <= j < Size(chain[i]) && ans(i, j) == UNAUTHORIZED;
      assert Answered(cfg, chain, ans, i, j, UNAUTHORIZED);
    }
  }

  lemma {:induction false} OkFrom(cfg: Config, t: Tally, chain: seq<Unit>, ans: Answers, i: nat)
    requires i <= |chain|
    ensures TallyAll(cfg, t, chain, ans, i).ok == t.ok + |Winners(cfg, chain, ans, i)|
    decreases |chain| - i
  {
    var here := Winners(cfg, chain, ans, i);
    if i < |chain| {
      OkFrom(cfg, SettleTally(cfg, t, chain[i], ans, i), chain, ans, i + 1);
      var later := Winners(cfg, chain, ans, i + 1);
      if Dispatchable(cfg, chain[i]) {
        AnswersOfUnit(cfg, chain, ans, i);
      }
      assert here == if AnsweredSomewhere(cfg, chain, ans, i, ACCEPTED) then later + {i} else later;
    }
  }

  lemma {:induction false} TokenFrom(cfg: Config, t: Tally, chain: seq<Unit>, ans: Answers, i: nat)
    requires i <= |chain|
    ensures TallyAll(cfg, t, chain, ans, i).tokenCleared <==>
      t.tokenCleared || exists m :: m >= i && AnsweredSomewhere(cfg, chain, ans, m, UNAUTHORIZED)
    decreases |chain| - i
  {
    if i < |chain| {
      TokenFrom(cfg, SettleTally(cfg, t, chain[i], ans, i), chain, ans, i + 1);
      if Dispatchable(cfg, chain[i]) {
        AnswersOfUnit(cfg, chain, ans, i);
      }
    }
  }

  ghost predicate RefusedSomewhere(cfg: Config, chain: seq<Unit>, ans: Answers, wf: Workflow, s: int, i: int) {
    exists j :: RefusedAt(cfg, chain, ans, wf, s, i, j)
  }

  lemma RefusalsOfUnit(cfg: Config, chain: seq<Unit>, ans: Answers, i: nat, wf: Workflow, s: int)
    requires i < |chain| && Dispatchable(cfg, chain[i])
    ensures (wf, s) in Refusals(cfg, chain[i], ans, i, 0) <==> RefusedSomewhere(cfg, chain, ans, wf, s, i)
  {
    RefusalsAre(cfg, chain[i], ans, i, 0, wf, s);
    if (wf, s) in Refusals(cfg, chain[i], ans, i, 0) {
      var j :| 0 <= j < Size(chain[i]) && ans(i, j) == s != ACCEPTED && GoesTo(cfg, chain[i], j, wf);
      assert RefusedAt(cfg, chain, ans, wf, s, i, j);
    }
    if RefusedSomewhere(cfg, chain, ans, wf, s, i) {
      var j :| RefusedAt(cfg, chain, ans, wf, s, i, j);
      assert GoesTo(cfg, chain[i], j, wf);
    }
  }

  lemma {:induction false} FailsFrom(cfg: Config, t: Tally, chain: seq<Unit>, ans: Answers, i: nat, wf: Workflow,
                                     s: int)
    requires i <= |chain|
    ensures (wf, s) in TallyAll(cfg, t, chain, ans, i).fails <==>
      (wf, s) in t.fails || exists m :: m >= i && RefusedSomewhere(cfg, chain, ans, wf, s, m)
    decreases |chain| - i
  {
    if i < |chain| {
      FailsFrom(cfg, SettleTally(cfg, t, chain[i], ans, i), chain, ans, i + 1, wf, s);
      if Dispatchable(cfg, chain[i]) {
        RefusalsOfUnit(cfg, chain, ans, i, wf, s);
      }
      assert (wf, s) in SettleTally(cfg, t, chain[i], ans, i).fails <==>
        (wf, s) in t.fails || RefusedSomewhere(cfg, chain, ans, wf, s, i);
    }
  }

  /** The report, request by request: `ok` counts the dispatches of which some request was
      accepted; the failures listed are the refused requests, each with the workflow it
      went to and its status; the token is dropped exactly when a request was answered 401. */
  lemma ReportIsExact(cfg: Config, chain: seq<Unit>, ans: Answers, wf: Workflow, s: int)
    ensures var t := TallyAll(cfg, ZERO, chain, ans, 0);
      && t.ok == |Winners(cfg, chain, ans, 0)|
      && ((wf, s) in t.fails <==> exists i, j :: RefusedAt(cfg, chain, ans, wf, s, i, j))
      && (t.tokenCleared <==> exists i, j :: Answered(cfg, chain, ans, i, j, UNAUTHORIZED))
  {
    OkFrom(cfg, ZERO, chain, ans, 0);
    TokenFrom(cfg, ZERO, chain, ans, 0);
    FailsFrom(cfg, ZERO, chain, ans, 0, wf, s);
    if i, j :| RefusedAt(cfg, chain, ans, wf, s, i, j) {
      assert RefusedSomewhere(cfg, chain, ans, wf, s, i);
    }
    if i, j :| Answered(cfg, chain, ans, i, j, UNAUTHORIZED) {
      assert AnsweredSomewhere(cfg, chain, ans, i, UNAUTHORIZED);
    }
  }
}
