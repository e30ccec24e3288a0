/** Which cells and platforms a dispatch is for: what the dialog selects, what the user's
    platform choice leaves, and in which order the requests go out. */
module Selection {
  import opened Options
  import opened RunStore
  import opened Sorting
  import opened Dispatch
  import opened DispatchProps
  import opened DispatchRun
  import opened Estimate

  // ----- the dialog -----

  /** The dialog is to dispatch the cell: its revision is in scope, its activity is switched
      on and, unless re-running, the cell is empty; its platform is selected, and there is
      something to compare with. */
  predicate Chosen(cfg: Config, scope: set<string>, mode: map<string, Choice>, x: DCell) {
    && x.sha in scope && x.cap in mode
    && (mode[x.cap] == Rerun || (mode[x.cap] == Fill && !x.done))
    && (x.cap == VIDIFF ==> x.parent != "")
    && (x.platform != "" ==> x.platform in SelectedPlatforms(cfg, x.cap))
  }

  /** The dialog selects every chosen cell and no other, in order, each as a re-run exactly
      when its activity is to re-run. */
  lemma {:induction false} HistCellsAreChosen(cfg: Config, all: seq<DCell>, scope: set<string>,
                                              mode: map<string, Choice>)
    ensures var cells := HistCells(cfg, all, scope, mode);
      var chosen := Filter(all, (x: DCell) => Chosen(cfg, scope, mode, x));
      && |cells| == |chosen|
      && forall i :: 0 <= i < |cells| ==>
           chosen[i].cap in mode && cells[i] == chosen[i].(rerun := mode[chosen[i].cap] == Rerun)
  {
    if all != [] {
      HistCellsAreChosen(cfg, all[1..], scope, mode);
    }
  }

  // ----- the platform choice -----

  lemma {:induction false} KeepKnownIs(s: seq<Platform>, known: seq<Platform>)
    ensures KeepKnown(s, known) == Filter(s, (p: Platform) => p in known)
  {
    if s != [] {
      KeepKnownIs(s[1..], known);
    }
  }

  /** The user has chosen among the platforms of a capability, and some choice of his exists. */
  ghost predicate Narrows(cfg: Config, cap: string) {
    && PlatformCap(cap) && |CapPlatforms(cfg, cap)| > 1 && cap in cfg.platState
    && exists p :: p in cfg.platState[cap] && p in CapPlatforms(cfg, cap)
  }

  /** A cell runs on the platform it names. Any other runs on the existing platforms of its
      capability, on those of them that the user has chosen when the capability offers a
      choice and the choice holds one; so it never runs on none that it could run on. */
  lemma CellPlatformsAre(cfg: Config, x: DCell)
    ensures var keys := CapPlatforms(cfg, x.cap);
      && (x.platform != "" ==> CellPlatforms(cfg, x) == [x.platform])
      && (x.platform == "" ==>
            CellPlatforms(cfg, x) ==
              if Narrows(cfg, x.cap) then Filter(cfg.platState[x.cap], (p: Platform) => p in keys) else keys)
      && (keys != [] ==> CellPlatforms(cfg, x) != [])
  {
    var keys := CapPlatforms(cfg, x.cap);
    var known := (p: Platform) => p in keys;
    if PlatformCap(x.cap) && |keys| > 1 {
      var wanted := if x.cap in cfg.platState then cfg.platState[x.cap] else keys;
      KeepKnownIs(wanted, keys);
      FilterMembers(wanted, known);
      FilterAll(keys, known);
      var chosen := Filter(wanted, known);
      if chosen != [] {
        assert chosen[0] in chosen;
      }
    }
  }

  lemma {:induction false} FilterAll(s: seq<Platform>, p: Platform -> bool)
    requires forall x :: x in s ==> p(x)
    ensures Filter(s, p) == s
  {
    if s != [] {
      FilterAll(s[1..], p);
    }
  }

  // ----- what is sent -----

  /** A run is sent on its own exactly when its cell is selected, is neither a snapshot nor a
      diff of a root commit, is to run on the platform, and the warm-container route does not
      take it. */
  lemma SentIffWanted(cfg: Config, cells: seq<DCell>, x: DCell, p: Platform)
    ensures Sent(Chain(cfg, cells))[(x, p)] > 0 <==>
      && x in cells && x.cap != SNAPSHOTS_CAP && (x.cap == VIDIFF ==> x.parent != "")
      && p in CellPlatforms(cfg, x)
      && !(cfg.reuse && x.cap in cfg.rt && p in cfg.rt[x.cap].targets && cfg.rt[x.cap].targets[p].batch.Some?)
  {
    SplitIsPartition(cfg, cells, x, p);
    assert x in cells <==> multiset(cells)[x] > 0;
    assert p in CellPlatforms(cfg, x) <==> multiset(CellPlatforms(cfg, x))[p] > 0;
    if x in cells && p in CellPlatforms(cfg, x) {
      TimesPositive(multiset(cells)[x], multiset(CellPlatforms(cfg, x))[p]);
    } else {
      TimesZero(multiset(cells)[x]);
      TimesNone(multiset(CellPlatforms(cfg, x))[p]);
    }
  }

  lemma {:induction false} TimesNone(n: nat)
    ensures Times(0, n) == 0
  {
  }

  lemma {:induction false} SnapshotShasAre(cells: seq<DCell>)
    ensures var snaps := Filter(cells, (x: DCell) => x.cap == SNAPSHOTS_CAP);
      && |SnapshotShas(cells)| == |snaps|
      && forall i :: 0 <= i < |snaps| ==> SnapshotShas(cells)[i] == snaps[i].sha
  {
    if cells != [] {
      SnapshotShasAre(cells[1..]);
    }
  }

  /** One snapshots dispatch goes out, first, exactly when some cell is a snapshot; it speaks
      for the commits of all those cells, and is forced exactly when one of them is a re-run
      or already done. */
  lemma SnapshotsGoFirst(cfg: Config, cells: seq<DCell>)
    ensures var chain := Chain(cfg, cells);
      var snaps := Filter(cells, (x: DCell) => x.cap == SNAPSHOTS_CAP);
      && (forall i :: 0 <= i < |chain| ==> (chain[i].Snapshots? <==> i == 0 && snaps != []))
      && (snaps != [] ==>
            && chain != [] && |chain[0].shas| == |snaps|
            && (forall i :: 0 <= i < |snaps| ==> chain[0].shas[i] == snaps[i].sha)
            && (chain[0].force <==> exists x :: x in cells && x.cap == SNAPSHOTS_CAP && (x.rerun || x.done)))
  {
    SnapshotShasAre(cells);
    var chain := Chain(cfg, cells);
    var revisions := Revisions(cfg, SortedCells(cells));
    var n := |SnapshotUnits(cells)| + |BatchesOf(cfg, cells)|;
    ChainLength(cfg, cells);
    forall i | |SnapshotUnits(cells)| <= i < |chain|
      ensures !chain[i].Snapshots?
    {
      if i < n {
        ChainBatchAt(cfg, cells, i - |SnapshotUnits(cells)|);
      } else {
        ChainRevisionAt(cfg, cells, i - n);
        RevisionUnitsAre(cfg, SortedCells(cells), i - n);
      }
    }
    ForcedIff(cells);
  }

  lemma ForcedIff(cells: seq<DCell>)
    ensures SnapshotForce(cells) <==> exists x :: x in cells && x.cap == SNAPSHOTS_CAP && (x.rerun || x.done)
  {
    if SnapshotForce(cells) {
      var i :| 0 <= i < |cells| && IsSnapshot(cells[i]) && Again(cells[i]);
      assert cells[i] in cells;
    }
  }

  lemma {:induction false} RevisionsKeepOrder(cfg: Config, s: seq<DCell>, i: nat, j: nat)
    requires RowsDescend(s) && i < j < |Revisions(cfg, s)|
    ensures Revisions(cfg, s)[i].Revision? && Revisions(cfg, s)[j].Revision?
    ensures Revisions(cfg, s)[i].x.order >= Revisions(cfg, s)[j].x.order
  {
    RevisionUnitsAre(cfg, s, i);
    RevisionUnitsAre(cfg, s, j);
    var here := Kept(cfg, s[0].cap, CellPlatforms(cfg, s[0])) != [];
    if !here {
      RevisionsKeepOrder(cfg, s[1..], i, j);
    } else if i > 0 {
      RevisionsKeepOrder(cfg, s[1..], i - 1, j - 1);
    } else {
      var m :| 0 <= m < |s| && s[m] == Revisions(cfg, s)[j].x;
    }
  }

  lemma SortedRowsDescend(cells: seq<DCell>)
    ensures RowsDescend(SortedCells(cells))
  {
    RowsOrder();
    SortSorted(EligibleCells(cells), OldestRowFirst);
  }

  function FirstRevision(cfg: Config, cells: seq<DCell>): nat {
    |SnapshotUnits(cells)| + |BatchesOf(cfg, cells)|
  }

  lemma RevisionAt(cfg: Config, cells: seq<DCell>, i: nat)
    requires i < |Chain(cfg, cells)|
    ensures Chain(cfg, cells)[i].Revision? <==> i >= FirstRevision(cfg, cells)
    ensures i >= FirstRevision(cfg, cells) ==>
      var m := i - FirstRevision(cfg, cells);
      m < |Revisions(cfg, SortedCells(cells))| && Chain(cfg, cells)[i] == Revisions(cfg, SortedCells(cells))[m]
  {
    var snaps := |SnapshotUnits(cells)|;
    ChainLength(cfg, cells);
    if i >= FirstRevision(cfg, cells) {
      ChainRevisionAt(cfg, cells, i - FirstRevision(cfg, cells));
      RevisionUnitsAre(cfg, SortedCells(cells), i - FirstRevision(cfg, cells));
    } else if i >= snaps {
      ChainBatchAt(cfg, cells, i - snaps);
    }
  }

  /** The batches go out before the revisions, and the revisions oldest first. */
  lemma RevisionsGoLast(cfg: Config, cells: seq<DCell>, i: nat, j: nat)
    requires i < j < |Chain(cfg, cells)| && Chain(cfg, cells)[i].Revision?
    ensures Chain(cfg, cells)[j].Revision?
    ensures Chain(cfg, cells)[i].x.order >= Chain(cfg, cells)[j].x.order
  {
    var n := FirstRevision(cfg, cells);
    RevisionAt(cfg, cells, i);
    RevisionAt(cfg, cells, j);
    SortedRowsDescend(cells);
    RevisionsKeepOrder(cfg, SortedCells(cells), i - n, j - n);
  }

  // ----- what is estimated -----

  lemma {:induction false} PlatPairsAre(cap: string, plats: seq<Platform>)
    ensures |PlatPairs(cap, plats)| == |plats|
    ensures forall i :: 0 <= i < |plats| ==> PlatPairs(cap, plats)[i] == (cap, plats[i])
  {
    if plats != [] {
      PlatPairsAre(cap, plats[1..]);
    }
  }

  lemma {:induction false} NothingKeptBack(cfg: Config, cap: string, plats: seq<Platform>)
    requires !cfg.reuse
    ensures Kept(cfg, cap, plats) == plats
  {
    if plats != [] {
      NothingKeptBack(cfg, cap, plats[1..]);
    }
  }

  lemma {:induction false} PairsAreRequests(cfg: Config, cells: seq<DCell>)
    requires !cfg.reuse && forall i :: 0 <= i < |cells| ==> IsSnapshot(cells[i]) || Eligible(cells[i])
    ensures |RunPairs(cfg, cells)| == KeptTotal(cfg, EligibleCells(cells))
  {
    if cells != [] {
      var x := cells[0];
      assert IsSnapshot(x) || Eligible(x);
      forall i | 0 <= i < |cells[1..]|
        ensures IsSnapshot(cells[1..][i]) || Eligible(cells[1..][i])
      {
        assert cells[1..][i] == cells[i + 1];
      }
      PairsAreRequests(cfg, cells[1..]);
      PlatPairsAre(x.cap, CellPlatforms(cfg, x));
      NothingKeptBack(cfg, x.cap, CellPlatforms(cfg, x));
    }
  }

  lemma {:induction false} NothingFiled(cfg: Config, cells: seq<DCell>)
    requires !cfg.reuse
    ensures BatchKeysOf(cfg, cells) == {}
  {
    if cells != [] {
      NothingFiled(cfg, cells[1..]);
      NoneFiled(cfg, cells[0], CellPlatforms(cfg, cells[0]));
    }
  }

  lemma {:induction false} NoneFiled(cfg: Config, x: DCell, plats: seq<Platform>)
    requires !cfg.reuse
    ensures Filed(cfg, x, plats) == []
  {
    if plats != [] {
      NoneFiled(cfg, x, plats[1..]);
    }
  }

  /** Without warm containers the estimate covers as many runs as are dispatched, leaving out
      the one snapshots run. */
  lemma EstimateCoversRequests(cfg: Config, cells: seq<DCell>)
    requires !cfg.reuse && forall i :: 0 <= i < |cells| ==> IsSnapshot(cells[i]) || Eligible(cells[i])
    ensures Requests(Chain(cfg, cells)) == |RunPairs(cfg, cells)| + if SnapshotShas(cells) != [] then 1 else 0
  {
    RequestCount(cfg, cells);
    PairsAreRequests(cfg, cells);
    NothingFiled(cfg, EligibleCells(cells));
  }

  /** The estimate is for exactly the capabilities and platforms of the selected cells. */
  lemma {:induction false} EstimatedPairs(cfg: Config, cells: seq<DCell>, k: GroupKey)
    ensures k in RunPairs(cfg, cells) <==>
      exists x :: x in cells && x.cap != SNAPSHOTS_CAP && x.cap == k.0 && k.1 in CellPlatforms(cfg, x)
  {
    if cells != [] {
      var x0 := cells[0];
      EstimatedPairs(cfg, cells[1..], k);
      PlatPairsAre(x0.cap, CellPlatforms(cfg, x0));
      var here := PlatPairs(x0.cap, CellPlatforms(cfg, x0));
      assert k in here <==> k.0 == x0.cap && k.1 in CellPlatforms(cfg, x0) by {
        if k.0 == x0.cap && k.1 in CellPlatforms(cfg, x0) {
          var i :| 0 <= i < |CellPlatforms(cfg, x0)| && CellPlatforms(cfg, x0)[i] == k.1;
          assert here[i] == k;
        }
      }
      assert k in here + RunPairs(cfg, cells[1..]) <==> k in here || k in RunPairs(cfg, cells[1..]);
      if x :| x in cells && x.cap != SNAPSHOTS_CAP && x.cap == k.0 && k.1 in CellPlatforms(cfg, x) && x != x0 {
        assert x in cells[1..];
      }
    }
  }
}
