/** When the mark of a cell can be trusted, in terms of the selected cells alone. Several
    selected cells may share a mark: the dialog lists one cell per platform of the VI
    Browser snapshots. */
module MarkCells {
  import opened Options
  import opened RunStore
  import opened Grouping
  import opened Dispatch
  import opened DispatchProps
  import opened DispatchRun

  // ----- cells and the units that speak for them -----

  predicate HasKey(x: DCell, k: Key) {
    Eligible(x) && x.cap == k.cap && x.sha == k.sha
  }

  /** The i-th selected cell has the key and is to run on platform p. */
  ghost predicate Wants(cfg: Config, cells: seq<DCell>, k: Key, i: int, p: Platform) {
    0 <= i < |cells| && HasKey(cells[i], k) && p in CellPlatforms(cfg, cells[i])
  }

  /** Two wanted runs travel in one dispatch: the batch of their platform, or the requests
      of one cell. */
  ghost predicate Together(cfg: Config, cap: string, i: int, p: Platform, j: int, q: Platform) {
    if Batched(cfg, cap, p) || Batched(cfg, cap, q) then p == q else i == j
  }

  /** All the runs wanted under a key travel in one dispatch. */
  ghost predicate OneDispatch(cfg: Config, cells: seq<DCell>, k: Key) {
    forall i, p, j, q :: Wants(cfg, cells, k, i, p) && Wants(cfg, cells, k, j, q) ==> Together(cfg, k.cap, i, p, j, q)
  }

  lemma {:induction false} ShaKeysAre(cap: string, shas: seq<string>, k: Key)
    ensures k in ShaKeys(cap, shas) <==> k.cap == cap && k.sha in shas
  {
    if shas != [] {
      ShaKeysAre(cap, shas[1..], k);
      assert k.sha in shas <==> k.sha == shas[0] || k.sha in shas[1..];
    }
  }

  predicate InChain(cfg: Config, cells: seq<DCell>, batch: bool, m: int) {
    0 <= m < if batch then |BatchesOf(cfg, cells)| else |Revisions(cfg, SortedCells(cells))|
  }

  /** Batch m, or revision m. */
  function UnitAt(cfg: Config, cells: seq<DCell>, batch: bool, m: int): Unit
    requires InChain(cfg, cells, batch, m)
  {
    if batch then BatchUnit(Summaries(cfg, BatchesOf(cfg, cells))[m]) else Revisions(cfg, SortedCells(cells))[m]
  }

  ghost predicate StandsAt(cfg: Config, cells: seq<DCell>, k: Key, batch: bool, m: int) {
    InChain(cfg, cells, batch, m) && Touches(UnitAt(cfg, cells, batch, m), k)
  }

  lemma BatchInChain(cfg: Config, cells: seq<DCell>, m: nat)
    requires m < |BatchesOf(cfg, cells)|
    ensures var i := |SnapshotUnits(cells)| + m;
      InChain(cfg, cells, true, m) && i < |Chain(cfg, cells)| && Chain(cfg, cells)[i] == UnitAt(cfg, cells, true, m)
  {
    ChainBatchAt(cfg, cells, m);
  }

  lemma RevisionInChain(cfg: Config, cells: seq<DCell>, m: nat)
    requires m < |Revisions(cfg, SortedCells(cells))|
    ensures var i := |SnapshotUnits(cells)| + |BatchesOf(cfg, cells)| + m;
      InChain(cfg, cells, false, m) && i < |Chain(cfg, cells)| && Chain(cfg, cells)[i] == UnitAt(cfg, cells, false, m)
  {
    ChainRevisionAt(cfg, cells, m);
  }

  /** After the snapshots come the batches, then the revisions. */
  lemma PlaceInChain(cfg: Config, cells: seq<DCell>, i: nat) returns (batch: bool, m: int)
    requires |SnapshotUnits(cells)| <= i < |Chain(cfg, cells)|
    ensures InChain(cfg, cells, batch, m) && Chain(cfg, cells)[i] == UnitAt(cfg, cells, batch, m)
    ensures i == |SnapshotUnits(cells)| + (if batch then 0 else |BatchesOf(cfg, cells)|) + m
  {
    ChainLength(cfg, cells);
    batch := i < |SnapshotUnits(cells)| + |BatchesOf(cfg, cells)|;
    m := i - |SnapshotUnits(cells)| - if batch then 0 else |BatchesOf(cfg, cells)|;
    if batch {
      BatchInChain(cfg, cells, m);
    } else {
      RevisionInChain(cfg, cells, m);
    }
  }

  lemma SnapshotsAreSilent(cfg: Config, cells: seq<DCell>, k: Key, i: nat)
    requires k.cap != SNAPSHOTS_CAP && i < |SnapshotUnits(cells)|
    ensures i < |Chain(cfg, cells)| && !Touches(Chain(cfg, cells)[i], k)
  {
    ChainLength(cfg, cells);
    assert Chain(cfg, cells)[i] == SnapshotUnits(cells)[i];
    ShaKeysAre(SNAPSHOTS_CAP, SnapshotShas(cells), k);
  }

  /** A unit that speaks for the key of a cell that is not a snapshot. */
  lemma UnitStandsAt(cfg: Config, cells: seq<DCell>, k: Key, i: nat) returns (batch: bool, m: int)
    requires k.cap != SNAPSHOTS_CAP && i < |Chain(cfg, cells)| && Touches(Chain(cfg, cells)[i], k)
    ensures StandsAt(cfg, cells, k, batch, m) && Chain(cfg, cells)[i] == UnitAt(cfg, cells, batch, m)
    ensures i == |SnapshotUnits(cells)| + (if batch then 0 else |BatchesOf(cfg, cells)|) + m
  {
    if i < |SnapshotUnits(cells)| {
      SnapshotsAreSilent(cfg, cells, k, i);
    } else {
      batch, m := PlaceInChain(cfg, cells, i);
    }
  }

  /** A batch that speaks for the key takes a platform that one of its cells wants. */
  lemma BatchWants(cfg: Config, cells: seq<DCell>, k: Key, m: int) returns (i: int, p: Platform)
    requires StandsAt(cfg, cells, k, true, m)
    ensures Wants(cfg, cells, k, i, p) && Batched(cfg, k.cap, p) && BatchesOf(cfg, cells)[m].key == (k.cap, p)
  {
    var group := BatchesOf(cfg, cells)[m];
    var g := Summaries(cfg, BatchesOf(cfg, cells))[m];
    ShaKeysAre(g.cap, g.shas, k);
    BatchCarriesItsMembers(cfg, cells, m);
    var a :| 0 <= a < |group.members| && group.members[a].sha == k.sha;
    assert group.members[a] in group.members;
    p := g.plat;
    i :| 0 <= i < |cells| && cells[i] == group.members[a];
  }

  /** A revision that speaks for the key is that of a cell with the key, and has a platform
      that no batch takes. */
  lemma RevisionWants(cfg: Config, cells: seq<DCell>, k: Key, m: int, i: int) returns (p: Platform)
    requires StandsAt(cfg, cells, k, false, m)
    requires 0 <= i < |cells| && Revisions(cfg, SortedCells(cells))[m].Revision?
        && Revisions(cfg, SortedCells(cells))[m].x == cells[i]
    ensures Wants(cfg, cells, k, i, p) && !Batched(cfg, k.cap, p)
  {
    RevisionUnitsAre(cfg, SortedCells(cells), m);
    var u := Revisions(cfg, SortedCells(cells))[m];
    SortedMembers(cells, u.x);
    KeptAreUnbatched(cfg, u.x.cap, CellPlatforms(cfg, u.x));
    p := u.plats[0];
    assert p in u.plats;
  }

  // ----- repeated cells -----

  lemma {:induction false} TwoAt(s: seq<DCell>, i: nat, j: nat)
    requires i < j < |s| && s[i] == s[j]
    ensures multiset(s)[s[i]] >= 2
  {
    HeadCount(s, s[i]);
    if i == 0 {
      assert s[1..][j - 1] == s[i] && s[i] in s[1..];
    } else {
      TwoAt(s[1..], i - 1, j - 1);
    }
  }

  lemma {:induction false} OccursTwice(s: seq<DCell>, x: DCell) returns (i: nat, j: nat)
    requires multiset(s)[x] >= 2
    ensures i < j < |s| && s[i] == x && s[j] == x
  {
    HeadCount(s, x);
    if s[0] == x {
      assert x in s[1..];
      var b :| 0 <= b < |s[1..]| && s[1..][b] == x;
      i, j := 0, b + 1;
    } else {
      i, j := OccursTwice(s[1..], x);
      i, j := i + 1, j + 1;
    }
  }

  ghost predicate ForCell(u: Unit, x: DCell) {
    u.Revision? && u.x == x
  }

  /** A cell selected once is one revision at most. */
  lemma {:induction false} RevisionsApart(cfg: Config, s: seq<DCell>, x: DCell, m: nat, m': nat)
    requires multiset(s)[x] <= 1 && m < m' < |Revisions(cfg, s)|
    ensures !ForCell(Revisions(cfg, s)[m], x) || !ForCell(Revisions(cfg, s)[m'], x)
  {
    HeadCount(s, x);
    var here := Kept(cfg, s[0].cap, CellPlatforms(cfg, s[0])) != [];
    if here && m == 0 {
      RevisionUnitsAre(cfg, s[1..], m' - 1);
      if s[0] == x {
        assert x !in multiset(s[1..]);
        assert x !in s[1..];
      }
    } else {
      RevisionsApart(cfg, s[1..], x, if here then m - 1 else m, if here then m' - 1 else m');
    }
  }

  /** A cell selected twice, with a platform that no batch takes, is two revisions. */
  lemma {:induction false} RevisionTwice(cfg: Config, s: seq<DCell>, x: DCell) returns (m: nat, m': nat)
    requires multiset(s)[x] >= 2 && Kept(cfg, x.cap, CellPlatforms(cfg, x)) != []
    ensures m < m' < |Revisions(cfg, s)| && ForCell(Revisions(cfg, s)[m], x) && ForCell(Revisions(cfg, s)[m'], x)
  {
    HeadCount(s, x);
    if s[0] == x {
      assert x in s[1..];
      var n := RevisionUnitExists(cfg, s[1..], x);
      m, m' := 0, n + 1;
    } else {
      m, m' := RevisionTwice(cfg, s[1..], x);
      if Kept(cfg, s[0].cap, CellPlatforms(cfg, s[0])) != [] {
        m, m' := m + 1, m' + 1;
      }
    }
  }

  /** Different revisions are those of different selected cells. */
  lemma RevisionCells(cfg: Config, cells: seq<DCell>, m: nat, m': nat) returns (i: int, j: int)
    requires m < m' < |Revisions(cfg, SortedCells(cells))|
    ensures 0 <= i < |cells| && 0 <= j < |cells| && i != j
    ensures ForCell(Revisions(cfg, SortedCells(cells))[m], cells[i])
        && ForCell(Revisions(cfg, SortedCells(cells))[m'], cells[j])
  {
    var s := SortedCells(cells);
    RevisionUnitsAre(cfg, s, m);
    RevisionUnitsAre(cfg, s, m');
    var x, y := Revisions(cfg, s)[m].x, Revisions(cfg, s)[m'].x;
    SortedMembers(cells, x);
    SortedMembers(cells, y);
    if x == y {
      SortedCount(cells, x);
      if multiset(s)[x] <= 1 {
        RevisionsApart(cfg, s, x, m, m');
      }
      i, j := OccursTwice(cells, x);
    } else {
      i :| 0 <= i < |cells| && cells[i] == x;
      j :| 0 <= j < |cells| && cells[j] == y;
    }
  }

  /** Different selected cells, each with a platform that no batch takes, have different
      revisions. */
  lemma CellRevisions(cfg: Config, cells: seq<DCell>, i: nat, j: nat) returns (m: nat, m': nat)
    requires i < j < |cells| && Eligible(cells[i]) && Eligible(cells[j])
    requires Kept(cfg, cells[i].cap, CellPlatforms(cfg, cells[i])) != []
    requires Kept(cfg, cells[j].cap, CellPlatforms(cfg, cells[j])) != []
    ensures m < |Revisions(cfg, SortedCells(cells))| && m' < |Revisions(cfg, SortedCells(cells))| && m != m'
    ensures ForCell(Revisions(cfg, SortedCells(cells))[m], cells[i])
        && ForCell(Revisions(cfg, SortedCells(cells))[m'], cells[j])
  {
    var s := SortedCells(cells);
    SortedMembers(cells, cells[i]);
    SortedMembers(cells, cells[j]);
    if cells[i] == cells[j] {
      TwoAt(cells, i, j);
      SortedCount(cells, cells[i]);
      m, m' := RevisionTwice(cfg, s, cells[i]);
    } else {
      m := RevisionUnitExists(cfg, s, cells[i]);
      m' := RevisionUnitExists(cfg, s, cells[j]);
    }
  }

  // ----- one dispatch, one unit -----

  lemma BatchesMeet(cfg: Config, cells: seq<DCell>, k: Key, m: int, m': int)
    requires OneDispatch(cfg, cells, k) && StandsAt(cfg, cells, k, true, m) && StandsAt(cfg, cells, k, true, m')
    ensures m == m'
  {
    var groups := BatchesOf(cfg, cells);
    var i, p := BatchWants(cfg, cells, k, m);
    var j, q := BatchWants(cfg, cells, k, m');
    assert Together(cfg, k.cap, i, p, j, q);
    GroupByPartitions(AllFiled(cfg, SortedCells(cells)), ("", ""));
    FindUnique(groups, m);
    FindUnique(groups, m');
  }

  lemma BatchTakesAll(cfg: Config, cells: seq<DCell>, k: Key, m: int, j: int, q: Platform)
    requires OneDispatch(cfg, cells, k) && StandsAt(cfg, cells, k, true, m) && Wants(cfg, cells, k, j, q)
    ensures Batched(cfg, k.cap, q)
  {
    var i, p := BatchWants(cfg, cells, k, m);
    assert Together(cfg, k.cap, i, p, j, q);
  }

  lemma BatchExcludesRevision(cfg: Config, cells: seq<DCell>, k: Key, m: int, m': int)
    requires OneDispatch(cfg, cells, k) && StandsAt(cfg, cells, k, true, m)
    ensures !StandsAt(cfg, cells, k, false, m')
  {
    if StandsAt(cfg, cells, k, false, m') {
      var j := CellOfRevision(cfg, cells, m');
      var q := RevisionWants(cfg, cells, k, m', j);
      BatchTakesAll(cfg, cells, k, m, j, q);
    }
  }

  lemma CellOfRevision(cfg: Config, cells: seq<DCell>, m: int) returns (i: int)
    requires 0 <= m < |Revisions(cfg, SortedCells(cells))|
    ensures 0 <= i < |cells| && ForCell(Revisions(cfg, SortedCells(cells))[m], cells[i])
  {
    RevisionUnitsAre(cfg, SortedCells(cells), m);
    SortedMembers(cells, Revisions(cfg, SortedCells(cells))[m].x);
    i :| 0 <= i < |cells| && cells[i] == Revisions(cfg, SortedCells(cells))[m].x;
  }

  lemma RevisionsWant(cfg: Config, cells: seq<DCell>, k: Key, m: int, m': int)
    returns (i: int, p: Platform, j: int, q: Platform)
    requires m < m' && StandsAt(cfg, cells, k, false, m) && StandsAt(cfg, cells, k, false, m')
    ensures Wants(cfg, cells, k, i, p) && Wants(cfg, cells, k, j, q) && !Together(cfg, k.cap, i, p, j, q)
  {
    i, j := RevisionCells(cfg, cells, m, m');
    p := RevisionWants(cfg, cells, k, m, i);
    q := RevisionWants(cfg, cells, k, m', j);
  }

  lemma RevisionsMeet(cfg: Config, cells: seq<DCell>, k: Key, m: int, m': int)
    requires OneDispatch(cfg, cells, k) && StandsAt(cfg, cells, k, false, m) && StandsAt(cfg, cells, k, false, m')
    ensures m >= m'
  {
    if m < m' {
      var i, p, j, q := RevisionsWant(cfg, cells, k, m, m');
    }
  }

  lemma StandsOnce(cfg: Config, cells: seq<DCell>, k: Key, batch: bool, m: int, batch': bool, m': int)
    requires OneDispatch(cfg, cells, k) && StandsAt(cfg, cells, k, batch, m) && StandsAt(cfg, cells, k, batch', m')
    ensures batch == batch' && m == m'
  {
    if batch && batch' {
      BatchesMeet(cfg, cells, k, m, m');
    } else if batch {
      BatchExcludesRevision(cfg, cells, k, m, m');
    } else if batch' {
      BatchExcludesRevision(cfg, cells, k, m', m);
    } else {
      RevisionsMeet(cfg, cells, k, m, m');
      RevisionsMeet(cfg, cells, k, m', m);
    }
  }

  lemma OneDispatchOneUnit(cfg: Config, cells: seq<DCell>, k: Key)
    requires k.cap != SNAPSHOTS_CAP && OneDispatch(cfg, cells, k)
    ensures OneUnit(Chain(cfg, cells), k)
  {
    var chain := Chain(cfg, cells);
    forall i, j | 0 <= i < |chain| && 0 <= j < |chain| && Touches(chain[i], k) && Touches(chain[j], k)
      ensures i == j
    {
      var batch, m := UnitStandsAt(cfg, cells, k, i);
      var batch', m' := UnitStandsAt(cfg, cells, k, j);
      StandsOnce(cfg, cells, k, batch, m, batch', m');
    }
  }

  // ----- several dispatches, several units -----

  /** A wanted run has a unit. */
  lemma UnitOf(cfg: Config, cells: seq<DCell>, k: Key, i: int, p: Platform) returns (u: nat)
    requires Wants(cfg, cells, k, i, p)
    ensures var chain := Chain(cfg, cells);
      u < |chain| && Touches(chain[u], k)
      && (if Batched(cfg, k.cap, p) then chain[u].BatchUnit? && chain[u].g.plat == p else chain[u].Revision?)
  {
    if Batched(cfg, k.cap, p) {
      u := BatchPosition(cfg, cells, cells[i], p);
    } else {
      u := RevisionPosition(cfg, cells, cells[i], p);
    }
  }

  /** Two runs that do not travel together have two units. */
  lemma TwoUnitsOf(cfg: Config, cells: seq<DCell>, k: Key, i: int, p: Platform, j: int, q: Platform)
    returns (u: nat, v: nat)
    requires Wants(cfg, cells, k, i, p) && Wants(cfg, cells, k, j, q) && !Together(cfg, k.cap, i, p, j, q)
    ensures var chain := Chain(cfg, cells);
      u < |chain| && v < |chain| && u != v && Touches(chain[u], k) && Touches(chain[v], k)
  {
    if Batched(cfg, k.cap, p) || Batched(cfg, k.cap, q) {
      u := UnitOf(cfg, cells, k, i, p);
      v := UnitOf(cfg, cells, k, j, q);
    } else if i < j {
      u, v := TwoRevisionUnits(cfg, cells, k, i, p, j, q);
    } else {
      u, v := TwoRevisionUnits(cfg, cells, k, j, q, i, p);
    }
  }

  lemma RevisionUnitAt(cfg: Config, cells: seq<DCell>, k: Key, x: DCell, m: nat) returns (u: nat)
    requires HasKey(x, k) && m < |Revisions(cfg, SortedCells(cells))|
        && ForCell(Revisions(cfg, SortedCells(cells))[m], x)
    ensures u == |SnapshotUnits(cells)| + |BatchesOf(cfg, cells)| + m
    ensures u < |Chain(cfg, cells)| && Touches(Chain(cfg, cells)[u], k)
  {
    ChainRevisionAt(cfg, cells, m);
    u := |SnapshotUnits(cells)| + |BatchesOf(cfg, cells)| + m;
  }

  lemma TwoRevisionUnits(cfg: Config, cells: seq<DCell>, k: Key, i: int, p: Platform, j: int, q: Platform)
    returns (u: nat, v: nat)
    requires Wants(cfg, cells, k, i, p) && Wants(cfg, cells, k, j, q) && i < j
    requires !Batched(cfg, k.cap, p) && !Batched(cfg, k.cap, q)
    ensures u < |Chain(cfg, cells)| && v < |Chain(cfg, cells)| && u != v
    ensures Touches(Chain(cfg, cells)[u], k) && Touches(Chain(cfg, cells)[v], k)
  {
    KeptAreUnbatched(cfg, k.cap, CellPlatforms(cfg, cells[i]));
    KeptAreUnbatched(cfg, k.cap, CellPlatforms(cfg, cells[j]));
    var m, m' := CellRevisions(cfg, cells, i, j);
    u := RevisionUnitAt(cfg, cells, k, cells[i], m);
    v := RevisionUnitAt(cfg, cells, k, cells[j], m');
  }

  // ----- the marks -----

  /** Every run wanted under the key has a run target. */
  ghost predicate KeyKnown(cfg: Config, cells: seq<DCell>, k: Key) {
    forall i, p :: Wants(cfg, cells, k, i, p) ==> Known(cfg, k.cap, p)
  }

  lemma KnownRevision(cfg: Config, cells: seq<DCell>, k: Key, m: int)
    requires KeyKnown(cfg, cells, k) && StandsAt(cfg, cells, k, false, m)
    ensures Dispatchable(cfg, Revisions(cfg, SortedCells(cells))[m])
  {
    var i := CellOfRevision(cfg, cells, m);
    RevisionUnitsAre(cfg, SortedCells(cells), m);
    var u := Revisions(cfg, SortedCells(cells))[m];
    SortedMembers(cells, u.x);
    KeptAreUnbatched(cfg, u.x.cap, CellPlatforms(cfg, u.x));
    forall a | 0 <= a < |u.plats|
      ensures Known(cfg, u.x.cap, u.plats[a])
    {
      assert u.plats[a] in u.plats;
      assert Wants(cfg, cells, k, i, u.plats[a]);
    }
  }

  lemma KnownKeyIsDispatchable(cfg: Config, cells: seq<DCell>, k: Key)
    requires k.cap != SNAPSHOTS_CAP && KeyKnown(cfg, cells, k)
    ensures KeyDispatchable(cfg, Chain(cfg, cells), k)
  {
    var chain := Chain(cfg, cells);
    forall i | 0 <= i < |chain| && Touches(chain[i], k)
      ensures Dispatchable(cfg, chain[i])
    {
      var batch, m := UnitStandsAt(cfg, cells, k, i);
      if !batch {
        KnownRevision(cfg, cells, k, m);
      }
    }
  }

  /** The mark under a key tells the truth about the requests for it, for every course of
      answers, exactly when all the runs wanted under the key travel in one dispatch. The
      i-th cell wants such a run. */
  lemma MarkIsTrueIffOneDispatch(cfg: Config, cells: seq<DCell>, store: Store, t0: int, k: Key, i: int, p: Platform)
    requires KeyKnown(cfg, cells, k) && Wants(cfg, cells, k, i, p)
    ensures MarkTellsTruth(cfg, store, Chain(cfg, cells), t0, k) <==> OneDispatch(cfg, cells, k)
  {
    KnownKeyIsDispatchable(cfg, cells, k);
    ChainsHaveNoEmptyUnit(cfg, cells);
    var only := UnitOf(cfg, cells, k, i, p);
    MarkIsTrueIffOneUnit(cfg, store, Chain(cfg, cells), t0, k, only);
    if OneDispatch(cfg, cells, k) {
      OneDispatchOneUnit(cfg, cells, k);
    } else {
      var a, q, b, r :| Wants(cfg, cells, k, a, q) && Wants(cfg, cells, k, b, r) && !Together(cfg, k.cap, a, q, b, r);
      var u, v := TwoUnitsOf(cfg, cells, k, a, q, b, r);
    }
  }

  /** A cell with one platform in a batch and any other platform can lose its mark although
      a request for it was accepted; so can two cells that share a key, one per platform,
      as the dialog lists them for the VI Browser snapshots. */
  lemma SplitCellCanLoseItsMark(cfg: Config, cells: seq<DCell>, store: Store, t0: int, k: Key, i: int, p: Platform,
                                j: int, q: Platform)
    requires KeyKnown(cfg, cells, k) && Wants(cfg, cells, k, i, p) && Wants(cfg, cells, k, j, q) && p != q
    requires Batched(cfg, k.cap, p) || i != j
    ensures !MarkTellsTruth(cfg, store, Chain(cfg, cells), t0, k)
  {
    assert !Together(cfg, k.cap, i, p, j, q);
    MarkIsTrueIffOneDispatch(cfg, cells, store, t0, k, i, p);
  }

  /** The run targets of Mass Compile, with the warm-container option on. */
  const WARM_MASSCOMPILE: Config :=
    Config(
      map["masscompile" := Capability(
            ["windows", "linux"],
            map["windows" := Target("masscompile-windows-container.yml",
                Some(Batch("masscompile-backfill-windows.yml", "shas"))),
                "linux" := Target("masscompile-linux-container.yml", None)])],
      map[], true)

  /** The failing family is inhabited by the program's own data: Mass Compile has a batch on
      Windows and none on Linux, so with the warm-container option on the mark of any one
      Mass Compile cell of the page can be lost although a run was accepted. */
  lemma WarmMassCompileMarkCanBeLost(store: Store, t0: int)
    ensures var cells := [DCell("masscompile", "a", "", 0, false, false, "")];
      && Listed(WARM_MASSCOMPILE) && FromProgram(WARM_MASSCOMPILE, cells[0])
      && !MarkTellsTruth(WARM_MASSCOMPILE, store, Chain(WARM_MASSCOMPILE, cells), t0, Key("masscompile", "a"))
  {
    var x := DCell("masscompile", "a", "", 0, false, false, "");
    var k := Key("masscompile", "a");
    var keys := ["windows", "linux"];
    assert KeepKnown(keys[1..], keys) == ["linux"];
    assert KeepKnown(keys, keys) == keys;
    assert CellPlatforms(WARM_MASSCOMPILE, x) == keys;
    assert keys[0] in keys && keys[1] in keys;
    assert Wants(WARM_MASSCOMPILE, [x], k, 0, "windows") && Wants(WARM_MASSCOMPILE, [x], k, 0, "linux");
    SplitCellCanLoseItsMark(WARM_MASSCOMPILE, [x], store, t0, k, 0, "windows", 0, "linux");
  }

  /** For the cells that the program dispatches nothing else is needed. */
  lemma ProgramMarkIsTrueIff(cfg: Config, cells: seq<DCell>, store: Store, t0: int, k: Key, i: int, p: Platform)
    requires Listed(cfg) && (forall x :: x in cells ==> FromProgram(cfg, x)) && Wants(cfg, cells, k, i, p)
    ensures MarkTellsTruth(cfg, store, Chain(cfg, cells), t0, k) <==> OneDispatch(cfg, cells, k)
  {
    forall j, q | Wants(cfg, cells, k, j, q)
      ensures Known(cfg, k.cap, q)
    {
      ProgramCellsAreKnown(cfg, cells[j]);
    }
    MarkIsTrueIffOneDispatch(cfg, cells, store, t0, k, i, p);
  }

  /** The cell is selected, once, and no other selected cell has its key. */
  ghost predicate Lone(cells: seq<DCell>, x: DCell) {
    multiset(cells)[x] == 1 && forall y :: y in cells && y.cap == x.cap && y.sha == x.sha ==> y == x
  }

  /** No batch takes a platform of the cell, unless that is its only one. */
  ghost predicate Unsplit(cfg: Config, x: DCell) {
    forall p, q :: p in CellPlatforms(cfg, x) && q in CellPlatforms(cfg, x) && Batched(cfg, x.cap, p) ==> p == q
  }

  lemma LonePosition(cells: seq<DCell>, x: DCell, k: Key, i: nat, j: nat)
    requires Lone(cells, x) && k == Key(x.cap, x.sha) && i < |cells| && j < |cells|
    requires HasKey(cells[i], k) && HasKey(cells[j], k)
    ensures i == j && cells[i] == x
  {
    assert cells[i] in cells && cells[j] in cells;
    if i < j {
      TwoAt(cells, i, j);
    } else if j < i {
      TwoAt(cells, j, i);
    }
  }

  /** For a cell that shares its key with no other: exactly when no batch takes one of
      several platforms of the cell. */
  lemma CellMarkIsTrueIffUnsplit(cfg: Config, cells: seq<DCell>, store: Store, t0: int, x: DCell)
    requires Lone(cells, x) && Eligible(x) && CellKnown(cfg, x) && CellPlatforms(cfg, x) != []
    ensures MarkTellsTruth(cfg, store, Chain(cfg, cells), t0, Key(x.cap, x.sha)) <==> Unsplit(cfg, x)
  {
    var k := Key(x.cap, x.sha);
    assert x in multiset(cells) && x in cells;
    var i :| 0 <= i < |cells| && cells[i] == x;
    forall j, p | Wants(cfg, cells, k, j, p)
      ensures j == i
    {
      LonePosition(cells, x, k, i, j);
    }
    assert forall p :: Wants(cfg, cells, k, i, p) <==> p in CellPlatforms(cfg, x);
    assert OneDispatch(cfg, cells, k) <==> Unsplit(cfg, x);
    assert Wants(cfg, cells, k, i, CellPlatforms(cfg, x)[0]);
    MarkIsTrueIffOneDispatch(cfg, cells, store, t0, k, i, CellPlatforms(cfg, x)[0]);
  }

  // ----- snapshots -----

  lemma BatchIsNoSnapshot(cfg: Config, cells: seq<DCell>, sha: string, m: nat)
    requires m < |BatchesOf(cfg, cells)|
    ensures !Touches(BatchUnit(Summaries(cfg, BatchesOf(cfg, cells))[m]), Key(SNAPSHOTS_CAP, sha))
  {
    if StandsAt(cfg, cells, Key(SNAPSHOTS_CAP, sha), true, m) {
      var j, p := BatchWants(cfg, cells, Key(SNAPSHOTS_CAP, sha), m);
    }
  }

  lemma RevisionIsNoSnapshot(cfg: Config, cells: seq<DCell>, sha: string, m: nat)
    requires m < |Revisions(cfg, SortedCells(cells))|
    ensures !Touches(Revisions(cfg, SortedCells(cells))[m], Key(SNAPSHOTS_CAP, sha))
  {
    RevisionUnitsAre(cfg, SortedCells(cells), m);
    SortedMembers(cells, Revisions(cfg, SortedCells(cells))[m].x);
  }

  lemma OnlySnapshotsTouch(cfg: Config, cells: seq<DCell>, sha: string, i: nat)
    requires |SnapshotUnits(cells)| <= i < |Chain(cfg, cells)|
    ensures !Touches(Chain(cfg, cells)[i], Key(SNAPSHOTS_CAP, sha))
  {
    var batch, m := PlaceInChain(cfg, cells, i);
    if batch {
      BatchIsNoSnapshot(cfg, cells, sha, m);
    } else {
      RevisionIsNoSnapshot(cfg, cells, sha, m);
    }
  }

  /** Snapshot cells travel in the one backfill run, so their marks can always be trusted. */
  lemma SnapshotMarkIsTrue(cfg: Config, cells: seq<DCell>, store: Store, t0: int, sha: string)
    requires sha in SnapshotShas(cells)
    ensures MarkTellsTruth(cfg, store, Chain(cfg, cells), t0, Key(SNAPSHOTS_CAP, sha))
  {
    var chain, k := Chain(cfg, cells), Key(SNAPSHOTS_CAP, sha);
    ShaKeysAre(SNAPSHOTS_CAP, SnapshotShas(cells), k);
    assert chain[0] == SnapshotUnits(cells)[0];
    forall i | 0 < i < |chain|
      ensures !Touches(chain[i], k)
    {
      OnlySnapshotsTouch(cfg, cells, sha, i);
    }
    ChainsHaveNoEmptyUnit(cfg, cells);
    MarkIsTrueIffOneUnit(cfg, store, chain, t0, k, 0);
  }
}
