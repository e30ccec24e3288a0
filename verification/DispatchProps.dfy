/** What the split of Dispatch means: every wanted (cell, platform) pair is either sent
    on its own or carried by exactly one batch, and the three counts agree. */
module DispatchProps {
  import opened RunStore
  import opened Sorting
  import opened Grouping
  import opened Dispatch

  // ----- exact multiplicities -----

  function PairsOf(x: DCell, plats: seq<Platform>): seq<(DCell, Platform)> {
    if plats == [] then [] else [(x, plats[0])] + PairsOf(x, plats[1..])
  }

  /** Every (cell, platform) request the per-revision units send. */
  ghost function Sent(units: seq<Unit>): multiset<(DCell, Platform)> {
    if units == [] then multiset{}
    else
      (if units[0].Revision? then multiset(PairsOf(units[0].x, units[0].plats)) else multiset{}) + Sent(units[1..])
  }

  lemma {:induction false} PairsCount(y: DCell, plats: seq<Platform>, x: DCell, p: Platform)
    ensures multiset(PairsOf(y, plats))[(x, p)] == if y == x then multiset(plats)[p] else 0
  {
    if plats != [] {
      PairsCount(y, plats[1..], x, p);
      assert plats == [plats[0]] + plats[1..];
    }
  }

  lemma {:induction false} KeptCount(cfg: Config, cap: string, plats: seq<Platform>, p: Platform)
    ensures multiset(Kept(cfg, cap, plats))[p] == if Batched(cfg, cap, p) then 0 else multiset(plats)[p]
  {
    if plats != [] {
      KeptCount(cfg, cap, plats[1..], p);
      assert plats == [plats[0]] + plats[1..];
    }
  }

  /** m times n, by repeated addition. */
  ghost function Times(m: nat, n: nat): nat {
    if m == 0 then 0 else Times(m - 1, n) + n
  }

  lemma {:induction false} TimesZero(m: nat)
    ensures Times(m, 0) == 0
  {
    if m > 0 {
      TimesZero(m - 1);
    }
  }

  lemma HeadCount(s: seq<DCell>, x: DCell)
    requires s != []
    ensures multiset(s)[x] == multiset(s[1..])[x] + if s[0] == x then 1 else 0
  {
    assert s == [s[0]] + s[1..];
  }

  lemma RevisionsHead(cfg: Config, s: seq<DCell>, x: DCell, p: Platform)
    requires s != []
    ensures Sent(Revisions(cfg, s))[(x, p)] == Sent(Revisions(cfg, s[1..]))[(x, p)]
      + if s[0] == x then multiset(Kept(cfg, x.cap, CellPlatforms(cfg, x)))[p] else 0
  {
    var keep := Kept(cfg, s[0].cap, CellPlatforms(cfg, s[0]));
    PairsCount(s[0], keep, x, p);
    if keep != [] {
      assert Revisions(cfg, s) == [Revision(s[0], keep)] + Revisions(cfg, s[1..]);
      assert Revisions(cfg, s)[1..] == Revisions(cfg, s[1..]);
    } else {
      assert multiset(keep)[p] == 0;
    }
  }

  lemma {:induction false} RevisionsCount(cfg: Config, s: seq<DCell>, x: DCell, p: Platform)
    ensures Sent(Revisions(cfg, s))[(x, p)]
        == Times(multiset(s)[x], multiset(Kept(cfg, x.cap, CellPlatforms(cfg, x)))[p])
  {
    if s != [] {
      RevisionsCount(cfg, s[1..], x, p);
      RevisionsHead(cfg, s, x, p);
      HeadCount(s, x);
    }
  }

  lemma {:induction false} EligibleCount(cells: seq<DCell>, x: DCell)
    ensures multiset(EligibleCells(cells))[x] == if Eligible(x) then multiset(cells)[x] else 0
  {
    if cells != [] {
      EligibleCount(cells[1..], x);
      HeadCount(cells, x);
      if Eligible(cells[0]) {
        HeadCount(EligibleCells(cells), x);
        assert EligibleCells(cells)[1..] == EligibleCells(cells[1..]);
      }
    }
  }

  lemma {:induction false} FiledValuesCount(cfg: Config, y: DCell, plats: seq<Platform>, x: DCell, p: Platform)
    requires Batched(cfg, x.cap, p)
    ensures multiset(ValuesOf(Filed(cfg, y, plats), (x.cap, p)))[x] == if y == x then multiset(plats)[p] else 0
  {
    if plats != [] {
      FiledValuesCount(cfg, y, plats[1..], x, p);
      assert plats == [plats[0]] + plats[1..];
      if Batched(cfg, y.cap, plats[0]) {
        assert Filed(cfg, y, plats)[1..] == Filed(cfg, y, plats[1..]);
      }
    }
  }

  lemma {:induction false} AllFiledCount(cfg: Config, s: seq<DCell>, x: DCell, p: Platform)
    requires Batched(cfg, x.cap, p)
    ensures multiset(ValuesOf(AllFiled(cfg, s), (x.cap, p)))[x]
        == Times(multiset(s)[x], multiset(CellPlatforms(cfg, x))[p])
  {
    if s != [] {
      AllFiledCount(cfg, s[1..], x, p);
      FiledValuesCount(cfg, s[0], CellPlatforms(cfg, s[0]), x, p);
      ValuesOfAppend(Filed(cfg, s[0], CellPlatforms(cfg, s[0])), AllFiled(cfg, s[1..]), (x.cap, p));
      HeadCount(s, x);
    }
  }

  lemma {:induction false} SentAppend(a: seq<Unit>, b: seq<Unit>)
    ensures Sent(a + b) == Sent(a) + Sent(b)
  {
    if a == [] {
      assert a + b == b;
    } else {
      assert (a + b)[1..] == a[1..] + b;
      SentAppend(a[1..], b);
    }
  }

  lemma {:induction false} BatchesSendNoPairs(groups: seq<BatchGroup>)
    ensures Sent(BatchUnits(groups)) == multiset{}
  {
    if groups != [] {
      BatchesSendNoPairs(groups[1..]);
    }
  }

  lemma ChainSends(cfg: Config, cells: seq<DCell>)
    ensures Sent(Chain(cfg, cells)) == Sent(Revisions(cfg, SortedCells(cells)))
  {
    var b := BatchUnits(Summaries(cfg, BatchesOf(cfg, cells)));
    SentAppend(SnapshotUnits(cells) + b, Revisions(cfg, SortedCells(cells)));
    SentAppend(SnapshotUnits(cells), b);
    BatchesSendNoPairs(Summaries(cfg, BatchesOf(cfg, cells)));
  }

  lemma SortedCount(cells: seq<DCell>, x: DCell)
    ensures multiset(SortedCells(cells))[x] == if Eligible(x) then multiset(cells)[x] else 0
  {
    SortPermutes(EligibleCells(cells), OldestRowFirst);
    EligibleCount(cells, x);
  }

  /** How often the caller wants cell x run on platform p. */
  ghost function Demand(cfg: Config, cells: seq<DCell>, x: DCell, p: Platform): nat {
    if Eligible(x) then Times(multiset(cells)[x], multiset(CellPlatforms(cfg, x))[p]) else 0
  }

  /** The split is a partition: a pair is sent on its own exactly as often as it is
      wanted when no batch takes its platform, and otherwise never sent but filed that
      often under its one batch. A diff of a root commit is wanted zero times. */
  lemma SplitIsPartition(cfg: Config, cells: seq<DCell>, x: DCell, p: Platform)
    ensures Sent(Chain(cfg, cells))[(x, p)] == if Batched(cfg, x.cap, p) then 0 else Demand(cfg, cells, x, p)
    ensures Batched(cfg, x.cap, p) ==>
      multiset(Members(BatchesOf(cfg, cells), (x.cap, p)))[x] == Demand(cfg, cells, x, p)
  {
    var s := SortedCells(cells);
    ChainSends(cfg, cells);
    RevisionsCount(cfg, s, x, p);
    TimesZero(multiset(s)[x]);
    KeptCount(cfg, x.cap, CellPlatforms(cfg, x), p);
    SortedCount(cells, x);
    if Batched(cfg, x.cap, p) {
      AllFiledCount(cfg, s, x, p);
      GroupByPartitions(AllFiled(cfg, s), (x.cap, p));
    }
  }

  // ----- what a batch carries -----

  lemma {:induction false} FiledMembers(cfg: Config, y: DCell, plats: seq<Platform>, k: GroupKey)
    ensures forall x :: x in ValuesOf(Filed(cfg, y, plats), k) <==>
      x == y && k.0 == y.cap && k.1 in plats && Batched(cfg, k.0, k.1)
  {
    if plats != [] {
      FiledMembers(cfg, y, plats[1..], k);
      if Batched(cfg, y.cap, plats[0]) {
        assert Filed(cfg, y, plats)[1..] == Filed(cfg, y, plats[1..]);
      }
      assert k.1 in plats <==> k.1 == plats[0] || k.1 in plats[1..];
    }
  }

  ghost predicate BatchMember(cfg: Config, s: seq<DCell>, k: GroupKey, x: DCell) {
    x in s && k.0 == x.cap && k.1 in CellPlatforms(cfg, x) && Batched(cfg, k.0, k.1)
  }

  lemma {:induction false} AllFiledMembers(cfg: Config, s: seq<DCell>, k: GroupKey)
    ensures forall x :: x in ValuesOf(AllFiled(cfg, s), k) <==> BatchMember(cfg, s, k, x)
  {
    if s != [] {
      AllFiledMembers(cfg, s[1..], k);
      FiledMembers(cfg, s[0], CellPlatforms(cfg, s[0]), k);
      ValuesOfAppend(Filed(cfg, s[0], CellPlatforms(cfg, s[0])), AllFiled(cfg, s[1..]), k);
      forall x
        ensures x in ValuesOf(AllFiled(cfg, s), k) <==> BatchMember(cfg, s, k, x)
      {
        assert x in s <==> x == s[0] || x in s[1..];
        assert x in ValuesOf(AllFiled(cfg, s), k) <==>
          x in ValuesOf(Filed(cfg, s[0], CellPlatforms(cfg, s[0])), k) || x in ValuesOf(AllFiled(cfg, s[1..]), k);
      }
    }
  }

  ghost predicate RowsDescend(s: seq<DCell>) {
    forall i, j :: 0 <= i < j < |s| ==> s[i].order >= s[j].order
  }

  lemma {:induction false} FiledRows(cfg: Config, s: seq<DCell>, k: GroupKey)
    requires RowsDescend(s)
    ensures RowsDescend(ValuesOf(AllFiled(cfg, s), k))
  {
    if s != [] {
      FiledRows(cfg, s[1..], k);
      var a := ValuesOf(Filed(cfg, s[0], CellPlatforms(cfg, s[0])), k);
      var b := ValuesOf(AllFiled(cfg, s[1..]), k);
      ValuesOfAppend(Filed(cfg, s[0], CellPlatforms(cfg, s[0])), AllFiled(cfg, s[1..]), k);
      FiledMembers(cfg, s[0], CellPlatforms(cfg, s[0]), k);
      AllFiledMembers(cfg, s[1..], k);
      forall i | 0 <= i < |a|
        ensures a[i] == s[0]
      {
        assert a[i] in a;
      }
      forall j | 0 <= j < |b|
        ensures b[j].order <= s[0].order
      {
        assert b[j] in b;
        var m :| 0 <= m < |s[1..]| && s[1..][m] == b[j];
        assert s[m + 1] == b[j];
      }
    }
  }

  /** Some member at s stands before every member at t. */
  ghost predicate AppearsBefore(members: seq<DCell>, s: string, t: string) {
    exists a :: 0 <= a < |members| && members[a].sha == s &&
      forall b :: 0 <= b < |members| && members[b].sha == t ==> a < b
  }

  ghost predicate FirstAppearances(members: seq<DCell>, shas: seq<string>) {
    && (forall i, j :: 0 <= i < j < |shas| ==> shas[i] != shas[j] && AppearsBefore(members, shas[i], shas[j]))
    && (forall s :: s in shas <==> Appears(members, s))
  }

  ghost predicate Appears(members: seq<DCell>, s: string) {
    exists a :: 0 <= a < |members| && members[a].sha == s
  }

  lemma AppearsNext(init: seq<DCell>, x: DCell, s: string)
    ensures Appears(init + [x], s) <==> Appears(init, s) || x.sha == s
  {
    var all := init + [x];
    assert all[|init|] == x;
    if a :| 0 <= a < |init| && init[a].sha == s {
      assert all[a].sha == s;
    }
    if a :| 0 <= a < |all| && all[a].sha == s && a < |init| {
      assert init[a].sha == s;
    }
  }

  lemma StillBefore(init: seq<DCell>, x: DCell, s: string, t: string)
    requires AppearsBefore(init, s, t)
    ensures AppearsBefore(init + [x], s, t)
  {
    var all := init + [x];
    var a :| 0 <= a < |init| && init[a].sha == s && forall b :: 0 <= b < |init| && init[b].sha == t ==> a < b;
    assert all[a].sha == s;
    forall b | 0 <= b < |all| && all[b].sha == t
      ensures a < b
    {
      assert b < |init| ==> init[b].sha == t;
    }
  }

  lemma BeforeTheNewcomer(init: seq<DCell>, x: DCell, s: string)
    requires Appears(init, s) && !Appears(init, x.sha)
    ensures AppearsBefore(init + [x], s, x.sha)
  {
    var all := init + [x];
    var a :| 0 <= a < |init| && init[a].sha == s;
    assert all[a].sha == s;
    assert forall b :: 0 <= b < |init| ==> all[b] == init[b] && init[b].sha != x.sha;
  }

  lemma {:induction false} ShasAppear(members: seq<DCell>, s: string)
    ensures s in Shas(members, []) <==> Appears(members, s)
  {
    if members != [] {
      var init, x := members[..|members| - 1], members[|members| - 1];
      assert members == init + [x];
      ShasAppear(init, s);
      ShasAppend(init, [], x);
      AppearsNext(init, x, s);
    }
  }

  lemma {:induction false} ShasInOrder(members: seq<DCell>, i: nat, j: nat)
    requires i < j < |Shas(members, [])|
    ensures var shas := Shas(members, []);
      shas[i] != shas[j] && AppearsBefore(members, shas[i], shas[j])
  {
    if members != [] {
      var init, x := members[..|members| - 1], members[|members| - 1];
      assert members == init + [x];
      ShasAppend(init, [], x);
      var r := Shas(init, []);
      if j < |r| {
        ShasInOrder(init, i, j);
        StillBefore(init, x, r[i], r[j]);
      } else {
        ShasAppear(init, x.sha);
        ShasAppear(init, r[i]);
        BeforeTheNewcomer(init, x, r[i]);
      }
    }
  }

  lemma ShasAreFirstAppearances(members: seq<DCell>)
    ensures FirstAppearances(members, Shas(members, []))
  {
    forall s
      ensures s in Shas(members, []) <==> Appears(members, s)
    {
      ShasAppear(members, s);
    }
    forall i, j | 0 <= i < j < |Shas(members, [])|
      ensures Shas(members, [])[i] != Shas(members, [])[j]
      ensures AppearsBefore(members, Shas(members, [])[i], Shas(members, [])[j])
    {
      ShasInOrder(members, i, j);
    }
  }

  /** Some member at s is at least as old as every member at t. */
  ghost predicate AtLeastAsOld(members: seq<DCell>, s: string, t: string) {
    exists m :: m in members && m.sha == s &&
      forall m' :: m' in members && m'.sha == t ==> m.order >= m'.order
  }

  ghost predicate OldestToNewest(members: seq<DCell>, shas: seq<string>) {
    forall i, j :: 0 <= i < j < |shas| ==> AtLeastAsOld(members, shas[i], shas[j])
  }

  lemma FirstAppearancesAreOldest(members: seq<DCell>, shas: seq<string>)
    requires RowsDescend(members) && FirstAppearances(members, shas)
    ensures OldestToNewest(members, shas)
  {
    forall i, j | 0 <= i < j < |shas|
      ensures AtLeastAsOld(members, shas[i], shas[j])
    {
      assert AppearsBefore(members, shas[i], shas[j]);
      var a :| 0 <= a < |members| && members[a].sha == shas[i] &&
        forall b :: 0 <= b < |members| && members[b].sha == shas[j] ==> a < b;
      forall m' | m' in members && m'.sha == shas[j]
        ensures members[a].order >= m'.order
      {
        var b :| 0 <= b < |members| && members[b] == m';
      }
      assert members[a] in members;
    }
  }

  /** Each batch dispatch carries, each once and oldest to newest, exactly the commits
      of the eligible cells that want its platform, goes to the backfill workflow of its
      target, and is forced exactly when one of those cells is a re-run or already done.
      No two batches serve the same capability and platform. */
  lemma BatchCarriesItsMembers(cfg: Config, cells: seq<DCell>, i: nat)
    requires i < |BatchesOf(cfg, cells)|
    ensures var group := BatchesOf(cfg, cells)[i];
      var g := Summaries(cfg, BatchesOf(cfg, cells))[i];
      && Batched(cfg, g.cap, g.plat) && Batch(g.wf, g.shasInput) == cfg.rt[g.cap].targets[g.plat].batch.value
      && (g.cap, g.plat) == group.key
      && (forall x :: x in group.members <==>
            x in cells && Eligible(x) && x.cap == g.cap && g.plat in CellPlatforms(cfg, x))
      && (forall a, b :: 0 <= a < b < |g.shas| ==> g.shas[a] != g.shas[b])
      && (forall s :: s in g.shas <==> exists a :: 0 <= a < |group.members| && group.members[a].sha == s)
      && OldestToNewest(group.members, g.shas)
      && (g.force <==> exists x :: x in group.members && Again(x))
    ensures DistinctKeys(BatchesOf(cfg, cells))
  {
    var s := SortedCells(cells);
    var groups := BatchesOf(cfg, cells);
    var group := groups[i];
    GroupByPartitions(AllFiled(cfg, s), group.key);
    FindUnique(groups, i);
    assert group.members == ValuesOf(AllFiled(cfg, s), group.key);
    AllFiledMembers(cfg, s, group.key);
    SortMembers(EligibleCells(cells), OldestRowFirst);
    forall x
      ensures x in s <==> x in cells && Eligible(x)
    {
      EligibleMembers(cells, x);
    }
    assert group.members[0] in group.members;
    RowsOrder();
    SortSorted(EligibleCells(cells), OldestRowFirst);
    FiledRows(cfg, s, group.key);
    ShasAreFirstAppearances(group.members);
    FirstAppearancesAreOldest(group.members, Shas(group.members, []));
    AnyAgainMember(group.members);
  }

  lemma AnyAgainMember(members: seq<DCell>)
    ensures AnyAgain(members) <==> exists x :: x in members && Again(x)
  {
    if AnyAgain(members) {
      var i :| 0 <= i < |members| && Again(members[i]);
      assert members[i] in members;
    }
  }

  lemma RowsOrder()
    ensures TotalPreorder(OldestRowFirst)
  {
  }

  lemma {:induction false} EligibleMembers(cells: seq<DCell>, x: DCell)
    ensures x in EligibleCells(cells) <==> x in cells && Eligible(x)
  {
    if cells != [] {
      EligibleMembers(cells[1..], x);
    }
  }

  // ----- three counts of one thing -----

  function KeptTotal(cfg: Config, s: seq<DCell>): nat {
    if s == [] then 0 else |Kept(cfg, s[0].cap, CellPlatforms(cfg, s[0]))| + KeptTotal(cfg, s[1..])
  }

  /** The (capability, platform) pairs that some cell sends through a batch. */
  function BatchKeysOf(cfg: Config, s: seq<DCell>): set<GroupKey> {
    if s == [] then {} else FiledKeys(Filed(cfg, s[0], CellPlatforms(cfg, s[0]))) + BatchKeysOf(cfg, s[1..])
  }

  function FiledKeys(items: seq<(GroupKey, DCell)>): set<GroupKey> {
    set i | 0 <= i < |items| :: items[i].0
  }

  lemma {:induction false} KeptTotalInsert(cfg: Config, x: DCell, s: seq<DCell>)
    ensures KeptTotal(cfg, Insert(x, s, OldestRowFirst))
        == |Kept(cfg, x.cap, CellPlatforms(cfg, x))| + KeptTotal(cfg, s)
  {
    if s == [] || OldestRowFirst(x, s[0]) {
      assert ([x] + s)[1..] == s;
    } else {
      KeptTotalInsert(cfg, x, s[1..]);
      assert ([s[0]] + Insert(x, s[1..], OldestRowFirst))[1..] == Insert(x, s[1..], OldestRowFirst);
    }
  }

  lemma {:induction false} KeptTotalSort(cfg: Config, s: seq<DCell>)
    ensures KeptTotal(cfg, Sort(s, OldestRowFirst)) == KeptTotal(cfg, s)
  {
    if s != [] {
      KeptTotalSort(cfg, s[1..]);
      KeptTotalInsert(cfg, s[0], Sort(s[1..], OldestRowFirst));
    }
  }

  lemma {:induction false} BatchKeysInsert(cfg: Config, x: DCell, s: seq<DCell>)
    ensures BatchKeysOf(cfg, Insert(x, s, OldestRowFirst))
        == FiledKeys(Filed(cfg, x, CellPlatforms(cfg, x))) + BatchKeysOf(cfg, s)
  {
    if s == [] || OldestRowFirst(x, s[0]) {
      assert ([x] + s)[1..] == s;
    } else {
      BatchKeysInsert(cfg, x, s[1..]);
      assert ([s[0]] + Insert(x, s[1..], OldestRowFirst))[1..] == Insert(x, s[1..], OldestRowFirst);
    }
  }

  lemma {:induction false} BatchKeysSort(cfg: Config, s: seq<DCell>)
    ensures BatchKeysOf(cfg, Sort(s, OldestRowFirst)) == BatchKeysOf(cfg, s)
  {
    if s != [] {
      BatchKeysSort(cfg, s[1..]);
      BatchKeysInsert(cfg, s[0], Sort(s[1..], OldestRowFirst));
    }
  }

  lemma {:induction false} FiledKeysAppend(a: seq<(GroupKey, DCell)>, b: seq<(GroupKey, DCell)>)
    ensures FiledKeys(a + b) == FiledKeys(a) + FiledKeys(b)
  {
    var ab := a + b;
    forall k
      ensures k in FiledKeys(ab) <==> k in FiledKeys(a) || k in FiledKeys(b)
    {
      if k in FiledKeys(a) {
        var i :| 0 <= i < |a| && a[i].0 == k;
        assert ab[i].0 == k;
      }
      if k in FiledKeys(b) {
        var i :| 0 <= i < |b| && b[i].0 == k;
        assert ab[|a| + i].0 == k;
      }
    }
  }

  lemma {:induction false} BatchKeysAreFiled(cfg: Config, s: seq<DCell>)
    ensures FiledKeys(AllFiled(cfg, s)) == BatchKeysOf(cfg, s)
  {
    if s != [] {
      BatchKeysAreFiled(cfg, s[1..]);
      FiledKeysAppend(Filed(cfg, s[0], CellPlatforms(cfg, s[0])), AllFiled(cfg, s[1..]));
    }
  }

  lemma {:induction false} FirstSeenMembers(items: seq<(GroupKey, DCell)>, seen: seq<GroupKey>)
    ensures forall k :: k in FirstSeen(items, seen) <==> k in seen || k in FiledKeys(items)
    decreases |items|
  {
    if items != [] {
      var seen' := if items[0].0 in seen then seen else seen + [items[0].0];
      FirstSeenMembers(items[1..], seen');
      assert items == [items[0]] + items[1..];
      FiledKeysAppend([items[0]], items[1..]);
      assert FiledKeys([items[0]]) == {items[0].0} by {
        assert [items[0]][0].0 in FiledKeys([items[0]]);
      }
    }
  }

  lemma {:induction false} DistinctCount(keys: seq<GroupKey>, members: set<GroupKey>)
    requires forall i, j :: 0 <= i < j < |keys| ==> keys[i] != keys[j]
    requires forall k :: k in keys <==> k in members
    ensures |keys| == |members|
  {
    if keys == [] {
      assert members == {};
    } else {
      assert keys[0] in members;
      var rest := keys[1..];
      forall k
        ensures k in rest <==> k in members - {keys[0]}
      {
        assert k in keys <==> k == keys[0] || k in rest;
        if k in rest {
          var i :| 0 <= i < |rest| && rest[i] == k;
          assert keys[i + 1] == k;
        }
      }
      DistinctCount(rest, members - {keys[0]});
    }
  }

  lemma GroupCount(cfg: Config, cells: seq<DCell>)
    ensures |BatchesOf(cfg, cells)| == |BatchKeysOf(cfg, EligibleCells(cells))|
  {
    var items := AllFiled(cfg, SortedCells(cells));
    var groups := BatchesOf(cfg, cells);
    GroupByPartitions(items, ("", ""));
    FirstSeenMembers(items, []);
    BatchKeysAreFiled(cfg, SortedCells(cells));
    BatchKeysSort(cfg, EligibleCells(cells));
    DistinctCount(Keys(groups), BatchKeysOf(cfg, EligibleCells(cells)));
  }

  lemma {:induction false} RevisionRequests(cfg: Config, s: seq<DCell>)
    ensures Requests(Revisions(cfg, s)) == KeptTotal(cfg, s)
  {
    if s != [] {
      RevisionRequests(cfg, s[1..]);
      if Kept(cfg, s[0].cap, CellPlatforms(cfg, s[0])) != [] {
        assert Revisions(cfg, s)[1..] == Revisions(cfg, s[1..]);
      }
    }
  }

  /** The number of requests, without building or sorting anything. */
  lemma RequestCount(cfg: Config, cells: seq<DCell>)
    ensures Requests(Chain(cfg, cells)) ==
      KeptTotal(cfg, EligibleCells(cells)) + (if SnapshotShas(cells) != [] then 1 else 0)
          + |BatchKeysOf(cfg, EligibleCells(cells))|
  {
    var snaps := SnapshotUnits(cells);
    var b := BatchUnits(Summaries(cfg, BatchesOf(cfg, cells)));
    RequestsAppend(snaps + b, Revisions(cfg, SortedCells(cells)));
    RequestsAppend(snaps, b);
    RequestsOfBatches(Summaries(cfg, BatchesOf(cfg, cells)));
    RevisionRequests(cfg, SortedCells(cells));
    KeptTotalSort(cfg, EligibleCells(cells));
    GroupCount(cfg, cells);
    if SnapshotShas(cells) != [] {
      assert snaps[1..] == [];
    }
  }

  /** The counting loop over one cell's platforms, shared by the two counters below. */
  method CountPlatforms(cfg: Config, x: DCell, seen: set<GroupKey>, count: nat)
    returns (groups: set<GroupKey>, perRev: nat)
    ensures groups == seen + FiledKeys(Filed(cfg, x, CellPlatforms(cfg, x)))
    ensures perRev == count + |Kept(cfg, x.cap, CellPlatforms(cfg, x))|
  {
    groups, perRev := seen, count;
    var plats := CellPlatforms(cfg, x);
    var i := 0;
    while i < |plats|
      invariant 0 <= i <= |plats|
      invariant groups + FiledKeys(Filed(cfg, x, plats[i..])) == seen + FiledKeys(Filed(cfg, x, plats))
      invariant perRev + |Kept(cfg, x.cap, plats[i..])| == count + |Kept(cfg, x.cap, plats)|
    {
      if Batched(cfg, x.cap, plats[i]) {
        var item := ((x.cap, plats[i]), x);
        assert Filed(cfg, x, plats[i..]) == [item] + Filed(cfg, x, plats[i + 1..]);
        FiledKeysAppend([item], Filed(cfg, x, plats[i + 1..]));
        assert FiledKeys([item]) == {item.0} by {
          assert [item][0].0 in FiledKeys([item]);
        }
        groups := groups + {(x.cap, plats[i])};
      } else {
        perRev := perRev + 1;
      }
      i := i + 1;
    }
  }

  method SiftForCount(cells: seq<DCell>) returns (perRev: seq<DCell>, sawSnap: bool)
    ensures perRev == EligibleCells(cells)
    ensures sawSnap <==> SnapshotShas(cells) != []
  {
    sawSnap := false;
    perRev := [];
    var i := 0;
    while i < |cells|
      invariant 0 <= i <= |cells|
      invariant perRev + EligibleCells(cells[i..]) == EligibleCells(cells)
      invariant SnapshotShas(cells) != [] <==> sawSnap || SnapshotShas(cells[i..]) != []
    {
      var x := cells[i];
      if x.cap == SNAPSHOTS_CAP {
        sawSnap := true;
      } else if !(x.cap == VIDIFF && x.parent == "") {
        perRev := perRev + [x];
      }
      i := i + 1;
    }
  }

  /** `dispatchTotal` counts without dispatching, and agrees with the dispatcher's own
      total on every list of cells. */
  method DispatchTotal(cfg: Config, cells: seq<DCell>) returns (n: nat)
    ensures n == Requests(Chain(cfg, cells))
  {
    var perRev, sawSnap := SiftForCount(cells);
    var batchSeen: set<GroupKey>, perRevPlats: nat := {}, 0;
    var i := 0;
    while i < |perRev|
      invariant 0 <= i <= |perRev|
      invariant batchSeen + BatchKeysOf(cfg, perRev[i..]) == BatchKeysOf(cfg, perRev)
      invariant perRevPlats + KeptTotal(cfg, perRev[i..]) == KeptTotal(cfg, perRev)
    {
      batchSeen, perRevPlats := CountPlatforms(cfg, perRev[i], batchSeen, perRevPlats);
      i := i + 1;
    }
    n := perRevPlats + (if sawSnap then 1 else 0) + |batchSeen|;
    RequestCount(cfg, cells);
  }

  // ----- the announced count -----

  /** The choices of the Populate-history dialog. */
  datatype Choice = Off | Fill | Rerun

  /** The cells the dialog dispatches: in scope, switched on, with a selected platform,
      and empty unless re-running; never a diff of a root commit. */
  function HistCells(cfg: Config, all: seq<DCell>, scope: set<string>, mode: map<string, Choice>): seq<DCell> {
    if all == [] then []
    else
      var x := all[0];
      var m := if x.cap in mode then mode[x.cap] else Off;
      var rest := HistCells(cfg, all[1..], scope, mode);
      if x.sha !in scope || m == Off || (x.cap == VIDIFF && x.parent == "")
         || (x.platform != "" && x.platform !in SelectedPlatforms(cfg, x.cap)) || (m == Fill && x.done) then rest
      else [x.(rerun := m == Rerun)] + rest
  }

  lemma {:induction false} HistCellsDispatchable(cfg: Config, all: seq<DCell>, scope: set<string>,
                                                 mode: map<string, Choice>)
    ensures forall x :: x in HistCells(cfg, all, scope, mode) ==>
      (IsSnapshot(x) || Eligible(x)) && x.sha in scope
      && x.cap in mode && mode[x.cap] != Off && (x.done ==> mode[x.cap] == Rerun) && (x.rerun <==> mode[x.cap] == Rerun)
      && (x.platform == "" || x.platform in SelectedPlatforms(cfg, x.cap))
  {
    if all != [] {
      HistCellsDispatchable(cfg, all[1..], scope, mode);
    }
  }

  /** The revisions that a list of cells covers. */
  function ShasIn(cells: seq<DCell>): set<string> {
    set x | x in cells :: x.sha
  }

  lemma HistStep(cfg: Config, cells: seq<DCell>, i: nat)
    requires i < |cells| && (IsSnapshot(cells[i]) || Eligible(cells[i]))
    ensures var x, here, rest := cells[i], EligibleCells(cells[i..]), EligibleCells(cells[i + 1..]);
      if x.cap == SNAPSHOTS_CAP then here == rest && SnapshotShas(cells[i..]) != []
      else
        && KeptTotal(cfg, here) == |Kept(cfg, x.cap, CellPlatforms(cfg, x))| + KeptTotal(cfg, rest)
        && BatchKeysOf(cfg, here) == FiledKeys(Filed(cfg, x, CellPlatforms(cfg, x))) + BatchKeysOf(cfg, rest)
        && (SnapshotShas(cells[i..]) != [] <==> SnapshotShas(cells[i + 1..]) != [])
  {
    assert cells[i..][1..] == cells[i + 1..];
    if cells[i].cap != SNAPSHOTS_CAP {
      assert EligibleCells(cells[i..])[1..] == EligibleCells(cells[i + 1..]);
    }
  }

  /** What has been counted and what is still to come make up the whole. */
  ghost predicate CountedUpTo(cfg: Config, cells: seq<DCell>, i: nat, keys: set<GroupKey>, perRev: nat, snaps: nat)
    requires i <= |cells|
  {
    && keys + BatchKeysOf(cfg, EligibleCells(cells[i..])) == BatchKeysOf(cfg, EligibleCells(cells))
    && perRev + KeptTotal(cfg, EligibleCells(cells[i..])) == KeptTotal(cfg, EligibleCells(cells))
    && snaps in {0, 1} && (SnapshotShas(cells) != [] <==> snaps == 1 || SnapshotShas(cells[i..]) != [])
  }

  lemma CountedNext(cfg: Config, cells: seq<DCell>, i: nat, keys: set<GroupKey>, perRev: nat, snaps: nat)
    requires i < |cells| && (IsSnapshot(cells[i]) || Eligible(cells[i]))
        && CountedUpTo(cfg, cells, i, keys, perRev, snaps)
    ensures var x := cells[i];
      if x.cap == SNAPSHOTS_CAP then CountedUpTo(cfg, cells, i + 1, keys, perRev, 1)
      else CountedUpTo(cfg, cells, i + 1, keys + FiledKeys(Filed(cfg, x, CellPlatforms(cfg, x))),
                       perRev + |Kept(cfg, x.cap, CellPlatforms(cfg, x))|, snaps)
  {
    HistStep(cfg, cells, i);
  }

  lemma CountedAll(cfg: Config, cells: seq<DCell>, keys: set<GroupKey>, perRev: nat, snaps: nat)
    requires CountedUpTo(cfg, cells, |cells|, keys, perRev, snaps)
    ensures perRev + |keys| + snaps == Requests(Chain(cfg, cells))
  {
    assert cells[|cells|..] == [];
    RequestCount(cfg, cells);
  }

  /** The run count announced before queuing, counted cell by cell. */
  method HistRuns(cfg: Config, cells: seq<DCell>) returns (runs: nat, revisions: set<string>)
    requires forall i :: 0 <= i < |cells| ==> IsSnapshot(cells[i]) || Eligible(cells[i])
    ensures runs == Requests(Chain(cfg, cells))
    ensures revisions == ShasIn(cells)
  {
    var groupKeys: set<GroupKey>, perRevRuns: nat, snaps := {}, 0, 0;
    revisions := {};
    var i := 0;
    while i < |cells|
      invariant 0 <= i <= |cells|
      invariant CountedUpTo(cfg, cells, i, groupKeys, perRevRuns, snaps)
      invariant revisions == ShasIn(cells[..i])
    {
      var x := cells[i];
      CountedNext(cfg, cells, i, groupKeys, perRevRuns, snaps);
      assert cells[..i + 1] == cells[..i] + [x];
      revisions := revisions + {x.sha};
      if x.cap == SNAPSHOTS_CAP {
        snaps := 1;
      } else {
        groupKeys, perRevRuns := CountPlatforms(cfg, x, groupKeys, perRevRuns);
      }
      i := i + 1;
    }
    assert cells[..i] == cells;
    runs := perRevRuns + |groupKeys| + snaps;
    CountedAll(cfg, cells, groupKeys, perRevRuns, snaps);
  }

  /** What the dialog announces, what the confirmation counts and what the dispatcher
      sends are one number for the dialog's own cells. */
  method AnnouncedEqualsDispatched(cfg: Config, all: seq<DCell>, scope: set<string>, mode: map<string, Choice>)
    returns (announced: nat, confirmed: nat, total: nat)
    ensures announced == confirmed == total == Requests(Chain(cfg, HistCells(cfg, all, scope, mode)))
  {
    var cells := HistCells(cfg, all, scope, mode);
    HistCellsDispatchable(cfg, all, scope, mode);
    forall i | 0 <= i < |cells|
      ensures IsSnapshot(cells[i]) || Eligible(cells[i])
    {
      assert cells[i] in cells;
    }
    var revisions, chain;
    announced, revisions := HistRuns(cfg, cells);
    confirmed := DispatchTotal(cfg, cells);
    chain, total := Plan(cfg, cells);
  }
}
