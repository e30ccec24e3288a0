/** Where the entries of the revision list come from: which commits are listed, in which
    order, and whose fields they show. */
module RevisionSources {
  import opened Grouping
  import opened ProbePool

  ghost predicate Lists(commits: seq<Commit>, sha: Sha) {
    exists m :: 0 <= m < |commits| && commits[m].sha == sha
  }

  /** The first entry of a comes before every entry of b. */
  ghost predicate ComesFirst(commits: seq<Commit>, a: Sha, b: Sha) {
    exists m :: 0 <= m < |commits| && commits[m].sha == a && forall q :: 0 <= q <= m ==> commits[q].sha != b
  }

  // ----- the records of one commit -----

  function RecordsOf(commits: seq<Commit>, sha: Sha): seq<Record> {
    if commits == [] then []
    else if commits[0].sha == sha then [commits[0].fields] + RecordsOf(commits[1..], sha)
    else RecordsOf(commits[1..], sha)
  }

  lemma {:induction false} ListedValues(commits: seq<Commit>, skip: set<Sha>, sha: Sha)
    ensures ValuesOf(Listed(commits, skip), sha) == if sha == "" || sha in skip then [] else RecordsOf(commits, sha)
  {
    if commits != [] {
      ListedValues(commits[1..], skip, sha);
      var c, rest := commits[0], Listed(commits[1..], skip);
      assert ([(c.sha, c.fields)] + rest)[1..] == rest;
      if c.sha == sha && sha != "" && sha !in skip {
        assert Listed(commits, skip)[0] == (sha, c.fields);
      }
    }
  }

  lemma {:induction false} ValuesJoin(a: seq<(Sha, Record)>, b: seq<(Sha, Record)>, sha: Sha)
    ensures ValuesOf(a + b, sha) == ValuesOf(a, sha) + ValuesOf(b, sha)
  {
    if a == [] {
      assert a + b == b;
    } else {
      assert (a + b)[1..] == a[1..] + b;
      ValuesJoin(a[1..], b, sha);
    }
  }

  lemma {:induction false} RecordsExist(commits: seq<Commit>, sha: Sha)
    ensures RecordsOf(commits, sha) != [] <==> Lists(commits, sha)
  {
    if commits != [] {
      RecordsExist(commits[1..], sha);
      if Lists(commits, sha) && commits[0].sha != sha {
        var m :| 0 <= m < |commits| && commits[m].sha == sha;
        assert commits[1..][m - 1].sha == sha;
      }
      if Lists(commits[1..], sha) {
        var m :| 0 <= m < |commits[1..]| && commits[1..][m].sha == sha;
        assert commits[m + 1].sha == sha;
      }
    }
  }

  /** The file list covers its commits; the snapshots list speaks for the others. */
  lemma SourceRecords(files: seq<Commit>, snap: seq<Commit>, sha: Sha)
    requires sha != ""
    ensures ValuesOf(Sources(files, snap), sha) ==
      if Lists(files, sha) then RecordsOf(FileRecords(files), sha) else RecordsOf(snap, sha)
  {
    ValuesJoin(Listed(snap, ShasOf(files)), Listed(FileRecords(files), {}), sha);
    ListedValues(snap, ShasOf(files), sha);
    ListedValues(FileRecords(files), {}, sha);
    assert sha in ShasOf(files) <==> Lists(files, sha);
    RecordsExist(FileRecords(files), sha);
    SameCommits(files, sha);
  }

  // ----- fields -----

  ghost predicate LastOf(records: seq<Record>, f: string, v: string) {
    exists m :: 0 <= m < |records| && f in records[m] && records[m][f] == v
      && forall q :: m < q < |records| ==> f !in records[q]
  }

  lemma LastOfNext(records: seq<Record>, r: Record, f: string, v: string)
    requires if f in r then v == r[f] else LastOf(records, f, v)
    ensures LastOf(records + [r], f, v)
  {
    var all := records + [r];
    if f in r {
      assert all[|records|] == r;
    } else {
      var m :| 0 <= m < |records| && f in records[m] && records[m][f] == v
        && forall q :: m < q < |records| ==> f !in records[q];
      assert all[m] == records[m];
    }
  }

  lemma {:induction false} MergedField(records: seq<Record>, f: string)
    ensures f in Merged(records) ==> LastOf(records, f, Merged(records)[f])
  {
    if records != [] && f in Merged(records) {
      var n := |records| - 1;
      MergedField(records[..n], f);
      LastOfNext(records[..n], records[n], f, Merged(records)[f]);
      assert records[..n] + [records[n]] == records;
    }
  }

  lemma {:induction false} MergedHas(records: seq<Record>, f: string, m: nat)
    requires m < |records| && f in records[m]
    ensures f in Merged(records)
  {
    var n := |records| - 1;
    if m < n {
      MergedHas(records[..n], f, m);
    }
  }

  /** How many made-up entries stand in front: one for a revision on show that no source
      lists. */
  ghost function MadeUp(files: seq<Commit>, snap: seq<Commit>, cur: Sha): nat {
    if cur != "" && !Lists(files, cur) && !Lists(snap, cur) then 1 else 0
  }

  ghost function FromSources(files: seq<Commit>, snap: seq<Commit>): seq<Commit> {
    MergedGroups(GroupBy(Sources(files, snap)))
  }

  ghost function Front(files: seq<Commit>, snap: seq<Commit>, cur: Sha): (r: seq<Commit>)
    ensures |r| == MadeUp(files, snap, cur)
  {
    if MadeUp(files, snap, cur) == 1 then [Current(cur)] else []
  }

  lemma ListIs(files: seq<Commit>, snap: seq<Commit>, cur: Sha)
    ensures RevisionList(files, snap, cur) == Front(files, snap, cur) + FromSources(files, snap)
  {
    if cur != "" {
      IsKey(files, snap, cur);
    }
  }

  lemma IsKey(files: seq<Commit>, snap: seq<Commit>, sha: Sha)
    requires sha != ""
    ensures sha in Keys(GroupBy(Sources(files, snap))) <==> Lists(files, sha) || Lists(snap, sha)
  {
    GroupByPartitions(Sources(files, snap), sha);
    SourceRecords(files, snap, sha);
    RecordsExist(FileRecords(files), sha);
    RecordsExist(snap, sha);
    SameCommits(files, sha);
    KeyIffMembers(GroupBy(Sources(files, snap)), sha);
  }

  lemma KeyIffMembers(groups: seq<Group<Sha, Record>>, sha: Sha)
    requires DistinctKeys(groups) && forall i :: 0 <= i < |groups| ==> groups[i].members != []
    ensures sha in Keys(groups) <==> Members(groups, sha) != []
  {
    if sha in Keys(groups) {
      var j :| 0 <= j < |groups| && Keys(groups)[j] == sha;
      FindUnique(groups, j);
      assert Members(groups, sha) == groups[j].members;
    }
    if Members(groups, sha) != [] {
      assert Keys(groups)[Find(groups, sha)] == sha;
    }
  }

  lemma GroupAt(files: seq<Commit>, snap: seq<Commit>, j: nat)
    requires j < |FromSources(files, snap)|
    ensures var keys := Keys(GroupBy(Sources(files, snap)));
      var c := FromSources(files, snap)[j];
      && j < |keys| == |FromSources(files, snap)| && c.sha == keys[j] != ""
      && c.fields == Merged(ValuesOf(Sources(files, snap), c.sha))
  {
    var groups := GroupBy(Sources(files, snap));
    SourceKeysAreNamed(files, snap);
    GroupByPartitions(Sources(files, snap), groups[j].key);
    FindUnique(groups, j);
  }

  /** Behind the made-up entry stand the entries from the sources. */
  lemma Behind(front: seq<Commit>, merged: seq<Commit>, list: seq<Commit>, i: nat)
    requires list == front + merged && |front| <= i < |list|
    ensures i - |front| < |merged| && list[i] == merged[i - |front|]
  {
  }

  /** The list holds the commits of both sources and the revision on show, and no others. */
  lemma RevisionsAre(files: seq<Commit>, snap: seq<Commit>, cur: Sha, sha: Sha)
    ensures Lists(RevisionList(files, snap, cur), sha) <==>
      sha != "" && (sha == cur || Lists(files, sha) || Lists(snap, sha))
  {
    ListIs(files, snap, cur);
    ListsAppend(Front(files, snap, cur), FromSources(files, snap), sha);
    FrontLists(files, snap, cur, sha);
    FromSourcesAre(files, snap, sha);
  }

  lemma ListsAppend(a: seq<Commit>, b: seq<Commit>, sha: Sha)
    ensures Lists(a + b, sha) <==> Lists(a, sha) || Lists(b, sha)
  {
    var ab := a + b;
    if Lists(a, sha) {
      var m :| 0 <= m < |a| && a[m].sha == sha;
      assert ab[m].sha == sha;
    }
    if Lists(b, sha) {
      var m :| 0 <= m < |b| && b[m].sha == sha;
      assert ab[|a| + m].sha == sha;
    }
    if Lists(ab, sha) {
      var m :| 0 <= m < |ab| && ab[m].sha == sha;
      assert m < |a| || b[m - |a|].sha == sha;
    }
  }

  lemma FrontLists(files: seq<Commit>, snap: seq<Commit>, cur: Sha, sha: Sha)
    ensures Lists(Front(files, snap, cur), sha) <==> MadeUp(files, snap, cur) == 1 && sha == cur
  {
    if MadeUp(files, snap, cur) == 1 && sha == cur {
      assert Front(files, snap, cur)[0].sha == sha;
    }
  }

  lemma FromSourcesAre(files: seq<Commit>, snap: seq<Commit>, sha: Sha)
    ensures Lists(FromSources(files, snap), sha) <==> sha != "" && (Lists(files, sha) || Lists(snap, sha))
  {
    if sha != "" && (Lists(files, sha) || Lists(snap, sha)) {
      var j := KeyAt(files, snap, sha);
    }
    if Lists(FromSources(files, snap), sha) {
      var j :| 0 <= j < |FromSources(files, snap)| && FromSources(files, snap)[j].sha == sha;
      GroupAt(files, snap, j);
      IsKey(files, snap, sha);
    }
  }

  lemma KeyAt(files: seq<Commit>, snap: seq<Commit>, sha: Sha) returns (j: nat)
    requires sha != "" && (Lists(files, sha) || Lists(snap, sha))
    ensures j < |FromSources(files, snap)| && FromSources(files, snap)[j].sha == sha
  {
    var keys := Keys(GroupBy(Sources(files, snap)));
    IsKey(files, snap, sha);
    j :| 0 <= j < |keys| && keys[j] == sha;
    GroupAt(files, snap, j);
  }

  /** The entry of a listed commit shows its records of one source, merged. */
  lemma EntryIs(files: seq<Commit>, snap: seq<Commit>, cur: Sha, i: nat)
    requires i < |RevisionList(files, snap, cur)|
    requires var sha := RevisionList(files, snap, cur)[i].sha; Lists(files, sha) || Lists(snap, sha)
    ensures var c := RevisionList(files, snap, cur)[i];
      c.fields == Merged(if Lists(files, c.sha) then RecordsOf(FileRecords(files), c.sha) else RecordsOf(snap, c.sha))
  {
    var front, list := Front(files, snap, cur), RevisionList(files, snap, cur);
    ListIs(files, snap, cur);
    if i >= |front| {
      Behind(front, FromSources(files, snap), list, i);
      GroupAt(files, snap, i - |front|);
      SourceRecords(files, snap, list[i].sha);
    }
  }

  lemma {:induction false} FileRecordsAre(files: seq<Commit>, sha: Sha)
    ensures forall r, f :: r in RecordsOf(FileRecords(files), sha) && f in r ==> f in FILE_FIELDS
  {
    if files != [] {
      FileRecordsAre(files[1..], sha);
      assert FileRecords(files)[1..] == FileRecords(files[1..]);
    }
  }

  /** What an entry shows: for a commit of the file list only the five fields, each as the
      last record of the file list that has it gives it, whatever the snapshots list says;
      for any other commit, each field as the last record of the snapshots list gives it. */
  lemma FieldsAre(files: seq<Commit>, snap: seq<Commit>, cur: Sha, i: nat, f: string)
    requires i < |RevisionList(files, snap, cur)|
    ensures var c := RevisionList(files, snap, cur)[i];
      && (Lists(files, c.sha) || Lists(snap, c.sha) ==>
            var records := if Lists(files, c.sha) then RecordsOf(FileRecords(files), c.sha) else RecordsOf(snap, c.sha);
            && (f in c.fields <==> exists r :: r in records && f in r)
            && (f in c.fields ==> LastOf(records, f, c.fields[f])))
      && (Lists(files, c.sha) && f in c.fields ==> f in FILE_FIELDS)
  {
    var c := RevisionList(files, snap, cur)[i];
    if Lists(files, c.sha) || Lists(snap, c.sha) {
      EntryIs(files, snap, cur, i);
      var records := if Lists(files, c.sha) then RecordsOf(FileRecords(files), c.sha) else RecordsOf(snap, c.sha);
      MergedField(records, f);
      if r :| r in records && f in r {
        var m :| 0 <= m < |records| && records[m] == r;
        MergedHas(records, f, m);
      }
      FileRecordsAre(files, c.sha);
    }
  }

  // ----- order -----

  /** An item of a comes before every item of b. */
  ghost predicate KeyFirst(items: seq<(Sha, Record)>, a: Sha, b: Sha) {
    exists m :: 0 <= m < |items| && items[m].0 == a && forall q :: 0 <= q <= m ==> items[q].0 != b
  }

  lemma KeyFirstLater(items: seq<(Sha, Record)>, a: Sha, b: Sha)
    requires items != [] && items[0].0 != b && KeyFirst(items[1..], a, b)
    ensures KeyFirst(items, a, b)
  {
    var rest := items[1..];
    var m :| 0 <= m < |rest| && rest[m].0 == a && forall q :: 0 <= q <= m ==> rest[q].0 != b;
    assert items[m + 1] == rest[m];
    forall q | 0 <= q <= m + 1
      ensures items[q].0 != b
    {
      assert q == 0 || items[q] == rest[q - 1];
    }
  }

  lemma {:induction false} SeenInOrder(items: seq<(Sha, Record)>, seen: seq<Sha>, i: nat, j: nat)
    requires forall a, b :: 0 <= a < b < |seen| ==> seen[a] != seen[b]
    requires |seen| <= i < j < |FirstSeen(items, seen)|
    ensures KeyFirst(items, FirstSeen(items, seen)[i], FirstSeen(items, seen)[j])
    decreases |items|
  {
    var k := items[0].0;
    var seen' := if k in seen then seen else seen + [k];
    var all := FirstSeen(items, seen);
    SeenStays(items[1..], seen');
    assert all[j] != k by {
      assert forall a :: 0 <= a < |seen'| ==> all[a] == seen'[a];
      SeenDiffer(items[1..], seen');
      var a :| 0 <= a < |seen'| && seen'[a] == k;
      assert a <= i;
    }
    if i < |seen'| {
      assert items[0].0 == all[i];
    } else {
      SeenInOrder(items[1..], seen', i, j);
      KeyFirstLater(items, all[i], all[j]);
    }
  }

  lemma {:induction false} SeenStays(items: seq<(Sha, Record)>, seen: seq<Sha>)
    ensures |seen| <= |FirstSeen(items, seen)| && FirstSeen(items, seen)[..|seen|] == seen
    ensures forall a :: 0 <= a < |seen| ==> FirstSeen(items, seen)[a] == seen[a]
    decreases |items|
  {
    if items != [] {
      var seen' := if items[0].0 in seen then seen else seen + [items[0].0];
      SeenStays(items[1..], seen');
      assert FirstSeen(items, seen)[..|seen|] == FirstSeen(items, seen)[..|seen'|][..|seen|];
    }
  }

  lemma {:induction false} SeenDiffer(items: seq<(Sha, Record)>, seen: seq<Sha>)
    requires forall a, b :: 0 <= a < b < |seen| ==> seen[a] != seen[b]
    ensures forall a, b :: 0 <= a < b < |FirstSeen(items, seen)| ==>
              FirstSeen(items, seen)[a] != FirstSeen(items, seen)[b]
    decreases |items|
  {
    if items != [] {
      SeenDiffer(items[1..], if items[0].0 in seen then seen else seen + [items[0].0]);
    }
  }

  lemma KeyFirstRest(items: seq<(Sha, Record)>, a: Sha, b: Sha)
    requires KeyFirst(items, a, b)
    ensures items != [] && items[0].0 != b && a != b && (items[0].0 != a ==> KeyFirst(items[1..], a, b))
  {
    var m :| 0 <= m < |items| && items[m].0 == a && forall q :: 0 <= q <= m ==> items[q].0 != b;
    if m > 0 {
      var rest := items[1..];
      assert rest[m - 1] == items[m];
      forall q | 0 <= q <= m - 1
        ensures rest[q].0 != b
      {
        assert rest[q] == items[q + 1];
      }
    }
  }

  lemma {:induction false} ListedFirst(commits: seq<Commit>, skip: set<Sha>, a: Sha, b: Sha)
    requires b != "" && b !in skip && KeyFirst(Listed(commits, skip), a, b)
    ensures ComesFirst(commits, a, b)
  {
    KeyFirstRest(Listed(commits, skip), a, b);
    var c := commits[0];
    if c.sha == a {
      assert commits[0].sha == a;
    } else {
      assert c.sha == "" || c.sha in skip || Listed(commits, skip)[1..] == Listed(commits[1..], skip);
      ListedFirst(commits[1..], skip, a, b);
      ComesFirstLater(commits, a, b);
    }
  }

  lemma ComesFirstLater(commits: seq<Commit>, a: Sha, b: Sha)
    requires commits != [] && commits[0].sha != b && ComesFirst(commits[1..], a, b)
    ensures ComesFirst(commits, a, b)
  {
    var rest := commits[1..];
    var m :| 0 <= m < |rest| && rest[m].sha == a && forall q :: 0 <= q <= m ==> rest[q].sha != b;
    assert commits[m + 1] == rest[m];
    forall q | 0 <= q <= m + 1
      ensures commits[q].sha != b
    {
      assert q == 0 || commits[q] == rest[q - 1];
    }
  }

  lemma {:induction false} ListedItem(commits: seq<Commit>, skip: set<Sha>, m: nat)
    requires m < |Listed(commits, skip)|
    ensures var sha := Listed(commits, skip)[m].0; sha != "" && sha !in skip && Lists(commits, sha)
  {
    var c := commits[0];
    if c.sha == "" || c.sha in skip {
      ListedItem(commits[1..], skip, m);
      ListsLater(commits, Listed(commits, skip)[m].0);
    } else if m > 0 {
      ListedItem(commits[1..], skip, m - 1);
      ListsLater(commits, Listed(commits, skip)[m].0);
    } else {
      assert commits[0].sha == Listed(commits, skip)[0].0;
    }
  }

  lemma ListsLater(commits: seq<Commit>, sha: Sha)
    requires commits != []
    ensures Lists(commits[1..], sha) ==> Lists(commits, sha)
  {
    if Lists(commits[1..], sha) {
      var m :| 0 <= m < |commits[1..]| && commits[1..][m].sha == sha;
      assert commits[m + 1].sha == sha;
    }
  }

  /** First the items of the snapshots list, then those of the file list. */
  lemma SplitFirst(files: seq<Commit>, snap: seq<Commit>, a: Sha, b: Sha)
    requires a != "" && b != "" && KeyFirst(Sources(files, snap), a, b)
    requires Lists(files, b) || Lists(snap, b)
    ensures Lists(files, a) ==> Lists(files, b) && ComesFirst(FileRecords(files), a, b)
    ensures !Lists(files, a) && !Lists(files, b) ==> ComesFirst(snap, a, b)
  {
    var l1, l2 := Listed(snap, ShasOf(files)), Listed(FileRecords(files), {});
    assert b in ShasOf(files) <==> Lists(files, b);
    if KeyFirst(l1, a, b) {
      OnlyInSnapshots(files, snap, a, b);
      if !Lists(files, b) {
        ListedFirst(snap, ShasOf(files), a, b);
      }
    } else {
      FirstInSecond(l1, l2, a, b);
      KeyIsListed(FileRecords(files), {}, a, b);
      SameCommits(files, a);
      NotBefore(files, snap, b);
      ListedFirst(FileRecords(files), {}, a, b);
    }
  }

  lemma KeyIsListed(commits: seq<Commit>, skip: set<Sha>, a: Sha, b: Sha)
    requires KeyFirst(Listed(commits, skip), a, b)
    ensures a != "" && a !in skip && Lists(commits, a)
  {
    var items := Listed(commits, skip);
    var m :| 0 <= m < |items| && items[m].0 == a;
    ListedItem(commits, skip, m);
  }

  lemma OnlyInSnapshots(files: seq<Commit>, snap: seq<Commit>, a: Sha, b: Sha)
    requires KeyFirst(Listed(snap, ShasOf(files)), a, b)
    ensures !Lists(files, a)
  {
    KeyIsListed(snap, ShasOf(files), a, b);
    assert a in ShasOf(files) <==> a != "" && Lists(files, a);
  }

  lemma FirstInSecond(l1: seq<(Sha, Record)>, l2: seq<(Sha, Record)>, a: Sha, b: Sha)
    requires KeyFirst(l1 + l2, a, b) && !KeyFirst(l1, a, b)
    ensures KeyFirst(l2, a, b) && forall q :: 0 <= q < |l1| ==> l1[q].0 != b
  {
    var items := l1 + l2;
    var m :| 0 <= m < |items| && items[m].0 == a && forall q :: 0 <= q <= m ==> items[q].0 != b;
    assert forall q :: 0 <= q < |l1| ==> l1[q] == items[q];
    assert m >= |l1|;
    assert l2[m - |l1|].0 == a;
    forall q | 0 <= q <= m - |l1|
      ensures l2[q].0 != b
    {
      assert l2[q] == items[|l1| + q];
    }
  }

  lemma SameCommits(files: seq<Commit>, sha: Sha)
    ensures Lists(FileRecords(files), sha) <==> Lists(files, sha)
  {
    if Lists(files, sha) {
      var m :| 0 <= m < |files| && files[m].sha == sha;
      assert FileRecords(files)[m].sha == sha;
    }
  }

  /** A listed commit without an item of the snapshots list is one of the file list. */
  lemma NotBefore(files: seq<Commit>, snap: seq<Commit>, b: Sha)
    requires forall q :: 0 <= q < |Listed(snap, ShasOf(files))| ==> Listed(snap, ShasOf(files))[q].0 != b
    requires b != "" && (Lists(files, b) || Lists(snap, b))
    ensures Lists(files, b)
  {
    ListedValues(snap, ShasOf(files), b);
    RecordsExist(snap, b);
    NoValues(Listed(snap, ShasOf(files)), b);
    assert b in ShasOf(files) <==> Lists(files, b);
  }

  lemma {:induction false} NoValues(items: seq<(Sha, Record)>, b: Sha)
    requires forall q :: 0 <= q < |items| ==> items[q].0 != b
    ensures ValuesOf(items, b) == []
  {
    if items != [] {
      NoValues(items[1..], b);
    }
  }

  /** a stands before b: commits that only the snapshots list has come first, then those of
      the file list, each in the order in which they first appear there. */
  ghost predicate InOrder(files: seq<Commit>, snap: seq<Commit>, a: Sha, b: Sha) {
    && (Lists(files, a) ==> Lists(files, b) && ComesFirst(FileRecords(files), a, b))
    && (!Lists(files, a) && !Lists(files, b) ==> ComesFirst(snap, a, b))
  }

  lemma KeysInOrder(files: seq<Commit>, snap: seq<Commit>, i: nat, j: nat)
    requires i < j < |Keys(GroupBy(Sources(files, snap)))|
    ensures InOrder(files, snap, Keys(GroupBy(Sources(files, snap)))[i], Keys(GroupBy(Sources(files, snap)))[j])
  {
    var keys := Keys(GroupBy(Sources(files, snap)));
    SourceKeysAreNamed(files, snap);
    GroupByPartitions(Sources(files, snap), "");
    SeenInOrder(Sources(files, snap), [], i, j);
    assert keys[j] in keys;
    IsKey(files, snap, keys[j]);
    SplitFirst(files, snap, keys[i], keys[j]);
  }

  lemma SourcesInOrder(files: seq<Commit>, snap: seq<Commit>, i: nat, j: nat)
    requires i < j < |FromSources(files, snap)|
    ensures InOrder(files, snap, FromSources(files, snap)[i].sha, FromSources(files, snap)[j].sha)
  {
    GroupAt(files, snap, i);
    GroupAt(files, snap, j);
    KeysInOrder(files, snap, i, j);
  }

  lemma InOrderBehind(files: seq<Commit>, snap: seq<Commit>, front: seq<Commit>, merged: seq<Commit>,
                      list: seq<Commit>, i: nat, j: nat)
    requires list == front + merged && |front| <= i < j < |list|
    requires forall a, b :: 0 <= a < b < |merged| ==> InOrder(files, snap, merged[a].sha, merged[b].sha)
    ensures InOrder(files, snap, list[i].sha, list[j].sha)
  {
    Behind(front, merged, list, i);
    Behind(front, merged, list, j);
  }

  /** The order of the list: a revision on show that no source lists stands in front, and
      everything behind it is in order. */
  lemma RevisionsInOrder(files: seq<Commit>, snap: seq<Commit>, cur: Sha, i: nat, j: nat)
    requires MadeUp(files, snap, cur) <= i < j < |RevisionList(files, snap, cur)|
    ensures MadeUp(files, snap, cur) == 1 ==> RevisionList(files, snap, cur)[0] == Current(cur)
    ensures InOrder(files, snap, RevisionList(files, snap, cur)[i].sha, RevisionList(files, snap, cur)[j].sha)
  {
    var merged := FromSources(files, snap);
    ListIs(files, snap, cur);
    forall a, b | 0 <= a < b < |merged|
      ensures InOrder(files, snap, merged[a].sha, merged[b].sha)
    {
      SourcesInOrder(files, snap, a, b);
    }
    InOrderBehind(files, snap, Front(files, snap, cur), merged, RevisionList(files, snap, cur), i, j);
  }
}
