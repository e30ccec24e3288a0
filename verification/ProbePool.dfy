/** The revision picker of the shared header: the merged revision list, and the bounded
    pool of asynchronous probes that finds which revisions have a report. */
module ProbePool {
  import opened Grouping
  import Sorting

  type Sha = string

  // ----- the revision list -----

  /** The fields of a record besides its commit id; absent and null ones are left out. */
  type Record = map<string, string>

  datatype Commit = Commit(sha: Sha, fields: Record)

  /** The snapshot commits that the file list does not cover, then the file list;
      records without a commit id are dropped. */
  function Listed(snap: seq<Commit>, fileShas: set<Sha>): seq<(Sha, Record)> {
    if snap == [] then []
    else if snap[0].sha != "" && snap[0].sha !in fileShas then
      [(snap[0].sha, snap[0].fields)] + Listed(snap[1..], fileShas)
    else Listed(snap[1..], fileShas)
  }

  function Merged(records: seq<Record>): Record {
    if records == [] then map[] else Merged(records[..|records| - 1]) + records[|records| - 1]
  }

  function MergedGroups(groups: seq<Group<Sha, Record>>): (r: seq<Commit>)
    ensures |r| == |groups|
    ensures forall i :: 0 <= i < |r| ==> r[i] == Commit(groups[i].key, Merged(groups[i].members))
  {
    if groups == [] then []
    else [Commit(groups[0].key, Merged(groups[0].members))] + MergedGroups(groups[1..])
  }

  function ShasOf(commits: seq<Commit>): set<Sha> {
    set i | 0 <= i < |commits| && commits[i].sha != "" :: commits[i].sha
  }

  const FILE_FIELDS := {"short", "message", "author", "date", "dep_only"}

  /** The file list's commits cut down to the five fields that are copied. */
  function FileRecords(files: seq<Commit>): (r: seq<Commit>)
    ensures |r| == |files|
    ensures forall i :: 0 <= i < |r| ==> r[i].sha == files[i].sha
  {
    if files == [] then []
    else
      [Commit(files[0].sha, map k | k in files[0].fields && k in FILE_FIELDS :: files[0].fields[k])]
      + FileRecords(files[1..])
  }

  function Sources(files: seq<Commit>, snap: seq<Commit>): seq<(Sha, Record)> {
    Listed(snap, ShasOf(files)) + Listed(FileRecords(files), {})
  }

  lemma MergedSnoc(records: seq<Record>, m: Record)
    ensures Merged(records + [m]) == Merged(records) + m
  {
    assert (records + [m])[..|records|] == records;
  }

  lemma MergedGroupsUpdate(groups: seq<Group<Sha, Record>>, i: nat, g: Group<Sha, Record>)
    requires i < |groups|
    ensures MergedGroups(groups[i := g]) == MergedGroups(groups)[i := Commit(g.key, Merged(g.members))]
  {
  }

  lemma MergedGroupsSnoc(groups: seq<Group<Sha, Record>>, g: Group<Sha, Record>)
    ensures MergedGroups(groups + [g]) == MergedGroups(groups) + [Commit(g.key, Merged(g.members))]
  {
  }

  lemma {:induction false} MergedGroupsAdd(groups: seq<Group<Sha, Record>>, c: Commit, i: nat)
    requires i == Find(groups, c.sha)
    ensures MergedGroups(Add(groups, c.sha, c.fields)) ==
      if i < |groups| then MergedGroups(groups)[i := Commit(c.sha, MergedGroups(groups)[i].fields + c.fields)]
      else MergedGroups(groups) + [c]
  {
    if i < |groups| {
      MergedSnoc(groups[i].members, c.fields);
      MergedGroupsUpdate(groups, i, Group(c.sha, groups[i].members + [c.fields]));
    } else {
      assert Merged([c.fields]) == c.fields by {
        MergedSnoc([], c.fields);
        assert [] + [c.fields] == [c.fields];
      }
      MergedGroupsSnoc(groups, Group(c.sha, [c.fields]));
    }
  }

  function CommitSha(c: Commit): Sha {
    c.sha
  }

  lemma FoundInMerged(groups: seq<Group<Sha, Record>>, sha: Sha, j: nat)
    requires var list := MergedGroups(groups);
      && j <= |list| && (j < |list| ==> list[j].sha == sha)
      && forall m :: 0 <= m < j ==> list[m].sha != sha
    ensures j == Find(groups, sha) && (j < |groups| <==> sha in Keys(groups))
  {
    var list := MergedGroups(groups);
    forall m | 0 <= m < |groups|
      ensures groups[m].key == list[m].sha == Keys(groups)[m]
    {
    }
    FindIs(groups, sha, j);
  }

  /** Puts one record into the list: merged over the commit's earlier record, or
      appended. */
  method Put(list: seq<Commit>, c: Commit, ghost groups: seq<Group<Sha, Record>>) returns (list': seq<Commit>)
    requires list == MergedGroups(groups)
    ensures list' == MergedGroups(Add(groups, c.sha, c.fields))
  {
    var j := IndexOfKey(list, CommitSha, c.sha);
    FoundInMerged(groups, c.sha, j);
    MergedGroupsAdd(groups, c, j);
    list' := if j < |list| then list[j := Commit(c.sha, list[j].fields + c.fields)] else list + [c];
  }

  method PutAll(list: seq<Commit>, commits: seq<Commit>, skip: set<Sha>, ghost groups: seq<Group<Sha, Record>>)
    returns (list': seq<Commit>)
    requires list == MergedGroups(groups)
    ensures list' == MergedGroups(AddAll(groups, Listed(commits, skip)))
  {
    list' := list;
    ghost var groups' := groups;
    var i := 0;
    while i < |commits|
      invariant 0 <= i <= |commits|
      invariant list' == MergedGroups(groups')
      invariant AddAll(groups', Listed(commits[i..], skip)) == AddAll(groups, Listed(commits, skip))
    {
      var c := commits[i];
      if c.sha != "" && c.sha !in skip {
        list' := Put(list', c, groups');
        groups' := Add(groups', c.sha, c.fields);
      }
      i := i + 1;
    }
  }

  /** The entry made up for a current revision that no source lists. */
  function Current(cur: Sha): Commit {
    Commit(cur, map["short" := if |cur| < 7 then cur else cur[..7], "message" := ""])
  }

  /** One entry per commit in order of first appearance, its records merged in order;
      the current revision goes in front if it is missing. */
  function RevisionList(files: seq<Commit>, snap: seq<Commit>, cur: Sha): seq<Commit> {
    var groups := GroupBy(Sources(files, snap));
    if cur != "" && cur !in Keys(groups) then [Current(cur)] + MergedGroups(groups)
    else MergedGroups(groups)
  }

  method CollectRevisions(files: seq<Commit>, snap: seq<Commit>) returns (list: seq<Commit>)
    ensures list == MergedGroups(GroupBy(Sources(files, snap)))
  {
    list := PutAll([], snap, ShasOf(files), []);
    list := PutAll(list, FileRecords(files), {}, AddAll([], Listed(snap, ShasOf(files))));
    AddAllJoin([], Listed(snap, ShasOf(files)), Listed(FileRecords(files), {}));
  }

  method LoadRevisionList(files: seq<Commit>, snap: seq<Commit>, cur: Sha) returns (list: seq<Commit>)
    ensures list == RevisionList(files, snap, cur)
  {
    list := CollectRevisions(files, snap);
    if cur != "" {
      var j := IndexOfKey(list, CommitSha, cur);
      FoundInMerged(GroupBy(Sources(files, snap)), cur, j);
      if j == |list| {
        list := [Current(cur)] + list;
      }
    }
  }

  lemma {:induction false} ListedKeys(commits: seq<Commit>, skip: set<Sha>)
    ensures forall i :: 0 <= i < |Listed(commits, skip)| ==> Listed(commits, skip)[i].0 != ""
  {
    if commits != [] {
      ListedKeys(commits[1..], skip);
    }
  }

  ghost predicate DistinctShas(list: seq<Commit>) {
    forall i, j :: 0 <= i < j < |list| ==> list[i].sha != list[j].sha
  }

  ghost predicate NamedOnce(list: seq<Commit>) {
    DistinctShas(list) && forall i :: 0 <= i < |list| ==> list[i].sha != ""
  }

  lemma SourceKeysAreNamed(files: seq<Commit>, snap: seq<Commit>)
    ensures var keys := Keys(GroupBy(Sources(files, snap)));
      forall i :: 0 <= i < |keys| ==> keys[i] != ""
  {
    var items := Sources(files, snap);
    GroupByPartitions(items, "");
    ListedKeys(snap, ShasOf(files));
    ListedKeys(FileRecords(files), {});
    assert forall i :: 0 <= i < |items| ==> items[i].0 != "";
    KeysComeFromItems([], items);
    forall i | 0 <= i < |Keys(GroupBy(items))|
      ensures Keys(GroupBy(items))[i] != ""
    {
      assert Keys(GroupBy(items))[i] in Keys(GroupBy(items));
    }
  }

  lemma MergedAreNamedOnce(files: seq<Commit>, snap: seq<Commit>)
    ensures NamedOnce(MergedGroups(GroupBy(Sources(files, snap))))
  {
    SourceKeysAreNamed(files, snap);
    GroupByPartitions(Sources(files, snap), "");
  }

  /** The pool's input holds every commit once, none without an id, and the current
      revision if there is one. */
  lemma RevisionsAreDistinct(files: seq<Commit>, snap: seq<Commit>, cur: Sha)
    ensures var list := RevisionList(files, snap, cur);
      && DistinctShas(list)
      && (forall i :: 0 <= i < |list| ==> list[i].sha != "")
      && (cur != "" ==> exists i :: 0 <= i < |list| && list[i].sha == cur)
  {
    var groups := GroupBy(Sources(files, snap));
    var merged := MergedGroups(groups);
    MergedAreNamedOnce(files, snap);
    assert forall i :: 0 <= i < |groups| ==> merged[i].sha == Keys(groups)[i];
    if cur != "" && cur !in Keys(groups) {
      CurrentInFront(merged, cur);
    } else if cur != "" {
      var i :| 0 <= i < |groups| && Keys(groups)[i] == cur;
      assert merged[i].sha == cur;
    }
  }

  lemma CurrentInFront(list: seq<Commit>, cur: Sha)
    requires NamedOnce(list) && cur != "" && forall i :: 0 <= i < |list| ==> list[i].sha != cur
    ensures NamedOnce([Current(cur)] + list) && ([Current(cur)] + list)[0].sha == cur
  {
  }

  lemma {:induction false} KeysComeFromItems(seen: seq<Sha>, items: seq<(Sha, Record)>)
    ensures forall k :: k in FirstSeen(items, seen) ==> k in seen || exists i :: 0 <= i < |items| && items[i].0 == k
    decreases |items|
  {
    if items != [] {
      var seen' := if items[0].0 in seen then seen else seen + [items[0].0];
      KeysComeFromItems(seen', items[1..]);
      forall k | k in FirstSeen(items, seen)
        ensures k in seen || exists i :: 0 <= i < |items| && items[i].0 == k
      {
        if k !in seen' {
          var i :| 0 <= i < |items[1..]| && items[1..][i].0 == k;
          assert items[i + 1].0 == k;
        } else if k !in seen {
          assert items[0].0 == k;
        }
      }
    }
  }

  // ----- the pool -----

  const CAP: nat := 8

  /** The revision list, the revision on show, and the revisions to probe. */
  datatype Job = Job(list: seq<Sha>, current: Sha)

  function ToCheck(list: seq<Sha>, current: Sha): seq<Sha> {
    if list == [] then []
    else if list[0] != "" && list[0] != current then [list[0]] + ToCheck(list[1..], current)
    else ToCheck(list[1..], current)
  }

  /** idx counts the probes launched, done those answered; flight holds the numbers of
      the probes in flight; fills logs every run of the final action. */
  datatype Pool = Pool(idx: nat, done: nat, flight: set<nat>, avail: map<Sha, bool>, fills: seq<seq<Sha>>)

  /** The final action: the revisions known to have a report, in list order. */
  function Available(list: seq<Sha>, current: Sha, avail: map<Sha, bool>): seq<Sha> {
    if list == [] then []
    else if list[0] == current || (list[0] in avail && avail[list[0]]) then
      [list[0]] + Available(list[1..], current, avail)
    else Available(list[1..], current, avail)
  }

  function Fill(job: Job, p: Pool): Pool {
    p.(fills := p.fills + [Available(job.list, job.current, p.avail)])
  }

  function Launch(p: Pool, total: nat): Pool {
    if p.idx >= total then p else p.(idx := p.idx + 1, flight := p.flight + {p.idx})
  }

  function LaunchMany(p: Pool, total: nat, n: nat): Pool
    decreases n
  {
    if n == 0 then p else LaunchMany(Launch(p, total), total, n - 1)
  }

  function Start(job: Job): Pool {
    var total := |ToCheck(job.list, job.current)|;
    var p := Pool(0, 0, {}, if job.current != "" then map[job.current := true] else map[], []);
    if total == 0 then Fill(job, p) else LaunchMany(p, total, if total < CAP then total else CAP)
  }

  function Booked(p: Pool, sha: Sha, i: nat, ok: bool): Pool {
    p.(avail := p.avail[sha := ok], flight := p.flight - {i}, done := p.done + 1)
  }

  /** Probe i answers. */
  function Complete(job: Job, p: Pool, i: nat, ok: bool): Pool
    requires i < |ToCheck(job.list, job.current)|
  {
    var toCheck := ToCheck(job.list, job.current);
    var p1 := Booked(p, toCheck[i], i, ok);
    if p1.done == |toCheck| then Fill(job, p1) else Launch(p1, |toCheck|)
  }

  /** Probes are answered in the order of the schedule, each while in flight. */
  ghost predicate Possible(job: Job, p: Pool, schedule: seq<nat>, reports: Sha -> bool)
    decreases |schedule|
  {
    schedule == [] ||
    (&& schedule[0] in p.flight && schedule[0] < |ToCheck(job.list, job.current)|
     && Possible(job, Complete(job, p, schedule[0], reports(ToCheck(job.list, job.current)[schedule[0]])),
         schedule[1..], reports))
  }

  ghost function Run(job: Job, p: Pool, schedule: seq<nat>, reports: Sha -> bool): Pool
    requires Possible(job, p, schedule, reports)
    decreases |schedule|
  {
    if schedule == [] then p
    else Run(job, Complete(job, p, schedule[0], reports(ToCheck(job.list, job.current)[schedule[0]])), schedule[1..],
        reports)
  }

  /** The list every schedule must end in. */
  function Expected(list: seq<Sha>, current: Sha, reports: Sha -> bool): seq<Sha> {
    if list == [] then []
    else if list[0] == current || reports(list[0]) then [list[0]] + Expected(list[1..], current, reports)
    else Expected(list[1..], current, reports)
  }

  ghost predicate Sound(job: Job, p: Pool, reports: Sha -> bool) {
    var toCheck := ToCheck(job.list, job.current);
    && p.idx <= |toCheck|
    && (forall i :: i in p.flight ==> i < p.idx)
    && p.idx == p.done + |p.flight|
    && |p.flight| <= CAP
    && (p.idx < |toCheck| ==> |p.flight| == CAP)
    && (forall i :: 0 <= i < p.idx && i !in p.flight ==> toCheck[i] in p.avail)
    && (forall s :: s in p.avail ==> p.avail[s] == (s == job.current || reports(s)))
    && (p.done < |toCheck| ==> p.fills == [])
    && (p.done == |toCheck| ==> p.fills == [Expected(job.list, job.current, reports)])
  }

  lemma {:induction false} ToCheckMembers(list: seq<Sha>, current: Sha)
    ensures forall s :: s in ToCheck(list, current) <==> s in list && s != "" && s != current
  {
    if list != [] {
      ToCheckMembers(list[1..], current);
    }
  }

  /** That list: the revision on show and those that a probe has found a report for. */
  lemma {:induction false} ExpectedIs(list: seq<Sha>, current: Sha, reports: Sha -> bool)
    ensures Expected(list, current, reports) == Sorting.Filter(list, (s: Sha) => s == current || reports(s))
  {
    if list != [] {
      ExpectedIs(list[1..], current, reports);
    }
  }

  lemma {:induction false} AvailableIsExpected(list: seq<Sha>, current: Sha, avail: map<Sha, bool>,
                                               reports: Sha -> bool)
    requires forall s :: s in list && s != current ==> s in avail && avail[s] == reports(s)
    ensures Available(list, current, avail) == Expected(list, current, reports)
  {
    if list != [] {
      assert list[0] in list;
      assert forall s :: s in list[1..] ==> s in list;
      AvailableIsExpected(list[1..], current, avail, reports);
    }
  }

  /** A full set of answers fills the list correctly. */
  lemma FillIsExpected(job: Job, p: Pool, reports: Sha -> bool)
    requires "" !in job.list
    requires forall i :: 0 <= i < |ToCheck(job.list, job.current)| ==> ToCheck(job.list, job.current)[i] in p.avail
    requires forall s :: s in p.avail ==> p.avail[s] == (s == job.current || reports(s))
    ensures Fill(job, p).fills == p.fills + [Expected(job.list, job.current, reports)]
  {
    var toCheck := ToCheck(job.list, job.current);
    ToCheckMembers(job.list, job.current);
    forall s | s in job.list && s != job.current
      ensures s in p.avail && p.avail[s] == reports(s)
    {
      assert s in toCheck;
      var i :| 0 <= i < |toCheck| && toCheck[i] == s;
    }
    AvailableIsExpected(job.list, job.current, p.avail, reports);
  }

  lemma {:induction false} Launched(p: Pool, total: nat, n: nat)
    requires p.idx + n <= total && (forall i :: i in p.flight ==> i < p.idx) && |p.flight| == p.idx
    ensures var r := LaunchMany(p, total, n);
      && r == p.(idx := p.idx + n, flight := r.flight)
      && |r.flight| == p.idx + n && (forall i :: i in r.flight ==> i < p.idx + n)
      && (forall i :: p.idx <= i < p.idx + n ==> i in r.flight) && p.flight <= r.flight
    decreases n
  {
    if n > 0 {
      Launched(Launch(p, total), total, n - 1);
    }
  }

  lemma StartIsSound(job: Job, reports: Sha -> bool)
    requires "" !in job.list
    ensures Sound(job, Start(job), reports) && Start(job).done == 0
    ensures forall i :: 0 <= i < Start(job).idx ==> i in Start(job).flight
  {
    var total := |ToCheck(job.list, job.current)|;
    var p := Pool(0, 0, {}, if job.current != "" then map[job.current := true] else map[], []);
    if total == 0 {
      FillIsExpected(job, p, reports);
    } else {
      Launched(p, total, if total < CAP then total else CAP);
    }
  }

  lemma AnswerIsBooked(job: Job, p: Pool, i: nat, reports: Sha -> bool)
    requires Sound(job, p, reports) && i in p.flight
    ensures i < |ToCheck(job.list, job.current)|
    ensures var toCheck := ToCheck(job.list, job.current);
      var p1 := Booked(p, toCheck[i], i, reports(toCheck[i]));
      && |p1.flight| == |p.flight| - 1
      && (forall j :: 0 <= j < p1.idx && j !in p1.flight ==> toCheck[j] in p1.avail)
      && (forall s :: s in p1.avail ==> p1.avail[s] == (s == job.current || reports(s)))
  {
    ToCheckMembers(job.list, job.current);
    assert ToCheck(job.list, job.current)[i] in ToCheck(job.list, job.current);
    assert p.flight == {i} + (p.flight - {i});
  }

  lemma CompleteIsSound(job: Job, p: Pool, i: nat, reports: Sha -> bool)
    requires "" !in job.list && Sound(job, p, reports) && i in p.flight
    ensures i < |ToCheck(job.list, job.current)|
    ensures Sound(job, Complete(job, p, i, reports(ToCheck(job.list, job.current)[i])), reports)
  {
    var toCheck := ToCheck(job.list, job.current);
    AnswerIsBooked(job, p, i, reports);
    var p1 := Booked(p, toCheck[i], i, reports(toCheck[i]));
    if p1.done == |toCheck| {
      assert p1.flight == {};
      FillIsExpected(job, p1, reports);
    } else {
      assert p1.idx !in p1.flight;
    }
  }

  lemma {:induction false} RunIsSound(job: Job, p: Pool, schedule: seq<nat>, reports: Sha -> bool)
    requires "" !in job.list && Sound(job, p, reports) && Possible(job, p, schedule, reports)
    ensures Sound(job, Run(job, p, schedule, reports), reports)
    ensures Run(job, p, schedule, reports).done == p.done + |schedule|
    decreases |schedule|
  {
    if schedule != [] {
      CompleteIsSound(job, p, schedule[0], reports);
      RunIsSound(job, Complete(job, p, schedule[0], reports(ToCheck(job.list, job.current)[schedule[0]])),
          schedule[1..], reports);
    }
  }

  lemma SoundPoolIsExact(job: Job, p: Pool, reports: Sha -> bool)
    requires Sound(job, p, reports)
    ensures var total := |ToCheck(job.list, job.current)|;
      && p.done <= total && (p.flight == {} <==> p.done == total)
      && p.fills == if p.done == total then [Expected(job.list, job.current, reports)] else []
  {
    if p.flight == {} {
      assert |p.flight| == 0;
    } else {
      var i :| i in p.flight;
      assert p.flight == {i} + (p.flight - {i});
    }
  }

  /** Every schedule, at every moment: launched equals answered plus in flight, at most
      eight are in flight, the pool never stalls with work left, and the final action
      runs exactly once, when the last answer is in, with a list that does not depend
      on the order of the answers. */
  lemma {:induction false} PoolIsExact(job: Job, schedule: seq<nat>, reports: Sha -> bool)
    requires "" !in job.list && Possible(job, Start(job), schedule, reports)
    ensures var p := Run(job, Start(job), schedule, reports);
      var total := |ToCheck(job.list, job.current)|;
      && p.idx == p.done + |p.flight| && |p.flight| <= CAP && p.done == |schedule| <= total
      && (p.flight == {} <==> p.done == total)
      && p.fills == if p.done == total then [Expected(job.list, job.current, reports)] else []
  {
    StartIsSound(job, reports);
    RunIsSound(job, Start(job), schedule, reports);
    SoundPoolIsExact(job, Run(job, Start(job), schedule, reports), reports);
  }

  /** Every revision but the current one is probed, and no probe is answered twice. */
  lemma {:induction false} NoProbeTwice(job: Job, p: Pool, schedule: seq<nat>, reports: Sha -> bool, i: nat)
    requires "" !in job.list && Sound(job, p, reports) && Possible(job, p, schedule, reports)
    requires i < p.idx && i !in p.flight
    ensures i !in schedule
    decreases |schedule|
  {
    if schedule != [] {
      CompleteIsSound(job, p, schedule[0], reports);
      var p' := Complete(job, p, schedule[0], reports(ToCheck(job.list, job.current)[schedule[0]]));
      NoProbeTwice(job, p', schedule[1..], reports, i);
    }
  }

  lemma {:induction false} AnswersAreDistinct(job: Job, p: Pool, schedule: seq<nat>, reports: Sha -> bool)
    requires "" !in job.list && Sound(job, p, reports) && Possible(job, p, schedule, reports)
    ensures forall a, b :: 0 <= a < b < |schedule| ==> schedule[a] != schedule[b]
    decreases |schedule|
  {
    if schedule != [] {
      CompleteIsSound(job, p, schedule[0], reports);
      var p' := Complete(job, p, schedule[0], reports(ToCheck(job.list, job.current)[schedule[0]]));
      AnswersAreDistinct(job, p', schedule[1..], reports);
      NoProbeTwice(job, p', schedule[1..], reports, schedule[0]);
      forall a, b | 0 <= a < b < |schedule|
        ensures schedule[a] != schedule[b]
      {
        assert schedule[b] == schedule[1..][b - 1] && schedule[b] in schedule[1..];
        if a > 0 {
          assert schedule[a] == schedule[1..][a - 1];
        }
      }
    }
  }

  lemma OverAfterAnswer(job: Job, p: Pool, answered: nat, ok: bool, i: nat)
    requires answered < |ToCheck(job.list, job.current)|
    requires var p' := Complete(job, p, answered, ok); i < p'.idx && i !in p'.flight
    ensures (i < p.idx && i !in p.flight) || i == answered
  {
  }

  /** A probe that is over was over at the start or is answered in the schedule. */
  lemma {:induction false} OverMeansAnswered(job: Job, p: Pool, schedule: seq<nat>, reports: Sha -> bool, i: nat)
    requires Possible(job, p, schedule, reports)
    requires i < Run(job, p, schedule, reports).idx && i !in Run(job, p, schedule, reports).flight
    ensures (i < p.idx && i !in p.flight) || i in schedule
    decreases |schedule|
  {
    if schedule != [] {
      var ok := reports(ToCheck(job.list, job.current)[schedule[0]]);
      OverMeansAnswered(job, Complete(job, p, schedule[0], ok), schedule[1..], reports, i);
      if i !in schedule[1..] {
        OverAfterAnswer(job, p, schedule[0], ok, i);
      }
    }
  }

  // ----- which revisions are probed -----

  function ShaList(list: seq<Commit>): (r: seq<Sha>)
    ensures |r| == |list| && forall i :: 0 <= i < |r| ==> r[i] == list[i].sha
  {
    if list == [] then [] else [list[0].sha] + ShaList(list[1..])
  }

  /** The revisions whose probes a schedule answers, in its order. */
  function Probed(toCheck: seq<Sha>, schedule: seq<nat>): (r: seq<Sha>)
    ensures |r| == |schedule|
    ensures forall a :: 0 <= a < |r| && schedule[a] < |toCheck| ==> r[a] == toCheck[schedule[a]]
  {
    if schedule == [] then []
    else [if schedule[0] < |toCheck| then toCheck[schedule[0]] else ""] + Probed(toCheck, schedule[1..])
  }

  ghost predicate AllDifferent(s: seq<Sha>) {
    forall i, j :: 0 <= i < j < |s| ==> s[i] != s[j]
  }

  lemma {:induction false} ToCheckDiffers(list: seq<Sha>, current: Sha)
    requires AllDifferent(list)
    ensures AllDifferent(ToCheck(list, current))
  {
    if list != [] {
      ToCheckDiffers(list[1..], current);
      ToCheckMembers(list[1..], current);
      var rest := ToCheck(list[1..], current);
      forall j | 0 <= j < |rest|
        ensures rest[j] != list[0]
      {
        assert rest[j] in rest;
        var m :| 0 <= m < |list[1..]| && list[1..][m] == rest[j];
        assert list[m + 1] == rest[j];
      }
    }
  }

  lemma {:induction false} CountOfDifferent(s: seq<Sha>, x: Sha)
    requires AllDifferent(s)
    ensures multiset(s)[x] == if x in s then 1 else 0
  {
    if s != [] {
      CountOfDifferent(s[1..], x);
      assert s == [s[0]] + s[1..];
    }
  }

  lemma {:induction false} PossibleInRange(job: Job, p: Pool, schedule: seq<nat>, reports: Sha -> bool, a: nat)
    requires Possible(job, p, schedule, reports) && a < |schedule|
    ensures schedule[a] < |ToCheck(job.list, job.current)|
    decreases |schedule|
  {
    if a > 0 {
      PossibleInRange(job, Complete(job, p, schedule[0], reports(ToCheck(job.list, job.current)[schedule[0]])),
          schedule[1..], reports, a - 1);
    }
  }

  /** At every moment: no revision has been probed twice. */
  lemma ProbedDiffers(job: Job, schedule: seq<nat>, reports: Sha -> bool)
    requires "" !in job.list && AllDifferent(job.list) && Possible(job, Start(job), schedule, reports)
    ensures AllDifferent(Probed(ToCheck(job.list, job.current), schedule))
  {
    StartIsSound(job, reports);
    AnswersAreDistinct(job, Start(job), schedule, reports);
    ToCheckDiffers(job.list, job.current);
    var toCheck := ToCheck(job.list, job.current);
    forall a, b | 0 <= a < b < |schedule|
      ensures Probed(toCheck, schedule)[a] != Probed(toCheck, schedule)[b]
    {
      PossibleInRange(job, Start(job), schedule, reports, a);
      PossibleInRange(job, Start(job), schedule, reports, b);
      assert schedule[a] != schedule[b];
    }
  }

  lemma ProbedAll(job: Job, schedule: seq<nat>, reports: Sha -> bool, s: Sha)
    requires "" !in job.list && Possible(job, Start(job), schedule, reports)
    requires Run(job, Start(job), schedule, reports).done == |ToCheck(job.list, job.current)|
    requires s in ToCheck(job.list, job.current)
    ensures s in Probed(ToCheck(job.list, job.current), schedule)
  {
    var toCheck := ToCheck(job.list, job.current);
    StartIsSound(job, reports);
    PoolIsExact(job, schedule, reports);
    RunIsSound(job, Start(job), schedule, reports);
    var i :| 0 <= i < |toCheck| && toCheck[i] == s;
    OverMeansAnswered(job, Start(job), schedule, reports, i);
    var a :| 0 <= a < |schedule| && schedule[a] == i;
    assert Probed(toCheck, schedule)[a] == s;
  }

  lemma {:induction false} ProbedAreListed(job: Job, schedule: seq<nat>, reports: Sha -> bool, s: Sha)
    requires Possible(job, Start(job), schedule, reports) && s in Probed(ToCheck(job.list, job.current), schedule)
    ensures s in ToCheck(job.list, job.current)
  {
    var a :| 0 <= a < |schedule| && Probed(ToCheck(job.list, job.current), schedule)[a] == s;
    PossibleInRange(job, Start(job), schedule, reports, a);
  }

  /** Over the list that `loadRevisionList` builds, under every schedule: when the pool is
      done, every revision of the list but the one on show has been probed exactly once,
      and nothing else has been probed. */
  lemma EachRevisionProbedOnce(files: seq<Commit>, snap: seq<Commit>, cur: Sha, current: Sha, schedule: seq<nat>,
                               reports: Sha -> bool, s: Sha)
    requires var job := Job(ShaList(RevisionList(files, snap, cur)), current);
      && Possible(job, Start(job), schedule, reports)
      && Run(job, Start(job), schedule, reports).done == |ToCheck(job.list, current)|
    ensures var list := ShaList(RevisionList(files, snap, cur));
      multiset(Probed(ToCheck(list, current), schedule))[s] == if s in list && s != current then 1 else 0
  {
    RevisionsAreDistinct(files, snap, cur);
    var job := Job(ShaList(RevisionList(files, snap, cur)), current);
    ProbedDiffers(job, schedule, reports);
    CountOfDifferent(Probed(ToCheck(job.list, current), schedule), s);
    ToCheckMembers(job.list, current);
    if s in ToCheck(job.list, current) {
      ProbedAll(job, schedule, reports, s);
    } else if s in Probed(ToCheck(job.list, current), schedule) {
      ProbedAreListed(job, schedule, reports, s);
    }
  }

  /** The shared counters of `loadRevisions`, as its callbacks update them. */
  class Prober {
    const job: Job
    const toCheck: seq<Sha>
    var idx: nat
    var done: nat
    var avail: map<Sha, bool>
    var flight: set<nat>              // the probes whose callbacks are still to come
    ghost var fills: seq<seq<Sha>>

    ghost predicate Valid() {
      toCheck == ToCheck(job.list, job.current)
    }

    ghost function State(): Pool
      reads this
    {
      Pool(idx, done, flight, avail, fills)
    }

    constructor (job: Job)
      ensures Valid() && this.job == job && State() == Start(job)
    {
      this.job := job;
      toCheck := ToCheck(job.list, job.current);
      idx, done, flight, fills := 0, 0, {}, [];
      avail := if job.current != "" then map[job.current := true] else map[];
      new;
      var total := |toCheck|;
      if total == 0 {
        FillSelects();
      } else {
        var n := if total < CAP then total else CAP;
        ghost var p := State();
        var k := 0;
        while k < n
          invariant 0 <= k <= n
          invariant LaunchMany(p, total, n) == LaunchMany(State(), total, n - k)
        {
          LaunchNext();
          k := k + 1;
        }
      }
    }

    method FillSelects()
      requires Valid()
      modifies this`fills
      ensures State() == Fill(job, old(State()))
    {
      fills := fills + [Available(job.list, job.current, avail)];
    }

    method LaunchNext()
      requires Valid()
      modifies this`idx, this`flight
      ensures State() == Launch(old(State()), |toCheck|)
    {
      if idx >= |toCheck| {
        return;
      }
      flight := flight + {idx};
      idx := idx + 1;
    }

    method OnAnswer(i: nat, ok: bool)
      requires Valid() && i < |toCheck|
      modifies this
      ensures Valid() && State() == Complete(job, old(State()), i, ok)
    {
      avail := avail[toCheck[i] := ok];
      flight := flight - {i};
      done := done + 1;
      if done == |toCheck| {
        FillSelects();
      } else {
        LaunchNext();
      }
    }
  }
}
