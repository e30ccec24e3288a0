/** The scan of the commit history: retried API requests with a sticky failure flag,
    the classification of commits, and the paged loop with its three ends. */
module CommitScan {
  import opened Options

  type Sha = string

  datatype Path = RepoPath | PagePath(branch: string, page: nat) | CommitPath(sha: Sha)

  datatype Payload = Repo(branch: string) | Commits(shas: seq<Sha>) | Detail(files: seq<string>)

  /** What one HTTP request ends in. */
  datatype Outcome = Reply(payload: Payload) | HttpError(code: int) | NetworkError

  /** Worth retrying: a rate limit, a server error, a dropped connection. */
  predicate Transient(o: Outcome) {
    match o
    case Reply(_) => false
    case HttpError(code) => code == 403 || code == 429 || 500 <= code < 600
    case NetworkError => true
  }

  const RECENT_WINDOW: nat := 100
  const PROJECT_TARGET: nat := 30
  const SCAN_CAP: nat := 3000
  const TRIES: nat := 4

  // ----- classification -----

  datatype Info = Info(isProject: bool, isDepOnly: bool)

  const LV_SOURCE_EXTS: seq<string> := [
    ".vi", ".vit", ".ctl", ".ctt", ".lvclass", ".lvlib", ".lvlibp",
    ".lvproj", ".xctl", ".xnode", ".vipc", ".vip", ".llb", ".mnu", ".lvtest"]
  const TOOLING_PREFIXES: seq<string> := [".github/", "actions/", "_lvci/", "ci-out/", "build/"]
  const DEP_EXTS: seq<string> := [".vipc", ".vip"]

  function Lower(s: string): string {
    if s == "" then ""
    else [if 'A' <= s[0] <= 'Z' then s[0] - 'A' + 'a' else s[0]] + Lower(s[1..])
  }

  predicate EndsWith(s: string, suffix: string) {
    |suffix| <= |s| && s[|s| - |suffix|..] == suffix
  }

  predicate EndsWithAny(s: string, suffixes: seq<string>) {
    exists i :: 0 <= i < |suffixes| && EndsWith(s, suffixes[i])
  }

  predicate StartsWithAny(s: string, prefixes: seq<string>) {
    exists i :: 0 <= i < |prefixes| && prefixes[i] <= s
  }

  predicate ProjectSource(file: string) {
    EndsWithAny(Lower(file), LV_SOURCE_EXTS) && !StartsWithAny(file, TOOLING_PREFIXES)
  }

  function ProjectFiles(files: seq<string>): seq<string> {
    if files == [] then []
    else if ProjectSource(files[0]) then [files[0]] + ProjectFiles(files[1..])
    else ProjectFiles(files[1..])
  }

  function Classify(files: seq<string>): Info {
    var src := ProjectFiles(files);
    Info(src != [], src != [] && forall i :: 0 <= i < |src| ==> EndsWithAny(Lower(src[i]), DEP_EXTS))
  }

  /** The file has one of the endings, in any letter case. */
  ghost predicate Has(file: string, endings: seq<string>) {
    exists e :: e in endings && EndsIn(Lower(file), e)
  }

  /** The text is something followed by e. */
  ghost predicate EndsIn(s: string, e: string) {
    exists start :: s == start + e
  }

  /** The file is kept under one of the paths. */
  ghost predicate Under(file: string, paths: seq<string>) {
    exists p :: p in paths && p <= file
  }

  /** LabVIEW source that is not part of the CI tooling. */
  ghost predicate IsProjectFile(file: string) {
    Has(file, LV_SOURCE_EXTS) && !Under(file, TOOLING_PREFIXES)
  }

  ghost predicate TouchesProject(files: seq<string>) {
    exists f :: f in files && IsProjectFile(f)
  }

  lemma EndsWithIs(s: string, e: string)
    ensures EndsWith(s, e) <==> EndsIn(s, e)
  {
    if EndsWith(s, e) {
      assert s == s[..|s| - |e|] + e;
    }
    if EndsIn(s, e) {
      var start :| s == start + e;
      assert s[|start|..] == e;
    }
  }

  lemma EndingsAre(file: string, endings: seq<string>)
    ensures EndsWithAny(Lower(file), endings) <==> Has(file, endings)
  {
    if EndsWithAny(Lower(file), endings) {
      var i :| 0 <= i < |endings| && EndsWith(Lower(file), endings[i]);
      EndsWithIs(Lower(file), endings[i]);
      assert endings[i] in endings;
    }
    if Has(file, endings) {
      var e :| e in endings && EndsIn(Lower(file), e);
      var i :| 0 <= i < |endings| && endings[i] == e;
      EndsWithIs(Lower(file), endings[i]);
    }
  }

  lemma PathsAre(file: string, paths: seq<string>)
    ensures StartsWithAny(file, paths) <==> Under(file, paths)
  {
    if StartsWithAny(file, paths) {
      var i :| 0 <= i < |paths| && paths[i] <= file;
      assert paths[i] in paths;
    }
  }

  lemma ProjectSourceIs(file: string)
    ensures ProjectSource(file) <==> IsProjectFile(file)
  {
    EndingsAre(file, LV_SOURCE_EXTS);
    PathsAre(file, TOOLING_PREFIXES);
  }

  lemma {:induction false} ProjectFilesMembers(files: seq<string>)
    ensures forall f :: f in ProjectFiles(files) <==> f in files && ProjectSource(f)
  {
    if files != [] {
      ProjectFilesMembers(files[1..]);
      forall f
        ensures f in ProjectFiles(files) <==> f in files && ProjectSource(f)
      {
        assert f in files <==> f == files[0] || f in files[1..];
      }
    }
  }

  /** A commit is a project commit when it touches some project source, and
      dependency-only when, besides, all the project source it touches is manifests. */
  lemma ClassifyMeaning(files: seq<string>)
    ensures Classify(files).isProject <==> TouchesProject(files)
    ensures Classify(files).isDepOnly <==>
      TouchesProject(files) && forall f :: f in files && IsProjectFile(f) ==> Has(f, DEP_EXTS)
  {
    var src := ProjectFiles(files);
    ProjectFilesMembers(files);
    forall f
      ensures f in src <==> f in files && IsProjectFile(f)
      ensures EndsWithAny(Lower(f), DEP_EXTS) <==> Has(f, DEP_EXTS)
    {
      ProjectSourceIs(f);
      EndingsAre(f, DEP_EXTS);
    }
    if src != [] {
      assert src[0] in src;
    }
    forall i | 0 <= i < |src|
      ensures src[i] in src
    {
    }
  }

  // ----- what a scan keeps -----

  function CountTrue(flags: seq<bool>): nat {
    if flags == [] then 0 else (if flags[|flags| - 1] then 1 else 0) + CountTrue(flags[..|flags| - 1])
  }

  /** Of the scanned commits, in order, the first hundred and the project commits. */
  function Kept(scanned: seq<Sha>, flags: seq<bool>): seq<Sha>
    requires |scanned| == |flags|
  {
    if scanned == [] then []
    else
      var n := |scanned| - 1;
      var rest := Kept(scanned[..n], flags[..n]);
      if n < RECENT_WINDOW || flags[n] then rest + [scanned[n]] else rest
  }

  predicate Enough(flags: seq<bool>) {
    |flags| >= RECENT_WINDOW && CountTrue(flags) >= PROJECT_TARGET
  }

  function Concat(pages: seq<seq<Sha>>): seq<Sha> {
    if pages == [] then [] else Concat(pages[..|pages| - 1]) + pages[|pages| - 1]
  }

  /** Why a scan stopped. */
  datatype End = HistoryEnded | CapReached | EnoughFound | ApiDegraded

  /** A record of one scan: the pages that were served, the commits classified, whether
      each is a project commit, and why the scan stopped. */
  datatype Record = Record(pages: seq<seq<Sha>>, scanned: seq<Sha>, flags: seq<bool>, end: End)

  /** No page boundary before the last page satisfied the third stop condition. */
  ghost predicate NotEnoughEarlier(pages: seq<seq<Sha>>, flags: seq<bool>) {
    forall j :: 0 <= j < |pages| && |Concat(pages[..j])| <= |flags| ==> !Enough(flags[..|Concat(pages[..j])|])
  }

  /** The law of a scan that was not cut short by a failing API. */
  ghost predicate ScanLaw(r: Record, out: seq<Sha>) {
    && |r.scanned| == |r.flags| <= SCAN_CAP
    && out == Kept(r.scanned, r.flags)
    && r.scanned <= Concat(r.pages)
    && NotEnoughEarlier(r.pages, r.flags)
    && match r.end
       case HistoryEnded => r.scanned == Concat(r.pages) && !Enough(r.flags) && |r.scanned| < SCAN_CAP
       case CapReached => |r.scanned| == SCAN_CAP
       case EnoughFound => r.scanned == Concat(r.pages) && Enough(r.flags)
       case ApiDegraded => false
  }

  lemma {:induction false} CountTrueSplit(a: seq<bool>, b: seq<bool>)
    ensures CountTrue(a + b) == CountTrue(a) + CountTrue(b)
    decreases |b|
  {
    if b == [] {
      assert a + b == a;
    } else {
      var n := |b| - 1;
      assert (a + b)[..|a + b| - 1] == a + b[..n];
      CountTrueSplit(a, b[..n]);
    }
  }

  lemma {:induction false} KeptMembers(scanned: seq<Sha>, flags: seq<bool>, i: nat)
    requires |scanned| == |flags| && i < |scanned| && (i < RECENT_WINDOW || flags[i])
    ensures scanned[i] in Kept(scanned, flags)
    decreases |scanned|
  {
    var n := |scanned| - 1;
    if i < n {
      KeptMembers(scanned[..n], flags[..n], i);
    }
  }

  lemma {:induction false} KeptAll(scanned: seq<Sha>, flags: seq<bool>)
    requires |scanned| == |flags| <= RECENT_WINDOW
    ensures Kept(scanned, flags) == scanned
    decreases |scanned|
  {
    if scanned != [] {
      var n := |scanned| - 1;
      KeptAll(scanned[..n], flags[..n]);
      assert scanned == scanned[..n] + [scanned[n]];
    }
  }

  lemma {:induction false} KeptBeyond(scanned: seq<Sha>, flags: seq<bool>)
    requires |scanned| == |flags| >= RECENT_WINDOW
    ensures |Kept(scanned, flags)| == RECENT_WINDOW + CountTrue(flags[RECENT_WINDOW..])
    decreases |scanned|
  {
    var n := |scanned| - 1;
    if n < RECENT_WINDOW {
      KeptAll(scanned, flags);
    } else {
      KeptBeyond(scanned[..n], flags[..n]);
      assert flags[RECENT_WINDOW..][..n - RECENT_WINDOW] == flags[..n][RECENT_WINDOW..];
    }
  }

  lemma {:induction false} CountTrueBound(flags: seq<bool>)
    ensures CountTrue(flags) <= |flags|
  {
    if flags != [] {
      CountTrueBound(flags[..|flags| - 1]);
    }
  }

  /** All of up to a hundred commits are kept, and beyond them the project commits. */
  lemma KeptSize(scanned: seq<Sha>, flags: seq<bool>)
    requires |scanned| == |flags|
    ensures |scanned| <= RECENT_WINDOW ==> Kept(scanned, flags) == scanned
    ensures |scanned| >= RECENT_WINDOW ==> |Kept(scanned, flags)| == RECENT_WINDOW + CountTrue(flags[RECENT_WINDOW..])
    ensures CountTrue(flags) <= |Kept(scanned, flags)| <= CountTrue(flags) + RECENT_WINDOW
  {
    if |scanned| <= RECENT_WINDOW {
      KeptAll(scanned, flags);
      CountTrueBound(flags);
    }
    if |scanned| >= RECENT_WINDOW {
      KeptBeyond(scanned, flags);
      assert flags == flags[..RECENT_WINDOW] + flags[RECENT_WINDOW..];
      CountTrueSplit(flags[..RECENT_WINDOW], flags[RECENT_WINDOW..]);
      CountTrueBound(flags[..RECENT_WINDOW]);
    }
  }

  /** The list shows the scanned commits at the places `at`, in order. */
  ghost predicate ShownAt(out: seq<Sha>, scanned: seq<Sha>, at: seq<nat>) {
    && |out| == |at| && (forall m, n :: 0 <= m < n < |at| ==> at[m] < at[n])
    && forall m :: 0 <= m < |at| ==> at[m] < |scanned| && out[m] == scanned[at[m]]
  }

  /** Exactly the first hundred scanned commits and the project commits are shown, in order. */
  lemma {:induction false} KeptAre(scanned: seq<Sha>, flags: seq<bool>) returns (at: seq<nat>)
    requires |scanned| == |flags|
    ensures ShownAt(Kept(scanned, flags), scanned, at)
    ensures forall i :: i in at <==> 0 <= i < |scanned| && (i < RECENT_WINDOW || flags[i])
    decreases |scanned|
  {
    at := [];
    if scanned != [] {
      var n := |scanned| - 1;
      var before := KeptAre(scanned[..n], flags[..n]);
      at := if n < RECENT_WINDOW || flags[n] then before + [n] else before;
      ShownNext(Kept(scanned[..n], flags[..n]), scanned, before, n);
    }
  }

  lemma ShownNext(out: seq<Sha>, scanned: seq<Sha>, at: seq<nat>, n: nat)
    requires n < |scanned| && ShownAt(out, scanned[..n], at)
    ensures ShownAt(out, scanned, at) && ShownAt(out + [scanned[n]], scanned, at + [n])
    ensures forall i :: i in at + [n] <==> i in at || i == n
  {
  }

  /** The table never loses a recent commit, keeps every scanned project commit, and a
      scan that found enough shows at least thirty project commits. */
  lemma ScanShowsProject(r: Record, out: seq<Sha>)
    requires ScanLaw(r, out)
    ensures forall i :: 0 <= i < |r.scanned| && (i < RECENT_WINDOW || r.flags[i]) ==> r.scanned[i] in out
    ensures |out| >= CountTrue(r.flags)
    ensures r.end.EnoughFound? ==> |out| >= RECENT_WINDOW && CountTrue(r.flags) >= PROJECT_TARGET
  {
    forall i | 0 <= i < |r.scanned| && (i < RECENT_WINDOW || r.flags[i])
      ensures r.scanned[i] in out
    {
      KeptMembers(r.scanned, r.flags, i);
    }
    KeptSize(r.scanned, r.flags);
  }

  // ----- the scan -----

  /** The files that an answer to a commit request lists; a refusal lists none. */
  function FilesOf(o: Outcome): seq<string> {
    match o
    case Reply(Detail(files)) => files
    case _ => []
  }

  /** The branch that an answer to the repository request names, or the fallback. */
  function BranchOf(o: Outcome): string {
    match o
    case Reply(Repo(branch)) => branch
    case _ => "main"
  }

  /** The commits that an answer to a page request lists; a refusal lists none. */
  function PageOf(o: Outcome): seq<Sha> {
    match o
    case Reply(Commits(shas)) => shas
    case _ => []
  }

  /** One request: what it asked for, and how it ended. */
  datatype Exchange = Exchange(path: Path, outcome: Outcome)

  class Scan {
    /** The outcome of the n-th request if it asks for a path. */
    const net: (Path, nat) -> Outcome
    var requests: nat
    ghost var log: seq<Exchange>      // every request made so far
    var degraded: bool
    var cache: map<Sha, Info>
    var defaultBranch: Option<string>

    constructor (net: (Path, nat) -> Outcome)
      ensures Valid()
      ensures this.net == net && log == [] && !degraded && cache == map[] && defaultBranch == None
    {
      this.net := net;
      requests, log, degraded, cache, defaultBranch := 0, [], false, map[], None;
    }

    /** The log holds what was asked, in order, with the network's outcomes. */
    ghost predicate Logged()
      reads this`requests, this`log
    {
      |log| == requests && forall n :: 0 <= n < |log| ==> log[n].outcome == net(log[n].path, n)
    }

    /** One API call: retries transient failures, at most four requests in all and one
        once the API is known to be degraded. Sets the flag exactly when its last
        request failed in a transient way, and never clears it. */
    method GhGet(path: Path) returns (r: Option<Payload>)
      requires Logged()
      modifies this`requests, this`log, this`degraded
      ensures Logged() && old(log) < log && |log| <= |old(log)| + if old(degraded) then 1 else TRIES
      ensures forall n :: |old(log)| <= n < |log| ==> log[n].path == path
      ensures forall n :: |old(log)| <= n < |log| - 1 ==> Transient(log[n].outcome)
      ensures var last := log[|log| - 1].outcome;
        && (r.Some? <==> last.Reply?) && (r.Some? ==> r.value == last.payload)
        && degraded == (old(degraded) || last.NetworkError?
                        || (last.HttpError? && (last.code in {403, 429} || last.code / 100 == 5)))
        && (Transient(last) ==> |log| == |old(log)| + if old(degraded) then 1 else TRIES)
    {
      var tries := if degraded then 1 else TRIES;
      var attempt := 0;
      while true
        invariant 0 <= attempt < tries && degraded == old(degraded)
        invariant Logged() && old(log) <= log && |log| == |old(log)| + attempt
        invariant forall n :: |old(log)| <= n < |log| ==> log[n].path == path && Transient(log[n].outcome)
        decreases tries - attempt
      {
        var o := net(path, requests);
        requests := requests + 1;
        log := log + [Exchange(path, o)];
        if o.Reply? {
          return Some(o.payload);
        }
        if Transient(o) && attempt < tries - 1 {
          attempt := attempt + 1;
        } else {
          if Transient(o) {
            degraded := true;
          }
          return None;
        }
      }
    }

    /** The log is complete and, unless the API degraded, everything in the cache was learnt
        from an answer in it. */
    ghost predicate Valid()
      reads this
    {
      Logged() && (degraded || Known(log, cache))
    }

    method GetDefaultBranch() returns (branch: string)
      requires Valid()
      modifies this`requests, this`log, this`degraded, this`defaultBranch
      ensures Valid() && old(log) <= log
      ensures defaultBranch == Some(branch)
      ensures old(defaultBranch).Some? ==>
        defaultBranch == old(defaultBranch) && degraded == old(degraded) && log == old(log)
      ensures old(defaultBranch).None? ==>
        old(log) < log && branch == BranchOf(log[|log| - 1].outcome)
        && forall n :: |old(log)| <= n < |log| ==> log[n].path == RepoPath
      ensures old(degraded) ==> degraded
    {
      if defaultBranch.Some? {
        return defaultBranch.value;
      }
      ghost var before := log;
      var info := GhGet(RepoPath);
      KnownLater(before, log, cache);
      branch := if info.Some? && info.value.Repo? then info.value.branch else "main";
      defaultBranch := Some(branch);
    }

    /** Classifies a commit once; later requests for it are answered from the cache. */
    method ClassifyCommit(sha: Sha) returns (info: Info)
      requires Valid()
      modifies this`requests, this`log, this`degraded, this`cache
      ensures Valid()
      ensures old(log) <= log && (old(degraded) ==> degraded)
      ensures forall n :: |old(log)| <= n < |log| ==> log[n].path == CommitPath(sha)
      ensures sha in old(cache) ==> info == old(cache)[sha] && degraded == old(degraded) && log == old(log)
      ensures sha !in old(cache) ==> old(log) < log && info == Classify(FilesOf(log[|log| - 1].outcome))
      ensures cache == if sha in old(cache) then old(cache) else old(cache)[sha := info]
      ensures !degraded ==> Learnt(log, sha, info)
    {
      if sha in cache {
        return cache[sha];
      }
      ghost var before := log;
      var detail := GhGet(CommitPath(sha));
      KnownLater(before, log, cache);
      var files := if detail.Some? && detail.value.Detail? then detail.value.files else [];
      assert files == FilesOf(log[|log| - 1].outcome);
      info := Classify(files);
      CacheNext(log, cache, sha, info, degraded);
      cache := cache[sha := info];
    }

    method GetPage(branch: string, page: nat) returns (batch: seq<Sha>)
      requires Valid()
      modifies this`requests, this`log, this`degraded
      ensures Valid() && old(log) < log
      ensures forall n :: |old(log)| <= n < |log| ==> log[n].path == PagePath(branch, page)
      ensures var last := log[|log| - 1].outcome;
        batch == PageOf(last) && degraded == (old(degraded) || Transient(last))
    {
      ghost var before := log;
      var r := GhGet(PagePath(branch, page));
      KnownLater(before, log, cache);
      batch := if r.Some? && r.value.Commits? then r.value.shas else [];
    }

    /** Scans one commit; a degraded API leaves it unscanned. */
    method ScanCommit(c: Sha, scanned: seq<Sha>, flags: seq<bool>, out: seq<Sha>)
      returns (scanned': seq<Sha>, flags': seq<bool>, out': seq<Sha>)
      requires Valid() && !degraded && Sifted(log, scanned, flags, out)
      modifies this`requests, this`log, this`degraded, this`cache
      ensures Valid() && old(log) <= log
      ensures scanned' == (if degraded then scanned else scanned + [c]) && flags <= flags'
      ensures !degraded ==> Sifted(log, scanned', flags', out')
    {
      scanned', flags', out' := scanned, flags, out;
      ghost var before := log;
      var info := ClassifyCommit(c);
      if degraded {
        return;
      }
      FlagsNext(before, log, scanned, flags, c, info);
      KeptNext(scanned, flags, c, info.isProject);
      if |scanned| + 1 <= RECENT_WINDOW || info.isProject {
        out' := out + [c];
      }
      scanned', flags' := scanned + [c], flags + [info.isProject];
    }

    /** Scans one page. */
    method ScanPage(batch: seq<Sha>, scanned: seq<Sha>, flags: seq<bool>, out: seq<Sha>)
      returns (scanned': seq<Sha>, flags': seq<bool>, out': seq<Sha>)
      requires Valid() && !degraded && Sifted(log, scanned, flags, out) && |scanned| < SCAN_CAP
      modifies this`requests, this`log, this`degraded, this`cache
      ensures Valid() && old(log) <= log
      ensures |scanned'| <= SCAN_CAP && flags <= flags'
      ensures exists n :: 0 <= n <= |batch| && scanned' == scanned + batch[..n] && (batch != [] && !degraded ==> n > 0)
      ensures !degraded ==>
        Sifted(log, scanned', flags', out') && (scanned' == scanned + batch || |scanned'| == SCAN_CAP)
    {
      scanned', flags', out' := scanned, flags, out;
      var i := 0;
      while i < |batch|
        invariant 0 <= i <= |batch| && Valid() && old(log) <= log && !degraded
        invariant scanned' == scanned + batch[..i] && |scanned'| < SCAN_CAP
        invariant flags <= flags' && Sifted(log, scanned', flags', out')
      {
        assert scanned + batch[..i + 1] == (scanned + batch[..i]) + [batch[i]];
        scanned', flags', out' := ScanCommit(batch[i], scanned', flags', out');
        if degraded {
          return;
        }
        i := i + 1;
        if |scanned'| >= SCAN_CAP {
          return;
        }
      }
      assert batch[..i] == batch;
    }

    /** Fetches and scans one more page; an empty page leaves everything as it was. */
    method ScanNextPage(ghost from: nat, branch: string, ghost pages: seq<seq<Sha>>, page: nat,
                        scanned: seq<Sha>, flags: seq<bool>, out: seq<Sha>)
      returns (batch: seq<Sha>, scanned': seq<Sha>, flags': seq<bool>, out': seq<Sha>)
      requires from <= |log| && Valid() && !degraded && Scanning(log, from, branch, pages, scanned, flags, out)
      requires |scanned| < SCAN_CAP && !Enough(flags) && page == |pages| + 1
      modifies this`requests, this`log, this`degraded, this`cache
      ensures Valid() && old(log) <= log
      ensures batch == [] ==> scanned' == scanned && flags' == flags && out' == out
      ensures batch == [] && !degraded ==>
        Scanning(log, from, branch, pages, scanned', flags', out') && HistoryOver(log, branch, page)
      ensures batch != [] && !degraded ==>
        Scanning(log, from, branch, pages + [batch], scanned', flags', out') && |scanned'| > |scanned|
    {
      ghost var before := log;
      batch := GetPage(branch, page);
      ScanningLater(before, log, from, branch, pages, scanned, flags, out);
      scanned', flags', out' := scanned, flags, out;
      if batch == [] {
        return;
      }
      assert ServedAt(log, from, |log| - 1, branch, |pages| + 1, batch);
      ghost var served := log;
      if !degraded {
        scanned', flags', out' := ScanPage(batch, scanned, flags, out);
        if !degraded {
          ScanningNext(served, log, from, branch, pages, scanned, flags, out, batch, scanned', flags', out');
        }
      }
    }

    /** Unless the API degraded: the record obeys the law of the scan, its pages are
        GitHub's answers to requests for page 1, 2, 3 and so on, made since `from`, every flag says whether the files
        that GitHub served for the commit touch project source, and a scan that claims
        to have reached the end of history has seen it end. */
    ghost predicate Told(from: nat, record: Record, out: seq<Sha>)
      reads this
    {
      && ScanLaw(record, out) && defaultBranch.Some?
      && ServedInOrder(log, from, defaultBranch.value, record.pages)
      && FlagsTold(log, record.scanned, record.flags)
      && (record.end.HistoryEnded? ==> HistoryOver(log, defaultBranch.value, |record.pages| + 1))
    }

    /** The paged scan. */
    method FetchCommits() returns (out: seq<Sha>, ghost record: Record)
      requires Valid()
      modifies this`requests, this`log, this`degraded, this`cache, this`defaultBranch
      ensures Valid() && old(log) <= log && (old(degraded) ==> degraded)
      ensures !degraded ==> Told(|old(log)|, record, out)
    {
      out := [];
      var scanned: seq<Sha>, flags: seq<bool>, page: nat := [], [], 1;
      ghost var pages: seq<seq<Sha>>, from := [], |log|;
      var branch := GetDefaultBranch();
      record := Record(pages, scanned, flags, ApiDegraded);
      while |scanned| < SCAN_CAP && !degraded
        invariant Valid() && old(log) <= log && page == |pages| + 1 && defaultBranch == Some(branch)
        invariant old(degraded) ==> degraded
        invariant !degraded ==> Scanning(log, from, branch, pages, scanned, flags, out)
        invariant !degraded && |scanned| < SCAN_CAP ==> !Enough(flags)
        decreases if degraded then 0 else 1, SCAN_CAP - |scanned|
      {
        var batch;
        batch, scanned, flags, out := ScanNextPage(from, branch, pages, page, scanned, flags, out);
        if batch == [] {
          record := Record(pages, scanned, flags, if degraded then ApiDegraded else HistoryEnded);
          return;
        }
        pages := pages + [batch];
        if |scanned| >= RECENT_WINDOW && CountTrue(flags) >= PROJECT_TARGET {
          record := Record(pages, scanned, flags, if |scanned| == SCAN_CAP then CapReached else EnoughFound);
          return;
        }
        page := page + 1;
      }
      record := Record(pages, scanned, flags, CapReached);
    }

    /** The build publishes the scanned history, or nothing if the API degraded. */
    method CommitsToPublish() returns (r: Option<seq<Sha>>, ghost record: Record)
      requires Valid()
      modifies this`requests, this`log, this`degraded, this`cache, this`defaultBranch
      ensures Valid() && old(log) <= log && (old(degraded) ==> degraded)
      ensures r.None? <==> degraded
      ensures r.Some? ==> Told(|old(log)|, record, r.value)
    {
      var out;
      out, record := FetchCommits();
      r := if degraded then None else Some(out);
    }
  }

  // ----- what GitHub has told -----

  /** A request for this commit's details was answered, and info classifies the files it
      listed. */
  ghost predicate LearntFrom(x: Exchange, sha: Sha, info: Info) {
    x.path == CommitPath(sha) && !Transient(x.outcome) && info == Classify(FilesOf(x.outcome))
  }

  ghost predicate Learnt(log: seq<Exchange>, sha: Sha, info: Info) {
    exists n :: 0 <= n < |log| && LearntFrom(log[n], sha, info)
  }

  /** Everything in the cache was learnt from an answer. */
  ghost predicate Known(log: seq<Exchange>, cache: map<Sha, Info>) {
    forall s :: s in cache ==> Learnt(log, s, cache[s])
  }

  lemma KnownLater(log: seq<Exchange>, log': seq<Exchange>, cache: map<Sha, Info>)
    requires log <= log'
    ensures Known(log, cache) ==> Known(log', cache)
  {
    if Known(log, cache) {
      forall s | s in cache
        ensures Learnt(log', s, cache[s])
      {
        var n :| 0 <= n < |log| && LearntFrom(log[n], s, cache[s]);
        assert log'[n] == log[n];
      }
    }
  }

  lemma CacheNext(log: seq<Exchange>, cache: map<Sha, Info>, sha: Sha, info: Info, degraded: bool)
    requires degraded || Known(log, cache)
    requires log != [] && (degraded || LearntFrom(log[|log| - 1], sha, info))
    ensures degraded || (Known(log, cache[sha := info]) && Learnt(log, sha, info))
  {
  }

  /** A request for this commit's details was answered, and the files it listed say whether
      the commit touches project source. */
  ghost predicate FlagFrom(x: Exchange, sha: Sha, flag: bool) {
    x.path == CommitPath(sha) && !Transient(x.outcome) && (flag <==> TouchesProject(FilesOf(x.outcome)))
  }

  ghost predicate FlagTold(log: seq<Exchange>, sha: Sha, flag: bool) {
    exists n :: 0 <= n < |log| && FlagFrom(log[n], sha, flag)
  }

  ghost predicate FlagsTold(log: seq<Exchange>, scanned: seq<Sha>, flags: seq<bool>) {
    |scanned| == |flags| && forall i :: 0 <= i < |scanned| ==> FlagTold(log, scanned[i], flags[i])
  }

  lemma FlagsLater(log: seq<Exchange>, log': seq<Exchange>, scanned: seq<Sha>, flags: seq<bool>)
    requires FlagsTold(log, scanned, flags) && log <= log'
    ensures FlagsTold(log', scanned, flags)
  {
    forall i | 0 <= i < |scanned|
      ensures FlagTold(log', scanned[i], flags[i])
    {
      var n :| 0 <= n < |log| && FlagFrom(log[n], scanned[i], flags[i]);
      assert log'[n] == log[n];
    }
  }

  lemma FlagsNext(log: seq<Exchange>, log': seq<Exchange>, scanned: seq<Sha>, flags: seq<bool>, c: Sha, info: Info)
    requires FlagsTold(log, scanned, flags) && log <= log' && Learnt(log', c, info)
    ensures FlagsTold(log', scanned + [c], flags + [info.isProject])
  {
    FlagsLater(log, log', scanned, flags);
    var n :| 0 <= n < |log'| && LearntFrom(log'[n], c, info);
    ClassifyMeaning(FilesOf(log'[n].outcome));
    assert FlagFrom(log'[n], c, info.isProject);
  }

  /** The last request made asked for this page and was answered without a commit: the page
      is empty, or it was refused for good. */
  ghost predicate HistoryOver(log: seq<Exchange>, branch: string, page: nat) {
    && log != []
    && var last := log[|log| - 1];
       last.path == PagePath(branch, page) && !Transient(last.outcome) && PageOf(last.outcome) == []
  }

  /** The pages are GitHub's answers to the requests, made since `from`, for page 1, 2, 3
      and so on. */
  ghost predicate ServedInOrder(log: seq<Exchange>, from: nat, branch: string, pages: seq<seq<Sha>>) {
    forall j :: 0 <= j < |pages| ==> Served(log, from, branch, j + 1, pages[j])
  }

  ghost predicate Served(log: seq<Exchange>, from: nat, branch: string, page: nat, shas: seq<Sha>) {
    exists n :: ServedAt(log, from, n, branch, page, shas)
  }

  ghost predicate ServedAt(log: seq<Exchange>, from: nat, n: int, branch: string, page: nat, shas: seq<Sha>) {
    from <= n < |log| && log[n] == Exchange(PagePath(branch, page), Reply(Commits(shas)))
  }

  /** Serving one more page, whatever was requested since. */
  lemma ServedNext(log: seq<Exchange>, from: nat, branch: string, pages: seq<seq<Sha>>, batch: seq<Sha>)
    requires ServedInOrder(log, from, branch, pages) && Served(log, from, branch, |pages| + 1, batch)
    ensures ServedInOrder(log, from, branch, pages + [batch])
  {
  }

  lemma ServedLater(log: seq<Exchange>, log': seq<Exchange>, from: nat, branch: string, pages: seq<seq<Sha>>)
    requires ServedInOrder(log, from, branch, pages) && log <= log'
    ensures ServedInOrder(log', from, branch, pages)
  {
    forall j | 0 <= j < |pages|
      ensures Served(log', from, branch, j + 1, pages[j])
    {
      var n :| ServedAt(log, from, n, branch, j + 1, pages[j]);
      assert ServedAt(log', from, n, branch, j + 1, pages[j]);
    }
  }

  lemma {:induction false} ConcatPrefix(pages: seq<seq<Sha>>, j: nat)
    requires j <= |pages|
    ensures |Concat(pages[..j])| <= |Concat(pages)|
    decreases |pages|
  {
    if j == |pages| {
      assert pages[..j] == pages;
    } else {
      var init := pages[..|pages| - 1];
      ConcatPrefix(init, j);
      assert init[..j] == pages[..j];
    }
  }

  lemma NotEnoughNext(pages: seq<seq<Sha>>, batch: seq<Sha>, flags: seq<bool>, flags': seq<bool>)
    requires NotEnoughEarlier(pages, flags) && !Enough(flags) && |Concat(pages)| == |flags| && flags <= flags'
    ensures NotEnoughEarlier(pages + [batch], flags')
  {
    var pages' := pages + [batch];
    forall j | 0 <= j < |pages'| && |Concat(pages'[..j])| <= |flags'|
      ensures !Enough(flags'[..|Concat(pages'[..j])|])
    {
      assert pages'[..j] == pages[..j];
      ConcatPrefix(pages, j);
      var n := |Concat(pages[..j])|;
      assert flags'[..n] == flags[..n];
      if j == |pages| {
        assert pages[..j] == pages && flags[..n] == flags;
      }
    }
  }

  lemma KeptNext(scanned: seq<Sha>, flags: seq<bool>, c: Sha, project: bool)
    requires |scanned| == |flags|
    ensures Kept(scanned + [c], flags + [project]) ==
      if |scanned| < RECENT_WINDOW || project then Kept(scanned, flags) + [c] else Kept(scanned, flags)
  {
    assert (scanned + [c])[..|scanned|] == scanned && (flags + [project])[..|flags|] == flags;
  }

  // ----- what holds during a scan -----

  /** Between two commits. */
  ghost predicate Sifted(log: seq<Exchange>, scanned: seq<Sha>, flags: seq<bool>, out: seq<Sha>) {
    |scanned| == |flags| && out == Kept(scanned, flags) && FlagsTold(log, scanned, flags)
  }

  /** Between two pages. */
  ghost predicate Scanning(log: seq<Exchange>, from: nat, branch: string, pages: seq<seq<Sha>>,
                           scanned: seq<Sha>, flags: seq<bool>, out: seq<Sha>) {
    && Sifted(log, scanned, flags, out) && |scanned| <= SCAN_CAP
    && scanned <= Concat(pages) && NotEnoughEarlier(pages, flags)
    && ServedInOrder(log, from, branch, pages)
    && (|scanned| < SCAN_CAP ==> scanned == Concat(pages))
  }

  lemma ScanningLater(log: seq<Exchange>, log': seq<Exchange>, from: nat, branch: string, pages: seq<seq<Sha>>,
                      scanned: seq<Sha>, flags: seq<bool>, out: seq<Sha>)
    requires Scanning(log, from, branch, pages, scanned, flags, out) && log <= log'
    ensures Scanning(log', from, branch, pages, scanned, flags, out)
  {
    ServedLater(log, log', from, branch, pages);
    FlagsLater(log, log', scanned, flags);
  }

  /** How far the scan of a page got. */
  ghost predicate Scanned(batch: seq<Sha>, scanned: seq<Sha>, scanned': seq<Sha>) {
    && |scanned'| <= SCAN_CAP
    && (exists n :: 0 < n <= |batch| && scanned' == scanned + batch[..n])
    && (scanned' == scanned + batch || |scanned'| == SCAN_CAP)
  }

  lemma ScanningNext(log: seq<Exchange>, log': seq<Exchange>, from: nat, branch: string, pages: seq<seq<Sha>>,
                     scanned: seq<Sha>, flags: seq<bool>, out: seq<Sha>, batch: seq<Sha>,
                     scanned': seq<Sha>, flags': seq<bool>, out': seq<Sha>)
    requires Scanning(log, from, branch, pages, scanned, flags, out) && log <= log'
    requires |scanned| < SCAN_CAP && !Enough(flags) && Served(log, from, branch, |pages| + 1, batch)
    requires Scanned(batch, scanned, scanned') && flags <= flags' && Sifted(log', scanned', flags', out')
    ensures Scanning(log', from, branch, pages + [batch], scanned', flags', out')
  {
    ServedNext(log, from, branch, pages, batch);
    ServedLater(log, log', from, branch, pages + [batch]);
    NotEnoughNext(pages, batch, flags, flags');
    assert (pages + [batch])[..|pages|] == pages;
  }
}
