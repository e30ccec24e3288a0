/** Which lines of a mass-compile log speak for which VI, and how the report orders and
    names what they say. */
module LogReading {
  import opened Grouping
  import opened Sorting
  import opened MassCompile

  // ----- lines and VIs -----

  /** The path leads to a VI of the project: its repository path ends in .vi, in any letter
      case, and is not part of the CI tooling. */
  predicate IsProjectVi(n: Names, path: string) {
    && !n.tooling(n.viRel(path))
    && var low := n.lower(n.viRel(path));
      |low| >= 3 && low[|low| - 3] == '.' && low[|low| - 2] == 'v' && low[|low| - 1] == 'i'
  }

  predicate LeadsTo(n: Names, path: string, key: string) {
    IsProjectVi(n, path) && n.lower(n.viRel(path)) == key
  }

  /** A path that some header already gives. */
  predicate HasHeader(n: Names, bads: seq<BadLine>, path: string) {
    exists i :: 0 <= i < |bads| && IsProjectVi(n, bads[i].path) && n.lower(bads[i].path) == n.lower(path)
  }

  /** The workspace has exactly one VI with the caller's name. */
  predicate Resolved(n: Names, byBase: map<string, seq<string>>, caller: string) {
    var base := n.lower(n.baseName(caller));
    base in byBase && |byBase[base]| == 1
  }

  /** The failure is charged to the VI: to the caller's only namesake, unless that is CI
      tooling, and to a card under the bare name when there is none or several. */
  predicate ChargedTo(n: Names, byBase: map<string, seq<string>>, f: Failure, key: string) {
    var base := n.lower(n.baseName(f.caller));
    && f.dep != ""
    && if Resolved(n, byBase, f.caller) then key == n.lower(byBase[base][0]) && !n.tooling(byBase[base][0])
       else key == "name:" + base && !n.tooling("")
  }

  lemma AcceptedIs(n: Names, path: string)
    ensures Accepted(n, path) <==> IsProjectVi(n, path)
  {
    var low := n.lower(n.viRel(path));
    if |low| >= 3 {
      assert low[|low| - 3..] == [low[|low| - 3], low[|low| - 2], low[|low| - 1]];
    }
  }

  /** The headers that speak for a VI are exactly the header lines whose path leads to it. */
  lemma {:induction false} HeadersAre(n: Names, bads: seq<BadLine>, key: string)
    ensures var hs := ValuesOf(HeaderMentions(n, bads), key);
      var lines := Filter(bads, (b: BadLine) => LeadsTo(n, b.path, key));
      && |hs| == |lines|
      && forall i :: 0 <= i < |hs| ==>
           && hs[i].rel == n.viRel(lines[i].path)
           && hs[i].name == if n.baseName(hs[i].rel) != "" then n.baseName(hs[i].rel) else n.baseName(lines[i].qual)
  {
    if bads != [] {
      HeadersAre(n, bads[1..], key);
      AcceptedIs(n, bads[0].path);
      var rest := HeaderMentions(n, bads[1..]);
      var first := (KeyOf(n, bads[0].path), HeaderMention(n, bads[0]));
      assert ([first] + rest)[1..] == rest;
    }
  }

  lemma PairedIs(n: Names, bads: seq<BadLine>, path: string)
    ensures n.lower(path) in Paired(n, bads) <==> HasHeader(n, bads, path)
  {
    if n.lower(path) in Paired(n, bads) {
      var b :| b in bads && Accepted(n, b.path) && n.lower(b.path) == n.lower(path);
      var i :| 0 <= i < |bads| && bads[i] == b;
      AcceptedIs(n, bads[i].path);
    }
    if HasHeader(n, bads, path) {
      var i :| 0 <= i < |bads| && IsProjectVi(n, bads[i].path) && n.lower(bads[i].path) == n.lower(path);
      AcceptedIs(n, bads[i].path);
      assert bads[i] in bads;
    }
  }

  /** The loose paths that speak for a VI are exactly the flagged paths that lead to it and
      that no header gives. */
  lemma {:induction false} LooseAre(n: Names, bads: seq<BadLine>, paths: seq<PathLine>, key: string)
    ensures var ls := ValuesOf(LooseMentions(n, paths, Paired(n, bads)), key);
      var lines := Filter(paths, (p: PathLine) => p.flagged && LeadsTo(n, p.path, key) && !HasHeader(n, bads, p.path));
      && |ls| == |lines|
      && forall i :: 0 <= i < |ls| ==> ls[i].rel == n.viRel(lines[i].path) && ls[i].name == n.baseName(ls[i].rel)
  {
    if paths != [] {
      LooseAre(n, bads, paths[1..], key);
      AcceptedIs(n, paths[0].path);
      PairedIs(n, bads, paths[0].path);
      var rest := LooseMentions(n, paths[1..], Paired(n, bads));
      var rel := n.viRel(paths[0].path);
      var first := (KeyOf(n, paths[0].path), Mention(n.baseName(rel), rel, Loose));
      assert ([first] + rest)[1..] == rest;
    }
  }

  /** The dependency failures of a VI are exactly the failures charged to it. */
  lemma {:induction false} MissingAre(n: Names, byBase: map<string, seq<string>>, failures: seq<Failure>, key: string)
    ensures var fs := ValuesOf(MissingMentions(n, byBase, failures), key);
      var lines := Filter(failures, (f: Failure) => ChargedTo(n, byBase, f, key));
      && |fs| == |lines|
      && forall i :: 0 <= i < |fs| ==>
           && fs[i].kind == Missing(MissingText(lines[i]))
           && if Resolved(n, byBase, lines[i].caller)
              then n.lower(fs[i].rel) == key && fs[i].name == n.baseName(fs[i].rel)
              else fs[i].rel == "" && fs[i].name == n.baseName(lines[i].caller)
  {
    if failures != [] {
      MissingAre(n, byBase, failures[1..], key);
      var rest := MissingMentions(n, byBase, failures[1..]);
      var first := Attributed(n, byBase, failures[0]);
      assert ([first] + rest)[1..] == rest;
    }
  }

  /** The bad VIs of a log, line by line. */
  lemma BadVisAre(n: Names, log: Log, key: string)
    ensures key in KeySet(BadMentions(n, log)) <==>
      || (exists b :: b in log.bads && LeadsTo(n, b.path, key))
      || (exists p :: p in log.paths && p.flagged && LeadsTo(n, p.path, key) && !HasHeader(n, log.bads, p.path))
  {
    HeadersAre(n, log.bads, key);
    LooseAre(n, log.bads, log.paths, key);
    PassByPass(n, log, map[], key);
    var isHeader := (b: BadLine) => LeadsTo(n, b.path, key);
    var isLoose := (p: PathLine) => p.flagged && LeadsTo(n, p.path, key) && !HasHeader(n, log.bads, p.path);
    FilterMembers(log.bads, isHeader);
    FilterMembers(log.paths, isLoose);
    if Filter(log.bads, isHeader) != [] {
      assert Filter(log.bads, isHeader)[0] in Filter(log.bads, isHeader);
    }
    if Filter(log.paths, isLoose) != [] {
      assert Filter(log.paths, isLoose)[0] in Filter(log.paths, isLoose);
    }
  }

  // ----- the report -----

  /** Rows are ordered: broken VIs first, then those with more problems, then by path, or by
      name where there is no path, in lower case. */
  lemma RowsInOrder(n: Names, vis: seq<(string, Card)>, i: nat, j: nat)
    requires i < j < |Sort(Rows(n, vis), RowOrder(n))|
    ensures var r, q := Sort(Rows(n, vis), RowOrder(n))[i], Sort(Rows(n, vis), RowOrder(n))[j];
      && (q.broken > 0 ==> r.broken > 0)
      && ((r.broken > 0 <==> q.broken > 0) ==>
            && r.total >= q.total
            && (r.total == q.total ==>
                  TextLeq(if n.lower(r.rel) == "" then n.lower(r.name) else n.lower(r.rel),
                          if n.lower(q.rel) == "" then n.lower(q.name) else n.lower(q.rel))))
  {
    PrecedesOrders(n);
    SortSorted(Rows(n, vis), RowOrder(n));
    assert RowOrder(n)(Sort(Rows(n, vis), RowOrder(n))[i], Sort(Rows(n, vis), RowOrder(n))[j]);
  }

  lemma ProblemsOrder()
    ensures TotalPreorder(ProblemLeq)
  {
    forall p: Problem, q: Problem
      ensures ProblemLeq(p, q) || ProblemLeq(q, p)
    {
      TextLeqOrders(p.message, q.message, "");
    }
    forall p: Problem, q: Problem, r: Problem | ProblemLeq(p, q) && ProblemLeq(q, r)
      ensures ProblemLeq(p, r)
    {
      TextLeqOrders(p.message, q.message, r.message);
    }
  }

  /** A row is called by the name of its card, failing that by its path, and its problems are
      in the order of their messages within each severity. */
  lemma RowShowsCard(n: Names, c: Card)
    ensures var r := Shown(n, c);
      && r.rel == c.rel
      && r.name == (if c.name != "" then c.name else if c.rel != "" then n.baseName(c.rel) else "(unknown VI)")
      && forall i, j :: 0 <= i < j < |r.problems| && r.problems[i].severity == r.problems[j].severity ==>
           TextLeq(r.problems[i].message, r.problems[j].message)
  {
    ProblemsOrder();
    SortSorted(c.problems, ProblemLeq);
    var ps := Shown(n, c).problems;
    forall i, j | 0 <= i < j < |ps|
      ensures ProblemLeq(ps[i], ps[j])
    {
    }
  }
}
