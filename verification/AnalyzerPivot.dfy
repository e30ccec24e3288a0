/** The VI Analyzer report: the failures of every VI, and the same failures pivoted by rule. */
module AnalyzerPivot {
  import opened Grouping
  import opened Sorting

  datatype Category = Correctness | Performance | Style | Documentation

  /** Lower case and the category of a test, as the report's helpers give them. */
  datatype Env = Env(lower: string -> string, category: string -> Category)

  datatype Finding = Finding(test: string, message: string)

  datatype Vi = Vi(name: string, rel: string, failures: seq<Finding>, total: nat, counts: map<Category, nat>)

  /** One VI block of the native report: the cells of its two-column rows. */
  datatype Block = Block(name: string, rel: string, rows: seq<Finding>)

  // ----- the failures of every VI -----

  predicate IsFailure(env: Env, f: Finding) {
    env.lower(f.test) != "test" && f.test != ""
  }

  function Failures(env: Env, rows: seq<Finding>): seq<Finding> {
    if rows == [] then []
    else if IsFailure(env, rows[0]) then [rows[0]] + Failures(env, rows[1..])
    else Failures(env, rows[1..])
  }

  const CATEGORIES := {Correctness, Performance, Style, Documentation}

  lemma EveryCategory()
    ensures forall c: Category :: c in CATEGORIES
  {
    forall c: Category
      ensures c in CATEGORIES
    {
      match c {
        case Correctness =>
        case Performance =>
        case Style =>
        case Documentation =>
      }
    }
  }

  function CountIn(env: Env, failures: seq<Finding>, c: Category): nat {
    if failures == [] then 0
    else (if env.category(failures[0].test) == c then 1 else 0) + CountIn(env, failures[1..], c)
  }

  function Counts(env: Env, failures: seq<Finding>): (r: map<Category, nat>)
    ensures forall c: Category :: c in r
  {
    EveryCategory();
    map c | c in CATEGORIES :: CountIn(env, failures, c)
  }

  function ViOf(env: Env, b: Block): Vi {
    var failures := Failures(env, b.rows);
    Vi(b.name, b.rel, failures, |failures|, Counts(env, failures))
  }

  /** One entry per block that has a failure. */
  function Vis(env: Env, blocks: seq<Block>): seq<Vi> {
    if blocks == [] then []
    else if Failures(env, blocks[0].rows) == [] then Vis(env, blocks[1..])
    else [ViOf(env, blocks[0])] + Vis(env, blocks[1..])
  }

  method ParseRows(env: Env, rows: seq<Finding>) returns (failures: seq<Finding>)
    ensures failures == Failures(env, rows)
  {
    failures := [];
    var i := 0;
    while i < |rows|
      invariant 0 <= i <= |rows|
      invariant failures + Failures(env, rows[i..]) == Failures(env, rows)
    {
      if env.lower(rows[i].test) != "test" && rows[i].test != "" {
        failures := failures + [rows[i]];
      }
      i := i + 1;
    }
  }

  method CountSeverities(env: Env, failures: seq<Finding>) returns (counts: map<Category, nat>)
    ensures counts == Counts(env, failures)
  {
    counts := map c | c in CATEGORIES :: 0;
    var i := 0;
    while i < |failures|
      invariant 0 <= i <= |failures|
      invariant counts.Keys == CATEGORIES
      invariant forall c :: c in CATEGORIES ==> counts[c] + CountIn(env, failures[i..], c) == CountIn(env, failures, c)
    {
      var c := env.category(failures[i].test);
      counts := counts[c := counts[c] + 1];
      i := i + 1;
    }
  }

  method ParseFailed(env: Env, blocks: seq<Block>) returns (vis: seq<Vi>)
    ensures vis == Vis(env, blocks)
  {
    vis := [];
    var i := 0;
    while i < |blocks|
      invariant 0 <= i <= |blocks|
      invariant vis + Vis(env, blocks[i..]) == Vis(env, blocks)
    {
      var failures := ParseRows(env, blocks[i].rows);
      if failures != [] {
        var counts := CountSeverities(env, failures);
        vis := vis + [Vi(blocks[i].name, blocks[i].rel, failures, |failures|, counts)];
      }
      i := i + 1;
    }
  }

  lemma {:induction false} CountsAddUp(env: Env, failures: seq<Finding>)
    ensures var n := Counts(env, failures);
      n[Correctness] + n[Performance] + n[Style] + n[Documentation] == |failures|
  {
    if failures != [] {
      CountsAddUp(env, failures[1..]);
    }
  }

  /** A row names a test: it is neither a heading nor empty. */
  predicate NamesTest(env: Env, f: Finding) {
    f.test != "" && env.lower(f.test) != "test"
  }

  predicate HasFailure(env: Env, b: Block) {
    exists i :: 0 <= i < |b.rows| && NamesTest(env, b.rows[i])
  }

  lemma {:induction false} FailuresAre(env: Env, rows: seq<Finding>)
    ensures Failures(env, rows) == Filter(rows, (f: Finding) => NamesTest(env, f))
    ensures Failures(env, rows) != [] <==> exists i :: 0 <= i < |rows| && NamesTest(env, rows[i])
  {
    if rows != [] {
      FailuresAre(env, rows[1..]);
      assert forall i :: 0 < i < |rows| ==> rows[i] == rows[1..][i - 1];
      if Failures(env, rows[1..]) != [] {
        var i :| 0 <= i < |rows[1..]| && NamesTest(env, rows[1..][i]);
        assert NamesTest(env, rows[i + 1]);
      }
    }
  }

  lemma {:induction false} CountsAre(env: Env, failures: seq<Finding>, c: Category)
    ensures CountIn(env, failures, c) == |Filter(failures, (f: Finding) => env.category(f.test) == c)|
  {
    if failures != [] {
      CountsAre(env, failures[1..], c);
    }
  }

  /** The VIs listed are the blocks in which some row names a test, in order; each has just
      those rows for its failures, and counts them in all and by category. */
  lemma {:induction false} VisAre(env: Env, blocks: seq<Block>)
    ensures var vis := Vis(env, blocks);
      var failing := Filter(blocks, (b: Block) => HasFailure(env, b));
      && |vis| == |failing|
      && forall i :: 0 <= i < |vis| ==>
           && vis[i].name == failing[i].name && vis[i].rel == failing[i].rel
           && vis[i].failures == Filter(failing[i].rows, (f: Finding) => NamesTest(env, f))
           && vis[i].total == |vis[i].failures|
           && forall c: Category ::
                c in vis[i].counts
                && vis[i].counts[c] == |Filter(vis[i].failures, (f: Finding) => env.category(f.test) == c)|
  {
    if blocks != [] {
      VisAre(env, blocks[1..]);
      FailuresAre(env, blocks[0].rows);
      forall c: Category
        ensures CountIn(env, Failures(env, blocks[0].rows), c) ==
          |Filter(Failures(env, blocks[0].rows), (f: Finding) => env.category(f.test) == c)|
      {
        CountsAre(env, Failures(env, blocks[0].rows), c);
      }
    }
  }

  // ----- the pivot -----

  /** Where a finding was made: the VI's display name, and the message. */
  datatype Note = Note(name: string, message: string)

  datatype ViRule = ViRule(rel: string, name: string, count: nat, messages: seq<string>)

  datatype Rule = Rule(test: string, severity: Category, count: nat, vis: seq<ViRule>)

  type Placed = (string, Note)

  /** A VI's findings: under the rule, at the VI. */
  function Placements(vi: Vi, failures: seq<Finding>): seq<(string, Placed)> {
    if failures == [] then []
    else [(failures[0].test, (vi.rel, Note(vi.name, failures[0].message)))] + Placements(vi, failures[1..])
  }

  function AllPlacements(vis: seq<Vi>): seq<(string, Placed)> {
    if vis == [] then [] else Placements(vis[0], vis[0].failures) + AllPlacements(vis[1..])
  }

  function MessagesOf(notes: seq<Note>): (r: seq<string>)
    ensures |r| == |notes|
  {
    if notes == [] then [] else [notes[0].message] + MessagesOf(notes[1..])
  }

  function ViRuleOf(): Group<string, Note> -> ViRule {
    (g: Group<string, Note>) =>
      ViRule(g.key, if g.members == [] then "" else g.members[0].name, |g.members|, MessagesOf(g.members))
  }

  function RuleOf(env: Env): Group<string, Placed> -> Rule {
    (g: Group<string, Placed>) =>
      Rule(g.key, env.category(g.key), |g.members|, MapGroups(GroupBy(g.members), ViRuleOf()))
  }

  /** The dictionary of rules before it is sorted. */
  function Rules(env: Env, groups: seq<Group<string, Placed>>): seq<Rule> {
    MapGroups(groups, RuleOf(env))
  }

  lemma {:induction false} MessagesSnoc(notes: seq<Note>, note: Note)
    ensures MessagesOf(notes + [note]) == MessagesOf(notes) + [note.message]
  {
    if notes != [] {
      MessagesSnoc(notes[1..], note);
      assert (notes + [note])[1..] == notes[1..] + [note];
    }
  }

  lemma ViRuleSnoc(key: string, notes: seq<Note>, note: Note)
    ensures var v := ViRuleOf()(Group(key, notes));
      ViRuleOf()(Group(key, notes + [note])) ==
        ViRule(key, if notes == [] then note.name else v.name, v.count + 1, v.messages + [note.message])
  {
    MessagesSnoc(notes, note);
  }

  lemma ViRuleKeys(groups: seq<Group<string, Note>>)
    ensures forall i :: 0 <= i < |groups| ==> MapGroups(groups, ViRuleOf())[i].rel == groups[i].key
  {
  }

  method FindVi(vis: seq<ViRule>, rel: string, ghost groups: seq<Group<string, Note>>) returns (j: nat)
    requires vis == MapGroups(groups, ViRuleOf())
    ensures j == Find(groups, rel)
  {
    j := IndexOfKey(vis, RelOf, rel);
    ViRuleKeys(groups);
    FindIs(groups, rel, j);
  }

  /** A VI's record after one more message. */
  function Noted(v: ViRule, message: string): ViRule {
    v.(count := v.count + 1, messages := v.messages + [message])
  }

  lemma FiledUnderVi(placed: seq<Placed>, rel: string, note: Note, j: nat)
    requires j == Find(GroupBy(placed), rel)
    ensures var vis := MapGroups(GroupBy(placed), ViRuleOf());
      MapGroups(GroupBy(placed + [(rel, note)]), ViRuleOf()) ==
        if j < |vis| then vis[j := Noted(vis[j], note.message)]
        else vis + [Noted(ViRule(rel, note.name, 0, []), note.message)]
  {
    var groups := GroupBy(placed);
    AddAllAppend([], placed, (rel, note));
    GroupByPartitions(placed, rel);
    MapGroupsAdd(groups, rel, note, ViRuleOf(), j);
    if j < |groups| {
      ViRuleSnoc(rel, groups[j].members, note);
    } else {
      assert MessagesOf([note]) == [note.message] == Noted(ViRule(rel, note.name, 0, []), note.message).messages;
    }
  }

  /** Files one message under a VI of a rule. */
  method FileUnderVi(vis: seq<ViRule>, rel: string, note: Note, ghost placed: seq<Placed>) returns (vis': seq<ViRule>)
    requires vis == MapGroups(GroupBy(placed), ViRuleOf())
    ensures vis' == MapGroups(GroupBy(placed + [(rel, note)]), ViRuleOf())
  {
    var j := FindVi(vis, rel, GroupBy(placed));
    FiledUnderVi(placed, rel, note, j);
    vis' := if j < |vis| then vis else vis + [ViRule(rel, note.name, 0, [])];
    vis' := vis'[j := Noted(vis'[j], note.message)];
  }

  lemma RuleSnoc(env: Env, test: string, placed: seq<Placed>, x: Placed)
    ensures var r := RuleOf(env)(Group(test, placed));
      RuleOf(env)(Group(test, placed + [x])) ==
        r.(count := r.count + 1, vis := MapGroups(GroupBy(placed + [x]), ViRuleOf()))
  {
  }

  lemma RuleTests(env: Env, groups: seq<Group<string, Placed>>)
    ensures |Rules(env, groups)| == |groups|
    ensures forall i :: 0 <= i < |groups| ==> Rules(env, groups)[i].test == groups[i].key
  {
  }

  method FindRule(env: Env, rules: seq<Rule>, test: string, ghost groups: seq<Group<string, Placed>>) returns (j: nat)
    requires rules == Rules(env, groups)
    ensures j == Find(groups, test)
  {
    j := IndexOfKey(rules, TestOf, test);
    RuleTests(env, groups);
    FindIs(groups, test, j);
  }

  /** Files one finding under its rule and its VI. */
  method FileUnderRule(env: Env, rules: seq<Rule>, test: string, rel: string, note: Note,
                       ghost groups: seq<Group<string, Placed>>)
    returns (rules': seq<Rule>)
    requires rules == Rules(env, groups)
    ensures rules' == Rules(env, Add(groups, test, (rel, note)))
  {
    var j := FindRule(env, rules, test, groups);
    MapGroupsAdd(groups, test, (rel, note), RuleOf(env), j);
    rules' := if j < |rules| then rules else rules + [Rule(test, env.category(test), 0, [])];
    ghost var placed := if j < |rules| then groups[j].members else [];
    assert rules'[j] == RuleOf(env)(Group(test, placed));
    var vis := FileUnderVi(rules'[j].vis, rel, note, placed);
    RuleSnoc(env, test, placed, (rel, note));
    assert j == |rules| ==> placed + [(rel, note)] == [(rel, note)];
    rules' := rules'[j := rules'[j].(count := rules'[j].count + 1, vis := vis)];
  }

  method FileVi(env: Env, before: seq<Rule>, vi: Vi, ghost groups0: seq<Group<string, Placed>>)
    returns (rules: seq<Rule>)
    requires before == Rules(env, groups0)
    ensures rules == Rules(env, AddAll(groups0, Placements(vi, vi.failures)))
  {
    rules := before;
    ghost var groups := groups0;
    var i := 0;
    while i < |vi.failures|
      invariant 0 <= i <= |vi.failures|
      invariant rules == Rules(env, groups)
      invariant AddAll(groups, Placements(vi, vi.failures[i..])) == AddAll(groups0, Placements(vi, vi.failures))
    {
      var f := vi.failures[i];
      NextPlacement(vi, i, groups);
      rules := FileUnderRule(env, rules, f.test, vi.rel, Note(vi.name, f.message), groups);
      groups := Add(groups, f.test, (vi.rel, Note(vi.name, f.message)));
      i := i + 1;
    }
  }

  lemma NextPlacement(vi: Vi, i: nat, groups: seq<Group<string, Placed>>)
    requires i < |vi.failures|
    ensures var f := vi.failures[i];
      AddAll(groups, Placements(vi, vi.failures[i..])) ==
        AddAll(Add(groups, f.test, (vi.rel, Note(vi.name, f.message))), Placements(vi, vi.failures[i + 1..]))
  {
    assert vi.failures[i..][1..] == vi.failures[i + 1..];
    assert Placements(vi, vi.failures[i..])[1..] == Placements(vi, vi.failures[i + 1..]);
  }

  // ----- sorting -----

  predicate ViPrecedes(env: Env, v: ViRule, w: ViRule) {
    v.count > w.count || (v.count == w.count && TextLeq(env.lower(v.rel), env.lower(w.rel)))
  }

  predicate RulePrecedes(env: Env, r: Rule, q: Rule) {
    r.count > q.count || (r.count == q.count && TextLeq(env.lower(r.test), env.lower(q.test)))
  }

  function ViOrder(env: Env): (ViRule, ViRule) -> bool {
    (v: ViRule, w: ViRule) => ViPrecedes(env, v, w)
  }

  function RuleOrder(env: Env): (Rule, Rule) -> bool {
    (r: Rule, q: Rule) => RulePrecedes(env, r, q)
  }

  function WithSortedVis(env: Env, rules: seq<Rule>): (r: seq<Rule>)
    ensures |r| == |rules|
    ensures forall i :: 0 <= i < |r| ==> r[i] == rules[i].(vis := Sort(rules[i].vis, ViOrder(env)))
  {
    if rules == [] then []
    else [rules[0].(vis := Sort(rules[0].vis, ViOrder(env)))] + WithSortedVis(env, rules[1..])
  }

  function Pivot(env: Env, vis: seq<Vi>): seq<Rule> {
    Sort(WithSortedVis(env, Rules(env, GroupBy(AllPlacements(vis)))), RuleOrder(env))
  }

  method SortVis(env: Env, rules: seq<Rule>) returns (list: seq<Rule>)
    ensures list == WithSortedVis(env, rules)
  {
    list := [];
    var i := 0;
    while i < |rules|
      invariant 0 <= i <= |rules|
      invariant list + WithSortedVis(env, rules[i..]) == WithSortedVis(env, rules)
    {
      list := list + [rules[i].(vis := Sort(rules[i].vis, ViOrder(env)))];
      i := i + 1;
    }
  }

  method AggregateRules(env: Env, vis: seq<Vi>) returns (list: seq<Rule>)
    ensures list == Pivot(env, vis)
  {
    var rules: seq<Rule> := [];
    ghost var groups: seq<Group<string, Placed>> := [];
    var i := 0;
    while i < |vis|
      invariant 0 <= i <= |vis|
      invariant rules == Rules(env, groups)
      invariant AddAll(groups, AllPlacements(vis[i..])) == GroupBy(AllPlacements(vis))
    {
      rules := FileVi(env, rules, vis[i], groups);
      AddAllJoin(groups, Placements(vis[i], vis[i].failures), AllPlacements(vis[i + 1..]));
      groups := AddAll(groups, Placements(vis[i], vis[i].failures));
      i := i + 1;
    }
    list := SortVis(env, rules);
    list := Sort(list, RuleOrder(env));
  }

  // ----- nothing is lost -----

  /** The messages that the VIs of path rel have under one test, in order. */
  function MessagesAt(vis: seq<Vi>, test: string, rel: string): seq<string> {
    if vis == [] then []
    else if vis[0].rel == rel then TestMessages(vis[0].failures, test) + MessagesAt(vis[1..], test, rel)
    else MessagesAt(vis[1..], test, rel)
  }

  function TestMessages(failures: seq<Finding>, test: string): seq<string> {
    if failures == [] then []
    else if failures[0].test == test then [failures[0].message] + TestMessages(failures[1..], test)
    else TestMessages(failures[1..], test)
  }

  lemma {:induction false} MessagesJoin(a: seq<Note>, b: seq<Note>)
    ensures MessagesOf(a + b) == MessagesOf(a) + MessagesOf(b)
  {
    if a == [] {
      assert a + b == b;
    } else {
      assert (a + b)[1..] == a[1..] + b;
      MessagesJoin(a[1..], b);
    }
  }

  lemma {:induction false} PlacementsAt(vi: Vi, failures: seq<Finding>, test: string, rel: string)
    ensures MessagesOf(ValuesOf(ValuesOf(Placements(vi, failures), test), rel))
         == if vi.rel == rel then TestMessages(failures, test) else []
  {
    if failures != [] {
      PlacementsAt(vi, failures[1..], test, rel);
      var x := (vi.rel, Note(vi.name, failures[0].message));
      var rest := ValuesOf(Placements(vi, failures[1..]), test);
      assert ([x] + rest)[1..] == rest;
      var notes := ValuesOf(rest, rel);
      assert ([x.1] + notes)[1..] == notes;
    }
  }

  lemma {:induction false} AllPlacementsAt(vis: seq<Vi>, test: string, rel: string)
    ensures MessagesOf(ValuesOf(ValuesOf(AllPlacements(vis), test), rel)) == MessagesAt(vis, test, rel)
  {
    if vis != [] {
      var here, rest := Placements(vis[0], vis[0].failures), AllPlacements(vis[1..]);
      AllPlacementsAt(vis[1..], test, rel);
      PlacementsAt(vis[0], vis[0].failures, test, rel);
      ValuesOfAppend(here, rest, test);
      ValuesOfAppend(ValuesOf(here, test), ValuesOf(rest, test), rel);
      MessagesJoin(ValuesOf(ValuesOf(here, test), rel), ValuesOf(ValuesOf(rest, test), rel));
      assert [] + MessagesAt(vis[1..], test, rel) == MessagesAt(vis[1..], test, rel);
    }
  }

  function TestOf(r: Rule): string {
    r.test
  }

  function RelOf(v: ViRule): string {
    v.rel
  }

  /** name is what the first VI of path rel with a finding of the test calls itself. */
  ghost predicate FirstName(vis: seq<Vi>, test: string, rel: string, name: string) {
    exists j :: 0 <= j < |vis| && FoundAt(vis[j], test, rel) && vis[j].name == name
      && forall i :: 0 <= i < j ==> !FoundAt(vis[i], test, rel)
  }

  ghost predicate FoundAt(vi: Vi, test: string, rel: string) {
    vi.rel == rel && exists i :: 0 <= i < |vi.failures| && vi.failures[i].test == test
  }

  lemma {:induction false} NotesOf(vi: Vi, failures: seq<Finding>, test: string, rel: string)
    ensures var notes := ValuesOf(ValuesOf(Placements(vi, failures), test), rel);
      && (notes != [] <==> vi.rel == rel && exists i :: 0 <= i < |failures| && failures[i].test == test)
      && forall i :: 0 <= i < |notes| ==> notes[i].name == vi.name
  {
    if failures != [] {
      NotesOf(vi, failures[1..], test, rel);
      var x := (vi.rel, Note(vi.name, failures[0].message));
      var rest := ValuesOf(Placements(vi, failures[1..]), test);
      assert ([x] + rest)[1..] == rest;
      var notes := ValuesOf(rest, rel);
      assert ([x.1] + notes)[1..] == notes;
      assert forall i :: 0 < i < |failures| ==> failures[i] == failures[1..][i - 1];
      if notes != [] {
        var i :| 0 <= i < |failures[1..]| && failures[1..][i].test == test;
        assert failures[i + 1].test == test;
      }
    }
  }

  lemma {:induction false} FirstNote(vis: seq<Vi>, test: string, rel: string)
    ensures var notes := ValuesOf(ValuesOf(AllPlacements(vis), test), rel);
      notes != [] ==> FirstName(vis, test, rel, notes[0].name)
  {
    if vis != [] {
      var here, rest := Placements(vis[0], vis[0].failures), AllPlacements(vis[1..]);
      FirstNote(vis[1..], test, rel);
      NotesOf(vis[0], vis[0].failures, test, rel);
      ValuesOfAppend(here, rest, test);
      ValuesOfAppend(ValuesOf(here, test), ValuesOf(rest, test), rel);
      var later := ValuesOf(ValuesOf(rest, test), rel);
      if FoundAt(vis[0], test, rel) {
        assert FirstName(vis, test, rel, vis[0].name);
      } else if later != [] {
        FirstNameLater(vis, test, rel, later[0].name);
      }
    }
  }

  lemma FirstNameLater(vis: seq<Vi>, test: string, rel: string, name: string)
    requires vis != [] && !FoundAt(vis[0], test, rel) && FirstName(vis[1..], test, rel, name)
    ensures FirstName(vis, test, rel, name)
  {
    var rest := vis[1..];
    var j :| 0 <= j < |rest| && FoundAt(rest[j], test, rel) && rest[j].name == name
      && forall i :: 0 <= i < j ==> !FoundAt(rest[i], test, rel);
    assert FoundAt(vis[j + 1], test, rel) && vis[j + 1].name == name;
    forall i | 0 <= i < j + 1
      ensures !FoundAt(vis[i], test, rel)
    {
      assert i == 0 || vis[i] == rest[i - 1];
    }
  }

  /** The record of one VI under one rule holds just its messages. */
  lemma ViRuleHolds(vis: seq<Vi>, test: string, rel: string)
    ensures var inner := GroupBy(ValuesOf(AllPlacements(vis), test));
      var j := Find(inner, rel);
      && (j < |inner| <==> MessagesAt(vis, test, rel) != [])
      && (j < |inner| ==> var v := ViRuleOf()(inner[j]);
            && v.rel == rel && v.messages == MessagesAt(vis, test, rel) && v.count == |v.messages|
            && FirstName(vis, test, rel, v.name))
  {
    var placed := ValuesOf(AllPlacements(vis), test);
    FirstNote(vis, test, rel);
    GroupByPartitions(placed, rel);
    AllPlacementsAt(vis, test, rel);
  }

  lemma RuleIs(env: Env, vis: seq<Vi>, i: nat)
    requires i < |Rules(env, GroupBy(AllPlacements(vis)))|
    ensures var r := Rules(env, GroupBy(AllPlacements(vis)))[i];
      var inner := GroupBy(ValuesOf(AllPlacements(vis), r.test));
      && r == Rule(r.test, env.category(r.test), |ValuesOf(AllPlacements(vis), r.test)|, MapGroups(inner, ViRuleOf()))
      && DistinctKeys(inner) && inner != []
  {
    var items := AllPlacements(vis);
    var g := GroupBy(items)[i];
    GroupByPartitions(items, g.key);
    FindUnique(GroupBy(items), i);
    GroupByPartitions(g.members, g.members[0].0);
  }

  /** A rule before sorting: its VIs are distinct, and each holds its own messages. */
  lemma RuleHolds(env: Env, vis: seq<Vi>, i: nat)
    requires i < |Rules(env, GroupBy(AllPlacements(vis)))|
    ensures var r := Rules(env, GroupBy(AllPlacements(vis)))[i];
      && Apart(r.vis, RelOf)
      && (forall v :: v in r.vis ==>
            && v.messages == MessagesAt(vis, r.test, v.rel) && v.count == |v.messages| > 0
            && FirstName(vis, r.test, v.rel, v.name))
      && (forall rel :: MessagesAt(vis, r.test, rel) != [] ==> exists v :: v in r.vis && v.rel == rel)
      && r.severity == env.category(r.test)
  {
    RuleIs(env, vis, i);
    var r := Rules(env, GroupBy(AllPlacements(vis)))[i];
    var inner := GroupBy(ValuesOf(AllPlacements(vis), r.test));
    ViRuleKeys(inner);
    forall j | 0 <= j < |inner|
      ensures r.vis[j].messages == MessagesAt(vis, r.test, r.vis[j].rel) && r.vis[j].count == |r.vis[j].messages| > 0
      ensures FirstName(vis, r.test, r.vis[j].rel, r.vis[j].name)
    {
      ViRuleHolds(vis, r.test, inner[j].key);
      FindUnique(inner, j);
    }
    forall rel | MessagesAt(vis, r.test, rel) != []
      ensures exists v :: v in r.vis && v.rel == rel
    {
      ViRuleHolds(vis, r.test, rel);
      assert r.vis[Find(inner, rel)] in r.vis;
    }
  }

  ghost predicate ComesFrom(env: Env, r: Rule, rules: seq<Rule>, i: nat) {
    i < |rules| && r == rules[i].(vis := Sort(rules[i].vis, ViOrder(env)))
  }

  lemma {:induction false} SortedVisMembers(env: Env, rules: seq<Rule>, r: Rule)
    requires r in WithSortedVis(env, rules)
    ensures exists i: nat :: ComesFrom(env, r, rules, i)
  {
    if r == WithSortedVis(env, rules)[0] {
      assert ComesFrom(env, r, rules, 0);
    } else {
      SortedVisMembers(env, rules[1..], r);
      var i: nat :| ComesFrom(env, r, rules[1..], i);
      assert ComesFrom(env, r, rules, i + 1);
    }
  }

  /** The rule of the dictionary that a listed rule comes from. */
  lemma PivotMembers(env: Env, vis: seq<Vi>, r: Rule) returns (i: nat)
    requires r in Pivot(env, vis)
    ensures ComesFrom(env, r, Rules(env, GroupBy(AllPlacements(vis))), i)
  {
    var rules := Rules(env, GroupBy(AllPlacements(vis)));
    SortMembers(WithSortedVis(env, rules), RuleOrder(env));
    SortedVisMembers(env, rules, r);
    i :| ComesFrom(env, r, rules, i);
  }

  /** The pivot loses nothing and mixes nothing up: under every rule and VI it stores, in
      order, exactly the messages of the findings with that rule and VI. */
  lemma PivotLosesNothing(env: Env, vis: seq<Vi>, r: Rule)
    requires r in Pivot(env, vis)
    ensures Apart(r.vis, RelOf)
    ensures forall v :: v in r.vis ==>
              && v.messages == MessagesAt(vis, r.test, v.rel) && v.count == |v.messages| > 0
              && FirstName(vis, r.test, v.rel, v.name)
    ensures forall rel :: MessagesAt(vis, r.test, rel) != [] ==> exists v :: v in r.vis && v.rel == rel
    ensures r.severity == env.category(r.test)
  {
    var i := PivotMembers(env, vis, r);
    var rules := Rules(env, GroupBy(AllPlacements(vis)));
    RuleHolds(env, vis, i);
    SortMembers(rules[i].vis, ViOrder(env));
    SortKeepsApart(rules[i].vis, ViOrder(env), RelOf);
  }

  /** Every rule with a finding is listed, once. */
  lemma EveryRuleIsListed(env: Env, vis: seq<Vi>, test: string)
    ensures Apart(Pivot(env, vis), TestOf)
    ensures (exists r :: r in Pivot(env, vis) && r.test == test) <==> (exists rel :: MessagesAt(vis, test, rel) != [])
  {
    var groups := GroupBy(AllPlacements(vis));
    var sorted := WithSortedVis(env, Rules(env, groups));
    RuleTests(env, groups);
    GroupByPartitions(AllPlacements(vis), test);
    SortKeepsApart(sorted, RuleOrder(env), TestOf);
    SortMembers(sorted, RuleOrder(env));
    if rel :| MessagesAt(vis, test, rel) != [] {
      AllPlacementsAt(vis, test, rel);
      var i := Find(groups, test);
      assert sorted[i] in sorted && sorted[i].test == test;
    }
    if r :| r in Pivot(env, vis) && r.test == test {
      PivotLosesNothing(env, vis, r);
      var i := PivotMembers(env, vis, r);
      RuleIs(env, vis, i);
      var v := Rules(env, groups)[i].vis[0];
      RuleHolds(env, vis, i);
      assert v in Rules(env, groups)[i].vis;
      assert MessagesAt(vis, test, v.rel) != [];
    }
  }

  // ----- the counts -----

  function Findings(vis: seq<Vi>): nat {
    if vis == [] then 0 else |vis[0].failures| + Findings(vis[1..])
  }

  function RuleCounts(rules: seq<Rule>): nat {
    if rules == [] then 0 else rules[0].count + RuleCounts(rules[1..])
  }

  function ViCounts(vis: seq<ViRule>): nat {
    if vis == [] then 0 else vis[0].count + ViCounts(vis[1..])
  }

  lemma {:induction false} PlacementsSize(vi: Vi, failures: seq<Finding>)
    ensures |Placements(vi, failures)| == |failures|
  {
    if failures != [] {
      PlacementsSize(vi, failures[1..]);
    }
  }

  lemma {:induction false} AllPlacementsSize(vis: seq<Vi>)
    ensures |AllPlacements(vis)| == Findings(vis)
  {
    if vis != [] {
      PlacementsSize(vis[0], vis[0].failures);
      AllPlacementsSize(vis[1..]);
    }
  }

  lemma {:induction false} RuleCountsAre(env: Env, groups: seq<Group<string, Placed>>)
    ensures RuleCounts(WithSortedVis(env, Rules(env, groups))) == Total(groups)
  {
    if groups != [] {
      RuleCountsAre(env, groups[1..]);
      assert Rules(env, groups)[1..] == Rules(env, groups[1..]);
    }
  }

  lemma {:induction false} ViCountsAre(groups: seq<Group<string, Note>>)
    ensures ViCounts(MapGroups(groups, ViRuleOf())) == Total(groups)
  {
    if groups != [] {
      ViCountsAre(groups[1..]);
      assert MapGroups(groups, ViRuleOf())[1..] == MapGroups(groups[1..], ViRuleOf());
    }
  }

  lemma {:induction false} RuleCountsInsert(env: Env, r: Rule, rules: seq<Rule>)
    ensures RuleCounts(Insert(r, rules, RuleOrder(env))) == r.count + RuleCounts(rules)
  {
    if rules != [] && !RuleOrder(env)(r, rules[0]) {
      RuleCountsInsert(env, r, rules[1..]);
    } else {
      assert ([r] + rules)[1..] == rules;
    }
  }

  lemma {:induction false} RuleCountsSort(env: Env, rules: seq<Rule>)
    ensures RuleCounts(Sort(rules, RuleOrder(env))) == RuleCounts(rules)
  {
    if rules != [] {
      RuleCountsSort(env, rules[1..]);
      RuleCountsInsert(env, rules[0], Sort(rules[1..], RuleOrder(env)));
    }
  }

  lemma {:induction false} ViCountsInsert(env: Env, v: ViRule, vis: seq<ViRule>)
    ensures ViCounts(Insert(v, vis, ViOrder(env))) == v.count + ViCounts(vis)
  {
    if vis != [] && !ViOrder(env)(v, vis[0]) {
      ViCountsInsert(env, v, vis[1..]);
    } else {
      assert ([v] + vis)[1..] == vis;
    }
  }

  lemma {:induction false} ViCountsSort(env: Env, vis: seq<ViRule>)
    ensures ViCounts(Sort(vis, ViOrder(env))) == ViCounts(vis)
  {
    if vis != [] {
      ViCountsSort(env, vis[1..]);
      ViCountsInsert(env, vis[0], Sort(vis[1..], ViOrder(env)));
    }
  }

  /** The rule counts add up to all the findings. */
  lemma RuleCountsAddUp(env: Env, vis: seq<Vi>)
    ensures RuleCounts(Pivot(env, vis)) == Findings(vis)
  {
    var groups := GroupBy(AllPlacements(vis));
    AllPlacementsSize(vis);
    GroupByPartitions(AllPlacements(vis), "");
    RuleCountsAre(env, groups);
    RuleCountsSort(env, WithSortedVis(env, Rules(env, groups)));
  }

  /** Each rule's count is the sum over its VIs. */
  lemma RuleCountIsOverVis(env: Env, vis: seq<Vi>, r: Rule)
    requires r in Pivot(env, vis)
    ensures r.count == ViCounts(r.vis)
  {
    var i := PivotMembers(env, vis, r);
    var groups := GroupBy(AllPlacements(vis));
    var rules := Rules(env, groups);
    GroupByPartitions(groups[i].members, "");
    ViCountsAre(GroupBy(groups[i].members));
    ViCountsSort(env, rules[i].vis);
  }

  lemma OrdersAreTotal(env: Env)
    ensures TotalPreorder(RuleOrder(env)) && TotalPreorder(ViOrder(env))
  {
    forall a: string, b: string, c: string
      ensures TextLeq(a, b) || TextLeq(b, a)
      ensures TextLeq(a, b) && TextLeq(b, c) ==> TextLeq(a, c)
    {
      TextLeqOrders(a, b, c);
    }
  }

  /** The most common rule comes first, and within a rule the VI it hits most; ties in the
      order of names or paths, in lower case. */
  lemma MostCommonFirst(env: Env, vis: seq<Vi>)
    ensures var rules := Pivot(env, vis);
      && (forall i, j :: 0 <= i < j < |rules| ==>
            && rules[i].count >= rules[j].count
            && (rules[i].count == rules[j].count ==> TextLeq(env.lower(rules[i].test), env.lower(rules[j].test))))
      && (forall r :: r in rules ==> forall i, j :: 0 <= i < j < |r.vis| ==>
            && r.vis[i].count >= r.vis[j].count
            && (r.vis[i].count == r.vis[j].count ==> TextLeq(env.lower(r.vis[i].rel), env.lower(r.vis[j].rel))))
  {
    OrdersAreTotal(env);
    var rules := Pivot(env, vis);
    SortSorted(WithSortedVis(env, Rules(env, GroupBy(AllPlacements(vis)))), RuleOrder(env));
    forall i, j | 0 <= i < j < |rules|
      ensures rules[i].count >= rules[j].count
      ensures rules[i].count == rules[j].count ==> TextLeq(env.lower(rules[i].test), env.lower(rules[j].test))
    {
      assert RuleOrder(env)(rules[i], rules[j]);
    }
    forall r, i, j | r in rules && 0 <= i < j < |r.vis|
      ensures r.vis[i].count >= r.vis[j].count
      ensures r.vis[i].count == r.vis[j].count ==> TextLeq(env.lower(r.vis[i].rel), env.lower(r.vis[j].rel))
    {
      var k := PivotMembers(env, vis, r);
      var before := Rules(env, GroupBy(AllPlacements(vis)));
      SortSorted(before[k].vis, ViOrder(env));
      assert ViOrder(env)(r.vis[i], r.vis[j]);
    }
  }

  // ----- severities -----

  function SeverityOfVis(vis: seq<Vi>, c: Category): nat {
    if vis == [] then 0 else (if c in vis[0].counts then vis[0].counts[c] else 0) + SeverityOfVis(vis[1..], c)
  }

  function SeverityOfRules(rules: seq<Rule>, c: Category): nat {
    if rules == [] then 0 else (if rules[0].severity == c then rules[0].count else 0) + SeverityOfRules(rules[1..], c)
  }

  function SeverityOfItems(env: Env, items: seq<(string, Placed)>, c: Category): nat {
    if items == [] then 0 else (if env.category(items[0].0) == c then 1 else 0) + SeverityOfItems(env, items[1..], c)
  }

  function SeverityOfGroups(env: Env, groups: seq<Group<string, Placed>>, c: Category): nat {
    if groups == [] then 0
    else (if env.category(groups[0].key) == c then |groups[0].members| else 0) + SeverityOfGroups(env, groups[1..], c)
  }

  lemma {:induction false} SeverityOfAdd(env: Env, groups: seq<Group<string, Placed>>, test: string, x: Placed,
                                         c: Category)
    ensures SeverityOfGroups(env, Add(groups, test, x), c)
         == SeverityOfGroups(env, groups, c) + if env.category(test) == c then 1 else 0
  {
    if groups == [] {
      assert Add(groups, test, x) == [Group(test, [x])];
    } else if groups[0].key == test {
      assert Add(groups, test, x)[1..] == groups[1..];
    } else {
      SeverityOfAdd(env, groups[1..], test, x, c);
      assert Add(groups, test, x) == [groups[0]] + Add(groups[1..], test, x);
    }
  }

  lemma {:induction false} SeverityOfAddAll(env: Env, groups: seq<Group<string, Placed>>, items: seq<(string, Placed)>,
                                            c: Category)
    ensures SeverityOfGroups(env, AddAll(groups, items), c)
        == SeverityOfGroups(env, groups, c) + SeverityOfItems(env, items, c)
    decreases |items|
  {
    if items != [] {
      SeverityOfAdd(env, groups, items[0].0, items[0].1, c);
      SeverityOfAddAll(env, Add(groups, items[0].0, items[0].1), items[1..], c);
    }
  }

  lemma {:induction false} SeverityOfPlacements(env: Env, vi: Vi, failures: seq<Finding>, c: Category)
    ensures SeverityOfItems(env, Placements(vi, failures), c) == CountIn(env, failures, c)
  {
    if failures != [] {
      SeverityOfPlacements(env, vi, failures[1..], c);
    }
  }

  lemma {:induction false} SeverityJoin(env: Env, a: seq<(string, Placed)>, b: seq<(string, Placed)>, c: Category)
    ensures SeverityOfItems(env, a + b, c) == SeverityOfItems(env, a, c) + SeverityOfItems(env, b, c)
  {
    if a == [] {
      assert a + b == b;
    } else {
      assert (a + b)[1..] == a[1..] + b;
      SeverityJoin(env, a[1..], b, c);
    }
  }

  lemma {:induction false} SeverityOfAllPlacements(env: Env, vis: seq<Vi>, c: Category)
    requires forall i :: 0 <= i < |vis| ==> vis[i].counts == Counts(env, vis[i].failures)
    ensures SeverityOfItems(env, AllPlacements(vis), c) == SeverityOfVis(vis, c)
  {
    if vis != [] {
      SeverityOfAllPlacements(env, vis[1..], c);
      SeverityOfPlacements(env, vis[0], vis[0].failures, c);
      SeverityJoin(env, Placements(vis[0], vis[0].failures), AllPlacements(vis[1..]), c);
    }
  }

  lemma {:induction false} SeverityOfMapped(env: Env, groups: seq<Group<string, Placed>>, c: Category)
    ensures SeverityOfRules(WithSortedVis(env, Rules(env, groups)), c) == SeverityOfGroups(env, groups, c)
  {
    if groups != [] {
      SeverityOfMapped(env, groups[1..], c);
      assert Rules(env, groups)[1..] == Rules(env, groups[1..]);
    }
  }

  lemma {:induction false} SeverityInsert(env: Env, r: Rule, rules: seq<Rule>, c: Category)
    ensures SeverityOfRules(Insert(r, rules, RuleOrder(env)), c)
         == (if r.severity == c then r.count else 0) + SeverityOfRules(rules, c)
  {
    if rules != [] && !RuleOrder(env)(r, rules[0]) {
      SeverityInsert(env, r, rules[1..], c);
    } else {
      assert ([r] + rules)[1..] == rules;
    }
  }

  lemma {:induction false} SeveritySort(env: Env, rules: seq<Rule>, c: Category)
    ensures SeverityOfRules(Sort(rules, RuleOrder(env)), c) == SeverityOfRules(rules, c)
  {
    if rules != [] {
      SeveritySort(env, rules[1..], c);
      SeverityInsert(env, rules[0], Sort(rules[1..], RuleOrder(env)), c);
    }
  }

  lemma {:induction false} VisCounted(env: Env, blocks: seq<Block>)
    ensures forall i :: 0 <= i < |Vis(env, blocks)| ==>
      var vi := Vis(env, blocks)[i];
      vi.counts == Counts(env, vi.failures) && vi.total == |vi.failures| > 0
  {
    if blocks != [] {
      VisCounted(env, blocks[1..]);
    }
  }

  /** Both views of a report tell the same story: per category, the VIs' counts and the
      rules' counts have the same sum. */
  lemma SeveritiesAgree(env: Env, blocks: seq<Block>, c: Category)
    ensures var vis := Vis(env, blocks);
      && (forall i :: 0 <= i < |vis| ==> c in vis[i].counts)
      && SeverityOfVis(vis, c) == SeverityOfRules(Pivot(env, vis), c)
  {
    var vis := Vis(env, blocks);
    VisCounted(env, blocks);
    var groups := GroupBy(AllPlacements(vis));
    SeverityOfAllPlacements(env, vis, c);
    SeverityOfAddAll(env, [], AllPlacements(vis), c);
    SeverityOfMapped(env, groups, c);
    SeveritySort(env, WithSortedVis(env, Rules(env, groups)), c);
  }
}
