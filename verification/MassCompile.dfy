/** The Mass Compile report: three passes over the log's matches fold into one card per VI,
    and the number of bad VIs becomes a status and a percentage. */
module MassCompile {
  import opened Grouping
  import opened Sorting

  // ----- the log's matches -----

  /** The text helpers: lower case, container path to repository path, last path
      component, and whether a path belongs to the CI tooling. */
  datatype Names = Names(lower: string -> string, viRel: string -> string, baseName: string -> string,
                         tooling: string -> bool)

  datatype BadLine = BadLine(qual: string, path: string)

  /** flagged: the 80 characters before the match say "bad vi". */
  datatype PathLine = PathLine(path: string, flagged: bool)

  datatype Failure = Failure(dep: string, from: string, caller: string)

  datatype Log = Log(bads: seq<BadLine>, paths: seq<PathLine>, failures: seq<Failure>)

  // ----- cards -----

  datatype Severity = Broken | Dependency

  datatype Problem = Problem(severity: Severity, message: string)

  const BAD_VI := Problem(Broken, "LabVIEW flagged this VI as bad — it failed to load or compile in this container.")

  datatype Card = Card(name: string, rel: string, problems: seq<Problem>)

  datatype Kind = Header | Loose | Missing(message: string)

  /** One match, attributed to a VI. */
  datatype Mention = Mention(name: string, rel: string, kind: Kind)

  predicate EndsInVi(s: string) {
    |s| >= 3 && s[|s| - 3..] == ".vi"
  }

  predicate Accepted(n: Names, path: string) {
    EndsInVi(n.lower(n.viRel(path))) && !n.tooling(n.viRel(path))
  }

  function KeyOf(n: Names, path: string): string {
    n.lower(n.viRel(path))
  }

  function HeaderMention(n: Names, b: BadLine): Mention {
    var rel := n.viRel(b.path);
    Mention(if n.baseName(rel) != "" then n.baseName(rel) else n.baseName(b.qual), rel, Header)
  }

  function HeaderMentions(n: Names, bads: seq<BadLine>): seq<(string, Mention)> {
    if bads == [] then []
    else if Accepted(n, bads[0].path) then
      [(KeyOf(n, bads[0].path), HeaderMention(n, bads[0]))] + HeaderMentions(n, bads[1..])
    else HeaderMentions(n, bads[1..])
  }

  function Paired(n: Names, bads: seq<BadLine>): set<string> {
    set b | b in bads && Accepted(n, b.path) :: n.lower(b.path)
  }

  function LooseMentions(n: Names, paths: seq<PathLine>, paired: set<string>): seq<(string, Mention)> {
    if paths == [] then []
    else if n.lower(paths[0].path) !in paired && Accepted(n, paths[0].path) && paths[0].flagged then
      var rel := n.viRel(paths[0].path);
      [(KeyOf(n, paths[0].path), Mention(n.baseName(rel), rel, Loose))] + LooseMentions(n, paths[1..], paired)
    else LooseMentions(n, paths[1..], paired)
  }

  function MissingText(f: Failure): string {
    "Could not find subVI \"" + f.dep + "\"" + (if f.from != "" then " (last known at " + f.from + ")" else "") + "."
  }

  /** The caller's card: its only namesake in the workspace, or a card by name. */
  function Attributed(n: Names, byBase: map<string, seq<string>>, f: Failure): (string, Mention) {
    var base := n.lower(n.baseName(f.caller));
    if base in byBase && |byBase[base]| == 1 then
      (n.lower(byBase[base][0]), Mention(n.baseName(byBase[base][0]), byBase[base][0], Missing(MissingText(f))))
    else ("name:" + base, Mention(n.baseName(f.caller), "", Missing(MissingText(f))))
  }

  function MissingMentions(n: Names, byBase: map<string, seq<string>>, failures: seq<Failure>): seq<(string, Mention)> {
    if failures == [] then []
    else if failures[0].dep != "" && !n.tooling(Attributed(n, byBase, failures[0]).1.rel) then
      [Attributed(n, byBase, failures[0])] + MissingMentions(n, byBase, failures[1..])
    else MissingMentions(n, byBase, failures[1..])
  }

  /** The mentions that make a VI bad. */
  function BadMentions(n: Names, log: Log): seq<(string, Mention)> {
    HeaderMentions(n, log.bads) + LooseMentions(n, log.paths, Paired(n, log.bads))
  }

  function Mentions(n: Names, log: Log, byBase: map<string, seq<string>>): seq<(string, Mention)> {
    BadMentions(n, log) + MissingMentions(n, byBase, log.failures)
  }

  // ----- one mention -----

  const BLANK := Card("", "", [])

  /** What `touch` learns from a mention. */
  function Touched(c: Card, m: Mention): Card {
    c.(rel := if m.rel != "" && c.rel == "" then m.rel else c.rel,
       name := if m.name != "" && (c.name == "" || |m.name| > |c.name|) then m.name else c.name)
  }

  function Reported(problems: seq<Problem>, kind: Kind): seq<Problem> {
    match kind
    case Header => problems + [BAD_VI]
    case Loose => if exists p :: p in problems && p.severity == Broken then problems else problems + [BAD_VI]
    case Missing(msg) =>
      if Problem(Dependency, msg) in problems then problems else problems + [Problem(Dependency, msg)]
  }

  function After(c: Card, m: Mention): Card {
    Touched(c, m).(problems := Reported(c.problems, m.kind))
  }

  function CardOf(ms: seq<Mention>): Card {
    if ms == [] then BLANK else After(CardOf(ms[..|ms| - 1]), ms[|ms| - 1])
  }

  function CardEntry(g: Group<string, Mention>): (string, Card) {
    (g.key, CardOf(g.members))
  }

  /** The dictionary of cards, in the order in which its keys were added. */
  function Cards(groups: seq<Group<string, Mention>>): seq<(string, Card)> {
    MapGroups(groups, CardEntry)
  }

  function ParsedCards(n: Names, log: Log, byBase: map<string, seq<string>>): seq<(string, Card)> {
    Cards(GroupBy(Mentions(n, log, byBase)))
  }

  // ----- the passes -----

  function CardKey(entry: (string, Card)): string {
    entry.0
  }

  method FindCard(vis: seq<(string, Card)>, key: string, ghost groups: seq<Group<string, Mention>>) returns (j: nat)
    requires vis == Cards(groups)
    ensures j == Find(groups, key)
  {
    j := IndexOfKey(vis, CardKey, key);
    FindIs(groups, key, j);
  }

  lemma CardSnoc(ms: seq<Mention>, m: Mention)
    ensures CardOf(ms + [m]) == After(CardOf(ms), m)
  {
    assert (ms + [m])[..|ms|] == ms;
  }

  /** `touch`, and the problem that goes with the mention. */
  method Report(vis: seq<(string, Card)>, key: string, m: Mention, ghost groups: seq<Group<string, Mention>>)
    returns (vis': seq<(string, Card)>)
    requires vis == Cards(groups)
    ensures vis' == Cards(Add(groups, key, m))
  {
    var j := FindCard(vis, key, groups);
    MapGroupsAdd(groups, key, m, CardEntry, j);
    if j < |vis| {
      CardSnoc(groups[j].members, m);
      vis' := vis[j := (key, After(vis[j].1, m))];
    } else {
      CardSnoc([], m);
      assert [] + [m] == [m];
      vis' := vis + [(key, After(BLANK, m))];
    }
  }

  function KeySet(items: seq<(string, Mention)>): set<string> {
    set i | 0 <= i < |items| :: items[i].0
  }

  lemma KeySetCons(x: (string, Mention), items: seq<(string, Mention)>)
    ensures KeySet([x] + items) == {x.0} + KeySet(items)
  {
    assert ([x] + items)[0] == x;
    forall i | 0 <= i < |items|
      ensures items[i].0 in KeySet([x] + items)
    {
      assert ([x] + items)[i + 1] == items[i];
    }
  }

  method ReadHeaders(n: Names, bads: seq<BadLine>)
    returns (vis: seq<(string, Card)>, bad: set<string>, paired: set<string>)
    ensures vis == Cards(GroupBy(HeaderMentions(n, bads)))
    ensures bad == KeySet(HeaderMentions(n, bads)) && paired == Paired(n, bads)
  {
    vis, bad, paired := [], {}, {};
    ghost var groups := [];
    var i := 0;
    while i < |bads|
      invariant 0 <= i <= |bads|
      invariant vis == Cards(groups)
      invariant AddAll(groups, HeaderMentions(n, bads[i..])) == GroupBy(HeaderMentions(n, bads))
      invariant bad + KeySet(HeaderMentions(n, bads[i..])) == KeySet(HeaderMentions(n, bads))
      invariant paired == Paired(n, bads[..i])
    {
      var b := bads[i];
      HeaderStep(n, bads, i);
      if Accepted(n, b.path) {
        paired := paired + {n.lower(b.path)};
        bad := bad + {KeyOf(n, b.path)};
        vis := Report(vis, KeyOf(n, b.path), HeaderMention(n, b), groups);
        groups := Add(groups, KeyOf(n, b.path), HeaderMention(n, b));
      }
      i := i + 1;
    }
    assert bads[..i] == bads;
  }

  lemma HeaderStep(n: Names, bads: seq<BadLine>, i: nat)
    requires i < |bads|
    ensures var b := bads[i];
      var here, rest := HeaderMentions(n, bads[i..]), HeaderMentions(n, bads[i + 1..]);
      if Accepted(n, b.path) then
        && here == [(KeyOf(n, b.path), HeaderMention(n, b))] + rest
        && here[1..] == rest
        && KeySet(here) == {KeyOf(n, b.path)} + KeySet(rest)
        && Paired(n, bads[..i + 1]) == Paired(n, bads[..i]) + {n.lower(b.path)}
      else here == rest && Paired(n, bads[..i + 1]) == Paired(n, bads[..i])
  {
    var b := bads[i];
    assert bads[i..][1..] == bads[i + 1..];
    assert bads[..i + 1] == bads[..i] + [b];
    if Accepted(n, b.path) {
      KeySetCons((KeyOf(n, b.path), HeaderMention(n, b)), HeaderMentions(n, bads[i + 1..]));
    }
  }

  method ReadPaths(n: Names, paths: seq<PathLine>, paired: set<string>, before: seq<(string, Card)>,
                   ghost groups0: seq<Group<string, Mention>>)
    returns (vis: seq<(string, Card)>, bad: set<string>)
    requires before == Cards(groups0)
    ensures vis == Cards(AddAll(groups0, LooseMentions(n, paths, paired)))
    ensures bad == KeySet(LooseMentions(n, paths, paired))
  {
    vis, bad := before, {};
    ghost var groups := groups0;
    var i := 0;
    while i < |paths|
      invariant 0 <= i <= |paths|
      invariant vis == Cards(groups)
      invariant AddAll(groups, LooseMentions(n, paths[i..], paired)) == AddAll(groups0, LooseMentions(n, paths, paired))
      invariant bad + KeySet(LooseMentions(n, paths[i..], paired)) == KeySet(LooseMentions(n, paths, paired))
    {
      var p := paths[i].path;
      if n.lower(p) !in paired && Accepted(n, p) && paths[i].flagged {
        bad := bad + {KeyOf(n, p)};
        var rel := n.viRel(p);
        KeySetCons((KeyOf(n, p), Mention(n.baseName(rel), rel, Loose)), LooseMentions(n, paths[i + 1..], paired));
        vis := Report(vis, KeyOf(n, p), Mention(n.baseName(rel), rel, Loose), groups);
        groups := Add(groups, KeyOf(n, p), Mention(n.baseName(rel), rel, Loose));
      }
      i := i + 1;
    }
  }

  method ReadFailures(n: Names, failures: seq<Failure>, byBase: map<string, seq<string>>, before: seq<(string, Card)>,
                      ghost groups0: seq<Group<string, Mention>>)
    returns (vis: seq<(string, Card)>)
    requires before == Cards(groups0)
    ensures vis == Cards(AddAll(groups0, MissingMentions(n, byBase, failures)))
  {
    vis := before;
    ghost var groups := groups0;
    var i := 0;
    while i < |failures|
      invariant 0 <= i <= |failures|
      invariant vis == Cards(groups)
      invariant AddAll(groups, MissingMentions(n, byBase, failures[i..]))
          == AddAll(groups0, MissingMentions(n, byBase, failures))
    {
      var (key, m) := Attributed(n, byBase, failures[i]);
      if failures[i].dep != "" && !n.tooling(m.rel) {
        vis := Report(vis, key, m, groups);
        groups := Add(groups, key, m);
      }
      i := i + 1;
    }
  }

  method ParseLog(n: Names, log: Log, byBase: map<string, seq<string>>)
    returns (vis: seq<(string, Card)>, bad: set<string>)
    ensures vis == ParsedCards(n, log, byBase)
    ensures bad == KeySet(BadMentions(n, log))
  {
    ghost var hs := HeaderMentions(n, log.bads);
    var paired, more;
    vis, bad, paired := ReadHeaders(n, log.bads);
    vis, more := ReadPaths(n, log.paths, paired, vis, GroupBy(hs));
    bad := bad + more;
    ghost var ls := LooseMentions(n, log.paths, paired);
    KeySetJoin(hs, ls);
    AddAllJoin([], hs, ls);
    vis := ReadFailures(n, log.failures, byBase, vis, GroupBy(hs + ls));
    AddAllJoin([], hs + ls, MissingMentions(n, byBase, log.failures));
  }

  lemma KeySetJoin(a: seq<(string, Mention)>, b: seq<(string, Mention)>)
    ensures KeySet(a + b) == KeySet(a) + KeySet(b)
  {
    assert forall i :: 0 <= i < |a| ==> (a + b)[i] == a[i];
    forall i | 0 <= i < |b|
      ensures b[i].0 in KeySet(a + b)
    {
      assert (a + b)[|a| + i] == b[i];
    }
  }

  // ----- what a card holds -----

  function Copies(k: nat): (r: seq<Problem>)
    ensures |r| == k && forall p :: p in r ==> p == BAD_VI
  {
    if k == 0 then [] else Copies(k - 1) + [BAD_VI]
  }

  /** The messages of a list, each at its first appearance. */
  function Distinct(messages: seq<string>): (r: seq<string>)
    ensures forall s :: s in r <==> s in messages
    ensures forall i, j :: 0 <= i < j < |r| ==> r[i] != r[j]
  {
    if messages == [] then []
    else
      var r := Distinct(messages[..|messages| - 1]);
      var last := messages[|messages| - 1];
      assert messages == messages[..|messages| - 1] + [last];
      if last in r then r else r + [last]
  }

  function Dependencies(messages: seq<string>): (r: seq<Problem>)
    ensures |r| == |messages|
    ensures forall i :: 0 <= i < |r| ==> r[i] == Problem(Dependency, messages[i])
  {
    seq(|messages|, i requires 0 <= i < |messages| => Problem(Dependency, messages[i]))
  }

  function Messages(ms: seq<Mention>): (r: seq<string>)
    requires forall m :: m in ms ==> m.kind.Missing?
    ensures |r| == |ms| && forall i :: 0 <= i < |r| ==> r[i] == ms[i].kind.message
  {
    seq(|ms|, i requires 0 <= i < |ms| => ms[i].kind.message)
  }

  /** What the three passes should leave on one VI's card: every header, one entry for any
      number of loose paths if there was no header, every distinct dependency message. */
  function Expected(hs: seq<Mention>, ls: seq<Mention>, fs: seq<Mention>): seq<Problem>
    requires forall m :: m in fs ==> m.kind.Missing?
  {
    Copies(if hs == [] && ls != [] then 1 else |hs|) + Dependencies(Distinct(Messages(fs)))
  }

  lemma {:induction false} HeaderProblems(hs: seq<Mention>)
    requires forall m :: m in hs ==> m.kind == Header
    ensures CardOf(hs).problems == Copies(|hs|)
  {
    if hs != [] {
      assert hs[|hs| - 1] in hs;
      HeaderProblems(hs[..|hs| - 1]);
    }
  }

  /** Broken problems already there, or none at all: what one more loose path adds. */
  lemma LooseStep(k: nat)
    ensures Reported(Copies(k), Loose) == Copies(if k == 0 then 1 else k)
  {
    if k == 0 {
      assert Copies(1) == Copies(0) + [BAD_VI];
    } else {
      assert Copies(k)[0] in Copies(k);
    }
  }

  lemma {:induction false} LooseProblems(hs: seq<Mention>, ls: seq<Mention>)
    requires forall m :: m in hs ==> m.kind == Header
    requires forall m :: m in ls ==> m.kind == Loose
    ensures CardOf(hs + ls).problems == Copies(if hs == [] && ls != [] then 1 else |hs|)
  {
    if ls == [] {
      assert hs + ls == hs;
      HeaderProblems(hs);
    } else {
      var ls0, l := ls[..|ls| - 1], ls[|ls| - 1];
      assert l in ls;
      LooseProblems(hs, ls0);
      assert hs + ls == (hs + ls0) + [l];
      CardSnoc(hs + ls0, l);
      LooseStep(if hs == [] && ls0 != [] then 1 else |hs|);
    }
  }

  lemma DistinctSnoc(messages: seq<string>, msg: string)
    ensures Distinct(messages + [msg]) == if msg in messages then Distinct(messages) else Distinct(messages) + [msg]
  {
    assert (messages + [msg])[..|messages|] == messages;
  }

  lemma {:induction false} MissingProblems(ms: seq<Mention>, k: nat, fs: seq<Mention>)
    requires CardOf(ms).problems == Copies(k)
    requires forall m :: m in fs ==> m.kind.Missing?
    ensures CardOf(ms + fs).problems == Copies(k) + Dependencies(Distinct(Messages(fs)))
  {
    if fs == [] {
      assert ms + fs == ms;
      assert Dependencies(Distinct(Messages([]))) == [];
    } else {
      var fs0, f := fs[..|fs| - 1], fs[|fs| - 1];
      assert f in fs;
      assert fs == fs0 + [f];
      MissingProblems(ms, k, fs0);
      assert ms + fs == (ms + fs0) + [f];
      CardSnoc(ms + fs0, f);
      MissingStep(k, fs0, f);
    }
  }

  lemma CardProblems(hs: seq<Mention>, ls: seq<Mention>, fs: seq<Mention>)
    requires forall m :: m in hs ==> m.kind == Header
    requires forall m :: m in ls ==> m.kind == Loose
    requires forall m :: m in fs ==> m.kind.Missing?
    ensures CardOf(hs + ls + fs).problems == Expected(hs, ls, fs)
  {
    LooseProblems(hs, ls);
    MissingProblems(hs + ls, if hs == [] && ls != [] then 1 else |hs|, fs);
  }

  lemma MissingStep(k: nat, fs: seq<Mention>, f: Mention)
    requires f.kind.Missing? && forall m :: m in fs ==> m.kind.Missing?
    ensures Reported(Copies(k) + Dependencies(Distinct(Messages(fs))), f.kind)
         == Copies(k) + Dependencies(Distinct(Messages(fs + [f])))
  {
    var msg := f.kind.message;
    assert Messages(fs + [f]) == Messages(fs) + [msg];
    DistinctSnoc(Messages(fs), msg);
    DependencyListed(k, Distinct(Messages(fs)), msg);
  }

  lemma DependencyListed(k: nat, messages: seq<string>, msg: string)
    ensures Problem(Dependency, msg) in Copies(k) + Dependencies(messages) <==> msg in messages
    ensures Dependencies(messages + [msg]) == Dependencies(messages) + [Problem(Dependency, msg)]
  {
    var ds := Dependencies(messages);
    if msg in messages {
      var i :| 0 <= i < |messages| && messages[i] == msg;
      assert ds[i] == Problem(Dependency, msg);
    }
    if Problem(Dependency, msg) in ds {
      var i :| 0 <= i < |ds| && ds[i] == Problem(Dependency, msg);
      assert messages[i] == msg;
    }
  }

  lemma {:induction false} HeadersAreHeaders(n: Names, bads: seq<BadLine>, key: string)
    ensures forall m :: m in ValuesOf(HeaderMentions(n, bads), key) ==> m.kind == Header && n.lower(m.rel) == key
  {
    if bads != [] {
      HeadersAreHeaders(n, bads[1..], key);
    }
  }

  lemma {:induction false} LooseAreLoose(n: Names, paths: seq<PathLine>, paired: set<string>, key: string)
    ensures forall m :: m in ValuesOf(LooseMentions(n, paths, paired), key) ==> m.kind == Loose && n.lower(m.rel) == key
  {
    if paths != [] {
      LooseAreLoose(n, paths[1..], paired, key);
    }
  }

  lemma {:induction false} MissingAreMissing(n: Names, byBase: map<string, seq<string>>, failures: seq<Failure>,
                                             key: string)
    ensures forall m :: m in ValuesOf(MissingMentions(n, byBase, failures), key) ==>
      m.kind.Missing? && (m.rel == "" || n.lower(m.rel) == key)
  {
    if failures != [] {
      MissingAreMissing(n, byBase, failures[1..], key);
    }
  }

  lemma {:induction false} KeySetIs(items: seq<(string, Mention)>, key: string)
    ensures key in KeySet(items) <==> ValuesOf(items, key) != []
  {
    if items != [] {
      assert items == [items[0]] + items[1..];
      KeySetCons(items[0], items[1..]);
      KeySetIs(items[1..], key);
    }
  }

  /** The mentions of one VI, pass by pass. */
  lemma PassByPass(n: Names, log: Log, byBase: map<string, seq<string>>, key: string)
    ensures var hs := ValuesOf(HeaderMentions(n, log.bads), key);
      var ls := ValuesOf(LooseMentions(n, log.paths, Paired(n, log.bads)), key);
      var fs := ValuesOf(MissingMentions(n, byBase, log.failures), key);
      && Members(GroupBy(Mentions(n, log, byBase)), key) == hs + ls + fs
      && (forall m :: m in hs ==> m.kind == Header) && (forall m :: m in ls ==> m.kind == Loose)
      && (forall m :: m in fs ==> m.kind.Missing?)
      && (key in KeySet(BadMentions(n, log)) <==> hs != [] || ls != [])
  {
    var h, l := HeaderMentions(n, log.bads), LooseMentions(n, log.paths, Paired(n, log.bads));
    GroupByPartitions(Mentions(n, log, byBase), key);
    ValuesOfAppend(h + l, MissingMentions(n, byBase, log.failures), key);
    ValuesOfAppend(h, l, key);
    HeadersAreHeaders(n, log.bads, key);
    LooseAreLoose(n, log.paths, Paired(n, log.bads), key);
    MissingAreMissing(n, byBase, log.failures, key);
    KeySetIs(h + l, key);
  }

  ghost predicate IsBroken(c: Card) {
    BAD_VI in c.problems
  }

  ghost predicate DistinctMessages(problems: seq<Problem>) {
    forall i, j ::
      0 <= i < j < |problems| && problems[i].severity == Dependency && problems[j].severity == Dependency ==>
        problems[i] != problems[j]
  }

  lemma ExpectedFacts(hs: seq<Mention>, ls: seq<Mention>, fs: seq<Mention>)
    requires forall m :: m in fs ==> m.kind.Missing?
    ensures var ps := Expected(hs, ls, fs);
      && (BAD_VI in ps <==> hs != [] || ls != [])
      && (forall p :: p in ps && p.severity == Broken ==> p == BAD_VI)
      && DistinctMessages(ps)
      && (hs + ls + fs != [] ==> ps != [])
  {
    var k := if hs == [] && ls != [] then 1 else |hs|;
    var ds := Dependencies(Distinct(Messages(fs)));
    assert forall i :: 0 <= i < k ==> (Copies(k) + ds)[i] == Copies(k)[i] && Copies(k)[i] in Copies(k);
    if k > 0 {
      assert (Copies(k) + ds)[0] == BAD_VI;
    }
    if fs != [] {
      assert Messages(fs)[0] in Messages(fs);
      assert Messages(fs)[0] in Distinct(Messages(fs));
    }
  }

  /** What a card says is what the log says about its VI: one broken problem per header, one
      for any number of loose paths if there was no header, and every distinct dependency
      message of the VI, once and in order. */
  lemma CardSaysWhatTheLogSays(n: Names, log: Log, byBase: map<string, seq<string>>, i: nat)
    requires i < |ParsedCards(n, log, byBase)|
    ensures var (key, c) := ParsedCards(n, log, byBase)[i];
      var headers := ValuesOf(HeaderMentions(n, log.bads), key);
      var loose := ValuesOf(LooseMentions(n, log.paths, Paired(n, log.bads)), key);
      var missing := ValuesOf(MissingMentions(n, byBase, log.failures), key);
      && (forall m :: m in missing ==> m.kind.Missing?)
      && c.problems == Copies(if headers == [] && loose != [] then 1 else |headers|)
          + Dependencies(Distinct(Messages(missing)))
  {
    var groups := GroupBy(Mentions(n, log, byBase));
    var key := groups[i].key;
    GroupByPartitions(Mentions(n, log, byBase), key);
    FindUnique(groups, i);
    PassByPass(n, log, byBase, key);
    CardProblems(ValuesOf(HeaderMentions(n, log.bads), key),
                 ValuesOf(LooseMentions(n, log.paths, Paired(n, log.bads)), key),
                 ValuesOf(MissingMentions(n, byBase, log.failures), key));
  }

  /** One bad count: the cards with a broken problem are exactly those of the bad VIs; no
      card is empty; no dependency is reported twice on a card; and every card holds just
      what the log says about its VI. */
  lemma CardsMatchTheLog(n: Names, log: Log, byBase: map<string, seq<string>>, i: nat)
    requires i < |ParsedCards(n, log, byBase)|
    ensures var (key, c) := ParsedCards(n, log, byBase)[i];
      && (IsBroken(c) <==> key in KeySet(BadMentions(n, log)))
      && (forall p :: p in c.problems && p.severity == Broken ==> p == BAD_VI)
      && c.problems != [] && DistinctMessages(c.problems)
  {
    var groups := GroupBy(Mentions(n, log, byBase));
    var key := groups[i].key;
    GroupByPartitions(Mentions(n, log, byBase), key);
    FindUnique(groups, i);
    PassByPass(n, log, byBase, key);
    var hs := ValuesOf(HeaderMentions(n, log.bads), key);
    var ls := ValuesOf(LooseMentions(n, log.paths, Paired(n, log.bads)), key);
    var fs := ValuesOf(MissingMentions(n, byBase, log.failures), key);
    CardProblems(hs, ls, fs);
    ExpectedFacts(hs, ls, fs);
  }

  /** Every bad VI has a card, and no two cards share a key. */
  lemma BadVisHaveCards(n: Names, log: Log, byBase: map<string, seq<string>>, key: string)
    requires key in KeySet(BadMentions(n, log))
    ensures exists i :: 0 <= i < |ParsedCards(n, log, byBase)| && ParsedCards(n, log, byBase)[i].0 == key
  {
    var groups := GroupBy(Mentions(n, log, byBase));
    PassByPass(n, log, byBase, key);
    var i := Find(groups, key);
    assert ParsedCards(n, log, byBase)[i].0 == key;
  }

  /** A card shows the longest name it was mentioned by. */
  lemma {:induction false} CardName(ms: seq<Mention>)
    ensures var c := CardOf(ms);
      && (forall i :: 0 <= i < |ms| ==> |ms[i].name| <= |c.name|)
      && (c.name == "" || exists i :: 0 <= i < |ms| && ms[i].name == c.name)
  {
    if ms != [] {
      CardName(ms[..|ms| - 1]);
    }
  }

  ghost predicate FirstPath(ms: seq<Mention>, i: nat, rel: string) {
    i < |ms| && ms[i].rel == rel && forall j :: 0 <= j < i ==> ms[j].rel == ""
  }

  /** A card shows the first path it was mentioned by. */
  lemma {:induction false} CardPath(ms: seq<Mention>)
    ensures var c := CardOf(ms);
      if c.rel == "" then forall i :: 0 <= i < |ms| ==> ms[i].rel == ""
      else exists i: nat :: FirstPath(ms, i, c.rel)
  {
    if ms != [] {
      var ms0 := ms[..|ms| - 1];
      CardPath(ms0);
      if CardOf(ms0).rel != "" {
        var i: nat :| FirstPath(ms0, i, CardOf(ms0).rel);
        assert FirstPath(ms, i, CardOf(ms0).rel);
      } else if CardOf(ms).rel != "" {
        assert FirstPath(ms, |ms| - 1, CardOf(ms).rel);
      }
    }
  }

  /** A card with a path is filed under that path, so cards with paths differ by more
      than letter case. */
  lemma ResolvedCardsMatchTheirKey(n: Names, log: Log, byBase: map<string, seq<string>>, i: nat)
    requires i < |ParsedCards(n, log, byBase)|
    ensures var (key, c) := ParsedCards(n, log, byBase)[i];
      c.rel != "" ==> n.lower(c.rel) == key
  {
    var groups := GroupBy(Mentions(n, log, byBase));
    var key := groups[i].key;
    GroupByPartitions(Mentions(n, log, byBase), key);
    FindUnique(groups, i);
    PassByPass(n, log, byBase, key);
    HeadersAreHeaders(n, log.bads, key);
    LooseAreLoose(n, log.paths, Paired(n, log.bads), key);
    MissingAreMissing(n, byBase, log.failures, key);
    var ms := groups[i].members;
    CardPath(ms);
    if CardOf(ms).rel != "" {
      var j: nat :| FirstPath(ms, j, CardOf(ms).rel);
      assert ms[j] in ms;
    }
  }

  ghost predicate KeysApart(vis: seq<(string, Card)>) {
    forall i, j :: 0 <= i < j < |vis| ==> vis[i].0 != vis[j].0
  }

  lemma CardKeysApart(n: Names, log: Log, byBase: map<string, seq<string>>)
    ensures KeysApart(ParsedCards(n, log, byBase))
  {
    GroupByPartitions(Mentions(n, log, byBase), "");
  }

  // ----- the report -----

  datatype Row = Row(name: string, rel: string, problems: seq<Problem>, total: nat, broken: nat, dependencies: nat)

  function Count(problems: seq<Problem>, sev: Severity): nat {
    if problems == [] then 0 else (if problems[0].severity == sev then 1 else 0) + Count(problems[1..], sev)
  }

  predicate ProblemLeq(p: Problem, q: Problem) {
    (p.severity == Broken && q.severity == Dependency) || (p.severity == q.severity && TextLeq(p.message, q.message))
  }

  function Shown(n: Names, c: Card): Row {
    Row(if c.name != "" then c.name else if c.rel != "" then n.baseName(c.rel) else "(unknown VI)", c.rel,
        Sort(c.problems, ProblemLeq), |c.problems|, Count(c.problems, Broken), Count(c.problems, Dependency))
  }

  function Label(n: Names, r: Row): string {
    if n.lower(r.rel) != "" then n.lower(r.rel) else n.lower(r.name)
  }

  /** Broken VIs first, then more problems first, then by path or name. */
  predicate Precedes(n: Names, r: Row, q: Row) {
    var rb, qb := r.broken > 0, q.broken > 0;
    (rb && !qb) || (rb == qb && (r.total > q.total || (r.total == q.total && TextLeq(Label(n, r), Label(n, q)))))
  }

  function RowOrder(n: Names): (Row, Row) -> bool {
    (r: Row, q: Row) => Precedes(n, r, q)
  }

  function Rows(n: Names, vis: seq<(string, Card)>): seq<Row> {
    if vis == [] then []
    else if vis[0].1.problems == [] then Rows(n, vis[1..])
    else [Shown(n, vis[0].1)] + Rows(n, vis[1..])
  }

  method CountSeverities(problems: seq<Problem>) returns (broken: nat, dependencies: nat)
    ensures broken == Count(problems, Broken) && dependencies == Count(problems, Dependency)
  {
    broken, dependencies := 0, 0;
    var i := 0;
    while i < |problems|
      invariant 0 <= i <= |problems|
      invariant broken + Count(problems[i..], Broken) == Count(problems, Broken)
      invariant dependencies + Count(problems[i..], Dependency) == Count(problems, Dependency)
    {
      if problems[i].severity == Broken {
        broken := broken + 1;
      } else {
        dependencies := dependencies + 1;
      }
      i := i + 1;
    }
  }

  method Show(n: Names, c: Card) returns (r: Row)
    ensures r == Shown(n, c)
  {
    var broken, dependencies := CountSeverities(c.problems);
    var name := if c.name != "" then c.name else if c.rel != "" then n.baseName(c.rel) else "(unknown VI)";
    r := Row(name, c.rel, Sort(c.problems, ProblemLeq), |c.problems|, broken, dependencies);
  }

  method FinalizeVis(n: Names, vis: seq<(string, Card)>) returns (rows: seq<Row>)
    ensures rows == Sort(Rows(n, vis), RowOrder(n))
  {
    rows := [];
    var i := 0;
    while i < |vis|
      invariant 0 <= i <= |vis|
      invariant rows + Rows(n, vis[i..]) == Rows(n, vis)
    {
      if vis[i].1.problems != [] {
        var row := Show(n, vis[i].1);
        rows := rows + [row];
      }
      i := i + 1;
    }
    assert vis[i..] == [] && rows + [] == rows;
    rows := Sort(rows, RowOrder(n));
  }

  lemma {:induction false} CountsAddUp(problems: seq<Problem>)
    ensures Count(problems, Broken) + Count(problems, Dependency) == |problems|
    ensures Count(problems, Broken) > 0 <==> exists p :: p in problems && p.severity == Broken
  {
    if problems != [] {
      CountsAddUp(problems[1..]);
      assert problems[0] in problems;
      assert forall p :: p in problems <==> p == problems[0] || p in problems[1..];
    }
  }

  lemma PrecedesOrders(n: Names)
    ensures TotalPreorder(RowOrder(n))
  {
    forall x: Row, y: Row
      ensures RowOrder(n)(x, y) || RowOrder(n)(y, x)
    {
      TextLeqOrders(Label(n, x), Label(n, y), "");
    }
    forall x: Row, y: Row, z: Row | RowOrder(n)(x, y) && RowOrder(n)(y, z)
      ensures RowOrder(n)(x, z)
    {
      TextLeqOrders(Label(n, x), Label(n, y), Label(n, z));
    }
  }

  function BrokenRows(rows: seq<Row>): nat {
    if rows == [] then 0 else (if rows[0].broken > 0 then 1 else 0) + BrokenRows(rows[1..])
  }

  ghost predicate HasBroken(vis: seq<(string, Card)>, key: string) {
    exists i :: 0 <= i < |vis| && vis[i].0 == key && Count(vis[i].1.problems, Broken) > 0
  }

  /** As many rows are broken as keys carry a broken problem. */
  lemma {:induction false} BrokenRowsOfCards(n: Names, vis: seq<(string, Card)>, bad: set<string>)
    requires KeysApart(vis)
    requires forall k :: k in bad <==> HasBroken(vis, k)
    ensures BrokenRows(Rows(n, vis)) == |bad|
    decreases |vis|
  {
    if vis == [] {
      assert bad == {};
    } else {
      var k0, rest := vis[0].0, vis[1..];
      forall k
        ensures k in bad - {k0} <==> HasBroken(rest, k)
      {
        if HasBroken(vis, k) && k != k0 {
          var i :| 0 <= i < |vis| && vis[i].0 == k && Count(vis[i].1.problems, Broken) > 0;
          assert rest[i - 1] == vis[i];
        }
        if HasBroken(rest, k) {
          var i :| 0 <= i < |rest| && rest[i].0 == k && Count(rest[i].1.problems, Broken) > 0;
          assert vis[i + 1] == rest[i];
        }
      }
      BrokenRowsOfCards(n, rest, bad - {k0});
      assert k0 in bad <==> Count(vis[0].1.problems, Broken) > 0;
    }
  }

  lemma {:induction false} SortedBrokenFirst(n: Names, rows: seq<Row>)
    requires SortedBy(rows, RowOrder(n))
    ensures BrokenRows(rows) <= |rows|
    ensures forall i :: 0 <= i < |rows| ==> (rows[i].broken > 0 <==> i < BrokenRows(rows))
  {
    if rows != [] {
      SortedBrokenFirst(n, rows[1..]);
      if rows[0].broken == 0 && BrokenRows(rows[1..]) > 0 {
        assert RowOrder(n)(rows[0], rows[1]);
      }
    }
  }

  lemma {:induction false} BrokenRowsInsert(n: Names, r: Row, rows: seq<Row>)
    ensures BrokenRows(Insert(r, rows, RowOrder(n))) == BrokenRows([r] + rows)
  {
    assert ([r] + rows)[1..] == rows;
    if rows != [] && !RowOrder(n)(r, rows[0]) {
      BrokenRowsInsert(n, r, rows[1..]);
      assert ([r] + rows[1..])[1..] == rows[1..];
    }
  }

  lemma {:induction false} BrokenRowsSort(n: Names, rows: seq<Row>)
    ensures BrokenRows(Sort(rows, RowOrder(n))) == BrokenRows(rows)
  {
    if rows != [] {
      BrokenRowsSort(n, rows[1..]);
      BrokenRowsInsert(n, rows[0], Sort(rows[1..], RowOrder(n)));
      assert ([rows[0]] + Sort(rows[1..], RowOrder(n)))[1..] == Sort(rows[1..], RowOrder(n));
    }
  }

  /** The report of a log: as many rows as cards, and the first |bad| of them, and no
      others, are broken. */
  lemma BadVisComeFirst(n: Names, log: Log, byBase: map<string, seq<string>>)
    ensures var rows := Sort(Rows(n, ParsedCards(n, log, byBase)), RowOrder(n));
      var bad := |KeySet(BadMentions(n, log))|;
      && |rows| == |ParsedCards(n, log, byBase)|
      && bad <= |rows|
      && (forall i :: 0 <= i < |rows| ==> (rows[i].broken > 0 <==> i < bad))
  {
    var vis := ParsedCards(n, log, byBase);
    var bad := KeySet(BadMentions(n, log));
    CardKeysApart(n, log, byBase);
    forall k
      ensures k in bad <==> HasBroken(vis, k)
    {
      if k in bad {
        BadVisHaveCards(n, log, byBase, k);
        var i :| 0 <= i < |vis| && vis[i].0 == k;
        CardsMatchTheLog(n, log, byBase, i);
        CountsAddUp(vis[i].1.problems);
      }
      if HasBroken(vis, k) {
        var i :| 0 <= i < |vis| && vis[i].0 == k && Count(vis[i].1.problems, Broken) > 0;
        CardsMatchTheLog(n, log, byBase, i);
        CountsAddUp(vis[i].1.problems);
      }
    }
    BrokenRowsOfCards(n, vis, bad);
    forall i | 0 <= i < |vis|
      ensures vis[i].1.problems != []
    {
      CardsMatchTheLog(n, log, byBase, i);
    }
    AllCardsShown(n, vis);
    BrokenRowsSort(n, Rows(n, vis));
    PrecedesOrders(n);
    SortSorted(Rows(n, vis), RowOrder(n));
    SortedBrokenFirst(n, Sort(Rows(n, vis), RowOrder(n)));
  }

  lemma {:induction false} AllCardsShown(n: Names, vis: seq<(string, Card)>)
    requires forall i :: 0 <= i < |vis| ==> vis[i].1.problems != []
    ensures |Rows(n, vis)| == |vis|
    ensures forall i :: 0 <= i < |vis| ==> Rows(n, vis)[i] == Shown(n, vis[i].1)
  {
    if vis != [] {
      AllCardsShown(n, vis[1..]);
    }
  }

  /** A row's problems are its card's, worst first, and its severity counts add up. */
  lemma RowsKeepProblems(n: Names, c: Card)
    ensures var r := Shown(n, c);
      && multiset(r.problems) == multiset(c.problems)
      && r.broken + r.dependencies == r.total == |r.problems|
      && (forall i :: 0 <= i < |r.problems| ==> (r.problems[i].severity == Broken <==> i < r.broken))
  {
    SortPermutes(c.problems, ProblemLeq);
    CountsAddUp(c.problems);
    BrokenProblemsFirst(c.problems);
  }

  lemma {:induction false} BrokenProblemsFirst(problems: seq<Problem>)
    ensures forall i :: 0 <= i < |problems| ==>
        (Sort(problems, ProblemLeq)[i].severity == Broken <==> i < Count(problems, Broken))
  {
    if problems != [] {
      BrokenProblemsFirst(problems[1..]);
      CountsAddUp(problems[1..]);
      BrokenInserted(problems[0], Sort(problems[1..], ProblemLeq), Count(problems[1..], Broken));
    }
  }

  lemma {:induction false} BrokenInserted(p: Problem, s: seq<Problem>, k: nat)
    requires k <= |s| && forall i :: 0 <= i < |s| ==> (s[i].severity == Broken <==> i < k)
    ensures var k' := if p.severity == Broken then k + 1 else k;
      forall i :: 0 <= i <= |s| ==> (Insert(p, s, ProblemLeq)[i].severity == Broken <==> i < k')
  {
    if s != [] && !ProblemLeq(p, s[0]) {
      BrokenInserted(p, s[1..], if k > 0 then k - 1 else 0);
    }
  }

  function MissingDeps(rows: seq<Row>): nat {
    if rows == [] then 0 else Count(rows[0].problems, Dependency) + MissingDeps(rows[1..])
  }

  method CountMissing(rows: seq<Row>) returns (missing: nat)
    ensures missing == MissingDeps(rows)
  {
    missing := 0;
    var i := 0;
    while i < |rows|
      invariant 0 <= i <= |rows|
      invariant missing + MissingDeps(rows[i..]) == MissingDeps(rows)
    {
      var _, d := CountSeverities(rows[i].problems);
      missing := missing + d;
      i := i + 1;
    }
  }

  // ----- the number of missing dependencies -----

  function DepMessages(problems: seq<Problem>): (r: seq<string>)
    ensures |r| == Count(problems, Dependency)
    ensures forall s :: s in r <==> Problem(Dependency, s) in problems
  {
    if problems == [] then []
    else if problems[0].severity == Dependency then [problems[0].message] + DepMessages(problems[1..])
    else DepMessages(problems[1..])
  }

  lemma {:induction false} DepMessagesDistinct(problems: seq<Problem>)
    requires DistinctMessages(problems)
    ensures forall i, j :: 0 <= i < j < |DepMessages(problems)| ==> DepMessages(problems)[i] != DepMessages(problems)[j]
  {
    if problems != [] {
      var rest := problems[1..];
      forall i, j | 0 <= i < j < |rest| && rest[i].severity == Dependency && rest[j].severity == Dependency
        ensures rest[i] != rest[j]
      {
        assert problems[i + 1] != problems[j + 1];
      }
      DepMessagesDistinct(rest);
      if problems[0].severity == Dependency {
        forall j | 0 <= j < |rest| && rest[j].severity == Dependency
          ensures rest[j] != problems[0]
        {
          assert problems[0] != problems[j + 1];
        }
        assert problems[0] !in rest;
      }
    }
  }

  function KeyPairs(key: string, messages: seq<string>): set<(string, string)> {
    set s | s in messages :: (key, s)
  }

  lemma {:induction false} KeyPairsSize(key: string, messages: seq<string>)
    requires forall i, j :: 0 <= i < j < |messages| ==> messages[i] != messages[j]
    ensures |KeyPairs(key, messages)| == |messages|
  {
    if messages == [] {
      assert KeyPairs(key, messages) == {};
    } else {
      var ms, last := messages[..|messages| - 1], messages[|messages| - 1];
      KeyPairsSize(key, ms);
      assert messages == ms + [last];
      assert KeyPairs(key, messages) == KeyPairs(key, ms) + {(key, last)};
      assert last !in ms;
    }
  }

  function CardPairs(vis: seq<(string, Card)>): set<(string, string)> {
    if vis == [] then {} else KeyPairs(vis[0].0, DepMessages(vis[0].1.problems)) + CardPairs(vis[1..])
  }

  ghost predicate Reports(vis: seq<(string, Card)>, pair: (string, string)) {
    exists i :: 0 <= i < |vis| && vis[i].0 == pair.0 && Problem(Dependency, pair.1) in vis[i].1.problems
  }

  lemma {:induction false} CardPairsAre(vis: seq<(string, Card)>)
    ensures forall pair :: pair in CardPairs(vis) <==> Reports(vis, pair)
  {
    if vis != [] {
      CardPairsAre(vis[1..]);
      forall pair
        ensures pair in CardPairs(vis) <==> Reports(vis, pair)
      {
        if Reports(vis, pair) {
          var i :| 0 <= i < |vis| && vis[i].0 == pair.0 && Problem(Dependency, pair.1) in vis[i].1.problems;
          assert i > 0 ==> vis[1..][i - 1] == vis[i];
        }
        if Reports(vis[1..], pair) {
          var i :| 0 <= i < |vis[1..]| && vis[1..][i].0 == pair.0
              && Problem(Dependency, pair.1) in vis[1..][i].1.problems;
          assert vis[i + 1] == vis[1..][i];
        }
      }
    }
  }

  lemma {:induction false} MissingDepsOfCards(n: Names, vis: seq<(string, Card)>)
    requires KeysApart(vis)
    requires forall i :: 0 <= i < |vis| ==> DistinctMessages(vis[i].1.problems)
    ensures MissingDeps(Rows(n, vis)) == |CardPairs(vis)|
  {
    if vis != [] {
      var here, rest := KeyPairs(vis[0].0, DepMessages(vis[0].1.problems)), CardPairs(vis[1..]);
      MissingDepsOfCards(n, vis[1..]);
      DepMessagesDistinct(vis[0].1.problems);
      KeyPairsSize(vis[0].0, DepMessages(vis[0].1.problems));
      CardPairsAre(vis[1..]);
      forall pair | pair in rest
        ensures pair.0 != vis[0].0
      {
        var i :| 0 <= i < |vis[1..]| && vis[1..][i].0 == pair.0;
        assert vis[i + 1].0 != vis[0].0;
      }
      assert here * rest == {};
      CountSorted(vis[0].1.problems);
    }
  }

  lemma {:induction false} CountInserted(p: Problem, s: seq<Problem>)
    ensures Count(Insert(p, s, ProblemLeq), Dependency) == Count([p] + s, Dependency)
  {
    assert ([p] + s)[1..] == s;
    if s != [] && !ProblemLeq(p, s[0]) {
      CountInserted(p, s[1..]);
      assert ([p] + s[1..])[1..] == s[1..];
    }
  }

  lemma {:induction false} CountSorted(problems: seq<Problem>)
    ensures Count(Sort(problems, ProblemLeq), Dependency) == Count(problems, Dependency)
  {
    if problems != [] {
      CountSorted(problems[1..]);
      CountInserted(problems[0], Sort(problems[1..], ProblemLeq));
      assert ([problems[0]] + Sort(problems[1..], ProblemLeq))[1..] == Sort(problems[1..], ProblemLeq);
    }
  }

  /** The calling VIs and what the log could not find for them. */
  ghost function MissingPairs(n: Names, byBase: map<string, seq<string>>,
                              failures: seq<Failure>): set<(string, string)> {
    set f | f in failures && f.dep != "" && !n.tooling(Attributed(n, byBase, f).1.rel) ::
      (Attributed(n, byBase, f).0, MissingText(f))
  }

  lemma {:induction false} MissingValues(n: Names, byBase: map<string, seq<string>>, failures: seq<Failure>,
                                         key: string, msg: string)
    ensures (key, msg) in MissingPairs(n, byBase, failures) <==>
      exists m :: m in ValuesOf(MissingMentions(n, byBase, failures), key) && m.kind == Missing(msg)
  {
    if failures != [] {
      var f, rest := failures[0], failures[1..];
      MissingValues(n, byBase, rest, key, msg);
      assert failures == [f] + rest;
      assert MissingPairs(n, byBase, failures) == MissingPairs(n, byBase, [f]) + MissingPairs(n, byBase, rest);
      assert f in [f];
      var (k, m) := Attributed(n, byBase, f);
      if f.dep != "" && !n.tooling(m.rel) {
        assert MissingPairs(n, byBase, [f]) == {(k, MissingText(f))};
        assert ValuesOf(MissingMentions(n, byBase, failures), key) ==
          (if k == key then [m] else []) + ValuesOf(MissingMentions(n, byBase, rest), key);
      }
    }
  }

  lemma ReportedPairs(n: Names, log: Log, byBase: map<string, seq<string>>, pair: (string, string))
    ensures Reports(ParsedCards(n, log, byBase), pair) <==> pair in MissingPairs(n, byBase, log.failures)
  {
    var (key, msg) := pair;
    var vis, groups := ParsedCards(n, log, byBase), GroupBy(Mentions(n, log, byBase));
    var hs := ValuesOf(HeaderMentions(n, log.bads), key);
    var ls := ValuesOf(LooseMentions(n, log.paths, Paired(n, log.bads)), key);
    var fs := ValuesOf(MissingMentions(n, byBase, log.failures), key);
    PassByPass(n, log, byBase, key);
    MissingValues(n, byBase, log.failures, key, msg);
    GroupByPartitions(Mentions(n, log, byBase), key);
    CardProblems(hs, ls, fs);
    DependencyListed(if hs == [] && ls != [] then 1 else |hs|, Distinct(Messages(fs)), msg);
    MessageListed(fs, msg);
    if msg in Messages(fs) {
      var i := Find(groups, key);
      assert vis[i] == (key, CardOf(groups[i].members));
    }
    if Reports(vis, pair) {
      var i :| 0 <= i < |vis| && vis[i].0 == pair.0 && Problem(Dependency, pair.1) in vis[i].1.problems;
      FindUnique(groups, i);
    }
  }

  lemma MessageListed(fs: seq<Mention>, msg: string)
    requires forall m :: m in fs ==> m.kind.Missing?
    ensures msg in Messages(fs) <==> exists m :: m in fs && m.kind == Missing(msg)
  {
    if msg in Messages(fs) {
      var i :| 0 <= i < |fs| && Messages(fs)[i] == msg;
      assert fs[i].kind == Missing(msg) && fs[i] in fs;
    }
    if m :| m in fs && m.kind == Missing(msg) {
      var i :| 0 <= i < |fs| && fs[i] == m;
      assert Messages(fs)[i] == msg;
    }
  }

  lemma {:induction false} MissingDepsInsert(n: Names, r: Row, rows: seq<Row>)
    ensures MissingDeps(Insert(r, rows, RowOrder(n))) == MissingDeps([r] + rows)
  {
    assert ([r] + rows)[1..] == rows;
    if rows != [] && !RowOrder(n)(r, rows[0]) {
      MissingDepsInsert(n, r, rows[1..]);
      assert ([r] + rows[1..])[1..] == rows[1..];
    }
  }

  lemma {:induction false} MissingDepsSort(n: Names, rows: seq<Row>)
    ensures MissingDeps(Sort(rows, RowOrder(n))) == MissingDeps(rows)
  {
    if rows != [] {
      MissingDepsSort(n, rows[1..]);
      MissingDepsInsert(n, rows[0], Sort(rows[1..], RowOrder(n)));
      assert ([rows[0]] + Sort(rows[1..], RowOrder(n)))[1..] == Sort(rows[1..], RowOrder(n));
    }
  }

  /** The report's count of missing dependencies is the number of different messages,
      each counted once per calling VI, however often the log repeats it. */
  lemma MissingDepsIsExact(n: Names, log: Log, byBase: map<string, seq<string>>)
    ensures MissingDeps(Sort(Rows(n, ParsedCards(n, log, byBase)), RowOrder(n)))
        == |MissingPairs(n, byBase, log.failures)|
  {
    var vis := ParsedCards(n, log, byBase);
    CardKeysApart(n, log, byBase);
    forall i | 0 <= i < |vis|
      ensures DistinctMessages(vis[i].1.problems)
    {
      CardsMatchTheLog(n, log, byBase, i);
    }
    MissingDepsOfCards(n, vis);
    MissingDepsSort(n, Rows(n, vis));
    CardPairsAre(vis);
    forall pair
      ensures pair in CardPairs(vis) <==> pair in MissingPairs(n, byBase, log.failures)
    {
      ReportedPairs(n, log, byBase, pair);
    }
    assert CardPairs(vis) == MissingPairs(n, byBase, log.failures);
  }

  // ----- status and percentage -----

  datatype Status = Passed | Failed | Partial

  /** Python's `round` on n / d: to nearest, ties to even. */
  function HalfEven(n: nat, d: nat): nat
    requires d > 0
  {
    var q, r := n / d, n % d;
    if 2 * r < d then q else if 2 * r > d then q + 1 else if q % 2 == 0 then q else q + 1
  }

  datatype ExitCode = NoExit | Exit(code: int)

  predicate RealError(exit: ExitCode) {
    exit.Exit? && exit.code != 0 && exit.code != 3
  }

  function Classify(exit: ExitCode, total: nat, bad: nat): (Status, nat, nat) {
    var ok := if total > bad then total - bad else 0;
    var percent := if total > 0 then HalfEven(100 * ok, total) else 0;
    if RealError(exit) || total == 0 then (Failed, 0, 0)
    else if exit == Exit(0) && bad == 0 then (Passed, ok, percent)
    else if ok == 0 then (Failed, 0, 0)
    else (Partial, ok, percent)
  }

  /** percent is n / d rounded: within half, and even on a tie. */
  ghost predicate Rounds(percent: int, n: int, d: int) {
    var gap := 2 * (percent * d - n);
    -d <= gap <= d && ((gap == d || gap == -d) ==> percent % 2 == 0)
  }

  lemma HalfEvenRounds(n: nat, d: nat)
    requires d > 0
    ensures Rounds(HalfEven(n, d), n, d)
  {
    var q, r := n / d, n % d;
    assert n == q * d + r;
    assert (q + 1) * d == q * d + d;
  }

  /** At most one whole number rounds n / d. */
  lemma RoundingIsUnique(p: int, q: int, n: int, d: int)
    requires d > 0 && Rounds(p, n, d) && Rounds(q, n, d)
    ensures p == q
  {
    if p < q {
      GapGrows(p, q, d);
    } else if q < p {
      GapGrows(q, p, d);
    }
  }

  lemma GapGrows(p: int, q: int, d: int)
    requires d > 0 && p < q
    ensures q * d >= p * d + d && (q > p + 1 ==> q * d >= p * d + 2 * d)
  {
    ProductGrows(q - p - 1, d);
    assert q * d == p * d + d + (q - p - 1) * d;
  }

  lemma ProductGrows(a: int, d: int)
    requires a >= 0 && d > 0
    ensures a * d >= 0 && (a > 0 ==> a * d >= d)
  {
    if a > 0 {
      assert a * d == (a - 1) * d + d;
    }
  }

  lemma RoundingIsMonotone(p: int, q: int, n: int, m: int, d: int)
    requires d > 0 && n <= m && Rounds(p, n, d) && Rounds(q, m, d)
    ensures p <= q
  {
    if q < p {
      GapGrows(q, p, d);
    }
  }

  /** The status is honest: failed shows nothing; otherwise the count is exact, positive and
      bounded, and the percentage is its share rounded half to even. */
  lemma ClassifyIsHonest(exit: ExitCode, total: nat, bad: nat)
    ensures var (status, ok, percent) := Classify(exit, total, bad);
      && (status == Failed <==> (exit.Exit? && exit.code !in {0, 3}) || total == 0 || bad >= total)
      && (status == Failed ==> ok == 0 && percent == 0)
      && (status == Passed <==> exit == Exit(0) && total > 0 && bad == 0)
      && (status != Failed ==>
            0 < ok == total - bad <= total && 0 <= percent <= 100 && Rounds(percent, 100 * ok, total))
  {
    if total > 0 {
      var ok := if total > bad then total - bad else 0;
      HalfEvenRounds(100 * ok, total);
      HalfEvenRounds(100 * total, total);
      assert Rounds(100, 100 * total, total);
      RoundingIsMonotone(HalfEven(100 * ok, total), 100, 100 * ok, 100 * total, total);
    }
  }

  /** Fewer bad VIs never lower the percentage. */
  lemma PercentIsMonotone(exit: ExitCode, total: nat, bad: nat, fewer: nat)
    requires fewer <= bad
    ensures Classify(exit, total, bad).2 <= Classify(exit, total, fewer).2
  {
    if total > bad {
      HalfEvenRounds(100 * (total - bad), total);
      HalfEvenRounds(100 * (total - fewer), total);
      RoundingIsMonotone(HalfEven(100 * (total - bad), total), HalfEven(100 * (total - fewer), total),
                         100 * (total - bad), 100 * (total - fewer), total);
    }
  }

  /** A partial run shows 100 % exactly when at most one VI in 200 is bad. */
  lemma PartialAtHundred(exit: ExitCode, total: nat, bad: nat)
    requires Classify(exit, total, bad).0 == Partial
    ensures Classify(exit, total, bad).2 == 100 <==> 200 * bad <= total
  {
    ClassifyIsHonest(exit, total, bad);
    var p := Classify(exit, total, bad).2;
    if 200 * bad <= total {
      assert Rounds(100, 100 * (total - bad), total);
      RoundingIsUnique(p, 100, 100 * (total - bad), total);
    } else {
      assert p == 100 ==> 2 * (100 * total - 100 * (total - bad)) <= total;
    }
  }
}
