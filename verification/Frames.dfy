/** The diagram tree of the VI renderer: the root frame, the grouping of sibling cases,
    and the recursive painting. */
module Frames {
  import opened Grouping

  datatype Rect = Rect(left: int, top: int, width: int, height: int)

  /** One frame: where it sits and which frames it lists as children. */
  datatype Frame = Frame(rect: Rect, children: seq<int>)

  // ----- the root -----

  ghost predicate ListedBy(frames: seq<Frame>, p: int, i: int) {
    0 <= p < |frames| && i in frames[p].children
  }

  ghost predicate Referenced(frames: seq<Frame>, i: int) {
    exists p :: ListedBy(frames, p, i)
  }

  /** The first frame that no frame lists, or frame 0 when every frame is listed. */
  method FindRoot(frames: seq<Frame>) returns (root: nat)
    ensures (exists i :: 0 <= i < |frames| && !Referenced(frames, i)) ==>
      root < |frames| && !Referenced(frames, root) && forall j :: 0 <= j < root ==> Referenced(frames, j)
    ensures (forall i :: 0 <= i < |frames| ==> Referenced(frames, i)) ==> root == 0
  {
    var referenced: set<int> := {};
    var p := 0;
    while p < |frames|
      invariant 0 <= p <= |frames|
      invariant forall i :: i in referenced <==> exists q :: 0 <= q < p && ListedBy(frames, q, i)
    {
      var listed := set i | i in frames[p].children;
      forall i
        ensures i in referenced + listed <==> exists q :: 0 <= q < p + 1 && ListedBy(frames, q, i)
      {
        if i in listed {
          assert ListedBy(frames, p, i);
        }
      }
      referenced := referenced + listed;
      p := p + 1;
    }
    forall i
      ensures i in referenced <==> Referenced(frames, i)
    {
    }
    root := 0;
    while root < |frames|
      invariant 0 <= root <= |frames|
      invariant forall j :: 0 <= j < root ==> Referenced(frames, j)
    {
      if root !in referenced {
        return;
      }
      root := root + 1;
    }
    root := 0;
  }

  /** The frames can be numbered so that every child has a larger number than the
      frame that lists it: there is no cycle. */
  ghost predicate Ranks(frames: seq<Frame>, rank: seq<nat>) {
    && |rank| == |frames|
    && forall p, a :: 0 <= p < |frames| && 0 <= a < |frames[p].children| && 0 <= frames[p].children[a] < |frames|
         ==> rank[p] < rank[frames[p].children[a]]
  }

  ghost predicate Acyclic(frames: seq<Frame>) {
    exists rank :: Ranks(frames, rank)
  }

  ghost predicate InRange(frames: seq<Frame>) {
    forall p, a :: 0 <= p < |frames| && 0 <= a < |frames[p].children| ==> 0 <= frames[p].children[a] < |frames|
  }

  /** No frame is listed twice, in one list or in two. */
  ghost predicate ListedOnce(frames: seq<Frame>) {
    forall p, a, p', a' ::
      (&& 0 <= p < |frames| && 0 <= a < |frames[p].children| && 0 <= p' < |frames| && 0 <= a' < |frames[p'].children|
       && frames[p].children[a] == frames[p'].children[a']) ==> p == p' && a == a'
  }

  ghost predicate Forest(frames: seq<Frame>) {
    InRange(frames) && ListedOnce(frames) && Acyclic(frames)
  }

  lemma ParentRank(frames: seq<Frame>, rank: seq<nat>, p: int, i: int)
    requires Ranks(frames, rank) && ListedBy(frames, p, i) && 0 <= i < |frames|
    ensures rank[p] < rank[i]
  {
    var a :| 0 <= a < |frames[p].children| && frames[p].children[a] == i;
  }

  lemma {:induction false} LowestRank(rank: seq<nat>, n: nat) returns (i: nat)
    requires 0 < n <= |rank|
    ensures i < n && forall j :: 0 <= j < n ==> rank[i] <= rank[j]
  {
    if n == 1 {
      i := 0;
    } else {
      i := LowestRank(rank, n - 1);
      if rank[n - 1] < rank[i] {
        i := n - 1;
      }
    }
  }

  /** Without a cycle some frame is unlisted, so the root is never the fallback. */
  lemma AcyclicHasRoot(frames: seq<Frame>)
    requires frames != [] && Acyclic(frames)
    ensures exists i :: 0 <= i < |frames| && !Referenced(frames, i)
  {
    var rank :| Ranks(frames, rank);
    var i := LowestRank(rank, |rank|);
    if Referenced(frames, i) {
      var p :| ListedBy(frames, p, i);
      ParentRank(frames, rank, p, i);
    }
  }

  // ----- grouping siblings -----

  function RectItems(frames: seq<Frame>, indices: seq<int>): seq<(Rect, int)>
    requires forall a :: 0 <= a < |indices| ==> 0 <= indices[a] < |frames|
  {
    if indices == [] then [] else [(frames[indices[0]].rect, indices[0])] + RectItems(frames, indices[1..])
  }

  /** Siblings with the same rectangle are the cases of one structure. */
  method GroupStructures(frames: seq<Frame>, indices: seq<int>) returns (groups: seq<Group<Rect, int>>)
    requires forall a :: 0 <= a < |indices| ==> 0 <= indices[a] < |frames|
    ensures groups == GroupBy(RectItems(frames, indices))
  {
    groups := [];
    var i := 0;
    while i < |indices|
      invariant 0 <= i <= |indices|
      invariant AddAll(groups, RectItems(frames, indices[i..])) == GroupBy(RectItems(frames, indices))
    {
      var rect := frames[indices[i]].rect;
      var j := 0;
      while j < |groups| && groups[j].key != rect
        invariant 0 <= j <= |groups|
        invariant forall m :: 0 <= m < j ==> groups[m].key != rect
      {
        j := j + 1;
      }
      FindIs(groups, rect, j);
      groups := if j < |groups| then groups[j := Group(rect, groups[j].members + [indices[i]])]
                else groups + [Group(rect, [indices[i]])];
      i := i + 1;
    }
  }

  lemma {:induction false} RectItemsValues(frames: seq<Frame>, indices: seq<int>)
    requires forall a :: 0 <= a < |indices| ==> 0 <= indices[a] < |frames|
    ensures Values(RectItems(frames, indices)) == indices
  {
    if indices != [] {
      RectItemsValues(frames, indices[1..]);
    }
  }

  /** The siblings with a given rectangle, in their original order. */
  function WithRect(frames: seq<Frame>, indices: seq<int>, r: Rect): seq<int>
    requires forall a :: 0 <= a < |indices| ==> 0 <= indices[a] < |frames|
  {
    if indices == [] then []
    else if frames[indices[0]].rect == r then [indices[0]] + WithRect(frames, indices[1..], r)
    else WithRect(frames, indices[1..], r)
  }

  lemma {:induction false} RectItemsOf(frames: seq<Frame>, indices: seq<int>, r: Rect)
    requires forall a :: 0 <= a < |indices| ==> 0 <= indices[a] < |frames|
    ensures ValuesOf(RectItems(frames, indices), r) == WithRect(frames, indices, r)
  {
    if indices != [] {
      RectItemsOf(frames, indices[1..], r);
    }
  }

  /** Two siblings share a structure exactly when their rectangles are equal: a
      structure holds all the siblings of its rectangle, in order, no two structures
      have the same rectangle, and no sibling is lost or repeated. */
  lemma StructuresSplitByRect(frames: seq<Frame>, indices: seq<int>, i: nat)
    requires forall a :: 0 <= a < |indices| ==> 0 <= indices[a] < |frames|
    requires i < |GroupBy(RectItems(frames, indices))|
    ensures var groups := GroupBy(RectItems(frames, indices));
      && groups[i].members == WithRect(frames, indices, groups[i].key)
      && groups[i].members != []
      && DistinctKeys(groups)
      && multiset(Flatten(groups)) == multiset(indices)
  {
    var items := RectItems(frames, indices);
    var groups := GroupBy(items);
    GroupByPartitions(items, groups[i].key);
    FindUnique(groups, i);
    RectItemsOf(frames, indices, groups[i].key);
    AddAllPermutes([], items);
    RectItemsValues(frames, indices);
  }

  // ----- painting -----

  ghost predicate Bounded(rank: seq<nat>, bound: nat) {
    forall i :: 0 <= i < |rank| ==> rank[i] <= bound
  }

  ghost predicate Paintable(frames: seq<Frame>, rank: seq<nat>, bound: nat) {
    InRange(frames) && Ranks(frames, rank) && Bounded(rank, bound)
  }

  /** Kids that may be painted once their parent's rank is behind them. */
  ghost predicate Below(frames: seq<Frame>, rank: seq<nat>, kids: seq<int>, r: int) {
    |rank| == |frames| && forall a :: 0 <= a < |kids| ==> 0 <= kids[a] < |frames| && rank[kids[a]] > r
  }

  /** What painting frame i paints, counting repetitions. */
  ghost function Paints(frames: seq<Frame>, rank: seq<nat>, bound: nat, i: int): multiset<int>
    requires Paintable(frames, rank, bound) && 0 <= i < |frames|
    decreases bound - rank[i], 1, 0
  {
    multiset{i} + PaintsAll(frames, rank, bound, frames[i].children, rank[i])
  }

  ghost function PaintsAll(frames: seq<Frame>, rank: seq<nat>, bound: nat, kids: seq<int>, r: int): multiset<int>
    requires Paintable(frames, rank, bound) && Below(frames, rank, kids, r) && r <= bound
    decreases bound - r, 0, |kids|
  {
    if kids == [] then multiset{}
    else Paints(frames, rank, bound, kids[0]) + PaintsAll(frames, rank, bound, kids[1..], r)
  }

  /** `paintFrame` and `mountStructure`: the frame's image, then, structure by
      structure and case by case, its children. Returns the frames in paint order. */
  method PaintFrame(frames: seq<Frame>, i: int, ghost rank: seq<nat>, ghost bound: nat) returns (log: seq<int>)
    requires Paintable(frames, rank, bound) && 0 <= i < |frames|
    ensures multiset(log) == Paints(frames, rank, bound, i)
    ensures log != [] && log[0] == i
    decreases bound - rank[i], 3, 0
  {
    log := [i];
    var kids := frames[i].children;
    if kids == [] {
      return;
    }
    var groups := GroupStructures(frames, kids);
    AddAllPermutes([], RectItems(frames, kids));
    RectItemsValues(frames, kids);
    SameKidsBelow(frames, rank, kids, Flatten(groups), rank[i]);
    var rest := MountStructures(frames, groups, rank, bound, rank[i]);
    OrderIsIrrelevant(frames, rank, bound, kids, Flatten(groups), rank[i]);
    log := log + rest;
  }

  method MountStructures(frames: seq<Frame>, groups: seq<Group<Rect, int>>, ghost rank: seq<nat>, ghost bound: nat,
                         ghost r: int)
    returns (log: seq<int>)
    requires Paintable(frames, rank, bound) && Below(frames, rank, Flatten(groups), r) && r <= bound
    ensures multiset(log) == PaintsAll(frames, rank, bound, Flatten(groups), r)
    decreases bound - r, 2, |groups|
  {
    log := [];
    if groups != [] {
      var cases, rest := groups[0].members, Flatten(groups[1..]);
      assert Below(frames, rank, cases, r) && Below(frames, rank, rest, r) by {
        assert forall a :: 0 <= a < |cases| ==> Flatten(groups)[a] == cases[a];
        assert forall a :: 0 <= a < |rest| ==> Flatten(groups)[|cases| + a] == rest[a];
      }
      var first := MountCases(frames, cases, rank, bound, r);
      var others := MountStructures(frames, groups[1..], rank, bound, r);
      PaintsAllAppend(frames, rank, bound, cases, rest, r);
      log := first + others;
    }
  }

  method MountCases(frames: seq<Frame>, cases: seq<int>, ghost rank: seq<nat>, ghost bound: nat, ghost r: int)
    returns (log: seq<int>)
    requires Paintable(frames, rank, bound) && Below(frames, rank, cases, r) && r <= bound
    ensures multiset(log) == PaintsAll(frames, rank, bound, cases, r)
    decreases bound - r, 1, |cases|
  {
    log := [];
    if cases != [] {
      var first := PaintFrame(frames, cases[0], rank, bound);
      var others := MountCases(frames, cases[1..], rank, bound, r);
      log := first + others;
    }
  }

  lemma {:induction false} PaintsAllAppend(frames: seq<Frame>, rank: seq<nat>, bound: nat, a: seq<int>, b: seq<int>,
                                           r: int)
    requires Paintable(frames, rank, bound) && Below(frames, rank, a, r) && Below(frames, rank, b, r) && r <= bound
    ensures Below(frames, rank, a + b, r)
    ensures PaintsAll(frames, rank, bound, a + b, r)
        == PaintsAll(frames, rank, bound, a, r) + PaintsAll(frames, rank, bound, b, r)
    decreases |a|
  {
    if a == [] {
      assert a + b == b;
    } else {
      assert (a + b)[1..] == a[1..] + b;
      PaintsAllAppend(frames, rank, bound, a[1..], b, r);
    }
  }

  lemma SameKidsBelow(frames: seq<Frame>, rank: seq<nat>, a: seq<int>, b: seq<int>, r: int)
    requires Below(frames, rank, a, r) && multiset(a) == multiset(b)
    ensures Below(frames, rank, b, r)
  {
    forall j | 0 <= j < |b|
      ensures 0 <= b[j] < |frames| && rank[b[j]] > r
    {
      assert b[j] in multiset(b);
      assert b[j] in a;
      var m :| 0 <= m < |a| && a[m] == b[j];
    }
  }

  lemma MatchHead(a: seq<int>, b: seq<int>) returns (m: nat)
    requires a != [] && multiset(a) == multiset(b)
    ensures m < |b| && b[m] == a[0] && multiset(a[1..]) == multiset(b[..m] + b[m + 1..])
  {
    assert a[0] in multiset(b);
    m :| 0 <= m < |b| && b[m] == a[0];
    PickOut(b, m);
    PickOut(a, 0);
    assert a[..0] + a[1..] == a[1..];
  }

  lemma PickOut(s: seq<int>, m: nat)
    requires m < |s|
    ensures multiset(s[..m] + s[m + 1..]) == multiset(s) - multiset{s[m]}
  {
    assert s == s[..m] + ([s[m]] + s[m + 1..]);
  }

  lemma PaintsAllPick(frames: seq<Frame>, rank: seq<nat>, bound: nat, b: seq<int>, m: nat, r: int)
    requires Paintable(frames, rank, bound) && Below(frames, rank, b, r) && r <= bound && m < |b|
    ensures Below(frames, rank, b[..m] + b[m + 1..], r)
    ensures PaintsAll(frames, rank, bound, b, r) ==
      Paints(frames, rank, bound, b[m]) + PaintsAll(frames, rank, bound, b[..m] + b[m + 1..], r)
  {
    var pre, post := b[..m], b[m + 1..];
    assert b == pre + ([b[m]] + post);
    PaintsAllAppend(frames, rank, bound, pre, post, r);
    PaintsAllAppend(frames, rank, bound, pre, [b[m]] + post, r);
    assert ([b[m]] + post)[1..] == post;
  }

  /** Painting the same children in another order paints the same frames. */
  lemma {:induction false} OrderIsIrrelevant(frames: seq<Frame>, rank: seq<nat>, bound: nat, a: seq<int>, b: seq<int>,
                                             r: int)
    requires Paintable(frames, rank, bound) && Below(frames, rank, a, r) && Below(frames, rank, b, r) && r <= bound
    requires multiset(a) == multiset(b)
    ensures PaintsAll(frames, rank, bound, a, r) == PaintsAll(frames, rank, bound, b, r)
    decreases |a|
  {
    if a == [] {
      EmptyMatch(b);
    } else {
      var m := MatchHead(a, b);
      PaintsAllPick(frames, rank, bound, b, m, r);
      OrderIsIrrelevant(frames, rank, bound, a[1..], b[..m] + b[m + 1..], r);
    }
  }

  lemma EmptyMatch(b: seq<int>)
    requires multiset(b) == multiset{}
    ensures b == []
  {
    assert |b| == |multiset(b)|;
  }

  // ----- every frame painted once -----

  lemma OneParent(frames: seq<Frame>, p: int, p': int, j: int)
    requires ListedOnce(frames) && ListedBy(frames, p, j) && ListedBy(frames, p', j)
    ensures p == p'
  {
    var a :| 0 <= a < |frames[p].children| && frames[p].children[a] == j;
    var a' :| 0 <= a' < |frames[p'].children| && frames[p'].children[a'] == j;
  }

  lemma KidsAreReferenced(frames: seq<Frame>, i: int)
    requires 0 <= i < |frames|
    ensures forall a :: 0 <= a < |frames[i].children| ==> Referenced(frames, frames[i].children[a])
  {
    assert forall a :: 0 <= a < |frames[i].children| ==> ListedBy(frames, i, frames[i].children[a]);
  }

  lemma ListedCount(frames: seq<Frame>, i: int, j: int)
    requires ListedOnce(frames) && 0 <= i < |frames|
    ensures multiset(frames[i].children)[j] == if ListedBy(frames, i, j) then 1 else 0
  {
    var kids := frames[i].children;
    OnceCount(kids, j);
  }

  lemma {:induction false} OnceCount(kids: seq<int>, j: int)
    requires forall a, a' :: 0 <= a < |kids| && 0 <= a' < |kids| && kids[a] == kids[a'] ==> a == a'
    ensures multiset(kids)[j] == if j in kids then 1 else 0
  {
    if kids != [] {
      var rest := kids[1..];
      forall a, a' | 0 <= a < |rest| && 0 <= a' < |rest| && rest[a] == rest[a']
        ensures a == a'
      {
        assert kids[a + 1] == kids[a' + 1];
      }
      OnceCount(rest, j);
      assert kids == [kids[0]] + rest;
      assert forall a :: 0 <= a < |rest| ==> rest[a] == kids[a + 1];
    }
  }

  /** A listed frame is painted as often as its parent; an unlisted one only as the
      frame painting starts from. */
  lemma {:induction false} PaintedAsOftenAsParent(frames: seq<Frame>, rank: seq<nat>, bound: nat, i: int, p: int,
                                                  j: int)
    requires Paintable(frames, rank, bound) && ListedOnce(frames) && 0 <= i < |frames| && ListedBy(frames, p, j)
    ensures Paints(frames, rank, bound, i)[j] == (if i == j then 1 else 0) + Paints(frames, rank, bound, i)[p]
    decreases bound - rank[i], 1, 0
  {
    var kids := frames[i].children;
    KidsAsOftenAsParent(frames, rank, bound, kids, rank[i], p, j);
    ListedCount(frames, i, j);
    if ListedBy(frames, i, j) {
      OneParent(frames, i, p, j);
    }
  }

  lemma {:induction false} KidsAsOftenAsParent(frames: seq<Frame>, rank: seq<nat>, bound: nat, kids: seq<int>, r: int,
                                               p: int, j: int)
    requires Paintable(frames, rank, bound) && ListedOnce(frames) && ListedBy(frames, p, j)
    requires Below(frames, rank, kids, r) && r <= bound
    ensures PaintsAll(frames, rank, bound, kids, r)[j] == multiset(kids)[j] + PaintsAll(frames, rank, bound, kids, r)[p]
    decreases bound - r, 0, |kids|
  {
    if kids != [] {
      PaintedAsOftenAsParent(frames, rank, bound, kids[0], p, j);
      KidsAsOftenAsParent(frames, rank, bound, kids[1..], r, p, j);
      assert kids == [kids[0]] + kids[1..];
    }
  }

  lemma {:induction false} UnlistedIsPaintedFirst(frames: seq<Frame>, rank: seq<nat>, bound: nat, i: int, j: int)
    requires Paintable(frames, rank, bound) && 0 <= i < |frames| && !Referenced(frames, j)
    ensures Paints(frames, rank, bound, i)[j] == if i == j then 1 else 0
    decreases bound - rank[i], 1, 0
  {
    var kids := frames[i].children;
    KidsAreReferenced(frames, i);
    UnlistedAmongKids(frames, rank, bound, kids, rank[i], j);
  }

  lemma {:induction false} UnlistedAmongKids(frames: seq<Frame>, rank: seq<nat>, bound: nat, kids: seq<int>, r: int,
                                             j: int)
    requires Paintable(frames, rank, bound) && !Referenced(frames, j)
    requires Below(frames, rank, kids, r) && r <= bound && forall a :: 0 <= a < |kids| ==> kids[a] != j
    ensures PaintsAll(frames, rank, bound, kids, r)[j] == 0
    decreases bound - r, 0, |kids|
  {
    if kids != [] {
      UnlistedIsPaintedFirst(frames, rank, bound, kids[0], j);
      UnlistedAmongKids(frames, rank, bound, kids[1..], r, j);
    }
  }

  lemma {:induction false} PaintedOnce(frames: seq<Frame>, rank: seq<nat>, bound: nat, root: int, j: int)
    requires Paintable(frames, rank, bound) && ListedOnce(frames) && 0 <= root < |frames| && 0 <= j < |frames|
    requires forall q :: 0 <= q < |frames| ==> (Referenced(frames, q) <==> q != root)
    ensures Paints(frames, rank, bound, root)[j] == 1
    decreases rank[j]
  {
    if j == root {
      UnlistedIsPaintedFirst(frames, rank, bound, root, j);
    } else {
      assert Referenced(frames, j);
      var p :| ListedBy(frames, p, j);
      ParentRank(frames, rank, p, j);
      PaintedAsOftenAsParent(frames, rank, bound, root, p, j);
      PaintedOnce(frames, rank, bound, root, p);
    }
  }

  /** In a forest, painting from an unlisted frame paints every frame exactly once if
      and only if it is the only unlisted frame. */
  lemma PaintsEachOnceIffSingleRoot(frames: seq<Frame>, rank: seq<nat>, bound: nat, root: int)
    requires Paintable(frames, rank, bound) && ListedOnce(frames) && 0 <= root < |frames| && !Referenced(frames, root)
    ensures (forall j :: 0 <= j < |frames| ==> Paints(frames, rank, bound, root)[j] == 1)
      <==> (forall q :: 0 <= q < |frames| && q != root ==> Referenced(frames, q))
  {
    if forall q :: 0 <= q < |frames| && q != root ==> Referenced(frames, q) {
      forall j | 0 <= j < |frames|
        ensures Paints(frames, rank, bound, root)[j] == 1
      {
        PaintedOnce(frames, rank, bound, root, j);
      }
    } else {
      var q :| 0 <= q < |frames| && q != root && !Referenced(frames, q);
      UnlistedIsPaintedFirst(frames, rank, bound, root, q);
      assert Paints(frames, rank, bound, root)[q] == 0;
    }
  }

  lemma {:induction false} BoundOf(rank: seq<nat>) returns (bound: nat)
    ensures Bounded(rank, bound)
  {
    if rank == [] {
      bound := 0;
    } else {
      var b := BoundOf(rank[1..]);
      bound := b + rank[0];
      forall i | 0 <= i < |rank|
        ensures rank[i] <= bound
      {
        if i > 0 {
          assert rank[i] == rank[1..][i - 1];
        }
      }
    }
  }

  /** The renderer on a well-formed tree: the root is found without the fallback, and
      the painting paints each frame exactly once. */
  method Render(frames: seq<Frame>) returns (root: nat, log: seq<int>)
    requires frames != [] && Forest(frames)
    requires forall i, j :: 0 <= i < j < |frames| ==> Referenced(frames, i) || Referenced(frames, j)
    ensures root < |frames| && !Referenced(frames, root)
    ensures log != [] && log[0] == root
    ensures forall j :: 0 <= j < |frames| ==> multiset(log)[j] == 1
  {
    AcyclicHasRoot(frames);
    root := FindRoot(frames);
    ghost var rank :| Ranks(frames, rank);
    ghost var bound := BoundOf(rank);
    log := PaintFrame(frames, root, rank, bound);
    PaintsEachOnceIffSingleRoot(frames, rank, bound, root);
  }
}
