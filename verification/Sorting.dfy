/** Sequence helpers and a reference definition of the stable sort that the
    JavaScript `Array.sort` and Python `list.sort` calls of the program perform. */
module Sorting {

  /** s lists the members, each once: one of the orders in which a loop may visit the
      keys of a dictionary. */
  ghost predicate Enumerates<T(!new)>(s: seq<T>, members: set<T>) {
    && (forall i, j :: 0 <= i < j < |s| ==> s[i] != s[j])
    && (forall x :: x in s <==> x in members)
  }

  /** The elements of s that satisfy p, in order. */
  function Filter<T>(s: seq<T>, p: T -> bool): (r: seq<T>)
    ensures |r| <= |s|
  {
    if s == [] then []
    else if p(s[0]) then [s[0]] + Filter(s[1..], p)
    else Filter(s[1..], p)
  }

  lemma {:induction false} FilterMembers<T(!new)>(s: seq<T>, p: T -> bool)
    ensures forall x :: x in Filter(s, p) <==> x in s && p(x)
  {
    if s != [] {
      FilterMembers(s[1..], p);
      forall x
        ensures x in Filter(s, p) <==> x in s && p(x)
      {
        assert x in s <==> x == s[0] || x in s[1..];
      }
    }
  }

  ghost predicate TotalPreorder<T(!new)>(leq: (T, T) -> bool) {
    && (forall x, y :: leq(x, y) || leq(y, x))
    && (forall x, y, z :: leq(x, y) && leq(y, z) ==> leq(x, z))
  }

  ghost predicate SortedBy<T>(s: seq<T>, leq: (T, T) -> bool) {
    forall i, j :: 0 <= i < j < |s| ==> leq(s[i], s[j])
  }

  /** Puts x before the first element that it may precede. */
  function Insert<T>(x: T, s: seq<T>, leq: (T, T) -> bool): (r: seq<T>)
    ensures |r| == |s| + 1
  {
    if s == [] then [x]
    else if leq(x, s[0]) then [x] + s
    else [s[0]] + Insert(x, s[1..], leq)
  }

  /** The stable sort: later elements are inserted first, so that equal elements
      keep their order. */
  function Sort<T>(s: seq<T>, leq: (T, T) -> bool): (r: seq<T>)
    ensures |r| == |s|
  {
    if s == [] then [] else Insert(s[0], Sort(s[1..], leq), leq)
  }

  lemma {:induction false} InsertPermutes<T>(x: T, s: seq<T>, leq: (T, T) -> bool)
    ensures multiset(Insert(x, s, leq)) == multiset(s) + multiset{x}
  {
    if s != [] && !leq(x, s[0]) {
      InsertPermutes(x, s[1..], leq);
      assert s == [s[0]] + s[1..];
    }
  }

  lemma {:induction false} SortPermutes<T>(s: seq<T>, leq: (T, T) -> bool)
    ensures multiset(Sort(s, leq)) == multiset(s)
  {
    if s != [] {
      SortPermutes(s[1..], leq);
      InsertPermutes(s[0], Sort(s[1..], leq), leq);
      assert s == [s[0]] + s[1..];
    }
  }

  lemma SortMembers<T(!new)>(s: seq<T>, leq: (T, T) -> bool)
    ensures forall x :: x in Sort(s, leq) <==> x in s
  {
    SortPermutes(s, leq);
    SameMembers(Sort(s, leq), s);
  }

  lemma SameMembers<T(!new)>(s: seq<T>, t: seq<T>)
    requires multiset(s) == multiset(t)
    ensures forall x :: x in s <==> x in t
  {
    forall x
      ensures x in s <==> x in t
    {
      assert x in s <==> x in multiset(s);
      assert x in t <==> x in multiset(t);
    }
  }

  lemma {:induction false} InsertSorted<T(!new)>(x: T, s: seq<T>, leq: (T, T) -> bool)
    requires TotalPreorder(leq) && SortedBy(s, leq)
    ensures SortedBy(Insert(x, s, leq), leq)
  {
    if s == [] {
    } else if leq(x, s[0]) {
      var r := [x] + s;
      forall i, j | 0 <= i < j < |r|
        ensures leq(r[i], r[j])
      {
        if i == 0 && j > 1 {
          assert leq(s[0], s[j - 1]);
        }
      }
    } else {
      InsertSorted(x, s[1..], leq);
      var t := Insert(x, s[1..], leq);
      InsertPermutes(x, s[1..], leq);
      forall k | 0 <= k < |t|
        ensures leq(s[0], t[k])
      {
        assert t[k] in multiset(t);
        if t[k] != x {
          assert t[k] in s[1..];
        }
      }
    }
  }

  lemma {:induction false} SortSorted<T(!new)>(s: seq<T>, leq: (T, T) -> bool)
    requires TotalPreorder(leq)
    ensures SortedBy(Sort(s, leq), leq)
  {
    if s != [] {
      SortSorted(s[1..], leq);
      InsertSorted(s[0], Sort(s[1..], leq), leq);
    }
  }

  /** Sorting leaves a sorted sequence as it is. */
  lemma {:induction false} SortOfSorted<T>(s: seq<T>, leq: (T, T) -> bool)
    requires SortedBy(s, leq)
    ensures Sort(s, leq) == s
  {
    if s != [] {
      SortOfSorted(s[1..], leq);
      if |s| > 1 {
        assert leq(s[0], s[1]);
      }
    }
  }

  lemma FilterCons<T>(x: T, s: seq<T>, p: T -> bool)
    ensures Filter([x] + s, p) == if p(x) then [x] + Filter(s, p) else Filter(s, p)
  {
    assert ([x] + s)[1..] == s;
  }

  lemma InsertCons<T>(x: T, y: T, s: seq<T>, leq: (T, T) -> bool)
    ensures Insert(x, [y] + s, leq) == if leq(x, y) then [x] + ([y] + s) else [y] + Insert(x, s, leq)
  {
    assert ([y] + s)[1..] == s;
  }

  lemma InsertFirst<T(!new)>(x: T, s: seq<T>, leq: (T, T) -> bool)
    requires forall y :: y in s ==> leq(x, y)
    ensures Insert(x, s, leq) == [x] + s
  {
  }

  /** Once x may precede an element of s it may precede every later one. */
  ghost predicate StaysBefore<T>(x: T, s: seq<T>, leq: (T, T) -> bool) {
    forall i, j :: 0 <= i < j < |s| && leq(x, s[i]) ==> leq(x, s[j])
  }

  lemma {:induction false} FilterInsert<T(!new)>(x: T, s: seq<T>, leq: (T, T) -> bool, p: T -> bool)
    requires StaysBefore(x, s, leq)
    ensures Filter(Insert(x, s, leq), p) == if p(x) then Insert(x, Filter(s, p), leq) else Filter(s, p)
  {
    if s == [] {
      FilterCons(x, s, p);
    } else if leq(x, s[0]) {
      FilterCons(x, s, p);
      FilterMembers(s, p);
      InsertFirst(x, Filter(s, p), leq);
    } else {
      var h, t := s[0], s[1..];
      FilterInsert(x, t, leq, p);
      assert s == [h] + t;
      InsertCons(x, h, t, leq);
      FilterCons(h, Insert(x, t, leq), p);
      FilterCons(h, t, p);
      if p(h) {
        InsertCons(x, h, Filter(t, p), leq);
      }
    }
  }

  lemma FilterInsertSorted<T(!new)>(x: T, s: seq<T>, leq: (T, T) -> bool, p: T -> bool)
    requires TotalPreorder(leq)
    ensures Filter(Insert(x, Sort(s, leq), leq), p)
         == if p(x) then Insert(x, Filter(Sort(s, leq), p), leq) else Filter(Sort(s, leq), p)
  {
    SortSorted(s, leq);
    FilterInsert(x, Sort(s, leq), leq, p);
  }

  lemma SortCons<T>(x: T, s: seq<T>, leq: (T, T) -> bool)
    ensures Sort([x] + s, leq) == Insert(x, Sort(s, leq), leq)
  {
    assert ([x] + s)[1..] == s;
  }

  /** Stability: whatever is selected after sorting appears as if the selection
      had been sorted alone. */
  lemma {:induction false} FilterSort<T(!new)>(s: seq<T>, leq: (T, T) -> bool, p: T -> bool)
    requires TotalPreorder(leq)
    ensures Filter(Sort(s, leq), p) == Sort(Filter(s, p), leq)
  {
    if s != [] {
      var h, t := s[0], s[1..];
      assert s == [h] + t;
      FilterSort(t, leq, p);
      FilterInsertSorted(h, t, leq, p);
      SortCons(h, t, leq);
      FilterCons(h, t, p);
      if p(h) {
        SortCons(h, Filter(t, p), leq);
      }
    }
  }

  ghost predicate Apart<T, K>(s: seq<T>, key: T -> K) {
    forall i, j :: 0 <= i < j < |s| ==> key(s[i]) != key(s[j])
  }

  lemma {:induction false} InsertKeepsApart<T(!new), K>(x: T, s: seq<T>, leq: (T, T) -> bool, key: T -> K)
    requires Apart(s, key) && forall i :: 0 <= i < |s| ==> key(s[i]) != key(x)
    ensures Apart(Insert(x, s, leq), key)
  {
    if s == [] || leq(x, s[0]) {
      forall i | 0 < i < |s| + 1
        ensures ([x] + s)[i] == s[i - 1]
      {
      }
    } else {
      InsertKeepsApart(x, s[1..], leq, key);
      var t := Insert(x, s[1..], leq);
      InsertPermutes(x, s[1..], leq);
      SameMembers(t, s[1..] + [x]);
      forall i | 0 <= i < |t|
        ensures key(t[i]) != key(s[0])
      {
        assert t[i] in s[1..] + [x];
        var j :| 0 <= j < |s| && (s[1..] + [x])[j] == t[i];
        if j < |s| - 1 {
          assert t[i] == s[j + 1];
        }
      }
    }
  }

  /** Sorting keeps the keys of the elements apart. */
  lemma {:induction false} SortKeepsApart<T(!new), K>(s: seq<T>, leq: (T, T) -> bool, key: T -> K)
    requires Apart(s, key)
    ensures Apart(Sort(s, leq), key)
  {
    if s != [] {
      SortKeepsApart(s[1..], leq, key);
      var t := Sort(s[1..], leq);
      SortMembers(s[1..], leq);
      forall i | 0 <= i < |t|
        ensures key(t[i]) != key(s[0])
      {
        assert t[i] in t;
        assert t[i] in s[1..];
        var j :| 0 <= j < |s[1..]| && s[1..][j] == t[i];
        assert s[j + 1] == t[i];
      }
      InsertKeepsApart(s[0], t, leq, key);
    }
  }

  /** The elements of s that tie with x. */
  function Ties<T(!new)>(s: seq<T>, x: T, leq: (T, T) -> bool): (r: seq<T>)
    ensures forall y :: y in r <==> y in s && leq(x, y) && leq(y, x)
  {
    if s == [] then []
    else if leq(x, s[0]) && leq(s[0], x) then [s[0]] + Ties(s[1..], x, leq)
    else Ties(s[1..], x, leq)
  }

  /** A sorted arrangement that keeps tied elements in the same order is unique. */
  lemma {:induction false} StableArrangementUnique<T(!new)>(a: seq<T>, b: seq<T>, leq: (T, T) -> bool)
    requires TotalPreorder(leq) && SortedBy(a, leq) && SortedBy(b, leq)
    requires forall x :: Ties(a, x, leq) == Ties(b, x, leq)
    ensures a == b
  {
    if a == [] {
      if b != [] {
        TiesNonempty(b, a, leq);
      }
    } else if b == [] {
      TiesNonempty(a, b, leq);
    } else {
      HeadPrecedes(a, b, leq);
      HeadPrecedes(b, a, leq);
      assert Ties(a, a[0], leq)[0] == a[0] && Ties(b, a[0], leq)[0] == b[0];
      forall x
        ensures Ties(a[1..], x, leq) == Ties(b[1..], x, leq)
      {
        var h := if leq(x, a[0]) && leq(a[0], x) then [a[0]] else [];
        assert Ties(a, x, leq) == h + Ties(a[1..], x, leq);
        assert Ties(b, x, leq) == h + Ties(b[1..], x, leq);
        assert Ties(a[1..], x, leq) == Ties(a, x, leq)[|h|..];
        assert Ties(b[1..], x, leq) == Ties(b, x, leq)[|h|..];
      }
      StableArrangementUnique(a[1..], b[1..], leq);
      assert a == [a[0]] + a[1..] && b == [b[0]] + b[1..];
    }
  }

  lemma TiesNonempty<T(!new)>(a: seq<T>, b: seq<T>, leq: (T, T) -> bool)
    requires TotalPreorder(leq) && a != []
    requires forall x :: Ties(a, x, leq) == Ties(b, x, leq)
    ensures b != []
  {
    assert a[0] in Ties(a, a[0], leq);
    assert a[0] in Ties(b, a[0], leq);
  }

  lemma HeadPrecedes<T(!new)>(a: seq<T>, b: seq<T>, leq: (T, T) -> bool)
    requires a != [] && b != []
    requires TotalPreorder(leq) && SortedBy(a, leq)
    requires forall x :: Ties(a, x, leq) == Ties(b, x, leq)
    ensures leq(a[0], b[0])
  {
    assert b[0] in Ties(b, b[0], leq);
    assert Ties(a, b[0], leq) == Ties(b, b[0], leq);
    assert b[0] in a;
    var k :| 0 <= k < |a| && a[k] == b[0];
    if k > 0 {
      assert leq(a[0], a[k]);
    }
  }

  lemma {:induction false} TiesInsert<T(!new)>(x: T, s: seq<T>, y: T, leq: (T, T) -> bool)
    requires TotalPreorder(leq) && SortedBy(s, leq)
    ensures Ties(Insert(x, s, leq), y, leq) == Ties([x] + s, y, leq)
  {
    assert ([x] + s)[1..] == s;
    if s != [] && !leq(x, s[0]) {
      TiesInsert(x, s[1..], y, leq);
      assert ([x] + s[1..])[1..] == s[1..];
      assert ([s[0]] + Insert(x, s[1..], leq))[1..] == Insert(x, s[1..], leq);
    }
  }

  /** `Sort` is the stable sort: sorted, and tied elements keep their order. With
      `StableArrangementUnique` this pins the result down completely. */
  lemma {:induction false} SortIsStable<T(!new)>(s: seq<T>, x: T, leq: (T, T) -> bool)
    requires TotalPreorder(leq)
    ensures SortedBy(Sort(s, leq), leq)
    ensures Ties(Sort(s, leq), x, leq) == Ties(s, x, leq)
  {
    SortSorted(s, leq);
    if s != [] {
      SortIsStable(s[1..], x, leq);
      TiesInsert(s[0], Sort(s[1..], leq), x, leq);
      assert ([s[0]] + Sort(s[1..], leq))[1..] == Sort(s[1..], leq);
    }
  }

  // ----- the order of text -----

  /** `<` on strings, by character code. */
  predicate TextLess(a: string, b: string) {
    if b == "" then false
    else if a == "" then true
    else if a[0] != b[0] then a[0] < b[0]
    else TextLess(a[1..], b[1..])
  }

  /** a and b agree up to place i, where a ends or has the smaller character. */
  ghost predicate SmallerAt(a: string, b: string, i: int) {
    && 0 <= i < |b| && i <= |a| && (i < |a| ==> a[i] < b[i])
    && forall j :: 0 <= j < i ==> a[j] == b[j]
  }

  lemma {:induction false} TextLessIs(a: string, b: string)
    ensures TextLess(a, b) <==> exists i :: SmallerAt(a, b, i)
  {
    if a == "" || b == "" || a[0] != b[0] {
      assert b != "" ==> (SmallerAt(a, b, 0) <==> a == "" || a[0] < b[0]);
    } else {
      TextLessIs(a[1..], b[1..]);
      if i :| SmallerAt(a, b, i) {
        assert SmallerAt(a[1..], b[1..], i - 1);
      }
      if i :| SmallerAt(a[1..], b[1..], i) {
        SmallerLater(a, b, i);
      }
    }
  }

  lemma SmallerLater(a: string, b: string, i: int)
    requires a != "" && b != "" && a[0] == b[0] && SmallerAt(a[1..], b[1..], i)
    ensures SmallerAt(a, b, i + 1)
  {
    forall j | 0 <= j < i + 1
      ensures a[j] == b[j]
    {
      assert j == 0 || (a[1..][j - 1] == a[j] && b[1..][j - 1] == b[j]);
    }
  }

  lemma {:induction false} TextTrichotomy(a: string, b: string)
    ensures TextLess(a, b) || a == b || TextLess(b, a)
    ensures !(TextLess(a, b) && TextLess(b, a)) && !TextLess(a, a)
  {
    if a != "" {
      TextTrichotomy(a[1..], a[1..]);
    }
    if a != "" && b != "" && a[0] == b[0] {
      TextTrichotomy(a[1..], b[1..]);
      assert a == [a[0]] + a[1..] && b == [b[0]] + b[1..];
    }
  }

  lemma {:induction false} TextTransitive(a: string, b: string, c: string)
    requires TextLess(a, b) && TextLess(b, c)
    ensures TextLess(a, c)
  {
    if a != "" && a[0] == b[0] && b[0] == c[0] {
      TextTransitive(a[1..], b[1..], c[1..]);
    }
  }

  predicate TextLeq(a: string, b: string) {
    a == b || TextLess(a, b)
  }

  lemma TextLeqOrders(a: string, b: string, c: string)
    ensures TextLeq(a, b) || TextLeq(b, a)
    ensures TextLeq(a, b) && TextLeq(b, a) ==> a == b
    ensures TextLeq(a, b) && TextLeq(b, c) ==> TextLeq(a, c)
  {
    TextTrichotomy(a, b);
    if TextLess(a, b) && TextLess(b, c) {
      TextTransitive(a, b, c);
    }
  }
}
