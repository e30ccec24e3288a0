/** Grouping in order of first appearance, the shape in which the program's loops fill
    their dictionaries of lists. */
module Grouping {

  datatype Group<K, V> = Group(key: K, members: seq<V>)

  /** The position of the group with key k, |groups| when there is none. */
  function Find<K(==), V>(groups: seq<Group<K, V>>, k: K): (i: nat)
    ensures i <= |groups|
    ensures i < |groups| ==> groups[i].key == k
    ensures forall j :: 0 <= j < i ==> groups[j].key != k
  {
    if groups == [] then 0
    else if groups[0].key == k then 0
    else 1 + Find(groups[1..], k)
  }

  /** One item arrives: it joins its group, or opens a new one at the end. */
  function Add<K(==), V>(groups: seq<Group<K, V>>, k: K, v: V): seq<Group<K, V>> {
    var i := Find(groups, k);
    if i < |groups| then groups[i := Group(k, groups[i].members + [v])]
    else groups + [Group(k, [v])]
  }

  function AddAll<K(==), V>(groups: seq<Group<K, V>>, items: seq<(K, V)>): seq<Group<K, V>>
    decreases |items|
  {
    if items == [] then groups else AddAll(Add(groups, items[0].0, items[0].1), items[1..])
  }

  function GroupBy<K(==), V>(items: seq<(K, V)>): seq<Group<K, V>> {
    AddAll([], items)
  }

  /** The values filed under k, in order. */
  function ValuesOf<K(==), V>(items: seq<(K, V)>, k: K): seq<V> {
    if items == [] then []
    else if items[0].0 == k then [items[0].1] + ValuesOf(items[1..], k)
    else ValuesOf(items[1..], k)
  }

  function Members<K(==), V>(groups: seq<Group<K, V>>, k: K): seq<V> {
    var i := Find(groups, k);
    if i < |groups| then groups[i].members else []
  }

  /** The keys of the items, each at its first appearance. */
  function FirstSeen<K(==), V>(items: seq<(K, V)>, seen: seq<K>): seq<K>
    decreases |items|
  {
    if items == [] then seen
    else FirstSeen(items[1..], if items[0].0 in seen then seen else seen + [items[0].0])
  }

  function Keys<K, V>(groups: seq<Group<K, V>>): (r: seq<K>)
    ensures |r| == |groups|
    ensures forall i :: 0 <= i < |groups| ==> r[i] == groups[i].key
  {
    if groups == [] then [] else [groups[0].key] + Keys(groups[1..])
  }

  ghost predicate DistinctKeys<K, V>(groups: seq<Group<K, V>>) {
    forall i, j :: 0 <= i < j < |groups| ==> groups[i].key != groups[j].key
  }

  function Total<K, V>(groups: seq<Group<K, V>>): nat {
    if groups == [] then 0 else |groups[0].members| + Total(groups[1..])
  }

  lemma {:induction false} TotalAppend<K, V>(a: seq<Group<K, V>>, b: seq<Group<K, V>>)
    ensures Total(a + b) == Total(a) + Total(b)
  {
    if a == [] {
      assert a + b == b;
    } else {
      TotalAppend(a[1..], b);
      assert (a + b)[1..] == a[1..] + b;
    }
  }

  lemma {:induction false} TotalUpdate<K, V>(groups: seq<Group<K, V>>, i: nat, g: Group<K, V>)
    requires i < |groups|
    ensures Total(groups[i := g]) == Total(groups) - |groups[i].members| + |g.members|
  {
    if i == 0 {
      assert groups[i := g][1..] == groups[1..];
    } else {
      TotalUpdate(groups[1..], i - 1, g);
      assert groups[i := g][1..] == groups[1..][i - 1 := g];
    }
  }

  lemma FindUnique<K, V>(groups: seq<Group<K, V>>, i: nat)
    requires DistinctKeys(groups) && i < |groups|
    ensures Find(groups, groups[i].key) == i
  {
  }

  lemma FindIs<K, V>(groups: seq<Group<K, V>>, k: K, i: nat)
    requires i <= |groups| && (i < |groups| ==> groups[i].key == k)
    requires forall j :: 0 <= j < i ==> groups[j].key != k
    ensures Find(groups, k) == i
  {
  }

  /** The first record with the key, found by a loop; |records| when there is none. */
  method IndexOfKey<C, K(==)>(records: seq<C>, keyOf: C -> K, k: K) returns (j: nat)
    ensures j <= |records| && (j < |records| ==> keyOf(records[j]) == k)
    ensures forall m :: 0 <= m < j ==> keyOf(records[m]) != k
  {
    j := 0;
    while j < |records| && keyOf(records[j]) != k
      invariant 0 <= j <= |records|
      invariant forall m :: 0 <= m < j ==> keyOf(records[m]) != k
    {
      j := j + 1;
    }
  }

  lemma AddTotal<K, V>(groups: seq<Group<K, V>>, k: K, v: V)
    ensures Total(Add(groups, k, v)) == Total(groups) + 1
  {
    var i := Find(groups, k);
    if i < |groups| {
      TotalUpdate(groups, i, Group(k, groups[i].members + [v]));
    } else {
      TotalAppend(groups, [Group(k, [v])]);
    }
  }

  lemma AddKeepsDistinct<K, V>(groups: seq<Group<K, V>>, k: K, v: V)
    requires DistinctKeys(groups)
    ensures DistinctKeys(Add(groups, k, v))
  {
  }

  lemma {:induction false} AddMembers<K, V>(groups: seq<Group<K, V>>, k: K, v: V, q: K)
    ensures Members(Add(groups, k, v), q) == if q == k then Members(groups, q) + [v] else Members(groups, q)
  {
    var i, j := Find(groups, k), Find(groups, q);
    var r := Add(groups, k, v);
    if q == k {
      FindIs(r, q, i);
    } else if j < |groups| {
      FindIs(r, q, j);
    } else {
      FindIs(r, q, |r|);
    }
  }

  lemma FindKey<K, V>(groups: seq<Group<K, V>>, k: K)
    ensures Find(groups, k) < |groups| <==> k in Keys(groups)
  {
    var i := Find(groups, k);
    if i < |groups| {
      assert Keys(groups)[i] == k;
    } else {
      assert forall j :: 0 <= j < |groups| ==> Keys(groups)[j] != k;
    }
  }

  lemma {:induction false} AddKeys<K, V>(groups: seq<Group<K, V>>, k: K, v: V)
    ensures Keys(Add(groups, k, v)) == if k in Keys(groups) then Keys(groups) else Keys(groups) + [k]
  {
    FindKey(groups, k);
    var i := Find(groups, k);
    if i < |groups| {
      var r := groups[i := Group(k, groups[i].members + [v])];
      assert forall j :: 0 <= j < |groups| ==> r[j].key == groups[j].key;
    }
  }

  lemma {:induction false} AddAllMembers<K, V>(groups: seq<Group<K, V>>, items: seq<(K, V)>, q: K)
    ensures Members(AddAll(groups, items), q) == Members(groups, q) + ValuesOf(items, q)
    decreases |items|
  {
    if items == [] {
      assert Members(groups, q) + [] == Members(groups, q);
    } else {
      var k, v, rest := items[0].0, items[0].1, items[1..];
      AddMembers(groups, k, v, q);
      AddAllMembers(Add(groups, k, v), rest, q);
      JoinOne(Members(groups, q), v, ValuesOf(rest, q));
    }
  }

  lemma JoinOne<V>(a: seq<V>, v: V, b: seq<V>)
    ensures (a + [v]) + b == a + ([v] + b)
  {
  }

  lemma {:induction false} AddAllShape<K, V>(groups: seq<Group<K, V>>, items: seq<(K, V)>)
    requires DistinctKeys(groups)
    ensures DistinctKeys(AddAll(groups, items))
    ensures Total(AddAll(groups, items)) == Total(groups) + |items|
    ensures Keys(AddAll(groups, items)) == FirstSeen(items, Keys(groups))
    decreases |items|
  {
    if items != [] {
      AddTotal(groups, items[0].0, items[0].1);
      AddKeepsDistinct(groups, items[0].0, items[0].1);
      AddKeys(groups, items[0].0, items[0].1);
      AddAllShape(Add(groups, items[0].0, items[0].1), items[1..]);
    }
  }

  /** No group is opened without a member. */
  lemma {:induction false} GroupsAreNonempty<K, V>(groups: seq<Group<K, V>>, items: seq<(K, V)>)
    requires forall i :: 0 <= i < |groups| ==> groups[i].members != []
    ensures forall i :: 0 <= i < |AddAll(groups, items)| ==> AddAll(groups, items)[i].members != []
    decreases |items|
  {
    if items != [] {
      GroupsAreNonempty(Add(groups, items[0].0, items[0].1), items[1..]);
    }
  }

  /** Grouping loses nothing, keeps order, and opens one group per key in the order in
      which the keys first appear. */
  lemma GroupByPartitions<K, V>(items: seq<(K, V)>, q: K)
    ensures var r := GroupBy(items);
      && DistinctKeys(r)
      && Members(r, q) == ValuesOf(items, q)
      && Total(r) == |items|
      && Keys(r) == FirstSeen(items, [])
      && forall i :: 0 <= i < |r| ==> r[i].members != []
  {
    var none: seq<Group<K, V>> := [];
    AddAllMembers(none, items, q);
    AddAllShape(none, items);
    GroupsAreNonempty(none, items);
  }

  lemma {:induction false} AddAllAppend<K, V>(groups: seq<Group<K, V>>, items: seq<(K, V)>, x: (K, V))
    ensures AddAll(groups, items + [x]) == Add(AddAll(groups, items), x.0, x.1)
    decreases |items|
  {
    if items == [] {
      assert (items + [x])[1..] == [];
    } else {
      assert (items + [x])[1..] == items[1..] + [x];
      AddAllAppend(Add(groups, items[0].0, items[0].1), items[1..], x);
    }
  }

  lemma {:induction false} AddAllJoin<K, V>(groups: seq<Group<K, V>>, a: seq<(K, V)>, b: seq<(K, V)>)
    ensures AddAll(groups, a + b) == AddAll(AddAll(groups, a), b)
    decreases |a|
  {
    if a == [] {
      assert a + b == b;
    } else {
      assert (a + b)[1..] == a[1..] + b;
      AddAllJoin(Add(groups, a[0].0, a[0].1), a[1..], b);
    }
  }

  lemma {:induction false} ValuesOfAppend<K, V>(a: seq<(K, V)>, b: seq<(K, V)>, k: K)
    ensures ValuesOf(a + b, k) == ValuesOf(a, k) + ValuesOf(b, k)
  {
    if a == [] {
      assert a + b == b;
    } else {
      assert (a + b)[1..] == a[1..] + b;
      ValuesOfAppend(a[1..], b, k);
    }
  }

  /** All members, group after group. */
  function Flatten<K, V>(groups: seq<Group<K, V>>): seq<V> {
    if groups == [] then [] else groups[0].members + Flatten(groups[1..])
  }

  lemma {:induction false} FlattenAppend<K, V>(a: seq<Group<K, V>>, b: seq<Group<K, V>>)
    ensures Flatten(a + b) == Flatten(a) + Flatten(b)
  {
    if a == [] {
      assert a + b == b;
    } else {
      assert (a + b)[1..] == a[1..] + b;
      FlattenAppend(a[1..], b);
    }
  }

  lemma FlattenAt<K, V>(groups: seq<Group<K, V>>, i: nat)
    requires i < |groups|
    ensures multiset(Flatten(groups)) ==
      multiset(Flatten(groups[..i])) + multiset(groups[i].members) + multiset(Flatten(groups[i + 1..]))
  {
    assert groups == groups[..i] + groups[i..];
    FlattenAppend(groups[..i], groups[i..]);
    assert groups[i..][1..] == groups[i + 1..];
    assert Flatten(groups[i..]) == groups[i].members + Flatten(groups[i + 1..]);
  }

  lemma FlattenJoin<K, V>(groups: seq<Group<K, V>>, i: nat, v: V)
    requires i < |groups|
    ensures multiset(Flatten(groups[i := Group(groups[i].key, groups[i].members + [v])]))
        == multiset(Flatten(groups)) + multiset{v}
  {
    var groups' := groups[i := Group(groups[i].key, groups[i].members + [v])];
    FlattenAt(groups, i);
    FlattenAt(groups', i);
    assert groups'[..i] == groups[..i] && groups'[i + 1..] == groups[i + 1..];
  }

  function Values<K, V>(items: seq<(K, V)>): seq<V> {
    if items == [] then [] else [items[0].1] + Values(items[1..])
  }

  /** Grouping moves members about but neither loses nor repeats one. */
  lemma {:induction false} AddAllPermutes<K, V>(groups: seq<Group<K, V>>, items: seq<(K, V)>)
    ensures multiset(Flatten(AddAll(groups, items))) == multiset(Flatten(groups)) + multiset(Values(items))
    decreases |items|
  {
    if items != [] {
      var k, v := items[0].0, items[0].1;
      var i := Find(groups, k);
      if i < |groups| {
        FlattenJoin(groups, i, v);
      } else {
        FlattenAppend(groups, [Group(k, [v])]);
        assert Flatten([Group(k, [v])]) == [v] + Flatten([Group(k, [v])][1..]);
      }
      AddAllPermutes(Add(groups, k, v), items[1..]);
    }
  }

  // ----- one record per group -----

  function MapGroups<K, V, C>(groups: seq<Group<K, V>>, f: Group<K, V> -> C): (r: seq<C>)
    ensures |r| == |groups|
    ensures forall i :: 0 <= i < |r| ==> r[i] == f(groups[i])
  {
    if groups == [] then [] else [f(groups[0])] + MapGroups(groups[1..], f)
  }

  /** Filing one more value changes one record or appends one. */
  lemma {:induction false} MapGroupsAdd<K, V, C>(groups: seq<Group<K, V>>, k: K, v: V, f: Group<K, V> -> C, i: nat)
    requires i == Find(groups, k)
    ensures MapGroups(Add(groups, k, v), f) ==
      if i < |groups| then MapGroups(groups, f)[i := f(Group(k, groups[i].members + [v]))]
      else MapGroups(groups, f) + [f(Group(k, [v]))]
  {
  }
}
