/** The rolling commit list of the VI browser: every build drops its commit's earlier entry,
    puts a new one in front, sorts newest first and keeps 200. */
module Gallery {
  import opened Sorting

  const KEPT: nat := 200

  /** date is the commit date; info stands for the short id, message, author and VI count. */
  datatype Entry = Entry(sha: string, date: int, info: string)

  /** Later dates first; ties keep their order, as Python's reversed sort does. */
  predicate Newest(x: Entry, y: Entry) {
    x.date >= y.date
  }

  function ShaOf(x: Entry): string {
    x.sha
  }

  function Other(sha: string): Entry -> bool {
    (x: Entry) => x.sha != sha
  }

  function Without(list: seq<Entry>, sha: string): seq<Entry> {
    Filter(list, Other(sha))
  }

  function Take(list: seq<Entry>, n: nat): seq<Entry> {
    if |list| <= n then list else list[..n]
  }

  function Updated(list: seq<Entry>, u: Entry): seq<Entry> {
    Take(Sort([u] + Without(list, u.sha), Newest), KEPT)
  }

  method UpdateCommits(existing: seq<Entry>, u: Entry) returns (list: seq<Entry>)
    ensures list == Updated(existing, u)
  {
    list := [];
    var i := 0;
    while i < |existing|
      invariant 0 <= i <= |existing|
      invariant list + Without(existing[i..], u.sha) == Without(existing, u.sha)
    {
      if existing[i].sha != u.sha {
        list := list + [existing[i]];
      }
      i := i + 1;
    }
    assert existing[i..] == [] && list + [] == list;
    list := Sort([u] + list, Newest);
    if |list| > KEPT {
      list := list[..KEPT];
    }
  }

  // ----- the reference: no cut until the end -----

  /** The list after a sequence of builds, starting without a file. */
  function Rolling(us: seq<Entry>): seq<Entry> {
    if us == [] then [] else Updated(Rolling(us[..|us| - 1]), us[|us| - 1])
  }

  /** The latest entry of every commit ever built, the most recently built first. */
  function Recent(us: seq<Entry>): seq<Entry> {
    if us == [] then [] else [us[|us| - 1]] + Without(Recent(us[..|us| - 1]), us[|us| - 1].sha)
  }

  function Complete(us: seq<Entry>): seq<Entry> {
    Sort(Recent(us), Newest)
  }

  ghost predicate NeverBackdated(us: seq<Entry>) {
    forall i, j :: 0 <= i < j < |us| && us[i].sha == us[j].sha ==> us[i].date <= us[j].date
  }

  // ----- removing one commit -----

  lemma {:induction false} WithoutKeeps(list: seq<Entry>, sha: string)
    requires SortedBy(list, Newest) && Apart(list, ShaOf)
    ensures SortedBy(Without(list, sha), Newest) && Apart(Without(list, sha), ShaOf)
  {
    FilterMembers(list, Other(sha));
    if list != [] {
      WithoutKeeps(list[1..], sha);
      FilterMembers(list[1..], Other(sha));
      forall i | 0 <= i < |Without(list[1..], sha)|
        ensures Newest(list[0], Without(list[1..], sha)[i]) && ShaOf(Without(list[1..], sha)[i]) != ShaOf(list[0])
      {
        var x := Without(list[1..], sha)[i];
        assert x in list[1..];
        var k :| 0 <= k < |list[1..]| && list[1..][k] == x;
        assert list[k + 1] == x;
      }
    }
  }

  lemma {:induction false} WithoutAbsent(list: seq<Entry>, sha: string)
    requires forall x :: x in list ==> x.sha != sha
    ensures Without(list, sha) == list
  {
    if list != [] {
      assert list[0] in list;
      assert forall x :: x in list[1..] ==> x in list;
      WithoutAbsent(list[1..], sha);
    }
  }

  function Cut(list: seq<Entry>, k: nat): seq<Entry>
    requires k < |list|
  {
    list[..k] + list[k + 1..]
  }

  lemma CutTail(list: seq<Entry>, k: nat)
    requires 0 < k < |list|
    ensures Cut(list, k) == [list[0]] + Cut(list[1..], k - 1)
  {
  }

  lemma {:induction false} WithoutAt(list: seq<Entry>, k: nat, sha: string)
    requires k < |list| && list[k].sha == sha
    requires forall i :: 0 <= i < |list| && i != k ==> list[i].sha != sha
    ensures Without(list, sha) == Cut(list, k)
  {
    if k == 0 {
      WithoutAbsent(list[1..], sha);
      assert list[..0] + list[1..] == list[1..];
    } else {
      WithoutAt(list[1..], k - 1, sha);
      CutTail(list, k);
    }
  }

  /** Where commit ids are distinct, removing position k's leaves the rest in place. */
  lemma WithoutOnly(list: seq<Entry>, k: nat)
    requires Apart(list, ShaOf) && k < |list|
    ensures Without(list, list[k].sha) == Cut(list, k)
  {
    forall i | 0 <= i < |list| && i != k
      ensures list[i].sha != list[k].sha
    {
      assert ShaOf(list[i]) != ShaOf(list[k]);
    }
    WithoutAt(list, k, list[k].sha);
  }

  // ----- inserting and cutting -----

  lemma {:induction false} InsertAt(u: Entry, s: seq<Entry>, k: nat)
    requires k <= |s| && (k < |s| ==> Newest(u, s[k])) && forall i :: 0 <= i < k ==> !Newest(u, s[i])
    ensures Insert(u, s, Newest) == s[..k] + [u] + s[k..]
  {
    if k > 0 {
      InsertAt(u, s[1..], k - 1);
      assert s == [s[0]] + s[1..];
    }
  }

  function Slot(u: Entry, s: seq<Entry>): (k: nat)
    ensures k <= |s| && (k < |s| ==> Newest(u, s[k])) && forall i :: 0 <= i < k ==> !Newest(u, s[i])
  {
    if s == [] || Newest(u, s[0]) then 0 else 1 + Slot(u, s[1..])
  }

  /** The first n entries after an insertion depend only on the first n before it. */
  lemma CutInsert(u: Entry, s: seq<Entry>, n: nat)
    ensures Take(Insert(u, s, Newest), n) == Take(Insert(u, Take(s, n), Newest), n)
  {
    var k := Slot(u, s);
    InsertAt(u, s, k);
    if |s| > n {
      if k <= n {
        InsertAt(u, s[..n], k);
        assert (s[..k] + [u] + s[k..])[..n] == (s[..n][..k] + [u] + s[..n][k..])[..n];
      } else {
        InsertAt(u, s[..n], n);
        assert (s[..k] + [u] + s[k..])[..n] == s[..n];
        assert (s[..n][..n] + [u] + s[..n][n..])[..n] == s[..n];
      }
    }
  }

  /** One entry short: the cut is the same exactly if u does not come after the entry
      that is missing. */
  lemma {:induction false} CutInsertShort(u: Entry, s: seq<Entry>, n: nat)
    requires SortedBy(s, Newest) && |s| > n && s[n] != u
    ensures Take(Insert(u, s, Newest), n + 1) == Take(Insert(u, s[..n], Newest), n + 1) <==> Newest(u, s[n])
  {
    if n == 0 {
      assert Insert(u, s[..0], Newest) == [u];
      if !Newest(u, s[0]) {
        assert Take(Insert(u, s, Newest), 1)[0] == s[0];
      } else {
        assert Take([u] + s, 1) == [u];
      }
    } else if Newest(u, s[0]) {
      ShortFront(u, s, n);
    } else {
      CutInsertShort(u, s[1..], n - 1);
      ConsTake(s[0], Insert(u, s[1..], Newest), n);
      assert s[..n][1..] == s[1..][..n - 1];
      ConsTake(s[0], Insert(u, s[1..][..n - 1], Newest), n);
      SameTails(s[0], Take(Insert(u, s[1..], Newest), n), Take(Insert(u, s[1..][..n - 1], Newest), n));
    }
  }

  lemma ShortFront(u: Entry, s: seq<Entry>, n: nat)
    requires SortedBy(s, Newest) && |s| > n > 0 && Newest(u, s[0])
    ensures Take(Insert(u, s, Newest), n + 1) == Take(Insert(u, s[..n], Newest), n + 1) && Newest(u, s[n])
  {
    assert Newest(s[0], s[n]);
    assert s[..n][0] == s[0];
    assert ([u] + s)[..n + 1] == [u] + s[..n];
  }

  lemma SameTails(x: Entry, a: seq<Entry>, b: seq<Entry>)
    ensures [x] + a == [x] + b <==> a == b
  {
    assert ([x] + a)[1..] == a && ([x] + b)[1..] == b;
  }

  lemma ConsTake(x: Entry, s: seq<Entry>, n: nat)
    ensures Take([x] + s, n + 1) == [x] + Take(s, n)
  {
  }

  lemma SortedFront(u: Entry, s: seq<Entry>)
    requires SortedBy(s, Newest)
    ensures Sort([u] + s, Newest) == Insert(u, s, Newest)
  {
    SortCons(u, s, Newest);
    SortOfSorted(s, Newest);
  }

  /** u takes the place of a kept entry of its own commit while an entry that had been
      cut is later than u. */
  ghost predicate Loses(s: seq<Entry>, u: Entry) {
    |s| > KEPT && u.date < s[KEPT].date && exists k :: 0 <= k < KEPT && s[k].sha == u.sha
  }

  /** One update of the cut list gives the cut of the updated full list, except exactly
      when it backdates a kept commit behind an entry that has already been dropped. */
  lemma CutCommutes(s: seq<Entry>, u: Entry)
    requires SortedBy(s, Newest) && Apart(s, ShaOf)
    ensures Updated(Take(s, KEPT), u) == Take(Insert(u, Without(s, u.sha), Newest), KEPT) <==> !Loses(s, u)
  {
    var kept := Take(s, KEPT);
    WithoutKeeps(kept, u.sha);
    SortedFront(u, Without(kept, u.sha));
    if |s| > KEPT {
      if k :| 0 <= k < KEPT && s[k].sha == u.sha {
        CutWithout(s, u, k);
        WithoutKeeps(s, u.sha);
        CutInsertShort(u, Without(s, u.sha), KEPT - 1);
      } else {
        UntouchedCut(s, u);
      }
    }
  }

  lemma CutWithout(s: seq<Entry>, u: Entry, k: nat)
    requires Apart(s, ShaOf) && |s| > KEPT && k < KEPT && s[k].sha == u.sha
    ensures var w := Without(s, u.sha);
      |w| >= KEPT && Without(s[..KEPT], u.sha) == w[..KEPT - 1] && w[KEPT - 1] == s[KEPT] && s[KEPT] != u
  {
    WithoutOnly(s, k);
    WithoutOnly(s[..KEPT], k);
    assert Cut(s[..KEPT], k) == Cut(s, k)[..KEPT - 1];
    assert ShaOf(s[k]) != ShaOf(s[KEPT]);
  }

  lemma UntouchedCut(s: seq<Entry>, u: Entry)
    requires SortedBy(s, Newest) && Apart(s, ShaOf) && |s| > KEPT
    requires forall k :: 0 <= k < KEPT ==> s[k].sha != u.sha
    ensures Take(Insert(u, Without(s[..KEPT], u.sha), Newest), KEPT) == Take(Insert(u, Without(s, u.sha), Newest), KEPT)
  {
    WithoutAbsent(s[..KEPT], u.sha);
    if k :| 0 <= k < |s| && s[k].sha == u.sha {
      WithoutOnly(s, k);
      assert Take(Without(s, u.sha), KEPT) == s[..KEPT];
    } else {
      WithoutAbsent(s, u.sha);
    }
    CutInsert(u, Without(s, u.sha), KEPT);
  }

  // ----- whole histories -----

  lemma NewestOrders()
    ensures TotalPreorder(Newest)
  {
  }

  lemma {:induction false} RecentShape(us: seq<Entry>)
    ensures Apart(Recent(us), ShaOf)
    ensures forall x :: x in Recent(us) ==> x in us
  {
    if us != [] {
      var u, before := us[|us| - 1], us[..|us| - 1];
      RecentShape(before);
      FilterMembers(Recent(before), Other(u.sha));
      ApartWithout(Recent(before), u.sha);
      var w := Without(Recent(before), u.sha);
      forall i | 0 <= i < |w|
        ensures w[i].sha != u.sha
      {
        assert w[i] in w;
      }
    }
  }

  lemma {:induction false} ApartWithout(list: seq<Entry>, sha: string)
    requires Apart(list, ShaOf)
    ensures Apart(Without(list, sha), ShaOf)
  {
    if list != [] {
      ApartWithout(list[1..], sha);
      FilterMembers(list[1..], Other(sha));
      forall i | 0 <= i < |Without(list[1..], sha)|
        ensures ShaOf(Without(list[1..], sha)[i]) != ShaOf(list[0])
      {
        assert Without(list[1..], sha)[i] in list[1..];
      }
    }
  }

  /** The full list is sorted, lists every commit once, and grows by one insertion. */
  lemma CompleteShape(us: seq<Entry>)
    ensures SortedBy(Complete(us), Newest) && Apart(Complete(us), ShaOf)
    ensures forall x :: x in Complete(us) ==> x in us
    ensures us != [] ==>
              Complete(us) == Insert(us[|us| - 1], Without(Complete(us[..|us| - 1]), us[|us| - 1].sha), Newest)
  {
    NewestOrders();
    RecentShape(us);
    SortSorted(Recent(us), Newest);
    SortKeepsApart(Recent(us), Newest, ShaOf);
    SortMembers(Recent(us), Newest);
    if us != [] {
      var u, r := us[|us| - 1], Recent(us[..|us| - 1]);
      FilterSort(r, Newest, Other(u.sha));
      SortCons(u, Without(r, u.sha), Newest);
    }
  }

  /** Cutting at every build loses nothing: the rolling list is always the first 200
      of everything ever built. */
  lemma {:induction false} CuttingLosesNothing(us: seq<Entry>)
    requires NeverBackdated(us)
    ensures Rolling(us) == Take(Complete(us), KEPT)
  {
    if us != [] {
      var u, before := us[|us| - 1], us[..|us| - 1];
      CuttingLosesNothing(before);
      CompleteShape(before);
      CompleteShape(us);
      var s := Complete(before);
      assert !Loses(s, u) by {
        if |s| > KEPT {
          forall k | 0 <= k < KEPT && s[k].sha == u.sha
            ensures s[KEPT].date <= u.date
          {
            assert s[k] in before;
            var i :| 0 <= i < |before| && before[i] == s[k];
            assert us[i] == s[k];
            assert Newest(s[k], s[KEPT]);
          }
        }
      }
      CutCommutes(s, u);
    }
  }

  function Reversed(us: seq<Entry>): seq<Entry> {
    if us == [] then [] else [us[|us| - 1]] + Reversed(us[..|us| - 1])
  }

  lemma {:induction false} ReversedMembers(us: seq<Entry>)
    ensures forall x :: x in Reversed(us) ==> x in us
  {
    if us != [] {
      ReversedMembers(us[..|us| - 1]);
    }
  }

  /** For builds of distinct commits, "everything" is simply the builds, latest first. */
  lemma {:induction false} DistinctRecent(us: seq<Entry>)
    requires Apart(us, ShaOf)
    ensures Recent(us) == Reversed(us) && NeverBackdated(us)
  {
    assert forall i, j :: 0 <= i < j < |us| ==> ShaOf(us[i]) != ShaOf(us[j]);
    if us != [] {
      var u, before := us[|us| - 1], us[..|us| - 1];
      DistinctRecent(before);
      ReversedMembers(before);
      forall x | x in Reversed(before)
        ensures x.sha != u.sha
      {
        assert x in before;
        var i :| 0 <= i < |before| && before[i] == x;
        assert ShaOf(us[i]) != ShaOf(us[|us| - 1]);
      }
      WithoutAbsent(Reversed(before), u.sha);
    }
  }

  /** As long as nothing has been lost, the next build loses nothing exactly if it does not
      backdate a kept commit behind a dropped entry. */
  lemma NextBuildIsExact(us: seq<Entry>, u: Entry)
    requires Rolling(us) == Take(Complete(us), KEPT)
    ensures Rolling(us + [u]) == Take(Complete(us + [u]), KEPT) <==> !Loses(Complete(us), u)
  {
    assert (us + [u])[..|us|] == us;
    CompleteShape(us);
    CompleteShape(us + [u]);
    CutCommutes(Complete(us), u);
  }

  /** n builds of different commits, a day apart. */
  function Daily(n: nat): seq<Entry> {
    seq(n, i requires 0 <= i < n => Entry(seq(i, _ => 'a'), i, ""))
  }

  lemma {:induction false} ReversedAt(us: seq<Entry>, k: nat)
    requires k < |us|
    ensures |Reversed(us)| == |us| && Reversed(us)[k] == us[|us| - 1 - k]
  {
    if k > 0 {
      ReversedAt(us[..|us| - 1], k - 1);
    } else if |us| > 1 {
      ReversedAt(us[..|us| - 1], 0);
    }
  }

  lemma DailyComplete(n: nat)
    ensures NeverBackdated(Daily(n)) && Complete(Daily(n)) == Reversed(Daily(n))
  {
    var us := Daily(n);
    forall i, j | 0 <= i < j < |us|
      ensures ShaOf(us[i]) != ShaOf(us[j])
    {
      assert |us[i].sha| == i && |us[j].sha| == j;
    }
    DistinctRecent(us);
    var r := Reversed(us);
    forall i, j | 0 <= i < j < |r|
      ensures Newest(r[i], r[j])
    {
      ReversedAt(us, 0);
      ReversedAt(us, i);
      ReversedAt(us, j);
    }
    SortOfSorted(r, Newest);
  }

  /** The failing family is inhabited: after 201 daily builds, rebuilding a kept commit
      with a date before them all loses the oldest of the 201. */
  lemma BackdatingLoses()
    ensures var us := Daily(201);
      var u := Entry(us[100].sha, -1, "");
      Rolling(us + [u]) != Take(Complete(us + [u]), KEPT)
  {
    var us := Daily(201);
    var u := Entry(us[100].sha, -1, "");
    DailyComplete(201);
    ReversedAt(us, 100);
    ReversedAt(us, 200);
    assert Complete(us)[100].sha == u.sha;
    CuttingLosesNothing(us);
    NextBuildIsExact(us, u);
  }

  // ----- any list at all -----

  lemma TakeKeeps(s: seq<Entry>, n: nat)
    requires SortedBy(s, Newest)
    ensures SortedBy(Take(s, n), Newest) && (Apart(s, ShaOf) ==> Apart(Take(s, n), ShaOf))
  {
  }

  /** After one update of any list: newest first, at most 200, one entry for the updated
      commit at most, and distinct commits stay distinct. */
  lemma UpdatedShape(list: seq<Entry>, u: Entry)
    ensures var r := Updated(list, u);
      && |r| <= KEPT && SortedBy(r, Newest)
      && (forall x :: x in r && x.sha == u.sha ==> x == u)
      && (Apart(list, ShaOf) ==> Apart(r, ShaOf))
  {
    NewestOrders();
    var w := Without(list, u.sha);
    FilterMembers(list, Other(u.sha));
    SortSorted([u] + w, Newest);
    SortMembers([u] + w, Newest);
    TakeKeeps(Sort([u] + w, Newest), KEPT);
    forall x | x in Updated(list, u) && x.sha == u.sha
      ensures x == u
    {
      assert x in Sort([u] + w, Newest);
    }
    if Apart(list, ShaOf) {
      ApartWithout(list, u.sha);
      forall i | 0 <= i < |w|
        ensures ShaOf(w[i]) != ShaOf(u)
      {
        assert w[i] in w;
      }
      SortKeepsApart([u] + w, Newest, ShaOf);
    }
  }

  /** Without loss of the inserted entry, the cut drops what lies beyond position m. */
  function LastKept(s: seq<Entry>, n: nat): (m: nat)
    requires n > 0
    ensures m <= |s| && m < n
  {
    if |s| < n then |s| else n - 1
  }

  lemma TakeAround(u: Entry, s: seq<Entry>, n: nat, k: nat)
    requires k <= |s| && k < n
    ensures k <= LastKept(s, n) && Take(s[..k] + [u] + s[k..], n) == s[..k] + [u] + s[k..LastKept(s, n)]
  {
  }

  lemma InsertedEarly(u: Entry, s: seq<Entry>, n: nat, k: nat)
    requires k == Slot(u, s) && k < n && forall x :: x in s ==> x.sha != u.sha
    ensures Take(Insert(u, s, Newest), n) == s[..k] + [u] + s[k..LastKept(s, n)]
    ensures Without(Take(Insert(u, s, Newest), n), u.sha) == s[..LastKept(s, n)]
  {
    var m := LastKept(s, n);
    InsertAt(u, s, k);
    TakeAround(u, s, n, k);
    assert s[..m] == s[..k] + s[k..m];
    forall x | x in s[..k] + s[k..m]
      ensures x.sha != u.sha
    {
      assert x in s;
    }
    WithoutMiddle(s[..k], u, s[k..m]);
  }

  lemma InsertedLate(u: Entry, s: seq<Entry>, n: nat)
    requires n <= Slot(u, s) && forall x :: x in s ==> x.sha != u.sha
    ensures Take(Insert(u, s, Newest), n) == s[..n] && Without(s[..n], u.sha) == s[..n]
  {
    var k := Slot(u, s);
    InsertAt(u, s, k);
    assert Take(s[..k] + [u] + s[k..], n) == s[..n];
    WithoutAbsent(s[..n], u.sha);
  }

  lemma WithoutInserted(u: Entry, s: seq<Entry>, n: nat)
    requires forall x :: x in s ==> x.sha != u.sha
    ensures Take(Insert(u, Without(Take(Insert(u, s, Newest), n), u.sha), Newest), n) == Take(Insert(u, s, Newest), n)
  {
    var k := Slot(u, s);
    if k < n {
      var m := LastKept(s, n);
      InsertedEarly(u, s, n, k);
      InsertAt(u, s[..m], k);
      assert s[..m][..k] + [u] + s[..m][k..] == s[..k] + [u] + s[k..m];
    } else {
      InsertedLate(u, s, n);
      InsertAt(u, s[..n], n);
    }
  }

  lemma {:induction false} WithoutMiddle(a: seq<Entry>, u: Entry, b: seq<Entry>)
    requires forall x :: x in a + b ==> x.sha != u.sha
    ensures Without(a + [u] + b, u.sha) == a + b
  {
    if a == [] {
      assert forall x :: x in b ==> x in a + b;
      WithoutAbsent(b, u.sha);
      assert a + [u] + b == [u] + b;
      assert ([u] + b)[1..] == b;
      assert a + b == b;
    } else {
      assert a[0] in a + b;
      assert forall x :: x in a[1..] + b ==> x in a + b;
      WithoutMiddle(a[1..], u, b);
      assert (a + [u] + b)[1..] == a[1..] + [u] + b;
      assert a + b == [a[0]] + (a[1..] + b);
    }
  }

  /** Building the same commit again with the same data changes nothing, whatever the
      file held. */
  lemma RepeatChangesNothing(list: seq<Entry>, u: Entry)
    ensures Updated(Updated(list, u), u) == Updated(list, u)
  {
    NewestOrders();
    var w := Without(list, u.sha);
    var s := Sort(w, Newest);
    FilterMembers(list, Other(u.sha));
    SortMembers(w, Newest);
    SortCons(u, w, Newest);
    WithoutInserted(u, s, KEPT);
    var r := Updated(list, u);
    SortSorted([u] + w, Newest);
    TakeKeeps(Sort([u] + w, Newest), KEPT);
    SortedWithout(r, u.sha);
    SortedFront(u, Without(r, u.sha));
  }

  lemma {:induction false} SortedWithout(list: seq<Entry>, sha: string)
    requires SortedBy(list, Newest)
    ensures SortedBy(Without(list, sha), Newest)
  {
    NewestOrders();
    FilterSort(list, Newest, Other(sha));
    SortOfSorted(list, Newest);
    SortSorted(Without(list, sha), Newest);
  }
}
