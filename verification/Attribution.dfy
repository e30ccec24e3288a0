/** Which runs a reply hands out, and to whom: said of the store before and after, from the
    slots and the runs alone. */
module Attribution {
  import opened Options
  import opened RunStore
  import opened Protocol
  import opened Sorting

  ghost predicate SlotHolds(runs: seq<Slot>, id: RunId) {
    exists i :: 0 <= i < |runs| && runs[i].id == id
  }

  ghost predicate Held(store: Store, id: RunId) {
    exists k :: k in store && SlotHolds(store[k].runs, id)
  }

  ghost predicate Since(c: RunInfo, t0: int) {
    c.created >= t0 - CLOCK_SLACK
  }

  /** A lookup may hand the run out. */
  ghost predicate Free(store: Store, c: RunInfo, t0: int) {
    !c.status.OtherStatus? && Since(c, t0) && !Held(store, c.id)
  }

  // ----- one workflow of a lookup -----

  ghost predicate Increasing(at: seq<nat>) {
    forall i, j :: 0 <= i < j < |at| ==> at[i] < at[j]
  }

  /** The slots from `from` on hold the first candidates, in order, and stand for platforms
      without a run, in the order in which they were asked about. */
  ghost predicate Takes(wf: Workflow, plats: seq<Platform>, cands: seq<RunInfo>, from: seq<Slot>, runs: seq<Slot>,
                        at: seq<nat>) {
    && |at| <= |cands| && |runs| == |from| + |at| && runs[..|from|] == from && Increasing(at)
    && forall m :: 0 <= m < |at| ==>
         && at[m] < |plats| && !HasPlat(from, plats[at[m]])
         && runs[|from| + m] == SlotFor(wf, plats[at[m]], cands[m])
  }

  lemma {:induction false} AssignTakes(wf: Workflow, plats: seq<Platform>, cands: seq<RunInfo>, runs: seq<Slot>)
    returns (at: seq<nat>)
    ensures Takes(wf, plats, cands, runs, Assign(wf, plats, cands, runs), at)
    ensures |at| < |cands| ==> forall p :: p in plats ==> HasPlat(Assign(wf, plats, cands, runs), p)
    decreases |plats|
  {
    at := [];
    if plats != [] {
      var p := plats[0];
      if HasPlat(runs, p) || cands == [] {
        var rest := AssignTakes(wf, plats[1..], cands, runs);
        at := Later(rest);
        StillHasPlat(runs, Assign(wf, plats, cands, runs), p);
      } else {
        var mid := runs + [SlotFor(wf, p, cands[0])];
        var rest := AssignTakes(wf, plats[1..], cands[1..], mid);
        at := [0] + Later(rest);
        TakesFirst(wf, plats, cands, runs, Assign(wf, plats, cands, runs), rest);
        assert mid[|runs|].plat == p;
        StillHasPlat(mid, Assign(wf, plats, cands, runs), p);
      }
    }
  }

  function Later(at: seq<nat>): (r: seq<nat>)
    ensures |r| == |at| && forall i :: 0 <= i < |at| ==> r[i] == at[i] + 1
  {
    seq(|at|, i requires 0 <= i < |at| => at[i] + 1)
  }

  lemma StillHasPlat(runs: seq<Slot>, runs': seq<Slot>, p: Platform)
    requires |runs| <= |runs'| && runs'[..|runs|] == runs
    ensures HasPlat(runs, p) ==> HasPlat(runs', p)
  {
    if HasPlat(runs, p) {
      var i :| 0 <= i < |runs| && runs[i].plat == p;
      assert runs'[..|runs|][i] == runs'[i];
    }
  }

  lemma SlotsStay(runs: seq<Slot>, runs': seq<Slot>)
    requires |runs| <= |runs'| && runs'[..|runs|] == runs
    ensures forall i :: 0 <= i < |runs| ==> runs'[i] == runs[i]
    ensures forall id :: SlotHolds(runs, id) ==> SlotHolds(runs', id)
    ensures forall p :: HasPlat(runs, p) ==> HasPlat(runs', p)
  {
    forall i | 0 <= i < |runs|
      ensures runs'[i] == runs[i]
    {
      assert runs'[..|runs|][i] == runs'[i];
    }
    forall id | SlotHolds(runs, id)
      ensures SlotHolds(runs', id)
    {
      var i :| 0 <= i < |runs| && runs[i].id == id;
      assert runs'[i].id == id;
    }
    forall p | HasPlat(runs, p)
      ensures HasPlat(runs', p)
    {
      StillHasPlat(runs, runs', p);
    }
  }

  lemma TakenAreHeld(wf: Workflow, plats: seq<Platform>, cands: seq<RunInfo>, from: seq<Slot>, runs: seq<Slot>,
                     at: seq<nat>)
    requires Takes(wf, plats, cands, from, runs, at)
    ensures forall m :: 0 <= m < |at| ==> SlotHolds(runs, cands[m].id)
  {
    forall m | 0 <= m < |at|
      ensures SlotHolds(runs, cands[m].id)
    {
      assert runs[|from| + m].id == cands[m].id;
    }
  }

  lemma TakesFirst(wf: Workflow, plats: seq<Platform>, cands: seq<RunInfo>, runs: seq<Slot>, runs': seq<Slot>,
                   rest: seq<nat>)
    requires plats != [] && cands != [] && !HasPlat(runs, plats[0])
    requires Takes(wf, plats[1..], cands[1..], runs + [SlotFor(wf, plats[0], cands[0])], runs', rest)
    ensures Takes(wf, plats, cands, runs, runs', [0] + Later(rest))
  {
    var slot := SlotFor(wf, plats[0], cands[0]);
    var mid := runs + [slot];
    var at := [0] + Later(rest);
    assert runs'[..|runs|] == mid[..|runs|] == runs;
    forall m | 0 <= m < |at|
      ensures at[m] < |plats| && !HasPlat(runs, plats[at[m]])
      ensures runs'[|runs| + m] == SlotFor(wf, plats[at[m]], cands[m])
    {
      if m == 0 {
        assert runs'[|runs|] == runs'[..|mid|][|runs|] == slot;
      } else {
        assert at[m] == rest[m - 1] + 1;
        StillHasPlat(runs, mid, plats[at[m]]);
      }
    }
  }

  // ----- what a reply hands out -----

  /** Every new slot of the workflow holds a free run of the reply as it was reported, for a
      platform that was asked about and had no run. */
  ghost predicate OnlyFreeRuns(store: Store, ask: Ask, reply: seq<RunInfo>, t0: int, runs: seq<Slot>,
                               runs': seq<Slot>) {
    forall i :: |runs| <= i < |runs'| && runs'[i].wf == ask.wf ==>
      && runs'[i].plat in ask.plats && !HasPlat(runs, runs'[i].plat)
      && exists a :: 0 <= a < |reply| && Free(store, reply[a], t0)
           && runs'[i] == SlotFor(ask.wf, runs'[i].plat, reply[a])
  }

  /** No free run that is left over was created later than one that was handed out. */
  ghost predicate NewestHandedOut(w: World, store: Store, ask: Ask, reply: seq<RunInfo>, t0: int, runs: seq<Slot>,
                                  runs': seq<Slot>) {
    forall i, a ::
      |runs| <= i < |runs'| && runs'[i].wf == ask.wf && 0 <= a < |reply| && Free(store, reply[a], t0)
      && !SlotHolds(runs', reply[a].id) ==>
        reply[a].created <= w.born(runs'[i].id)
  }

  /** Among the platforms, those asked about earlier get the later runs. */
  ghost predicate EarlierGetNewer(w: World, ask: Ask, runs: seq<Slot>, runs': seq<Slot>) {
    forall i, j :: |runs| <= i < j < |runs'| && runs'[i].wf == ask.wf == runs'[j].wf ==>
      && w.born(runs'[i].id) >= w.born(runs'[j].id)
      && exists x, y :: 0 <= x < y < |ask.plats| && ask.plats[x] == runs'[i].plat && ask.plats[y] == runs'[j].plat
  }

  /** A platform stays without a run only when the free runs are used up. */
  ghost predicate OnlyForWant(store: Store, ask: Ask, reply: seq<RunInfo>, t0: int, runs': seq<Slot>) {
    forall p, a :: p in ask.plats && !HasPlat(runs', p) && 0 <= a < |reply| && Free(store, reply[a], t0) ==>
      SlotHolds(runs', reply[a].id)
  }

  ghost predicate HandsOut(w: World, store: Store, ask: Ask, reply: seq<RunInfo>, t0: int, runs: seq<Slot>,
                           runs': seq<Slot>) {
    && OnlyFreeRuns(store, ask, reply, t0, runs, runs')
    && NewestHandedOut(w, store, ask, reply, t0, runs, runs')
    && EarlierGetNewer(w, ask, runs, runs')
    && OnlyForWant(store, ask, reply, t0, runs')
  }

  /** No question goes to one workflow twice. */
  ghost predicate DistinctAsks(asks: seq<Ask>) {
    forall i, j :: 0 <= i < j < |asks| ==> asks[i].wf != asks[j].wf
  }

  lemma {:induction false} ClaimableAre(runs: seq<RunInfo>, t0: int, claim: set<RunId>)
    ensures forall r :: r in ClaimableRuns(runs, t0, claim) <==> r in runs && Claimable(r, t0, claim)
  {
    if runs != [] {
      ClaimableAre(runs[1..], t0, claim);
      forall r
        ensures r in ClaimableRuns(runs, t0, claim) <==> r in runs && Claimable(r, t0, claim)
      {
        assert r in runs <==> r == runs[0] || r in runs[1..];
      }
    }
  }

  /** The candidates of a reply are its free runs that no earlier question has taken, newest
      first. */
  lemma CandidatesAre(store: Store, reply: seq<RunInfo>, t0: int, mid: seq<Slot>)
    requires forall a :: 0 <= a < |reply| ==> reply[a].id != ""
    ensures var cands := Candidates(reply, t0, ClaimedIds(store) + SlotIds(mid));
      && (forall c :: c in cands <==> c in reply && Free(store, c, t0) && !SlotHolds(mid, c.id))
      && (forall m, n :: 0 <= m < n < |cands| ==> cands[m].created >= cands[n].created)
  {
    var claim := ClaimedIds(store) + SlotIds(mid);
    ClaimableAre(reply, t0, claim);
    SortMembers(ClaimableRuns(reply, t0, claim), NewestFirst);
    SortSorted(ClaimableRuns(reply, t0, claim), NewestFirst);
    forall c | c in reply
      ensures c.id in claim <==> Held(store, c.id) || SlotHolds(mid, c.id)
    {
      if Held(store, c.id) {
        var k :| k in store && SlotHolds(store[k].runs, c.id);
        var i :| 0 <= i < |store[k].runs| && store[k].runs[i].id == c.id;
        assert store[k].runs[i].id in ClaimedIds(store);
      }
    }
  }

  /** What holds after one question has been handled: its candidates, newest first, went to
      the platforms in turn. */
  ghost predicate Handled(w: World, store: Store, ask: Ask, reply: seq<RunInfo>, t0: int, mid: seq<Slot>,
                          next: seq<Slot>, cands: seq<RunInfo>, at: seq<nat>) {
    && FaithfulReply(w, ask.wf, reply) && Takes(ask.wf, ask.plats, cands, mid, next, at)
    && (|at| < |cands| ==> forall p :: p in ask.plats ==> HasPlat(next, p))
    && (forall c :: c in cands <==> c in reply && Free(store, c, t0) && !SlotHolds(mid, c.id))
    && (forall m, n :: 0 <= m < n < |cands| ==> cands[m].created >= cands[n].created)
  }

  lemma CandidateIsListed(w: World, store: Store, ask: Ask, reply: seq<RunInfo>, t0: int, mid: seq<Slot>,
                          next: seq<Slot>, cands: seq<RunInfo>, at: seq<nat>, m: nat) returns (a: nat)
    requires Handled(w, store, ask, reply, t0, mid, next, cands, at) && m < |at|
    ensures a < |reply| && reply[a] == cands[m] && Free(store, reply[a], t0)
    ensures next[|mid| + m] == SlotFor(ask.wf, ask.plats[at[m]], reply[a]) && w.born(reply[a].id) == reply[a].created
  {
    assert cands[m] in cands;
    a :| 0 <= a < |reply| && reply[a] == cands[m];
  }

  /** A free run that no slot holds is a candidate after all those handed out. */
  lemma LeftOverIsLater(w: World, store: Store, ask: Ask, reply: seq<RunInfo>, t0: int, mid: seq<Slot>,
                        next: seq<Slot>, cands: seq<RunInfo>, at: seq<nat>, a: nat) returns (n: nat)
    requires Handled(w, store, ask, reply, t0, mid, next, cands, at)
    requires a < |reply| && Free(store, reply[a], t0) && !SlotHolds(next, reply[a].id)
    ensures |at| <= n < |cands| && cands[n] == reply[a]
  {
    SlotsStay(mid, next);
    TakenAreHeld(ask.wf, ask.plats, cands, mid, next, at);
    assert reply[a] in cands;
    n :| 0 <= n < |cands| && cands[n] == reply[a];
  }

  lemma HandledOnlyFree(w: World, store: Store, ask: Ask, reply: seq<RunInfo>, t0: int, mid: seq<Slot>,
                        next: seq<Slot>, cands: seq<RunInfo>, at: seq<nat>)
    requires Handled(w, store, ask, reply, t0, mid, next, cands, at)
    ensures OnlyFreeRuns(store, ask, reply, t0, mid, next)
  {
    forall i | |mid| <= i < |next|
      ensures next[i].plat in ask.plats && !HasPlat(mid, next[i].plat)
      ensures exists a :: 0 <= a < |reply| && Free(store, reply[a], t0)
                && next[i] == SlotFor(ask.wf, next[i].plat, reply[a])
    {
      var a := CandidateIsListed(w, store, ask, reply, t0, mid, next, cands, at, i - |mid|);
    }
  }

  lemma HandledNewest(w: World, store: Store, ask: Ask, reply: seq<RunInfo>, t0: int, mid: seq<Slot>,
                      next: seq<Slot>, cands: seq<RunInfo>, at: seq<nat>)
    requires Handled(w, store, ask, reply, t0, mid, next, cands, at)
    ensures NewestHandedOut(w, store, ask, reply, t0, mid, next)
  {
    forall i, a | |mid| <= i < |next| && 0 <= a < |reply| && Free(store, reply[a], t0) && !SlotHolds(next, reply[a].id)
      ensures reply[a].created <= w.born(next[i].id)
    {
      var b := CandidateIsListed(w, store, ask, reply, t0, mid, next, cands, at, i - |mid|);
      var n := LeftOverIsLater(w, store, ask, reply, t0, mid, next, cands, at, a);
    }
  }

  lemma HandledInTurn(w: World, store: Store, ask: Ask, reply: seq<RunInfo>, t0: int, mid: seq<Slot>,
                      next: seq<Slot>, cands: seq<RunInfo>, at: seq<nat>)
    requires Handled(w, store, ask, reply, t0, mid, next, cands, at)
    ensures EarlierGetNewer(w, ask, mid, next)
  {
    forall i, j | |mid| <= i < j < |next|
      ensures w.born(next[i].id) >= w.born(next[j].id)
      ensures exists x, y :: 0 <= x < y < |ask.plats| && ask.plats[x] == next[i].plat && ask.plats[y] == next[j].plat
    {
      var a := CandidateIsListed(w, store, ask, reply, t0, mid, next, cands, at, i - |mid|);
      var b := CandidateIsListed(w, store, ask, reply, t0, mid, next, cands, at, j - |mid|);
      var x, y := at[i - |mid|], at[j - |mid|];
      assert ask.plats[x] == next[i].plat && ask.plats[y] == next[j].plat;
    }
  }

  lemma HandledForWant(w: World, store: Store, ask: Ask, reply: seq<RunInfo>, t0: int, mid: seq<Slot>,
                       next: seq<Slot>, cands: seq<RunInfo>, at: seq<nat>)
    requires Handled(w, store, ask, reply, t0, mid, next, cands, at)
    ensures OnlyForWant(store, ask, reply, t0, next)
  {
    forall p, a | p in ask.plats && !HasPlat(next, p) && 0 <= a < |reply| && Free(store, reply[a], t0)
      ensures SlotHolds(next, reply[a].id)
    {
      if !SlotHolds(next, reply[a].id) {
        var n := LeftOverIsLater(w, store, ask, reply, t0, mid, next, cands, at, a);
      }
    }
  }

  lemma HandledHandsOut(w: World, store: Store, ask: Ask, reply: seq<RunInfo>, t0: int, mid: seq<Slot>,
                        next: seq<Slot>, cands: seq<RunInfo>, at: seq<nat>)
    requires Handled(w, store, ask, reply, t0, mid, next, cands, at)
    ensures HandsOut(w, store, ask, reply, t0, mid, next)
  {
    HandledOnlyFree(w, store, ask, reply, t0, mid, next, cands, at);
    HandledNewest(w, store, ask, reply, t0, mid, next, cands, at);
    HandledInTurn(w, store, ask, reply, t0, mid, next, cands, at);
    HandledForWant(w, store, ask, reply, t0, mid, next, cands, at);
  }

  /** More and more slots: the later ones are not of the workflow wf. */
  ghost predicate Extends(runs: seq<Slot>, runs': seq<Slot>, wf: Workflow) {
    && |runs| <= |runs'| && runs'[..|runs|] == runs
    && forall i :: |runs| <= i < |runs'| ==> runs'[i].wf != wf
  }

  /** The questions handled before and after leave what one question has done. */
  lemma HandsOutStays(w: World, store: Store, ask: Ask, reply: seq<RunInfo>, t0: int, runs: seq<Slot>,
                      mid: seq<Slot>, next: seq<Slot>, runs': seq<Slot>)
    requires HandsOut(w, store, ask, reply, t0, mid, next) && |mid| <= |next| && next[..|mid|] == mid
    requires Extends(runs, mid, ask.wf) && Extends(next, runs', ask.wf)
    ensures HandsOut(w, store, ask, reply, t0, runs, runs')
  {
    SlotsStay(runs, mid);
    SlotsStay(mid, next);
    SlotsStay(next, runs');
    forall i | |runs| <= i < |runs'| && runs'[i].wf == ask.wf
      ensures |mid| <= i < |next| && runs'[i] == next[i]
    {
    }
  }

  lemma {:induction false} SlotsAreOf(w: World, asks: seq<Ask>, replies: seq<seq<RunInfo>>, t0: int, base: set<RunId>,
                                      runs: seq<Slot>, wf: Workflow)
    requires |asks| == |replies| && forall i :: 0 <= i < |asks| ==> asks[i].wf != wf
    ensures Extends(runs, ClaimReplies(asks, replies, t0, base, runs), wf)
    decreases |asks|
  {
    if asks != [] {
      var cands := Candidates(replies[0], t0, base + SlotIds(runs));
      var at := AssignTakes(asks[0].wf, asks[0].plats, cands, runs);
      var mid := Assign(asks[0].wf, asks[0].plats, cands, runs);
      var last := ClaimReplies(asks[1..], replies[1..], t0, base, mid);
      TakesExtends(asks[0].wf, asks[0].plats, cands, runs, mid, at, wf);
      SlotsAreOf(w, asks[1..], replies[1..], t0, base, mid, wf);
      ExtendsInTurn(runs, mid, last, wf);
    }
  }

  lemma TakesExtends(wf: Workflow, plats: seq<Platform>, cands: seq<RunInfo>, from: seq<Slot>, runs: seq<Slot>,
                     at: seq<nat>, other: Workflow)
    requires Takes(wf, plats, cands, from, runs, at) && wf != other
    ensures Extends(from, runs, other)
  {
    forall i | |from| <= i < |runs|
      ensures runs[i].wf != other
    {
      var m := i - |from|;
      assert at[m] < |plats| && runs[|from| + m].wf == wf;
    }
  }

  lemma ExtendsInTurn(a: seq<Slot>, b: seq<Slot>, c: seq<Slot>, wf: Workflow)
    requires Extends(a, b, wf) && Extends(b, c, wf)
    ensures Extends(a, c, wf)
  {
    SlotsStay(b, c);
    assert c[..|a|] == c[..|b|][..|a|];
  }

  lemma {:induction false} RepliesHandOut(w: World, store: Store, asks: seq<Ask>, replies: seq<seq<RunInfo>>, t0: int,
                                          runs: seq<Slot>, r: nat)
    requires |asks| == |replies| && DistinctAsks(asks) && r < |asks|
    requires forall i :: 0 <= i < |asks| ==> FaithfulReply(w, asks[i].wf, replies[i])
    ensures HandsOut(w, store, asks[r], replies[r], t0, runs, ClaimReplies(asks, replies, t0, ClaimedIds(store), runs))
    decreases |asks|
  {
    var base := ClaimedIds(store);
    var cands := Candidates(replies[0], t0, base + SlotIds(runs));
    var at := AssignTakes(asks[0].wf, asks[0].plats, cands, runs);
    var mid := Assign(asks[0].wf, asks[0].plats, cands, runs);
    if r == 0 {
      CandidatesAre(store, replies[0], t0, runs);
      HandledHandsOut(w, store, asks[0], replies[0], t0, runs, mid, cands, at);
      SlotsAreOf(w, asks[1..], replies[1..], t0, base, mid, asks[0].wf);
      HandsOutStays(w, store, asks[0], replies[0], t0, runs, runs, mid,
                    ClaimReplies(asks[1..], replies[1..], t0, base, mid));
    } else {
      RepliesHandOut(w, store, asks[1..], replies[1..], t0, mid, r - 1);
      var last := ClaimReplies(asks[1..], replies[1..], t0, base, mid);
      TakesExtends(asks[0].wf, asks[0].plats, cands, runs, mid, at, asks[r].wf);
      ClaimRepliesExtends(asks[1..], replies[1..], t0, base, mid);
      HandsOutStays(w, store, asks[r], replies[r], t0, runs, mid, last, last);
    }
  }

  lemma {:induction false} ClaimRepliesExtends(asks: seq<Ask>, replies: seq<seq<RunInfo>>, t0: int, base: set<RunId>,
                                               runs: seq<Slot>)
    requires |asks| == |replies|
    ensures var last := ClaimReplies(asks, replies, t0, base, runs);
      |runs| <= |last| && last[..|runs|] == runs
    decreases |asks|
  {
    if asks != [] {
      var cands := Candidates(replies[0], t0, base + SlotIds(runs));
      var at := AssignTakes(asks[0].wf, asks[0].plats, cands, runs);
      var mid := Assign(asks[0].wf, asks[0].plats, cands, runs);
      ClaimRepliesExtends(asks[1..], replies[1..], t0, base, mid);
      var last := ClaimReplies(asks[1..], replies[1..], t0, base, mid);
      assert last[..|runs|] == last[..|mid|][..|runs|];
    }
  }

  /** What the replies of a pass do to the store, for each question r: only free runs of the
      reply are handed out, only to platforms that were asked about and had none, newest
      first and to the platforms in turn; a platform is left without a run only when the
      reply has no free run left. Old slots stay, and so does every other entry. */
  lemma CaptureHandsOutNewest(w: World, store: Store, key: Key, asks: seq<Ask>, replies: seq<seq<RunInfo>>, t0: int,
                              r: nat)
    requires Allowed(w, Capture(key, asks, replies, t0)) && DistinctAsks(asks)
    requires key in store && r < |asks|
    ensures var store' := CaptureStore(store, key, asks, replies, t0);
      && store'.Keys == store.Keys && (forall k :: k in store && k != key ==> store'[k] == store[k])
      && store'[key] == store[key].(runs := store'[key].runs)
      && |store[key].runs| <= |store'[key].runs| && store'[key].runs[..|store[key].runs|] == store[key].runs
      && HandsOut(w, store, asks[r], replies[r], t0, store[key].runs, store'[key].runs)
  {
    ClaimRepliesExtends(asks, replies, t0, ClaimedIds(store), store[key].runs);
    RepliesHandOut(w, store, asks, replies, t0, store[key].runs, r);
  }

  /** Every slot that a pass adds is of a workflow that was asked about. */
  lemma CaptureAddsOnlyAsked(w: World, store: Store, key: Key, asks: seq<Ask>, replies: seq<seq<RunInfo>>, t0: int,
                             i: nat)
    requires |asks| == |replies| && key in store
    requires |store[key].runs| <= i < |CaptureStore(store, key, asks, replies, t0)[key].runs|
    ensures exists r :: 0 <= r < |asks| && asks[r].wf == CaptureStore(store, key, asks, replies, t0)[key].runs[i].wf
  {
    var wf := CaptureStore(store, key, asks, replies, t0)[key].runs[i].wf;
    if forall r :: 0 <= r < |asks| ==> asks[r].wf != wf {
      SlotsAreOf(w, asks, replies, t0, ClaimedIds(store), store[key].runs, wf);
    }
  }

  // ----- runs that many cells share -----

  /** c is a run of the reply dispatched since t0, and none such was created later. */
  ghost predicate IsNewest(runs: seq<RunInfo>, t0: int, c: RunInfo) {
    && c in runs && Since(c, t0)
    && forall a :: 0 <= a < |runs| && Since(runs[a], t0) ==> runs[a].created <= c.created
  }

  lemma NewestIsNewest(runs: seq<RunInfo>, t0: int)
    ensures Newest(runs, t0).None? <==> forall a :: 0 <= a < |runs| ==> !Since(runs[a], t0)
    ensures Newest(runs, t0).Some? ==> IsNewest(runs, t0, Newest(runs, t0).value)
  {
    RecentMembers(runs, t0);
    var recent := Recent(runs, t0);
    var s := Sort(recent, NewestFirst);
    SortMembers(recent, NewestFirst);
    SortSorted(recent, NewestFirst);
    if s == [] {
      assert recent == [];
      forall a | 0 <= a < |runs|
        ensures !Since(runs[a], t0)
      {
        assert runs[a] in runs && runs[a] !in recent;
      }
    } else {
      assert s[0] in s;
      forall a | 0 <= a < |runs| && Since(runs[a], t0)
        ensures runs[a].created <= s[0].created
      {
        assert runs[a] in s;
        var i :| 0 <= i < |s| && s[i] == runs[a];
      }
    }
  }

  /** The entry got its one run: the newest of the reply since t0, in one slot for `plat`. */
  ghost predicate Received(e: Entry, e': Entry, wf: Workflow, plat: Platform, runs: seq<RunInfo>, t0: int) {
    && e' == e.(runs := e'.runs)
    && exists c :: IsNewest(runs, t0, c) && e'.runs == [SlotFor(wf, plat, c)]
  }

  /** A snapshots reply: unless it lists no run since t0, every snapshot entry without a run
      receives its newest run since t0; nothing else changes. */
  lemma SnapshotReplyGivesNewest(store: Store, runs: seq<RunInfo>, t0: int, k: Key)
    requires k in store
    ensures var store' := SnapshotStore(store, runs, t0);
      && store'.Keys == store.Keys
      && if k.cap == SNAPSHOTS_CAP && store[k].runs == [] && exists a :: 0 <= a < |runs| && Since(runs[a], t0)
         then Received(store[k], store'[k], SNAPSHOTS_WF, "all", runs, t0) else store'[k] == store[k]
  {
    NewestIsNewest(runs, t0);
  }

  /** A batch reply: the same for the entries stamped with its workflow, each under its own
      first platform. */
  lemma BatchReplyGivesNewest(store: Store, wf: Workflow, runs: seq<RunInfo>, t0: int, k: Key)
    requires k in store
    ensures var store' := BatchStore(store, wf, runs, t0);
      && store'.Keys == store.Keys
      && if store[k].batchWf == wf && store[k].runs == [] && exists a :: 0 <= a < |runs| && Since(runs[a], t0)
         then exists plat :: Received(store[k], store'[k], wf, plat, runs, t0)
                && (if store[k].plats != [] && store[k].plats[0] != "" then plat == store[k].plats[0]
                    else plat == DEFAULT_PLATFORM)
         else store'[k] == store[k]
  {
    NewestIsNewest(runs, t0);
    if Newest(runs, t0).Some? && store[k].batchWf == wf && store[k].runs == [] {
      assert Received(store[k], BatchStore(store, wf, runs, t0)[k], wf, FirstPlat(store[k]), runs, t0);
    }
  }
}
