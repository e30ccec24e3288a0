/** The coalesced lookups of run ids: any number of callers, at most one chain of
    network passes per cell, every callback invoked exactly once. */
module Lookups {
  import opened Options
  import opened RunStore

  type Callback = nat

  const MAX_PASSES: nat := 5

  /** A chain in flight waits either for the replies of its pass or for the timer that
      starts its next pass. */
  datatype Phase = AwaitReply | AwaitTimer

  datatype Chain = Chain(key: Key, attempt: nat, passes: nat, phase: Phase)

  /** capturing holds, per cell being looked up, the callbacks to be told; flight the
      chains in progress; invoked the callbacks told so far. */
  datatype State = State(capturing: map<Key, seq<Callback>>, flight: seq<Chain>, invoked: seq<Callback>)

  const IDLE: State := State(map[], [], [])

  function Finish(st: State, key: Key): State {
    if key in st.capturing then st.(capturing := st.capturing - {key}, invoked := st.invoked + st.capturing[key])
    else st
  }

  function Single(cb: Option<Callback>): seq<Callback> {
    if cb.Some? then [cb.value] else []
  }

  /** A caller asks for a cell; `proceeds` says that there is a token, an entry, and a
      platform still without a run. */
  function Call(st: State, key: Key, cb: Option<Callback>, proceeds: bool): State {
    if key in st.capturing then st.(capturing := st.capturing[key := st.capturing[key] + Single(cb)])
    else
      var st1 := st.(capturing := st.capturing[key := Single(cb)]);
      if proceeds then st1.(flight := st1.flight + [Chain(key, 1, 1, AwaitReply)]) else Finish(st1, key)
  }

  function Without(flight: seq<Chain>, i: nat): seq<Chain>
    requires i < |flight|
  {
    flight[..i] + flight[i + 1..]
  }

  /** The replies of a pass arrive; `goesOn` says that the entry is still there and
      some platform still has no run. */
  function Reply(st: State, i: nat, goesOn: bool): State
    requires i < |st.flight| && st.flight[i].phase.AwaitReply?
  {
    var c := st.flight[i];
    if goesOn && c.attempt < MAX_PASSES then st.(flight := st.flight[i := c.(phase := AwaitTimer)])
    else Finish(st.(flight := Without(st.flight, i)), c.key)
  }

  /** The next pass of a chain. */
  function NextPass(c: Chain): Chain {
    Chain(c.key, c.attempt + 1, c.passes + 1, AwaitReply)
  }

  /** The two seconds between passes are over. */
  function Timer(st: State, i: nat, proceeds: bool): State
    requires i < |st.flight| && st.flight[i].phase.AwaitTimer?
  {
    var c := st.flight[i];
    if proceeds then st.(flight := st.flight[i := NextPass(c)])
    else Finish(st.(flight := Without(st.flight, i)), c.key)
  }

  datatype Event =
    | Called(key: Key, cb: Option<Callback>, proceeds: bool)
    | Replied(i: nat, goesOn: bool)
    | TimedOut(i: nat, proceeds: bool)

  predicate Enabled(st: State, e: Event) {
    match e
    case Called(_, _, _) => true
    case Replied(i, _) => i < |st.flight| && st.flight[i].phase.AwaitReply?
    case TimedOut(i, _) => i < |st.flight| && st.flight[i].phase.AwaitTimer?
  }

  function Next(st: State, e: Event): State
    requires Enabled(st, e)
  {
    match e
    case Called(key, cb, proceeds) => Call(st, key, cb, proceeds)
    case Replied(i, goesOn) => Reply(st, i, goesOn)
    case TimedOut(i, proceeds) => Timer(st, i, proceeds)
  }

  ghost predicate Possible(st: State, events: seq<Event>)
    decreases |events|
  {
    events == [] || (Enabled(st, events[0]) && Possible(Next(st, events[0]), events[1..]))
  }

  ghost function Exec(st: State, events: seq<Event>): State
    requires Possible(st, events)
    decreases |events|
  {
    if events == [] then st else Exec(Next(st, events[0]), events[1..])
  }

  /** Every callback handed over in a run. */
  ghost function Passed(events: seq<Event>): multiset<Callback> {
    if events == [] then multiset{}
    else Handed(events[0]) + Passed(events[1..])
  }

  // ----- at most one chain per cell, at most five passes -----

  ghost predicate Coherent(st: State) {
    && (forall i, j :: 0 <= i < j < |st.flight| ==> st.flight[i].key != st.flight[j].key)
    && (forall i :: 0 <= i < |st.flight| ==> st.flight[i].key in st.capturing)
    && (forall k :: k in st.capturing ==> InFlight(st.flight, k))
    && (forall i :: 0 <= i < |st.flight| ==> WithinPasses(st.flight[i]))
  }

  predicate WithinPasses(c: Chain) {
    1 <= c.passes == c.attempt <= MAX_PASSES && (c.phase.AwaitTimer? ==> c.attempt < MAX_PASSES)
  }

  ghost predicate InFlight(flight: seq<Chain>, k: Key) {
    exists i :: 0 <= i < |flight| && flight[i].key == k
  }

  lemma InFlightAfterUpdate(flight: seq<Chain>, i: nat, c: Chain, k: Key)
    requires i < |flight| && c.key == flight[i].key && InFlight(flight, k)
    ensures InFlight(flight[i := c], k)
  {
    var j :| 0 <= j < |flight| && flight[j].key == k;
    assert flight[i := c][j].key == k;
  }

  lemma InFlightAfterRemoval(flight: seq<Chain>, i: nat, k: Key)
    requires i < |flight| && flight[i].key != k && InFlight(flight, k)
    ensures InFlight(Without(flight, i), k)
  {
    var j :| 0 <= j < |flight| && flight[j].key == k;
    assert Without(flight, i)[if j < i then j else j - 1] == flight[j];
  }

  lemma InFlightAfterStart(flight: seq<Chain>, c: Chain, k: Key)
    requires InFlight(flight, k) || c.key == k
    ensures InFlight(flight + [c], k)
  {
    if c.key == k {
      assert (flight + [c])[|flight|].key == k;
    } else {
      var j :| 0 <= j < |flight| && flight[j].key == k;
      assert (flight + [c])[j].key == k;
    }
  }

  lemma StartCoherent(st: State, key: Key, cbs: seq<Callback>)
    requires Coherent(st) && key !in st.capturing
    ensures Coherent(State(st.capturing[key := cbs], st.flight + [Chain(key, 1, 1, AwaitReply)], st.invoked))
  {
    var c := Chain(key, 1, 1, AwaitReply);
    forall k | k in st.capturing[key := cbs]
      ensures InFlight(st.flight + [c], k)
    {
      InFlightAfterStart(st.flight, c, k);
    }
  }

  lemma CallCoherent(st: State, key: Key, cb: Option<Callback>, proceeds: bool)
    requires Coherent(st)
    ensures Coherent(Call(st, key, cb, proceeds))
  {
    if key !in st.capturing {
      if proceeds {
        StartCoherent(st, key, Single(cb));
      } else {
        assert Call(st, key, cb, proceeds).capturing == st.capturing;
      }
    }
  }

  lemma UpdateCoherent(st: State, i: nat, c: Chain)
    requires Coherent(st) && i < |st.flight| && c.key == st.flight[i].key
    requires WithinPasses(c)
    ensures Coherent(st.(flight := st.flight[i := c]))
  {
    forall k | k in st.capturing
      ensures InFlight(st.flight[i := c], k)
    {
      InFlightAfterUpdate(st.flight, i, c, k);
    }
  }

  lemma FinishCoherent(st: State, i: nat)
    requires Coherent(st) && i < |st.flight|
    ensures Coherent(Finish(st.(flight := Without(st.flight, i)), st.flight[i].key))
  {
    var st' := Finish(st.(flight := Without(st.flight, i)), st.flight[i].key);
    forall k | k in st'.capturing
      ensures InFlight(st'.flight, k)
    {
      InFlightAfterRemoval(st.flight, i, k);
    }
    forall j | 0 <= j < |st'.flight|
      ensures st'.flight[j] == st.flight[if j < i then j else j + 1]
    {
    }
  }

  lemma ReplyCoherent(st: State, i: nat, goesOn: bool)
    requires Coherent(st) && i < |st.flight| && st.flight[i].phase.AwaitReply?
    ensures Coherent(Reply(st, i, goesOn))
  {
    assert WithinPasses(st.flight[i]);
    if goesOn && st.flight[i].attempt < MAX_PASSES {
      UpdateCoherent(st, i, st.flight[i].(phase := AwaitTimer));
    } else {
      FinishCoherent(st, i);
    }
  }

  lemma NextPassCoherent(st: State, i: nat)
    requires Coherent(st) && i < |st.flight| && st.flight[i].phase.AwaitTimer?
    ensures Coherent(st.(flight := st.flight[i := NextPass(st.flight[i])]))
  {
    assert WithinPasses(st.flight[i]);
    UpdateCoherent(st, i, NextPass(st.flight[i]));
  }

  lemma TimerCoherent(st: State, i: nat, proceeds: bool)
    requires Coherent(st) && i < |st.flight| && st.flight[i].phase.AwaitTimer?
    ensures Coherent(Timer(st, i, proceeds))
  {
    if proceeds {
      NextPassCoherent(st, i);
    } else {
      FinishCoherent(st, i);
    }
  }

  lemma StepCoherent(st: State, e: Event)
    requires Coherent(st) && Enabled(st, e)
    ensures Coherent(Next(st, e))
  {
    match e
    case Called(key, cb, proceeds) =>
      CallCoherent(st, key, cb, proceeds);
    case Replied(i, goesOn) =>
      ReplyCoherent(st, i, goesOn);
    case TimedOut(i, proceeds) =>
      TimerCoherent(st, i, proceeds);
  }

  // ----- no callback lost, none invoked twice -----

  /** The callbacks that wait on a chain in flight. */
  ghost function WaitingOn(c: Chain, capturing: map<Key, seq<Callback>>): multiset<Callback> {
    if c.key in capturing then multiset(capturing[c.key]) else multiset{}
  }

  ghost function Waiting(flight: seq<Chain>, capturing: map<Key, seq<Callback>>): multiset<Callback> {
    if flight == [] then multiset{} else WaitingOn(flight[0], capturing) + Waiting(flight[1..], capturing)
  }

  lemma WaitingCons(c: Chain, flight: seq<Chain>, capturing: map<Key, seq<Callback>>)
    ensures Waiting([c] + flight, capturing) == WaitingOn(c, capturing) + Waiting(flight, capturing)
  {
    assert ([c] + flight)[1..] == flight;
  }

  lemma {:induction false} WaitingAppend(a: seq<Chain>, b: seq<Chain>, capturing: map<Key, seq<Callback>>)
    ensures Waiting(a + b, capturing) == Waiting(a, capturing) + Waiting(b, capturing)
  {
    if a == [] {
      assert a + b == b;
    } else {
      assert a == [a[0]] + a[1..] && a + b == [a[0]] + (a[1..] + b);
      WaitingCons(a[0], a[1..], capturing);
      WaitingCons(a[0], a[1..] + b, capturing);
      WaitingAppend(a[1..], b, capturing);
    }
  }

  /** Only the entries of the chains' own cells matter. */
  lemma {:induction false} WaitingFrame(flight: seq<Chain>, m: map<Key, seq<Callback>>, m': map<Key, seq<Callback>>)
    requires forall i :: 0 <= i < |flight| ==>
      (flight[i].key in m <==> flight[i].key in m')
      && (flight[i].key in m ==> m[flight[i].key] == m'[flight[i].key])
    ensures Waiting(flight, m) == Waiting(flight, m')
  {
    if flight != [] {
      forall i | 0 <= i < |flight[1..]|
        ensures flight[1..][i] == flight[i + 1]
      {
      }
      WaitingFrame(flight[1..], m, m');
    }
  }

  lemma WaitingOne(c: Chain, m: map<Key, seq<Callback>>)
    requires c.key in m
    ensures Waiting([c], m) == multiset(m[c.key])
  {
    assert Waiting([c], m) == WaitingOn(c, m) + Waiting([], m);
  }

  lemma WaitingSplit(flight: seq<Chain>, i: nat, m: map<Key, seq<Callback>>)
    requires i < |flight| && flight[i].key in m
    ensures Waiting(flight, m) == Waiting(Without(flight, i), m) + multiset(m[flight[i].key])
  {
    assert flight == flight[..i] + ([flight[i]] + flight[i + 1..]);
    WaitingAppend(flight[..i], [flight[i]] + flight[i + 1..], m);
    WaitingAppend([flight[i]], flight[i + 1..], m);
    WaitingAppend(flight[..i], flight[i + 1..], m);
    WaitingOne(flight[i], m);
  }

  ghost function Known(st: State): multiset<Callback> {
    multiset(st.invoked) + Waiting(st.flight, st.capturing)
  }

  lemma RestUnaffected(st: State, i: nat, m': map<Key, seq<Callback>>)
    requires Coherent(st) && i < |st.flight|
    requires forall k :: k != st.flight[i].key ==>
      (k in st.capturing <==> k in m') && (k in st.capturing ==> st.capturing[k] == m'[k])
    ensures Waiting(Without(st.flight, i), st.capturing) == Waiting(Without(st.flight, i), m')
  {
    var rest := Without(st.flight, i);
    forall j | 0 <= j < |rest|
      ensures rest[j].key != st.flight[i].key
    {
      assert rest[j] == st.flight[if j < i then j else j + 1];
    }
    WaitingFrame(rest, st.capturing, m');
  }

  lemma FinishKeepsKnown(st: State, i: nat)
    requires Coherent(st) && i < |st.flight|
    ensures Known(Finish(st.(flight := Without(st.flight, i)), st.flight[i].key)) == Known(st)
  {
    WaitingSplit(st.flight, i, st.capturing);
    RestUnaffected(st, i, st.capturing - {st.flight[i].key});
  }

  lemma SameKeysSameWaiting(flight: seq<Chain>, i: nat, c: Chain, m: map<Key, seq<Callback>>)
    requires i < |flight| && c.key == flight[i].key && c.key in m
    ensures Waiting(flight[i := c], m) == Waiting(flight, m)
  {
    WaitingSplit(flight, i, m);
    WaitingSplit(flight[i := c], i, m);
    assert Without(flight[i := c], i) == Without(flight, i);
  }

  /** A caller that joins a lookup already in flight. */
  lemma JoinKeepsKnown(st: State, key: Key, cb: Option<Callback>)
    requires Coherent(st) && key in st.capturing
    ensures var m' := st.capturing[key := st.capturing[key] + Single(cb)];
      Waiting(st.flight, m') == Waiting(st.flight, st.capturing) + multiset(Single(cb))
  {
    var m' := st.capturing[key := st.capturing[key] + Single(cb)];
    var i :| 0 <= i < |st.flight| && st.flight[i].key == key;
    WaitingSplit(st.flight, i, st.capturing);
    WaitingSplit(st.flight, i, m');
    RestUnaffected(st, i, m');
  }

  /** A caller that starts a lookup of a cell nobody looks up yet. */
  lemma StartKeepsKnown(st: State, key: Key, cb: Option<Callback>)
    requires Coherent(st) && key !in st.capturing
    ensures var m' := st.capturing[key := Single(cb)];
      Waiting(st.flight + [Chain(key, 1, 1, AwaitReply)], m')
      == Waiting(st.flight, st.capturing) + multiset(Single(cb))
  {
    var m' := st.capturing[key := Single(cb)];
    var c := Chain(key, 1, 1, AwaitReply);
    WaitingFrame(st.flight, st.capturing, m');
    WaitingAppend(st.flight, [c], m');
    WaitingOne(c, m');
  }

  /** A caller that can be told at once. */
  lemma RefusedCall(st: State, key: Key, cb: Option<Callback>)
    requires key !in st.capturing
    ensures Call(st, key, cb, false) == st.(invoked := st.invoked + Single(cb))
  {
    var m' := st.capturing[key := Single(cb)];
    assert m' - {key} == st.capturing;
  }

  lemma CallKeepsKnown(st: State, key: Key, cb: Option<Callback>, proceeds: bool)
    requires Coherent(st)
    ensures Known(Call(st, key, cb, proceeds)) == Known(st) + multiset(Single(cb))
  {
    var st' := Call(st, key, cb, proceeds);
    if key in st.capturing {
      JoinKeepsKnown(st, key, cb);
    } else if proceeds {
      StartKeepsKnown(st, key, cb);
    } else {
      RefusedCall(st, key, cb);
    }
  }

  lemma AdvanceKeepsKnown(st: State, i: nat, c: Chain)
    requires Coherent(st) && i < |st.flight| && c.key == st.flight[i].key
    ensures Known(st.(flight := st.flight[i := c])) == Known(st)
  {
    SameKeysSameWaiting(st.flight, i, c, st.capturing);
  }

  lemma ReplyKeepsKnown(st: State, i: nat, goesOn: bool)
    requires Coherent(st) && i < |st.flight| && st.flight[i].phase.AwaitReply?
    ensures Known(Reply(st, i, goesOn)) == Known(st)
  {
    if goesOn && st.flight[i].attempt < MAX_PASSES {
      AdvanceKeepsKnown(st, i, st.flight[i].(phase := AwaitTimer));
    } else {
      FinishKeepsKnown(st, i);
    }
  }

  lemma TimerKeepsKnown(st: State, i: nat, proceeds: bool)
    requires Coherent(st) && i < |st.flight| && st.flight[i].phase.AwaitTimer?
    ensures Known(Timer(st, i, proceeds)) == Known(st)
  {
    if proceeds {
      AdvanceKeepsKnown(st, i, NextPass(st.flight[i]));
    } else {
      FinishKeepsKnown(st, i);
    }
  }

  /** The callback that one event hands over. */
  ghost function Handed(e: Event): multiset<Callback> {
    if e.Called? then multiset(Single(e.cb)) else multiset{}
  }

  lemma StepKeepsKnown(st: State, e: Event)
    requires Coherent(st) && Enabled(st, e)
    ensures Known(Next(st, e)) == Known(st) + Handed(e)
  {
    match e
    case Called(key, cb, proceeds) =>
      CallKeepsKnown(st, key, cb, proceeds);
    case Replied(i, goesOn) =>
      ReplyKeepsKnown(st, i, goesOn);
    case TimedOut(i, proceeds) =>
      TimerKeepsKnown(st, i, proceeds);
  }

  /** Passes still to come: each reply or timer uses up one unit, each new chain brings
      at most ten. */
  ghost function Work(flight: seq<Chain>): int {
    if flight == [] then 0 else ChainWork(flight[0]) + Work(flight[1..])
  }

  ghost function ChainWork(c: Chain): int {
    2 * (MAX_PASSES - c.attempt) + if c.phase.AwaitReply? then 2 else 1
  }

  lemma {:induction false} WorkAppend(a: seq<Chain>, b: seq<Chain>)
    ensures Work(a + b) == Work(a) + Work(b)
  {
    if a == [] {
      assert a + b == b;
    } else {
      WorkAppend(a[1..], b);
      assert (a + b)[1..] == a[1..] + b;
    }
  }

  lemma WorkSplit(flight: seq<Chain>, i: nat)
    requires i < |flight|
    ensures Work(flight) == Work(Without(flight, i)) + ChainWork(flight[i])
  {
    var before, after := flight[..i], flight[i + 1..];
    assert flight[i..][1..] == after;
    assert flight == before + flight[i..];
    WorkAppend(before, flight[i..]);
    WorkAppend(before, after);
  }

  lemma {:induction false} WorkNonnegative(flight: seq<Chain>)
    requires forall i :: 0 <= i < |flight| ==> flight[i].attempt <= MAX_PASSES
    ensures Work(flight) >= 0
  {
    if flight != [] {
      WorkNonnegative(flight[1..]);
    }
  }

  lemma StepUsesWork(st: State, e: Event)
    requires Coherent(st) && Enabled(st, e)
    ensures Work(Next(st, e).flight) <= Work(st.flight) + (if e.Called? then 10 else -1)
  {
    var st' := Next(st, e);
    match e
    case Called(key, cb, proceeds) =>
      WorkAppend(st.flight, [Chain(key, 1, 1, AwaitReply)]);
      assert Work([Chain(key, 1, 1, AwaitReply)]) == ChainWork(Chain(key, 1, 1, AwaitReply)) + Work([]);
    case Replied(i, _) =>
      ChainUsesWork(st.flight, i, st'.flight);
    case TimedOut(i, _) =>
      ChainUsesWork(st.flight, i, st'.flight);
  }

  lemma ChainUsesWork(flight: seq<Chain>, i: nat, flight': seq<Chain>)
    requires i < |flight| && flight[i].attempt <= MAX_PASSES
    requires
      || flight' == Without(flight, i)
      || (flight[i].phase.AwaitReply? && flight' == flight[i := flight[i].(phase := AwaitTimer)])
      || (flight[i].phase.AwaitTimer? && exists c ::
            flight' == flight[i := c] && c.attempt == flight[i].attempt + 1 && c.phase.AwaitReply?)
    ensures Work(flight') <= Work(flight) - 1
  {
    WorkSplit(flight, i);
    if |flight'| == |flight| {
      WorkSplit(flight', i);
      assert Without(flight', i) == Without(flight, i);
    }
  }

  /** The number of calls in a run. */
  ghost function Calls(events: seq<Event>): nat {
    if events == [] then 0 else (if events[0].Called? then 1 else 0) + Calls(events[1..])
  }

  lemma {:induction false} ExecFacts(st: State, events: seq<Event>)
    requires Coherent(st) && Possible(st, events)
    ensures Coherent(Exec(st, events))
    ensures Known(Exec(st, events)) == Known(st) + Passed(events)
    ensures |events| - Calls(events) + Work(Exec(st, events).flight) <= Work(st.flight) + 10 * Calls(events)
    decreases |events|
  {
    if events != [] {
      StepCoherent(st, events[0]);
      StepKeepsKnown(st, events[0]);
      StepUsesWork(st, events[0]);
      ExecFacts(Next(st, events[0]), events[1..]);
    }
  }

  /** Over every run: a cell is looked up by at most one chain, a chain makes at most
      five passes, and every callback handed over is either invoked exactly as often as
      it was handed over or still waits on a chain in flight. */
  lemma LookupsCoalesce(events: seq<Event>)
    requires Possible(IDLE, events)
    ensures var st := Exec(IDLE, events);
      && (forall i, j :: 0 <= i < j < |st.flight| ==> st.flight[i].key != st.flight[j].key)
      && (forall i :: 0 <= i < |st.flight| ==> st.flight[i].passes <= MAX_PASSES)
      && Passed(events) == multiset(st.invoked) + Waiting(st.flight, st.capturing)
  {
    ExecFacts(IDLE, events);
  }

  lemma IdleIsUnlocked(st: State)
    requires Coherent(st) && st.flight == []
    ensures st.capturing == map[] && Known(st) == multiset(st.invoked)
  {
    assert Waiting(st.flight, st.capturing) == multiset{};
    assert forall k :: k in st.capturing ==> InFlight(st.flight, k);
  }

  /** Lookups end: the chains of a run take at most ten replies and timers for each
      call, and when none is in flight every callback has been invoked exactly once and
      no cell is left locked. */
  lemma LookupsEnd(events: seq<Event>)
    requires Possible(IDLE, events)
    ensures |events| <= 11 * Calls(events)
    ensures var st := Exec(IDLE, events);
      st.flight == [] ==> multiset(st.invoked) == Passed(events) && st.capturing == map[]
  {
    ExecFacts(IDLE, events);
    var st := Exec(IDLE, events);
    WorkNonnegative(st.flight);
    if st.flight == [] {
      IdleIsUnlocked(st);
    }
  }
}
