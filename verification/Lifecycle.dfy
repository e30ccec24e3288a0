/** How long an entry lives, over every run: who may judge it, revive it or drop it. */
module Lifecycle {
  import opened RunStore
  import opened Protocol

  /** The cell is queued anew: from the dashboard, or from a report page. */
  ghost predicate Marks(s: Step, k: Key) {
    (s.Mark? || s.Rerun?) && s.key == k
  }

  ghost predicate Forgets(s: Step, k: Key) {
    s.Forget? && s.key == k
  }

  /** Only marking adds an entry, only forgetting and applying remove one, and a
      verdict, once reached, is changed by nothing but a new mark, which always lifts it.
      A mark from the dashboard keeps the runs; one from a report page drops them. */
  lemma StepRespectsVerdicts(w: World, store: Store, s: Step, k: Key)
    requires Allowed(w, s)
    ensures var store' := Next(w, store, s);
      && (k !in store && k in store' ==> Marks(s, k))
      && (k in store && k !in store' ==> Forgets(s, k) || s.Apply?)
      && (k in store && k in store' && Terminal(store[k]) && !Marks(s, k)
          ==> store'[k].failed == store[k].failed && store'[k].done == store[k].done)
      && (Marks(s, k) ==>
            && k in store' && !Terminal(store'[k])
            && store'[k].runs == if s.Mark? && k in store then store[k].runs else [])
      && (s.Sync? ==> store'.Keys == store.Keys && (k in store ==> store'[k].runs == store[k].runs))
  {
  }

  /** A re-run from a report page is a first mark: the old entry is forgotten, and the cell
      marked for the one platform at that moment. */
  lemma RerunIsAFirstMark(store: Store, k: Key, plat: Platform, now: int)
    ensures RerunStore(store, k, plat, now) == MarkStore(ForgetStore(store, k), k, [plat], "", 0, now)
  {
  }

  /** A mark replaces the platforms, and the time and the parent where it gives new ones;
      marking again as a dispatch is confirmed changes the platforms and nothing else. */
  lemma MarkingAgain(store: Store, k: Key, plats: seq<Platform>, plats': seq<Platform>, parent: string, ts: int,
                     now: int, now': int)
    requires now > 0
    ensures var e := MarkStore(store, k, plats, parent, ts, now)[k];
      && e.plats == plats && !Terminal(e) && e.activeAt == 0 && e.batchWf == ""
      && e.runs == (if k in store then store[k].runs else [])
      && (ts != 0 ==> e.ts == ts)
      && (ts == 0 ==> e.ts == if k in store && store[k].ts != 0 then store[k].ts else now)
      && (parent != "" ==> e.parent == parent)
      && (parent == "" && k in store ==> e.parent == store[k].parent)
    ensures MarkStore(MarkStore(store, k, plats, parent, ts, now), k, plats', parent, ts, now') ==
      MarkStore(store, k, plats', parent, ts, now)
  {
  }

  /** Over any run without a new mark on the cell, a failed or finished entry keeps
      its verdict until it is dropped, and a dropped one stays away. */
  lemma {:induction false} VerdictLasts(w: World, store: Store, steps: seq<Step>, k: Key)
    requires AllAllowed(w, steps)
    requires forall i :: 0 <= i < |steps| ==> !Marks(steps[i], k)
    ensures var last := Exec(w, store, steps);
      && (k !in store ==> k !in last)
      && (k in store && Terminal(store[k]) && k in last
          ==> last[k].failed == store[k].failed && last[k].done == store[k].done)
    decreases |steps|
  {
    if steps != [] {
      StepRespectsVerdicts(w, store, steps[0], k);
      VerdictLasts(w, Next(w, store, steps[0]), steps[1..], k);
    }
  }

  // ----- retention -----

  /** Nothing in the step takes a waiting entry away: it is not forgotten nor queued anew
      from a report page, and pages are applied with a token, show the cell, show no newer result, and come before
      the entry is judged done. */
  ghost predicate Undisturbed(w: World, store: Store, s: Step, k: Key)
    requires k in store
  {
    && !Forgets(s, k) && !(s.Rerun? && s.key == k)
    && (s.Apply? ==>
          s.tok && OnPage(CellAt(s.page, k)) && !NewerResult(store[k], CellAt(s.page, k)) && store[k].done == 0)
  }

  ghost predicate UndisturbedRun(w: World, store: Store, steps: seq<Step>, k: Key)
    requires AllAllowed(w, steps) && k in store
    decreases |steps|
  {
    steps == [] ||
    (&& Undisturbed(w, store, steps[0], k)
     && (k in Next(w, store, steps[0]) ==> UndisturbedRun(w, Next(w, store, steps[0]), steps[1..], k)))
  }

  lemma StepKeepsTiedEntry(w: World, store: Store, s: Step, k: Key)
    requires Sane(w) && Sound(w, store) && Allowed(w, s) && k in store && HasRun(store[k])
    requires Undisturbed(w, store, s, k)
    ensures k in Next(w, store, s) && HasRun(Next(w, store, s)[k])
  {
    if s.Capture? && s.key == k {
      var runs' := ClaimReplies(s.asks, s.replies, s.t0, ClaimedIds(store), store[k].runs);
      ClaimRepliesSound(w, s.asks, s.replies, s.t0, ClaimedIds(store), store[k].runs);
      var i :| 0 <= i < |store[k].runs| && store[k].runs[i].id != "";
      assert runs'[i] == runs'[..|store[k].runs|][i];
    } else {
      var e' := Next(w, store, s);
      if s.Sync? {
        JudgedSound(w, store[k], s.byId, s.now);
      }
      assert k in e' && e'[k].runs == store[k].runs;
    }
  }

  /** An entry tied to a run never vanishes however much time passes: no interleaving
      of marks, captures, syncs and applies drops it. */
  lemma {:induction false} TiedEntrySurvives(w: World, store: Store, steps: seq<Step>, k: Key)
    requires Sane(w) && Sound(w, store) && AllAllowed(w, steps) && k in store && HasRun(store[k])
    requires UndisturbedRun(w, store, steps, k)
    ensures k in Exec(w, store, steps) && HasRun(Exec(w, store, steps)[k])
    decreases |steps|
  {
    if steps != [] {
      StepKeepsTiedEntry(w, store, steps[0], k);
      StepSound(w, store, steps[0]);
      TiedEntrySurvives(w, Next(w, store, steps[0]), steps[1..], k);
    }
  }

  /** In every reachable store, an entry never tied to a run is kept by an apply if and
      only if its twenty minutes have not run out and the cell still shows no newer
      result; nothing else, not even the token, matters. */
  lemma UntiedEntryAgesOut(w: World, steps: seq<Step>, k: Key, c: Cell, now: int, tok: bool)
    requires Sane(w) && AllAllowed(w, steps) && k in Exec(w, map[], steps)
    requires !HasRun(Exec(w, map[], steps)[k])
    ensures var e := Exec(w, map[], steps)[k];
      Keeps(e, c, now, tok) <==>
        now - e.ts <= QTTL && (Painted(c) || c.glyph || (c.result.Some? && !NewerResult(e, c)))
  {
    ExecSound(w, map[], steps);
    assert SoundEntry(w, Exec(w, map[], steps)[k]);
  }

  /** A failed entry is dropped by an apply exactly when a newer result exists. */
  lemma FailedEntryIsSticky(store: Store, page: Page, now: int, tok: bool, k: Key)
    requires k in store && store[k].failed.Some?
    ensures k !in ApplyStore(store, page, now, tok) <==> NewerResult(store[k], CellAt(page, k))
    ensures k in ApplyStore(store, page, now, tok) ==> ApplyStore(store, page, now, tok)[k] == store[k]
  {
  }

  /** A finished entry is handed over to the server's result: it stays exactly while its cell
      shows none, the five minutes of grace are not over, the entry can be tied to a run or
      is within twenty minutes of its mark or of its last sign of life, and its cell is
      still there to be painted. */
  lemma FinishedEntryIsHandedOver(store: Store, page: Page, now: int, tok: bool, k: Key)
    requires k in store && store[k].failed.None? && store[k].done != 0
    ensures var e, c := store[k], CellAt(page, k);
      k in ApplyStore(store, page, now, tok) <==>
        && c.result.None? && now - e.done <= QDONE
        && ((tok && HasRun(e)) || now - e.ts <= QTTL || (e.activeAt != 0 && now - e.activeAt <= QTTL))
        && (!c.badge.NoBadge? || c.glyph)
  {
  }

  /** An entry without a verdict stays exactly while it can be tied to a run or is within
      twenty minutes of its mark or of its last sign of life, and its cell is painted, is a
      run glyph, or shows a result no newer than the mark. */
  lemma WaitingEntryIsKept(store: Store, page: Page, now: int, tok: bool, k: Key)
    requires k in store && store[k].failed.None? && store[k].done == 0
    ensures var e, c := store[k], CellAt(page, k);
      k in ApplyStore(store, page, now, tok) <==>
        && ((tok && HasRun(e)) || now - e.ts <= QTTL || (e.activeAt != 0 && now - e.activeAt <= QTTL))
        && (!c.badge.NoBadge? || c.glyph || (c.result.Some? && (c.result.value == 0 || c.result.value <= e.ts)))
  {
  }

  /** The badges after an apply: a surviving failure shows as failed wherever its cell is on
      the page, any other survivor is on the page and shows a badge, its old one if it had
      one; the badge takes the place of the run glyph; all other cells are as before. */
  lemma BadgesOfSurvivors(store: Store, page: Page, now: int, tok: bool, k: Key)
    ensures var page' := ApplyPage(store, page, now, tok);
      var survives := k in ApplyStore(store, page, now, tok);
      && page'.Keys == page.Keys
      && (survives && k !in page ==> store[k].failed.Some?)
      && (k in page ==>
            var c, c' := page[k], page'[k];
            && c'.result == c.result && c'.glyph == (c.glyph && (c.badge == c'.badge || !c.badge.NoBadge?))
            && c'.badge ==
                 if !survives then c.badge
                 else if store[k].failed.None? then (if c.badge.NoBadge? then QueuedBadge else c.badge)
                 else if c == NO_CELL then NoBadge else FailedBadge)
  {
  }

  lemma PaintKeeps(e: Entry, c: Cell, now: int, tok: bool)
    requires Keeps(e, c, now, tok)
    ensures Keeps(e, PaintedCell(e, c), now, tok)
    ensures PaintedCell(e, PaintedCell(e, c)) == PaintedCell(e, c)
  {
  }

  /** Applying twice at one clock is applying once, to the store and to the page. */
  lemma ApplyIsIdempotent(store: Store, page: Page, now: int, tok: bool)
    ensures var store' := ApplyStore(store, page, now, tok);
      var page' := ApplyPage(store, page, now, tok);
      ApplyStore(store', page', now, tok) == store' && ApplyPage(store', page', now, tok) == page'
  {
    var store' := ApplyStore(store, page, now, tok);
    var page' := ApplyPage(store, page, now, tok);
    forall k | k in store'
      ensures Keeps(store'[k], CellAt(page', k), now, tok)
      ensures k in page ==> PaintedCell(store[k], page'[k]) == page'[k]
    {
      PaintKeeps(store[k], CellAt(page, k), now, tok);
    }
  }

  /** Of what survives an apply, the queue lists exactly the entries without a verdict, and
      their cells are on the page; conversely whatever the queue lists survives an apply that
      finds the run glyph of its cell. */
  lemma SurvivorsAreListed(store: Store, page: Page, now: int, tok: bool, k: Key)
    requires k in store
    ensures k in ApplyStore(store, page, now, tok) ==>
      (InQueue(store[k], now, tok) <==> store[k].failed.None? && store[k].done == 0)
    ensures k in ApplyStore(store, page, now, tok) && InQueue(store[k], now, tok) ==> OnPage(CellAt(page, k))
    ensures InQueue(store[k], now, tok) && CellAt(page, k).glyph ==> k in ApplyStore(store, page, now, tok)
  {
  }
}
