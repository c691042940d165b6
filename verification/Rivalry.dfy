/** The one bit a scenario's history holds about its siblings is itself a direct reading of theirs: a
    scenario is taken in a cycle exactly when some sibling enters in it. */
module Rivalry {
  import opened Prelude
  import opened Evaluation
  import opened Machine
  import opened Audit
  import opened Exclusion
  import opened History
  import opened Durability

  // ----- one cycle ------------------------------------------------------------------------------

  predicate EntersNow(w: World, p: Poll, y: int) {
    Picked(w, y) && Observe(w.slices[y], Get(p.candles, y), p.now, Skips(w, p, y)).newly
  }

  /** Losing a cycle means that a sibling enters in it. */
  lemma LosesToSibling(w: World, p: Poll, x: int)
    requires Consistent(w) && Lists(w, p.order) && x in w.slices
    ensures Loses(w, p, x) <==> exists y :: Siblings(w, x, y) && EntersNow(w, p, y)
  {
    var m, g := Winners(w, p, p.order), w.slices[x].sc.signalId;
    if Loses(w, p, x) {
      WinnerIsCandidate(w, p, p.order, g);
      NewlyWins(w, p, m[g]);
      assert Siblings(w, x, m[g]) && EntersNow(w, p, m[g]);
    }
    if y :| Siblings(w, x, y) && EntersNow(w, p, y) {
      NewlyWins(w, p, y);
    }
  }

  /** A machine that follows its history enters exactly when the direct reading does. */
  lemma NewlyIsEntry(s: Slice, h: seq<Obs>, o: Obs)
    requires Sound(s) && Follows(s, h) && PhaseMeans(s.sc, h, PhaseOf(s.sc, h))
    requires Consolidating(s.sc) ==> Clocked(h + [o])
    ensures Selected(s, o.slow) && Observe(s, o.candle, o.now, o.taken).newly <==> EntersAt(s.sc, h + [o], |h|)
  {
    var ph := PhaseOf(s.sc, h);
    DecidesStable(s.sc, h, o);
    match ph {
      case Waiting(zone) => WaitingIsEntry(s, h, zone, o);
      case Holding(d) => EnteredOnce(s, o); assert Decides(s.sc, h, d);
      case Shut(d, _) => assert Decides(s.sc, h, d);
      case Dropped(d) => assert Decides(s.sc, h, d);
    }
  }

  lemma EnteredOnce(s: Slice, o: Obs)
    requires Sound(s) && s.active
    ensures !Observe(s, o.candle, o.now, o.taken).newly
  {
    ObservationLawful(s, o.candle, o.now, o.taken);
  }

  lemma WaitingIsEntry(s: Slice, h: seq<Obs>, zone: Option<nat>, o: Obs)
    requires Sound(s) && Follows(s, h) && PhaseOf(s.sc, h) == Waiting(zone) && PhaseMeans(s.sc, h, Waiting(zone))
    requires Consolidating(s.sc) ==> Clocked(h + [o])
    ensures Selected(s, o.slow) && Observe(s, o.candle, o.now, o.taken).newly <==> EntersAt(s.sc, h + [o], |h|)
  {
    var g := h + [o];
    DecidesStable(s.sc, h, o);
    assert g[|h|] == o && forall i: nat :: i < |h| ==> !Decides(s.sc, g, i);
    assert EntersAt(s.sc, g, |h|) <==> o.slow && !o.taken && EntryRule(s.sc, g, |h|);
    if Polled(o) {
      WaitingCourse(s, h, zone, o);
      EntersIsEntryRule(s.sc, h, zone, o);
    } else {
      assert !EntryRule(s.sc, g, |h|);
    }
  }

  /** The same for a scenario of the machine in one of its cycles. */
  lemma EntersNowIsEntry(w: World, p: Poll, y: int, h: seq<Obs>)
    requires Consistent(w) && Lists(w, p.order) && p.commits && y in w.slices
    requires Follows(w.slices[y], h) && PhaseMeans(w.slices[y].sc, h, PhaseOf(w.slices[y].sc, h))
    requires Consolidating(w.slices[y].sc) ==> Clocked(h + [ObsOf(w, p, y)])
    ensures EntersNow(w, p, y) <==> EntersAt(w.slices[y].sc, h + [ObsOf(w, p, y)], |h|)
  {
    var s := w.slices[y];
    NewlyIsEntry(s, h, ObsOf(w, p, y));
    if Picked(w, y) {
      if s.active {
        ObservationLawful(s, Get(p.candles, y), p.now, Skips(w, p, y));
        EnteredOnce(s, ObsOf(w, p, y));
      } else {
        IdleSkips(w, p, y);
      }
    }
  }

  // ----- whole runs ------------------------------------------------------------------------------------

  predicate Committed(st: Step) {
    st.Evaluation? && st.poll.commits
  }

  /** What the direct reading of y's history asks of the run. */
  ghost predicate Readable(steps: seq<Step>, y: int) {
    && LosesNoEntry(EMPTY, steps, y)
    && (y in Exec(EMPTY, steps).slices && Consolidating(Exec(EMPTY, steps).slices[y].sc) ==>
          KeepsClock(EMPTY, steps, y) && Clocked(HistoryOf(EMPTY, steps, y)))
  }

  /** Scenarios of one signal come in one insert. */
  lemma SiblingsComeTogether(w: World, st: Step, x: int, y: int)
    requires Consistent(w) && Enabled(w, st) && Siblings(Next(w, st), x, y)
    ensures x in w.slices <==> y in w.slices
    ensures x in w.slices ==> Siblings(w, x, y)
  {
    if x in w.slices { NextSlice(w, st, x); SameScenario(w, st, x); }
    if y in w.slices { NextSlice(w, st, y); SameScenario(w, st, y); }
    if x !in w.slices { NewSliceIsFresh(w, st, x); }
    if y !in w.slices { NewSliceIsFresh(w, st, y); }
  }

  lemma {:induction false} EqualLengths(steps: seq<Step>, x: int, y: int)
    requires Legal(EMPTY, steps) && Siblings(Exec(EMPTY, steps), x, y)
    ensures |HistoryOf(EMPTY, steps, x)| == |HistoryOf(EMPTY, steps, y)|
  {
    var front, st := steps[..|steps| - 1], steps[|steps| - 1];
    var w := Exec(EMPTY, front);
    RunConsistent(front);
    SiblingsComeTogether(w, st, x, y);
    if x in w.slices {
      EqualLengths(front, x, y);
    } else {
      NoHistoryBeforeInsert(EMPTY, front, x);
      NoHistoryBeforeInsert(EMPTY, front, y);
    }
  }

  lemma ReadableBefore(steps: seq<Step>, y: int)
    requires steps != [] && Readable(steps, y)
    ensures Readable(steps[..|steps| - 1], y)
  {
    var front, st := steps[..|steps| - 1], steps[|steps| - 1];
    var w := Exec(EMPTY, front);
    if y in w.slices {
      NextSlice(w, st, y);
      SameScenario(w, st, y);
      var h, g := HistoryOf(EMPTY, front, y), HistoryOf(EMPTY, steps, y);
      assert forall i :: 0 <= i < |h| ==> g[i] == h[i];
    }
  }

  lemma FollowsDirectly(steps: seq<Step>, y: int)
    requires Legal(EMPTY, steps) && y in Exec(EMPTY, steps).slices && Readable(steps, y)
    ensures var s, h := Exec(EMPTY, steps).slices[y], HistoryOf(EMPTY, steps, y);
      Consistent(Exec(EMPTY, steps)) && Follows(s, h) && PhaseMeans(s.sc, h, PhaseOf(s.sc, h))
  {
    RunConsistent(steps);
    RunFollows(steps, y);
    PhaseIsDirect(Exec(EMPTY, steps).slices[y].sc, HistoryOf(EMPTY, steps, y));
  }

  lemma FollowsBefore(steps: seq<Step>, y: int)
    requires steps != [] && Legal(EMPTY, steps) && Committed(steps[|steps| - 1])
    requires y in Exec(EMPTY, steps[..|steps| - 1]).slices && Readable(steps, y)
    ensures var w, h := Exec(EMPTY, steps[..|steps| - 1]), HistoryOf(EMPTY, steps[..|steps| - 1], y);
      && Consistent(w) && Lists(w, steps[|steps| - 1].poll.order)
      && Follows(w.slices[y], h) && PhaseMeans(w.slices[y].sc, h, PhaseOf(w.slices[y].sc, h))
  {
    ReadableBefore(steps, y);
    FollowsDirectly(steps[..|steps| - 1], y);
  }

  lemma EntersNowAt(w: World, p: Poll, y: int, h: seq<Obs>, g: seq<Obs>)
    requires Consistent(w) && Lists(w, p.order) && p.commits && y in w.slices
    requires Follows(w.slices[y], h) && PhaseMeans(w.slices[y].sc, h, PhaseOf(w.slices[y].sc, h))
    requires g == h + [ObsOf(w, p, y)] && (Consolidating(w.slices[y].sc) ==> Clocked(g))
    ensures EntersNow(w, p, y) <==> EntersAt(w.slices[y].sc, g, |g| - 1)
  {
    EntersNowIsEntry(w, p, y, h);
  }

  /** The last cycle of the run. */
  lemma LastEntry(steps: seq<Step>, y: int)
    requires steps != [] && Legal(EMPTY, steps) && Committed(steps[|steps| - 1])
    requires y in Exec(EMPTY, steps[..|steps| - 1]).slices && Readable(steps, y)
    ensures var w := Exec(EMPTY, steps[..|steps| - 1]); var h := HistoryOf(EMPTY, steps, y);
      |h| > 0 && (EntersNow(w, steps[|steps| - 1].poll, y) <==> EntersAt(w.slices[y].sc, h, |h| - 1))
  {
    var front, p := steps[..|steps| - 1], steps[|steps| - 1].poll;
    FollowsBefore(steps, y);
    ClockedWith(steps, y);
    EntersNowAt(Exec(EMPTY, front), p, y, HistoryOf(EMPTY, front, y), HistoryOf(EMPTY, steps, y));
  }

  lemma ClockedWith(steps: seq<Step>, y: int)
    requires steps != [] && Committed(steps[|steps| - 1])
    requires y in Exec(EMPTY, steps[..|steps| - 1]).slices && Readable(steps, y)
    ensures var w, h := Exec(EMPTY, steps[..|steps| - 1]), HistoryOf(EMPTY, steps[..|steps| - 1], y);
      && HistoryOf(EMPTY, steps, y) == h + [ObsOf(w, steps[|steps| - 1].poll, y)]
      && (Consolidating(w.slices[y].sc) ==> Clocked(h + [ObsOf(w, steps[|steps| - 1].poll, y)]))
  {
    var w := Exec(EMPTY, steps[..|steps| - 1]);
    NextSlice(w, steps[|steps| - 1], y);
    SameScenario(w, steps[|steps| - 1], y);
  }

  lemma EarlierEntryStable(steps: seq<Step>, y: int, i: nat)
    requires steps != [] && y in Exec(EMPTY, steps[..|steps| - 1]).slices
    requires i < |HistoryOf(EMPTY, steps[..|steps| - 1], y)|
    ensures var sc := Exec(EMPTY, steps[..|steps| - 1]).slices[y].sc;
      EntersAt(sc, HistoryOf(EMPTY, steps, y), i) <==> EntersAt(sc, HistoryOf(EMPTY, steps[..|steps| - 1], y), i)
  {
    var front, st := steps[..|steps| - 1], steps[|steps| - 1];
    if st.Evaluation? {
      DecidesStable(Exec(EMPTY, front).slices[y].sc, HistoryOf(EMPTY, front, y), ObsOf(Exec(EMPTY, front), st.poll, y));
    }
  }

  /** Some sibling of x enters at position i of the common history. */
  ghost predicate SiblingEntersAt(steps: seq<Step>, x: int, i: nat) {
    exists y :: Siblings(Exec(EMPTY, steps), x, y) &&
      EntersAt(Exec(EMPTY, steps).slices[y].sc, HistoryOf(EMPTY, steps, y), i)
  }

  ghost predicate ReadableRivals(steps: seq<Step>, x: int) {
    forall y :: Siblings(Exec(EMPTY, steps), x, y) ==> Readable(steps, y)
  }

  lemma SiblingsKept(w: World, st: Step, x: int)
    requires Consistent(w) && Enabled(w, st) && x in w.slices
    ensures x in Next(w, st).slices
    ensures forall y :: Siblings(Next(w, st), x, y) <==> Siblings(w, x, y)
    ensures forall y :: Siblings(w, x, y) ==> Next(w, st).slices[y].sc == w.slices[y].sc
  {
    NextSlice(w, st, x);
    SameScenario(w, st, x);
    forall y | Siblings(w, x, y) ensures Siblings(Next(w, st), x, y) && Next(w, st).slices[y].sc == w.slices[y].sc {
      NextSlice(w, st, y);
      SameScenario(w, st, y);
    }
    forall y | Siblings(Next(w, st), x, y) ensures Siblings(w, x, y) {
      SiblingsComeTogether(w, st, x, y);
    }
  }

  lemma EarlierRivals(steps: seq<Step>, x: int, i: nat)
    requires steps != [] && Legal(EMPTY, steps) && x in Exec(EMPTY, steps[..|steps| - 1]).slices
    requires i < |HistoryOf(EMPTY, steps[..|steps| - 1], x)|
    ensures SiblingEntersAt(steps, x, i) <==> SiblingEntersAt(steps[..|steps| - 1], x, i)
  {
    var front, st := steps[..|steps| - 1], steps[|steps| - 1];
    var w := Exec(EMPTY, front);
    RunConsistent(front);
    SiblingsKept(w, st, x);
    forall y | Siblings(w, x, y)
      ensures EntersAt(w.slices[y].sc, HistoryOf(EMPTY, steps, y), i) <==>
              EntersAt(w.slices[y].sc, HistoryOf(EMPTY, front, y), i)
    {
      EqualLengths(front, x, y);
      EarlierEntryStable(steps, y, i);
    }
  }

  lemma LastRival(steps: seq<Step>, x: int, y: int)
    requires steps != [] && Legal(EMPTY, steps) && Committed(steps[|steps| - 1])
    requires Siblings(Exec(EMPTY, steps[..|steps| - 1]), x, y) && Readable(steps, y)
    ensures var w := Exec(EMPTY, steps[..|steps| - 1]);
      EntersNow(w, steps[|steps| - 1].poll, y) <==>
      EntersAt(w.slices[y].sc, HistoryOf(EMPTY, steps, y), |HistoryOf(EMPTY, steps[..|steps| - 1], x)|)
  {
    LastLength(steps, x, y);
    LastEntry(steps, y);
  }

  lemma LastLength(steps: seq<Step>, x: int, y: int)
    requires steps != [] && Legal(EMPTY, steps) && Committed(steps[|steps| - 1])
    requires Siblings(Exec(EMPTY, steps[..|steps| - 1]), x, y)
    ensures |HistoryOf(EMPTY, steps, y)| == |HistoryOf(EMPTY, steps[..|steps| - 1], x)| + 1
  {
    EqualLengths(steps[..|steps| - 1], x, y);
  }

  lemma LastRivals(steps: seq<Step>, x: int)
    requires steps != [] && Legal(EMPTY, steps) && Committed(steps[|steps| - 1])
    requires x in Exec(EMPTY, steps[..|steps| - 1]).slices
    requires ReadableRivals(steps, x)
    ensures Loses(Exec(EMPTY, steps[..|steps| - 1]), steps[|steps| - 1].poll, x) <==>
      SiblingEntersAt(steps, x, |HistoryOf(EMPTY, steps[..|steps| - 1], x)|)
  {
    var front, st := steps[..|steps| - 1], steps[|steps| - 1];
    var w, i := Exec(EMPTY, front), |HistoryOf(EMPTY, front, x)|;
    RunConsistent(front);
    SiblingsKept(w, st, x);
    LosesToSibling(w, st.poll, x);
    forall y | Siblings(w, x, y)
      ensures EntersNow(w, st.poll, y) <==> EntersAt(w.slices[y].sc, HistoryOf(EMPTY, steps, y), i)
    {
      LastRival(steps, x, y);
    }
  }

  /** Main result, for the runs of the history theorem: the histories of a signal's scenarios run in step, and
      that of x says taken exactly where the history of some sibling reads as an entry. Together they leave the
      direct reading no input but clock, candles and the row order among rivals of one cycle. */
  lemma {:induction false} TakenMeansRivalEntry(steps: seq<Step>, x: int, i: nat)
    requires Legal(EMPTY, steps) && x in Exec(EMPTY, steps).slices
    requires ReadableRivals(steps, x)
    requires i < |HistoryOf(EMPTY, steps, x)|
    ensures HistoryOf(EMPTY, steps, x)[i].taken <==> SiblingEntersAt(steps, x, i)
  {
    var front, st := steps[..|steps| - 1], steps[|steps| - 1];
    var w := Exec(EMPTY, front);
    if x !in w.slices { NoHistoryBeforeInsert(EMPTY, front, x); }
    if i < |HistoryOf(EMPTY, front, x)| {
      ReadableSiblings(steps, x);
      TakenMeansRivalEntry(front, x, i);
      EarlierRivals(steps, x, i);
    } else {
      LastRivals(steps, x);
    }
  }

  lemma ReadableSiblings(steps: seq<Step>, x: int)
    requires steps != [] && Legal(EMPTY, steps) && x in Exec(EMPTY, steps[..|steps| - 1]).slices
    requires ReadableRivals(steps, x)
    ensures ReadableRivals(steps[..|steps| - 1], x)
  {
    var front := steps[..|steps| - 1];
    RunConsistent(front);
    SiblingsKept(Exec(EMPTY, front), steps[|steps| - 1], x);
    forall y | Siblings(Exec(EMPTY, front), x, y) ensures Readable(front, y) { ReadableBefore(steps, y); }
  }
}
