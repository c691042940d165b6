/** What the rows and keys of a scenario hold in every run, failed batches included, and what a failed
    batch that swallows an entry can lead to. */
module Records {
  import opened Prelude
  import opened Domain
  import opened Evaluation
  import opened Machine
  import opened Audit
  import opened Exclusion
  import opened History

  /** What the batch gets to see of a course. */
  lemma ReportOfCourse(s: Slice, c: Candle, now: int, skip: bool)
    ensures var o := Observe(s, Some(c), now, skip);
            var d := CourseOf(s.sc, s.active, DbEntry(s.row), s.keys, c, now, skip);
            var row := RowOf(s.sc, d, c, now);
      && (o.writes.row.Some? ==> o.writes.row.value == row) && (d.entered || d.verdict.Close? ==> o.writes.row.Some?)
      && (Ends(o) <==> d.verdict.Close?) && o.newly == d.newly
      && (Ends(o) ==> o.writes.mark == Some(Closed(d.verdict.status)) && o.keys == NO_KEYS)
      && (!Ends(o) ==> o.keys.min == d.keys.min && o.keys.max == d.keys.max && o.keys.gapStart == d.keys.gapStart)
      && o.writes.point == (if d.due then Some(PricePoint(now, c.close, row.pnl)) else None)
      && o.writes.events == EventsOf(s.sc, s.keys.gapStart, d, now)
      && (d.due ==> d.entered)
  {
  }

  // ----- rows, in every run ----------------------------------------------------------------------

  /** An entered scenario has its entry, its extremes and a price point on record, and Redis can only agree on
      the entry price; one that is still waiting has no entry on record. */
  ghost predicate Recorded(s: Slice) {
    && (s.status == Running && !s.active && s.row.Some? ==> s.row.value.enteredAt.None? && s.row.value.entryPrice.None?)
    && (s.active ==>
          && s.row.Some? && s.row.value.enteredAt.Some? && s.row.value.entryPrice.Some?
          && s.row.value.highest.Some? && s.row.value.lowest.Some? && s.points != []
          && (s.keys.entryPrice.Some? ==> s.keys.entryPrice == s.row.value.entryPrice))
  }

  /** An entry is reported once, with everything a row needs; other reports leave it alone. */
  predicate RecordReport(s: Slice, o: Observation) {
    && (s.active ==> o.keys.entryPrice.None? || o.keys.entryPrice == s.keys.entryPrice)
    && (s.active && o.writes.row.Some? ==> o.writes.row.value.highest.Some? && o.writes.row.value.lowest.Some?)
    && (o.newly ==>
          && o.writes.row.Some? && o.writes.row.value.enteredAt.Some? && o.writes.row.value.entryPrice.Some?
          && o.writes.row.value.highest.Some? && o.writes.row.value.lowest.Some? && o.writes.point.Some?
          && (o.keys.entryPrice.None? || o.keys.entryPrice == o.writes.row.value.entryPrice))
    && (!o.newly && o.writes.row.Some? ==>
          o.writes.row.value.enteredAt.None? && o.writes.row.value.entryPrice.None?)
  }

  lemma ObserveRecorded(s: Slice, candle: Option<Candle>, now: int, skip: bool)
    requires Sound(s) && Recorded(s) && s.status == Running
    ensures RecordReport(s, Observe(s, candle, now, skip))
  {
    if candle.Some? {
      CourseFacts(s.sc, s.active, DbEntry(s.row), s.keys, candle.value, now, skip);
    }
  }

  lemma WriteRecorded(s: Slice, o: Observation, cancelled: bool, now: int)
    requires Sound(s) && Recorded(s) && s.status == Running && Lawful(s, o) && RecordReport(s, o)
    requires cancelled ==> !s.active && !o.newly
    ensures Recorded(Write(s.(keys := if cancelled then NO_KEYS else o.keys), o.writes, cancelled, now))
  {
  }

  lemma StepRecorded(s: Slice, slow: bool, candle: Option<Candle>, now: int, skip: bool, cancelled: bool, commits: bool)
    requires Sound(s) && Recorded(s) && (cancelled ==> skip && !s.active)
    ensures Recorded(StepScenario(s, slow, candle, now, skip, cancelled, commits))
  {
    if Selected(s, slow) {
      ObservationLawful(s, candle, now, skip);
      ObserveRecorded(s, candle, now, skip);
      if commits { WriteRecorded(s, Observe(s, candle, now, skip), cancelled, now); }
    }
  }

  lemma NextRecorded(w: World, st: Step, x: int)
    requires Consistent(w) && Enabled(w, st) && x in w.slices && Recorded(w.slices[x])
    ensures Recorded(SliceNext(w, st, x))
  {
    assert Sound(w.slices[x]);
    if st.Evaluation? {
      var p := st.poll;
      StepRecorded(w.slices[x], Slow(w), Get(p.candles, x), p.now, Skips(w, p, x), Cancels(w, p, x), p.commits);
    }
  }

  lemma {:induction false} RunRecorded(steps: seq<Step>, x: int)
    requires Legal(EMPTY, steps) && x in Exec(EMPTY, steps).slices
    ensures Recorded(Exec(EMPTY, steps).slices[x])
  {
    var front, st := steps[..|steps| - 1], steps[|steps| - 1];
    var w := Exec(EMPTY, front);
    if x in w.slices {
      NextSlice(w, st, x);
      RunConsistent(front);
      RunRecorded(front, x);
      NextRecorded(w, st, x);
    } else {
      NewSliceIsFresh(w, st, x);
    }
  }

  // ----- what recovery restores ------------------------------------------------------------------------

  /** The keys are those of an entered scenario with the row r and the points ps; recovery cannot know the rest,
      which is as the crash left it. */
  ghost predicate Restored(k: Keys, r: Row, ps: seq<PricePoint>, left: Keys) {
    && k.entered && k.first && k.bestTp.None? && k.bestTpIdx.None?
    && (r.entryPrice.Some? && r.entryPrice.value != 0.0 ==> k.entryPrice == r.entryPrice)
    && k.min.Some? && k.max.Some? && k.lastHist.Some?
    && (forall q :: q in ps ==> k.min.value <= q.price <= k.max.value && q.at <= k.lastHist.value)
    && (exists q :: q in ps && q.price == k.min.value)
    && (exists q :: q in ps && q.price == k.max.value)
    && (exists q :: q in ps && q.at == k.lastHist.value)
    && k.consolStart == left.consolStart && k.gapStart == left.gapStart
  }

  lemma RecoverRestores(s: Slice, k: Keys)
    requires Sound(s) && Recorded(s) && s.active && Survives(k, s.keys)
    ensures var t := Recover(s.(keys := k)); t == s.(keys := t.keys) && Restored(t.keys, s.row.value, s.points, k)
  {
    var lo, hi, at := LowestPrice(s.points), HighestPrice(s.points), LatestAt(s.points);
    var p :| p in s.points && p.price == lo;
    var q :| q in s.points && q.price == hi;
    var u :| u in s.points && u.at == at;
  }

  /** Main result: whatever the crash took, after a restart with a successful read every active scenario has the
      keys its rows call for, and no row has changed. */
  lemma {:induction false} RecoveryRestores(before: seq<Step>, kept: map<int, Keys>, x: int)
    requires Legal(EMPTY, before) && Enabled(Exec(EMPTY, before), Restart(kept, true))
    requires x in Exec(EMPTY, before).slices && Exec(EMPTY, before).slices[x].active
    ensures var s, steps := Exec(EMPTY, before).slices[x], before + [Restart(kept, true)];
      && Legal(EMPTY, steps) && x in Exec(EMPTY, steps).slices && x in kept && s.row.Some?
      && var t := Exec(EMPTY, steps).slices[x];
      && t == s.(keys := t.keys) && Restored(t.keys, s.row.value, s.points, kept[x])
  {
    var steps, w := before + [Restart(kept, true)], Exec(EMPTY, before);
    assert steps[..|steps| - 1] == before && steps[|steps| - 1] == Restart(kept, true);
    RunConsistent(before);
    RunRecorded(before, x);
    NextSlice(w, Restart(kept, true), x);
    assert Sound(w.slices[x]);
    RecoverRestores(w.slices[x], kept[x]);
  }

  // ----- waiting scenarios, unless an entry was lost --------------------------------------------------

  /** Nothing betrays an entry of a scenario that has not entered. */
  ghost predicate Idle(s: Slice) {
    s.status == Running && !s.active ==>
      && !s.keys.entered && s.keys.entryPrice.None? && s.keys.lastHist.None?
      && s.keys.min.None? && s.keys.max.None?
      && s.points == [] && (s.row.Some? ==> NeverEntered(s.row.value))
  }

  /** What an evaluation of a waiting scenario must not leave behind. */
  predicate IdleReport(s: Slice, o: Observation) {
    !s.active && !o.newly ==>
      && !o.keys.entered && o.keys.entryPrice.None? && o.keys.lastHist.None? && o.keys.min.None? && o.keys.max.None?
      && o.writes.point.None? && (o.writes.row.Some? ==> NeverEntered(o.writes.row.value))
  }

  lemma ObserveIdle(s: Slice, candle: Option<Candle>, now: int, skip: bool)
    requires Sound(s) && Idle(s) && s.status == Running
    ensures IdleReport(s, Observe(s, candle, now, skip))
  {
    if candle.Some? { CourseFacts(s.sc, s.active, DbEntry(s.row), s.keys, candle.value, now, skip); }
  }

  lemma WriteIdle(s: Slice, o: Observation, cancelled: bool, now: int)
    requires Sound(s) && Idle(s) && s.status == Running && Lawful(s, o) && IdleReport(s, o)
    requires cancelled ==> !s.active && !o.newly
    ensures Idle(Write(s.(keys := if cancelled then NO_KEYS else o.keys), o.writes, cancelled, now))
  {
  }

  lemma StepIdle(s: Slice, slow: bool, candle: Option<Candle>, now: int, skip: bool, cancelled: bool, commits: bool)
    requires Sound(s) && Idle(s) && (cancelled ==> skip && !s.active)
    requires Selected(s, slow) && !commits ==> !Observe(s, candle, now, skip).newly
    ensures Idle(StepScenario(s, slow, candle, now, skip, cancelled, commits))
  {
    if Selected(s, slow) {
      ObservationLawful(s, candle, now, skip);
      ObserveIdle(s, candle, now, skip);
      if commits { WriteIdle(s, Observe(s, candle, now, skip), cancelled, now); }
    }
  }

  lemma NextIdle(w: World, st: Step, x: int)
    requires Consistent(w) && Enabled(w, st) && x in w.slices && Idle(w.slices[x])
    requires st.Evaluation? && !st.poll.commits ==> !Wins(w, st.poll, x)
    ensures Idle(SliceNext(w, st, x))
  {
    assert Sound(w.slices[x]);
    if st.Evaluation? {
      var p := st.poll;
      if Picked(w, x) { NewlyWins(w, p, x); }
      StepIdle(w.slices[x], Slow(w), Get(p.candles, x), p.now, Skips(w, p, x), Cancels(w, p, x), p.commits);
    }
  }

  lemma {:induction false} RunIdle(steps: seq<Step>, x: int)
    requires Legal(EMPTY, steps) && LosesNoEntry(EMPTY, steps, x) && x in Exec(EMPTY, steps).slices
    ensures Idle(Exec(EMPTY, steps).slices[x])
  {
    var front, st := steps[..|steps| - 1], steps[|steps| - 1];
    var w := Exec(EMPTY, front);
    if x in w.slices {
      NextSlice(w, st, x);
      RunConsistent(front);
      RunIdle(front, x);
      NextIdle(w, st, x);
    } else {
      NewSliceIsFresh(w, st, x);
    }
  }

  // ----- what a swallowed entry can lead to -------------------------------------------------------------

  /** Closed on a level without ever having entered, by the log. */
  predicate Unannounced(s: Slice) {
    (s.status == Success || s.status == Failed) && Count(s.log, IsEntered) == 0
  }

  /** A committed cycle in which a scenario that is not active holds the entered flag and touches a level. */
  predicate ClosesUnentered(w: World, p: Poll, x: int)
    requires x in w.slices
  {
    && p.commits && Picked(w, x) && !w.slices[x].active && w.slices[x].keys.entered && x in p.candles
    && (TargetTouched(w.slices[x].sc, p.candles[x]) || StopTouched(w.slices[x].sc, p.candles[x]))
  }

  /** What one evaluation of a running scenario makes of a level. */
  lemma ObserveLevels(s: Slice, candle: Option<Candle>, now: int, skip: bool)
    requires Sound(s) && s.status == Running
    ensures var o := Observe(s, candle, now, skip);
      && (s.keys.entered ==> !o.newly)
      && (o.writes.mark == Some(Closed(Success)) || o.writes.mark == Some(Closed(Failed)) <==>
          (s.active || s.keys.entered || o.newly) && candle.Some? &&
          (TargetTouched(s.sc, candle.value) || StopTouched(s.sc, candle.value)))
  {
    if candle.Some? {
      CourseFacts(s.sc, s.active, DbEntry(s.row), s.keys, candle.value, now, skip);
      EnteredVerdict(s.sc, s.active, DbEntry(s.row), s.keys, candle.value, now, skip, false);
      var d := CourseOf(s.sc, s.active, DbEntry(s.row), s.keys, candle.value, now, skip);
      assert d.entered <==> s.active || s.keys.entered || d.newly;
    }
  }

  lemma StepUnannounced(s: Slice, slow: bool, candle: Option<Candle>, now: int, skip: bool, cancelled: bool)
    requires Sound(s) && Selected(s, slow) && (cancelled ==> skip && !s.active)
    ensures Unannounced(StepScenario(s, slow, candle, now, skip, cancelled, true)) <==>
      !s.active && s.keys.entered && candle.Some? &&
      (TargetTouched(s.sc, candle.value) || StopTouched(s.sc, candle.value))
  {
    ObservationLawful(s, candle, now, skip);
    ObserveLevels(s, candle, now, skip);
    StepEffect(s, slow, candle, now, skip, cancelled);
  }

  lemma NextUnannounced(w: World, st: Step, x: int)
    requires Consistent(w) && Enabled(w, st) && x in w.slices
    ensures x in Next(w, st).slices
    ensures Unannounced(Next(w, st).slices[x]) <==>
      Unannounced(w.slices[x]) || (st.Evaluation? && ClosesUnentered(w, st.poll, x))
  {
    NextSlice(w, st, x);
    assert Sound(w.slices[x]);
    if st.Evaluation? && st.poll.commits && Picked(w, x) {
      var p := st.poll;
      StepUnannounced(w.slices[x], Slow(w), Get(p.candles, x), p.now, Skips(w, p, x), Cancels(w, p, x));
    }
  }

  /** Some cycle of the run closed x so. */
  predicate ClosedUnentered(w: World, steps: seq<Step>, x: int) {
    steps != [] &&
    var front, st := steps[..|steps| - 1], steps[|steps| - 1];
    ClosedUnentered(w, front, x) ||
    (st.Evaluation? && x in Exec(w, front).slices && ClosesUnentered(Exec(w, front), st.poll, x))
  }

  lemma {:induction false} NotClosedBeforeInsert(w: World, steps: seq<Step>, x: int)
    requires x !in Exec(w, steps).slices
    ensures !ClosedUnentered(w, steps, x)
  {
    if steps != [] {
      var front := steps[..|steps| - 1];
      if x in Exec(w, front).slices { NextSlice(Exec(w, front), steps[|steps| - 1], x); }
      NotClosedBeforeInsert(w, front, x);
    }
  }

  /** Main result: in every run a scenario ends on a level without an entered event exactly if some committed
      cycle found it not active, with the entered flag, and touching a level; and that takes a failed batch
      that was to record its entry. */
  lemma {:induction false} SwallowedEntry(steps: seq<Step>, x: int)
    requires Legal(EMPTY, steps) && x in Exec(EMPTY, steps).slices
    ensures Unannounced(Exec(EMPTY, steps).slices[x]) <==> ClosedUnentered(EMPTY, steps, x)
    ensures ClosedUnentered(EMPTY, steps, x) ==> !LosesNoEntry(EMPTY, steps, x)
  {
    var front, st := steps[..|steps| - 1], steps[|steps| - 1];
    var w := Exec(EMPTY, front);
    if x in w.slices {
      RunConsistent(front);
      SwallowedEntry(front, x);
      NextUnannounced(w, st, x);
      if LosesNoEntry(EMPTY, steps, x) { RunIdle(front, x); }
    } else {
      NewSliceIsFresh(w, st, x);
      NotClosedBeforeInsert(EMPTY, front, x);
    }
  }
}
