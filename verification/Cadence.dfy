/** The price history: which of the evaluated prices become points, and how far apart they are. */
module Cadence {
  import opened Prelude
  import opened Domain
  import opened Evaluation
  import opened Machine
  import opened Audit
  import opened Exclusion
  import opened History
  import opened Durability
  import opened Records

  /** Thin samples greedily: keep the first, then each that is tf or more after the last kept. */
  function Thin(samples: seq<Sample>, tf: int): (kept: seq<Sample>)
    ensures samples != [] ==> kept != [] && kept[0] == samples[0]
  {
    if samples == [] then []
    else
      var kept := Thin(samples[..|samples| - 1], tf);
      var s := samples[|samples| - 1];
      if kept == [] || s.at - kept[|kept| - 1].at >= tf then kept + [s] else kept
  }

  lemma ThinExtend(samples: seq<Sample>, tf: int, s: Sample)
    ensures var kept := Thin(samples, tf);
      Thin(samples + [s], tf) == if kept == [] || s.at - kept[|kept| - 1].at >= tf then kept + [s] else kept
  {
    assert (samples + [s])[..|samples|] == samples;
  }

  predicate Spaced(kept: seq<Sample>, tf: int) {
    forall i :: 0 < i < |kept| ==> kept[i].at - kept[i - 1].at >= tf
  }

  lemma {:induction false} ThinSpaced(samples: seq<Sample>, tf: int)
    ensures Spaced(Thin(samples, tf), tf)
  {
    if samples != [] { ThinSpaced(samples[..|samples| - 1], tf); }
  }

  /** Kept samples are never far apart when the samples are not: with a sample at least every
      delta seconds, consecutive kept samples are less than tf + delta apart, and the last kept
      one is less than tf old at the last sample. */
  lemma {:induction false} ThinGaps(samples: seq<Sample>, tf: int, delta: int)
    requires tf > 0 && forall i :: 0 < i < |samples| ==> samples[i].at - samples[i - 1].at <= delta
    ensures var kept := Thin(samples, tf);
      && (forall i :: 0 < i < |kept| ==> kept[i].at - kept[i - 1].at < tf + delta)
      && (samples != [] ==> samples[|samples| - 1].at - kept[|kept| - 1].at < tf)
  {
    if |samples| > 0 {
      var front := samples[..|samples| - 1];
      ThinGaps(front, tf, delta);
      if |samples| > 1 {
        assert front[|front| - 1] == samples[|samples| - 2];
      }
    }
  }

  predicate Matching(ps: seq<PricePoint>, kept: seq<Sample>) {
    |ps| == |kept| && forall i :: 0 <= i < |kept| ==> ps[i].at == kept[i].at && ps[i].price == kept[i].candle.close
  }

  lemma {:induction false} LatestIsLast(ps: seq<PricePoint>, kept: seq<Sample>, tf: int)
    requires ps != [] && tf > 0 && Matching(ps, kept) && Spaced(kept, tf)
    ensures LatestAt(ps) == kept[|kept| - 1].at
  {
    if |ps| > 1 { LatestIsLast(ps[..|ps| - 1], kept[..|kept| - 1], tf); }
  }

  /** A due point never meets a point with the same time. */
  lemma PointAdded(ps: seq<PricePoint>, kept: seq<Sample>, tf: int, p: PricePoint, x: Sample)
    requires tf > 0 && Matching(ps, kept) && Spaced(kept, tf)
    requires p.at == x.at && p.price == x.candle.close && (kept == [] || x.at - kept[|kept| - 1].at >= tf)
    ensures InsertPoint(ps, p) == ps + [p] && Matching(ps + [p], kept + [x])
  {
    if ps != [] { LatestIsLast(ps, kept, tf); }
  }

  /** The stored points are the thinned samples, and the timer key is the last of them. */
  ghost predicate PointsAre(s: Slice, samples: seq<Sample>) {
    var kept := Thin(samples, TimeframeSeconds(s.sc.timeframe));
    && Matching(s.points, kept)
    && (s.active ==> kept != [] && s.keys.lastHist == Some(kept[|kept| - 1].at))
    && (samples != [] ==> s.row.Some? && s.row.value.enteredAt == Some(samples[0].at))
    && (s.status == Running && !s.active ==> samples == [])
  }

  /** A held cycle adds its sample; whether it becomes a point is the thinning's decision. */
  lemma HeldPoints(s: Slice, o: Obs, samples: seq<Sample>)
    requires Sound(s) && Durable(s) && PointsAre(s, samples)
    requires s.status == Running && Selected(s, o.slow) && o.candle.Some? && !o.taken && CourseAt(s, o).entered
    ensures PointsAre(LocalStep(s, o), samples + [Sample(o.now, o.candle.value)])
  {
    var tf := TimeframeSeconds(s.sc.timeframe);
    var x := Sample(o.now, o.candle.value);
    var kept := Thin(samples, tf);
    ThinExtend(samples, tf, x);
    ThinSpaced(samples, tf);
    EnteredCourse(s, o);
    EntryStamp(s, o);
    PointsStep(s, o);
    assert CourseAt(s, o).due <==> kept == [] || x.at - kept[|kept| - 1].at >= tf;
    if CourseAt(s, o).due {
      PointAdded(s.points, kept, tf, PointAt(s, o), x);
    }
    HeldTimer(s, o);
  }

  lemma HeldTimer(s: Slice, o: Obs)
    requires Sound(s) && Durable(s) && s.status == Running && Selected(s, o.slow) && o.candle.Some? && !o.taken
    requires CourseAt(s, o).entered
    ensures var s' := LocalStep(s, o);
      && s'.sc == s.sc
      && (s'.active ==> s'.keys.lastHist == if CourseAt(s, o).due then Some(o.now) else s.keys.lastHist)
      && !(s'.status == Running && !s'.active)
  {
    EnteredCourse(s, o);
    StepOfCourse(s, o);
  }

  lemma EntryStamp(s: Slice, o: Obs)
    requires Sound(s) && Durable(s) && s.status == Running && Selected(s, o.slow) && o.candle.Some? && !o.taken
    requires CourseAt(s, o).entered
    ensures var r := LocalStep(s, o).row;
      && r.Some? && (s.active ==> r.value.enteredAt == s.row.value.enteredAt)
      && (!s.active ==> r.value.enteredAt == Some(o.now))
  {
    EnteredCourse(s, o);
    StepOfCourse(s, o);
  }

  lemma IdlePoints(s: Slice, o: Obs, samples: seq<Sample>)
    requires Sound(s) && Durable(s) && PointsAre(s, samples) && Selected(s, o.slow) && (s.active ==> !o.taken)
    requires o.candle.Some? ==> !CourseAt(s, o).entered
    ensures PointsAre(LocalStep(s, o), samples)
  {
    if o.candle.Some? { EnteredCourse(s, o); }
  }

  lemma RecoverTimer(s: Slice, k: Keys)
    requires s.status == Running && s.active && s.row.Some? && s.points != []
    ensures Recover(s.(keys := k)) == s.(keys := Recover(s.(keys := k)).keys)
    ensures Recover(s.(keys := k)).keys.lastHist == Some(LatestAt(s.points))
  {
  }

  lemma KeepPoints(s: Slice, k: Keys, samples: seq<Sample>)
    requires PointsAre(s, samples) && (s.active ==> k.lastHist == s.keys.lastHist)
    ensures PointsAre(s.(keys := k), samples)
  {
  }

  lemma RecoverPoints(s: Slice, k: Keys, samples: seq<Sample>)
    requires PointsAre(s, samples) && (s.active ==> s.status == Running && s.row.Some?)
    ensures PointsAre(Recover(s.(keys := k)), samples)
  {
    var tf := TimeframeSeconds(s.sc.timeframe);
    if s.active {
      ThinSpaced(samples, tf);
      LatestIsLast(s.points, Thin(samples, tf), tf);
      RecoverTimer(s, k);
      KeepPoints(s, Recover(s.(keys := k)).keys, samples);
    } else {
      KeepPoints(s, k, samples);
    }
  }

  /** x's timer key survives the step or is rebuilt: Redis may lose any other key at any time, and this one
      too if a recovery follows; and no failed batch was to close x while entered, which would have
      cleaned the keys of a scenario that stays open. */
  predicate SparesTimer(w: World, st: Step, x: int) {
    match st
    case Evaluation(p) => p.commits || !ClosesActive(w, p, x)
    case Lose(kept) => SameTimer(w, kept, x)
    case Restart(kept, recovers) => recovers || SameTimer(w, kept, x)
    case _ => true
  }

  predicate SameTimer(w: World, kept: map<int, Keys>, x: int) {
    x in w.slices && x in kept ==> kept[x].lastHist == w.slices[x].keys.lastHist
  }

  ghost predicate TimerSpared(w: World, steps: seq<Step>, x: int) {
    steps == [] ||
    (TimerSpared(w, steps[..|steps| - 1], x) && SparesTimer(Exec(w, steps[..|steps| - 1]), steps[|steps| - 1], x))
  }

  /** The timer key is spared, and all batches commit. */
  ghost predicate KeepsTimer(w: World, st: Step, x: int) {
    SparesTimer(w, st, x) && (st.Evaluation? ==> st.poll.commits)
  }

  ghost predicate Orderly(w: World, steps: seq<Step>, x: int) {
    steps == [] ||
    (Orderly(w, steps[..|steps| - 1], x) && KeepsTimer(Exec(w, steps[..|steps| - 1]), steps[|steps| - 1], x))
  }

  lemma {:induction false} OrderlyCommits(w: World, steps: seq<Step>, x: int)
    requires Orderly(w, steps, x)
    ensures Commits(steps)
  {
    if steps != [] {
      OrderlyCommits(w, steps[..|steps| - 1], x);
      assert steps == steps[..|steps| - 1] + [steps[|steps| - 1]];
    }
  }

  lemma PointsCycle(w: World, p: Poll, x: int, samples: seq<Sample>)
    requires Consistent(w) && Lists(w, p.order) && p.commits && x in w.slices && Durable(w.slices[x])
    requires PointsAre(w.slices[x], samples)
    ensures PointsAre(SliceAfter(w, p, x), samples + if Holds(w, p, x) then [Sample(p.now, p.candles[x])] else [])
  {
    Localized(w, p, x);
    assert samples + [] == samples;
    if Picked(w, x) {
      if x in p.candles { HoldsCourse(w, p, x); }
      if Holds(w, p, x) {
        HeldPoints(w.slices[x], ObsOf(w, p, x), samples);
      } else {
        IdlePoints(w.slices[x], ObsOf(w, p, x), samples);
      }
    }
  }

  lemma PointsNext(w: World, st: Step, x: int, samples: seq<Sample>)
    requires Consistent(w) && Enabled(w, st) && x in w.slices && Durable(w.slices[x]) && KeepsTimer(w, st, x)
    requires PointsAre(w.slices[x], samples)
    ensures x in Next(w, st).slices
    ensures PointsAre(Next(w, st).slices[x],
      samples + if st.Evaluation? && Holds(w, st.poll, x) then [Sample(st.poll.now, st.poll.candles[x])] else [])
  {
    assert samples + [] == samples;
    NextSlice(w, st, x);
    match st {
      case Evaluation(p) => PointsCycle(w, p, x, samples);
      case Restart(kept, recovers) =>
        if recovers {
          RecoverPoints(w.slices[x], kept[x], samples);
        } else {
          KeepPoints(w.slices[x], kept[x], samples);
        }
      case Lose(kept) => KeepPoints(w.slices[x], kept[x], samples);
      case _ =>
    }
  }

  /** What a lost timer key does: the next evaluation stores a point at once. That keeps the points the
      thinned samples exactly if the point was due anyway, or its time is taken by a stored point, whose
      insert does nothing; it keeps the spacing exactly then too. For the timer, which now restarts, to be
      that of the thinning as well, the taken time must be that of the last point. */
  lemma {:induction false} LostTimer(s: Slice, o: Obs, samples: seq<Sample>)
    requires Sound(s) && Recorded(s) && s.active && samples != [] && s.keys.lastHist.None? && !o.taken && o.candle.Some?
    requires Matching(s.points, Thin(samples, TimeframeSeconds(s.sc.timeframe)))
    ensures var tf, x := TimeframeSeconds(s.sc.timeframe), Sample(o.now, o.candle.value); var kept := Thin(samples, tf);
            var t := LocalStep(s, o); var due := x.at - kept[|kept| - 1].at >= tf;
      && (Matching(t.points, Thin(samples + [x], tf)) <==> due || exists q :: q in s.points && q.at == x.at)
      && (PointsSpaced(t.points, tf) <==> due || exists q :: q in s.points && q.at == x.at)
      && (t.active ==> (PointsAre(t, samples + [x]) <==>
            s.row.value.enteredAt == Some(samples[0].at) && (due || kept[|kept| - 1].at == x.at)))
  {
    var tf, x := TimeframeSeconds(s.sc.timeframe), Sample(o.now, o.candle.value);
    ThinExtend(samples, tf, x);
    ThinSpaced(samples, tf);
    HeldStep(s, o);
    LostPoint(s.points, Thin(samples, tf), tf, PointAt(s, o), x);
  }

  lemma LostPoint(ps: seq<PricePoint>, kept: seq<Sample>, tf: int, p: PricePoint, x: Sample)
    requires tf > 0 && kept != [] && Matching(ps, kept) && Spaced(kept, tf) && p.at == x.at && p.price == x.candle.close
    ensures var due := x.at - kept[|kept| - 1].at >= tf; var qs := InsertPoint(ps, p);
      && (Matching(qs, if due then kept + [x] else kept) <==> due || exists q :: q in ps && q.at == x.at)
      && (PointsSpaced(qs, tf) <==> due || exists q :: q in ps && q.at == x.at)
      && (kept[|kept| - 1].at == x.at ==> exists q :: q in ps && q.at == x.at)
  {
    if x.at - kept[|kept| - 1].at >= tf {
      PointAdded(ps, kept, tf, p, x);
    } else if !exists q :: q in ps && q.at == x.at {
      assert InsertPoint(ps, p)[|ps|] == p && InsertPoint(ps, p)[|ps| - 1] == ps[|ps| - 1];
    }
    assert ps[|ps| - 1] in ps;
  }

  /** What a committed evaluation does to the points and the timer of an entered scenario. */
  lemma HeldStep(s: Slice, o: Obs)
    requires Sound(s) && Recorded(s) && s.active && !o.taken && o.candle.Some?
    ensures var t := LocalStep(s, o); var due := PointDue(s.sc, s.keys.lastHist, o.now, false);
      && t.sc == s.sc && t.points == (if due then InsertPoint(s.points, PointAt(s, o)) else s.points)
      && t.row.Some? && t.row.value.enteredAt == s.row.value.enteredAt
      && (t.active ==> t.keys.lastHist == if due then Some(o.now) else s.keys.lastHist)
      && (t.status == Running <==> t.active)
  {
    CourseFacts(s.sc, s.active, DbEntry(s.row), s.keys, o.candle.value, o.now, o.taken);
    StepOfCourse(s, o);
    PointsStep(s, o);
  }

  // ----- spacing, failed batches included ------------------------------------------------------------

  predicate PointsSpaced(ps: seq<PricePoint>, tf: int) {
    forall i :: 0 < i < |ps| ==> ps[i].at - ps[i - 1].at >= tf
  }

  /** The points are at least a timeframe apart and start with the entry, and the timer is not behind them. */
  predicate WellSpaced(s: Slice) {
    && PointsSpaced(s.points, TimeframeSeconds(s.sc.timeframe))
    && (s.points != [] ==> s.row.Some? && s.row.value.enteredAt == Some(s.points[0].at))
    && (s.active ==>
          s.points != [] && s.keys.lastHist.Some? && s.keys.lastHist.value >= s.points[|s.points| - 1].at)
  }

  /** What one observation means for the points and the timer of a running scenario. */
  predicate TimerReport(s: Slice, o: Observation, now: int) {
    && (s.active && !Ends(o) ==> o.keys.lastHist == if o.writes.point.Some? then Some(now) else s.keys.lastHist)
    && (s.active && o.writes.point.Some? ==> PointDue(s.sc, s.keys.lastHist, now, false))
    && (o.newly ==> o.writes.point.Some? && (Ends(o) || o.keys.lastHist == Some(now)))
    && (o.newly ==> o.writes.row.Some? && o.writes.row.value.enteredAt == Some(now))
    && (o.writes.point.Some? ==> (s.active || o.newly) && o.writes.point.value.at == now)
    && (!o.newly && o.writes.row.Some? ==> o.writes.row.value.enteredAt.None?)
  }

  lemma ObserveTimer(s: Slice, candle: Option<Candle>, now: int, skip: bool)
    requires Sound(s) && Idle(s) && Recorded(s) && s.status == Running
    ensures TimerReport(s, Observe(s, candle, now, skip), now)
  {
    if candle.Some? {
      CourseFacts(s.sc, s.active, DbEntry(s.row), s.keys, candle.value, now, skip);
    }
  }

  /** A due point keeps the spacing: the timer is not behind the last point. */
  lemma DuePoint(ps: seq<PricePoint>, tf: int, p: PricePoint, timer: int)
    requires tf > 0 && ps != [] && PointsSpaced(ps, tf) && timer >= ps[|ps| - 1].at && p.at - timer >= tf
    ensures PointsSpaced(InsertPoint(ps, p), tf) && InsertPoint(ps, p)[0] == ps[0]
    ensures var qs := InsertPoint(ps, p); qs[|qs| - 1].at <= p.at
  {
  }

  lemma WriteActiveSpaced(s: Slice, o: Observation, now: int)
    requires Sound(s) && Recorded(s) && WellSpaced(s) && s.active && Lawful(s, o) && TimerReport(s, o, now)
    ensures WellSpaced(Write(s.(keys := o.keys), o.writes, false, now))
  {
    if o.writes.point.Some? {
      DuePoint(s.points, TimeframeSeconds(s.sc.timeframe), o.writes.point.value, s.keys.lastHist.value);
    }
  }

  lemma WriteIdleSpaced(s: Slice, o: Observation, cancelled: bool, now: int)
    requires Idle(s) && s.status == Running && !s.active && Lawful(s, o) && TimerReport(s, o, now)
    requires cancelled ==> !o.newly
    ensures WellSpaced(Write(s.(keys := if cancelled then NO_KEYS else o.keys), o.writes, cancelled, now))
  {
  }

  lemma StepSpaced(s: Slice, slow: bool, candle: Option<Candle>, now: int, skip: bool, cancelled: bool, commits: bool)
    requires Sound(s) && Idle(s) && Recorded(s) && WellSpaced(s) && (cancelled ==> skip && !s.active)
    requires Selected(s, slow) && !commits ==>
      var o := Observe(s, candle, now, skip); !o.newly && !(s.active && Ends(o))
    ensures WellSpaced(StepScenario(s, slow, candle, now, skip, cancelled, commits))
  {
    if Selected(s, slow) {
      var o := Observe(s, candle, now, skip);
      ObservationLawful(s, candle, now, skip);
      ObserveTimer(s, candle, now, skip);
      if !commits {
        FailedSpaced(s, o, if cancelled then NO_KEYS else o.keys, now);
      } else if s.active {
        WriteActiveSpaced(s, o, now);
      } else {
        WriteIdleSpaced(s, o, cancelled, now);
      }
    }
  }

  /** A failed batch can only have moved the timer forward. */
  lemma FailedSpaced(s: Slice, o: Observation, k: Keys, now: int)
    requires WellSpaced(s) && TimerReport(s, o, now) && (s.active ==> k == o.keys && !Ends(o))
    ensures WellSpaced(s.(keys := k))
  {
  }

  lemma NextSpaced(w: World, st: Step, x: int)
    requires Consistent(w) && Enabled(w, st) && x in w.slices
    requires Idle(w.slices[x]) && Recorded(w.slices[x]) && WellSpaced(w.slices[x])
    requires SparesTimer(w, st, x) && (st.Evaluation? && !st.poll.commits ==> !Wins(w, st.poll, x))
    ensures WellSpaced(SliceNext(w, st, x))
  {
    var s := w.slices[x];
    assert Sound(s);
    if st.Evaluation? {
      var p := st.poll;
      if Picked(w, x) { NewlyWins(w, p, x); }
      StepSpaced(s, Slow(w), Get(p.candles, x), p.now, Skips(w, p, x), Cancels(w, p, x), p.commits);
    }
  }

  /** Main result: in every run, under any key losses, crashes and failed batches, points are at least a
      timeframe apart and start with the entry, provided the timer key is spared or rebuilt and no failed
      batch was to record x's entry. */
  lemma {:induction false} PointSpacing(steps: seq<Step>, x: int)
    requires Legal(EMPTY, steps) && x in Exec(EMPTY, steps).slices
    requires LosesNoEntry(EMPTY, steps, x) && TimerSpared(EMPTY, steps, x)
    ensures WellSpaced(Exec(EMPTY, steps).slices[x])
  {
    var front, st := steps[..|steps| - 1], steps[|steps| - 1];
    var w := Exec(EMPTY, front);
    if x in w.slices {
      NextSlice(w, st, x);
      RunConsistent(front);
      RunIdle(front, x);
      RunRecorded(front, x);
      PointSpacing(front, x);
      NextSpaced(w, st, x);
    } else {
      NewSliceIsFresh(w, st, x);
    }
  }

  // ----- the points of a committed run ---------------------------------------------------------------

  /** Main result: across any key losses and crashes that spare or rebuild the timer key, the price points
      are exactly the greedy thinning of the evaluated closes by the timeframe, starting with the entry. */
  lemma {:induction false} PointsAreThinned(steps: seq<Step>, x: int)
    requires Legal(EMPTY, steps) && Orderly(EMPTY, steps, x) && SaneFeed(steps) && x in Exec(EMPTY, steps).slices
    ensures PointsAre(Exec(EMPTY, steps).slices[x], HeldSamples(EMPTY, steps, x))
  {
    var front := steps[..|steps| - 1];
    var st := steps[|steps| - 1];
    var w := Exec(EMPTY, front);
    if x in w.slices {
      RunConsistent(front);
      OrderlyCommits(EMPTY, front, x);
      RunDurable(front, x);
      PointsAreThinned(front, x);
      assert st in steps;
      PointsNext(w, st, x, HeldSamples(EMPTY, front, x));
    } else {
      NewSliceIsFresh(w, st, x);
      NoneHeldBeforeInsert(EMPTY, front, x);
    }
  }

  /** Points are at least a timeframe apart, the first is at entry, no gap reaches timeframe + delta, and the
      last point is less than a timeframe old at the last evaluation. */
  ghost predicate InCadence(s: Slice, hs: seq<Sample>, delta: int) {
    var tf := TimeframeSeconds(s.sc.timeframe);
    && (forall i :: 0 < i < |s.points| ==> tf <= s.points[i].at - s.points[i - 1].at < tf + delta)
    && (s.points != [] ==> s.row.Some? && s.row.value.enteredAt == Some(s.points[0].at))
    && (s.points == [] <==> hs == [])
    && (hs != [] ==> s.points != [] && hs[|hs| - 1].at - s.points[|s.points| - 1].at < tf)
  }

  ghost predicate AtLeastEvery(hs: seq<Sample>, delta: int) {
    forall i :: 0 < i < |hs| ==> hs[i].at - hs[i - 1].at <= delta
  }

  lemma ThinnedCadence(s: Slice, hs: seq<Sample>, delta: int)
    requires PointsAre(s, hs) && AtLeastEvery(hs, delta)
    ensures InCadence(s, hs, delta)
  {
    var tf := TimeframeSeconds(s.sc.timeframe);
    ThinSpaced(hs, tf);
    ThinGaps(hs, tf, delta);
  }

  /** Consequence for every orderly run in which an entered scenario is evaluated at least every
      delta seconds. */
  lemma {:induction false} PointCadence(steps: seq<Step>, x: int, delta: int)
    requires Legal(EMPTY, steps) && Orderly(EMPTY, steps, x) && SaneFeed(steps) && x in Exec(EMPTY, steps).slices
    requires AtLeastEvery(HeldSamples(EMPTY, steps, x), delta)
    ensures InCadence(Exec(EMPTY, steps).slices[x], HeldSamples(EMPTY, steps, x), delta)
  {
    PointsAreThinned(steps, x);
    ThinnedCadence(Exec(EMPTY, steps).slices[x], HeldSamples(EMPTY, steps, x), delta);
  }
}
