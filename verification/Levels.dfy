/** The evaluator's rules in prices alone. A position stays open exactly as long as no candle has gone past a
    level, and the stored extremes show it; every rule is restated here in candle fields and row columns. */
module Levels {
  import opened Prelude
  import opened Domain
  import opened Evaluation
  import opened Machine
  import opened Audit
  import opened Exclusion
  import opened History
  import opened Records
  import opened Durability
  import opened Targets

  // ----- what the stored extremes say, in every run ------------------------------------------------

  /** A price as low as lo passes no level on that side: a long's stop, a short's targets. */
  predicate ClearBelow(sc: Scenario, lo: real) {
    && (IsLong(sc) && sc.stopLoss.Some? ==> sc.stopLoss.value < lo)
    && (!IsLong(sc) ==> forall p :: p in sc.takeProfits ==> p < lo)
  }

  /** A price as high as hi passes no level on that side: a long's targets, a short's stop. */
  predicate ClearAbove(sc: Scenario, hi: real) {
    && (IsShort(sc) && sc.stopLoss.Some? ==> hi < sc.stopLoss.value)
    && (IsLong(sc) ==> forall p :: p in sc.takeProfits ==> hi < p)
  }

  predicate ClearRow(sc: Scenario, r: Row) {
    && (r.lowest.Some? ==> ClearBelow(sc, r.lowest.value))
    && (r.highest.Some? ==> ClearAbove(sc, r.highest.value))
    && (r.lowest.Some? <==> r.highest.Some?)
    && (r.lowest.Some? ==> r.lowest.value <= r.highest.value)
  }

  /** A failure stands at the stop, which the extremes have passed, while no target was. */
  predicate FailedRow(sc: Scenario, r: Row) {
    && sc.stopLoss.Some? && r.exitPrice == sc.stopLoss && r.hitSl == sc.stopLoss
    && r.lowest.Some? && r.highest.Some? && r.lowest.value <= r.highest.value
    && (IsLong(sc) || IsShort(sc))
    && (IsLong(sc) ==>
          r.lowest.value <= sc.stopLoss.value && forall p :: p in sc.takeProfits ==> r.highest.value < p)
    && (IsShort(sc) ==>
          sc.stopLoss.value <= r.highest.value && forall p :: p in sc.takeProfits ==> p < r.lowest.value)
  }

  /** A success stands at a target the extremes have reached: exactly, or within two percent of a close. */
  predicate SuccessRow(sc: Scenario, r: Row) {
    && r.exitPrice.Some? && r.exitPrice.value in sc.takeProfits && (r.result == Success ==> r.hitTp == r.exitPrice)
    && r.lowest.Some? && r.highest.Some? && r.lowest.value <= r.highest.value
    && var margin := if sc.priceType == Range then r.highest.value * 0.02 else 0.0;
    && (IsLong(sc) ==> r.exitPrice.value - margin <= r.highest.value)
    && (!IsLong(sc) ==> r.lowest.value <= r.exitPrice.value + margin)
  }

  /** What the row of a scenario tells about its levels and its expiry. */
  predicate LevelsTold(s: Slice) {
    s.row.Some? ==>
      var sc, r := s.sc, s.row.value;
      match s.status
      case Running => ClearRow(sc, r) && r.evaluatedAt < sc.expireAt
      case Expired => ClearRow(sc, r) && r.completedAt.Some? && sc.expireAt <= r.completedAt.value
      case Cancelled => ClearRow(sc, r)
      case Failed => FailedRow(sc, r)
      case Success => SuccessRow(sc, r)
  }

  /** While it runs, neither Redis nor a price point has gone past a level. */
  ghost predicate ClearState(s: Slice) {
    s.status == Running ==>
      && (s.keys.min.Some? ==> ClearBelow(s.sc, s.keys.min.value))
      && (s.keys.max.Some? ==> ClearAbove(s.sc, s.keys.max.value))
      && forall q :: q in s.points ==> ClearBelow(s.sc, q.price) && ClearAbove(s.sc, q.price)
  }

  /** A candle that touches no level is clear of all of them on both sides. */
  lemma QuietCandle(sc: Scenario, c: Candle)
    requires Sane(c) && !StopTouched(sc, c) && BestReached(sc, sc.takeProfits, c) == 0
    ensures ClearBelow(sc, c.low) && ClearAbove(sc, c.high)
  {
  }

  /** What one evaluation reports about levels: whether it leaves the scenario open or how it closes it. */
  predicate LevelReport(sc: Scenario, o: Observation, now: int) {
    && (o.writes.row.Some? ==>
          var r := o.writes.row.value;
          && r.evaluatedAt == now && (r.lowest.Some? <==> r.highest.Some?)
          && (r.lowest.Some? ==>
                r.lowest.value <= r.highest.value && 0.0 < r.highest.value && r.lowest.value < 9000000000000000.0))
    && (if Ends(o) then
          o.writes.row.Some? && var r := o.writes.row.value; match o.writes.mark.value.status
            case Success => SuccessRow(sc, r)
            case Failed => FailedRow(sc, r)
            case _ => ClearRow(sc, r) && r.completedAt == Some(now) && sc.expireAt <= now
        else
          && (o.writes.row.Some? ==> ClearRow(sc, o.writes.row.value) && now < sc.expireAt)
          && (o.keys.min.Some? ==> ClearBelow(sc, o.keys.min.value))
          && (o.keys.max.Some? ==> ClearAbove(sc, o.keys.max.value))
          && (o.writes.point.Some? ==>
                ClearBelow(sc, o.writes.point.value.price) && ClearAbove(sc, o.writes.point.value.price)))
  }

  /** An evaluation that finds the scenario entered tracks the candle, whatever it decides. */
  lemma TrackedKeys(s: Slice, c: Candle, now: int, skip: bool)
    ensures var d := CourseOf(s.sc, s.active, DbEntry(s.row), s.keys, c, now, skip);
      && (d.entered ==> d.keys.min == Track(s.keys, c).min && d.keys.max == Track(s.keys, c).max)
      && (!d.entered ==> d.keys.min == s.keys.min && d.keys.max == s.keys.max)
  {
  }

  lemma TrackedClear(s: Slice, c: Candle)
    requires s.status == Running && ClearState(s) && Sane(c)
    requires !StopTouched(s.sc, c) && BestReached(s.sc, s.sc.takeProfits, c) == 0
    ensures var k := Track(s.keys, c); ClearBelow(s.sc, k.min.value) && ClearAbove(s.sc, k.max.value)
  {
    QuietCandle(s.sc, c);
  }

  /** A target close, by price. */
  lemma SuccessLevels(sc: Scenario, d: Course, c: Candle, now: int)
    requires Sane(c) && HitFits(sc, d, c) && d.hit.index > 0
    requires d.entered && d.keys.min.Some? && d.keys.max.Some?
    requires d.keys.min.value <= c.low && c.high <= d.keys.max.value
    ensures SuccessRow(sc, RowOf(sc, d, c, now))
  {
    var p := sc.takeProfits[d.hit.index - 1];
    assert p in sc.takeProfits && Reached(sc, p, c);
  }

  /** A stop close, by price: the candle passed the stop and no target. */
  lemma FailedLevels(s: Slice, d: Course, c: Candle, now: int)
    requires Sane(c) && HitFits(s.sc, d, c) && d.hit.index == 0 && d.entered && StopTouched(s.sc, c)
    requires d.verdict == Close(Failed, s.sc.stopLoss)
    requires ClearState(s) && s.status == Running
    requires d.keys.min == Track(s.keys, c).min && d.keys.max == Track(s.keys, c).max
    ensures FailedRow(s.sc, RowOf(s.sc, d, c, now))
  {
    assert forall i :: 0 <= i < |s.sc.takeProfits| ==> !Reached(s.sc, s.sc.takeProfits[i], c);
  }

  /** The verdict, read as prices. */
  lemma VerdictLevels(s: Slice, d: Course, c: Candle, now: int)
    requires HitFits(s.sc, d, c) && d.verdict == Settle(s.sc, d.entered, d.hit, c, now)
    ensures d.verdict.Close? && d.verdict.status == Success ==> d.entered && d.hit.index > 0
    ensures d.verdict.Close? && d.verdict.status == Failed ==>
      d.entered && StopTouched(s.sc, c) && d.hit.index == 0 && d.verdict.exit == s.sc.stopLoss
    ensures d.entered && (d.verdict.Open? || d.verdict.status == Expired) ==>
      !StopTouched(s.sc, c) && BestReached(s.sc, s.sc.takeProfits, c) == 0
    ensures d.verdict.Open? <==> !(d.verdict.Close? && d.verdict.status in {Success, Failed}) && now < s.sc.expireAt
  {
  }

  lemma OpenLevels(s: Slice, d: Course, c: Candle, now: int)
    requires s.status == Running && ClearState(s) && Sane(c)
    requires d.entered ==> !StopTouched(s.sc, c) && BestReached(s.sc, s.sc.takeProfits, c) == 0
    requires d.entered ==> d.keys.min == Track(s.keys, c).min && d.keys.max == Track(s.keys, c).max
    ensures var r := RowOf(s.sc, d, c, now);
      && ClearRow(s.sc, r) && r.evaluatedAt == now
      && (r.lowest.Some? ==> 0.0 < r.highest.value && r.lowest.value < 9000000000000000.0)
      && (d.verdict.Close? ==> r.completedAt == Some(now))
      && (d.entered ==> ClearBelow(s.sc, c.close) && ClearAbove(s.sc, c.close))
  {
    if d.entered {
      TrackedClear(s, c);
      QuietCandle(s.sc, c);
    }
  }

  lemma PricedReport(s: Slice, c: Candle, now: int, skip: bool)
    requires Sound(s) && s.status == Running && ClearState(s) && Sane(c)
    ensures LevelReport(s.sc, Observe(s, Some(c), now, skip), now)
  {
    var d := CourseOf(s.sc, s.active, DbEntry(s.row), s.keys, c, now, skip);
    ReportOfCourse(s, c, now, skip);
    CourseHits(s, c, now, skip);
    TrackedKeys(s, c, now, skip);
    VerdictLevels(s, d, c, now);
    CourseReported(s, d, c, now, Observe(s, Some(c), now, skip));
  }

  lemma CourseReported(s: Slice, d: Course, c: Candle, now: int, o: Observation)
    requires s.status == Running && ClearState(s) && Sane(c)
    requires HitFits(s.sc, d, c) && d.verdict == Settle(s.sc, d.entered, d.hit, c, now)
    requires d.entered ==> d.keys.min == Track(s.keys, c).min && d.keys.max == Track(s.keys, c).max
    requires !d.entered ==> d.keys.min == s.keys.min && d.keys.max == s.keys.max
    requires o.writes.row.Some? ==> o.writes.row.value == RowOf(s.sc, d, c, now)
    requires Ends(o) <==> d.verdict.Close?
    requires Ends(o) ==> o.writes.mark == Some(Closed(d.verdict.status)) && o.writes.row.Some?
    requires !Ends(o) ==> o.keys.min == d.keys.min && o.keys.max == d.keys.max
    requires o.writes.point.Some? ==> d.entered && o.writes.point.value.price == c.close
    ensures LevelReport(s.sc, o, now)
  {
    VerdictLevels(s, d, c, now);
    RowExtremes(s, d, c, now);
    if d.verdict.Close? && d.verdict.status == Success {
      SuccessLevels(s.sc, d, c, now);
    } else if d.verdict.Close? && d.verdict.status == Failed {
      FailedLevels(s, d, c, now);
    } else {
      OpenLevels(s, d, c, now);
      if d.entered { TrackedClear(s, c); }
    }
  }

  lemma RowExtremes(s: Slice, d: Course, c: Candle, now: int)
    requires Sane(c) && (d.entered ==> d.keys.min == Track(s.keys, c).min && d.keys.max == Track(s.keys, c).max)
    ensures var r := RowOf(s.sc, d, c, now);
      && r.evaluatedAt == now && (r.lowest.Some? <==> d.entered) && (r.highest.Some? <==> d.entered)
      && (d.entered ==>
            r.lowest.value <= r.highest.value && 0.0 < r.highest.value && r.lowest.value < 9000000000000000.0)
  {
  }

  lemma WriteLevels(s: Slice, o: Observation, cancelled: bool, now: int)
    requires Sound(s) && s.status == Running && LevelsTold(s) && ClearState(s)
    requires Lawful(s, o) && LevelReport(s.sc, o, now) && (cancelled ==> !o.newly && !s.active)
    ensures LevelsTold(Write(s.(keys := if cancelled then NO_KEYS else o.keys), o.writes, cancelled, now))
  {
  }

  lemma WriteClear(s: Slice, o: Observation, cancelled: bool, now: int)
    requires s.status == Running && ClearState(s) && Lawful(s, o) && LevelReport(s.sc, o, now)
    ensures ClearState(Write(s.(keys := if cancelled then NO_KEYS else o.keys), o.writes, cancelled, now))
  {
  }

  lemma ObserveReport(s: Slice, candle: Option<Candle>, now: int, skip: bool)
    requires Sound(s) && s.status == Running && ClearState(s) && (candle.Some? ==> Sane(candle.value))
    ensures var o := Observe(s, candle, now, skip);
      && LevelReport(s.sc, o, now)
      && (Ends(o) ==> o.keys == NO_KEYS)
  {
    if candle.Some? { PricedReport(s, candle.value, now, skip); }
  }

  lemma StepLevels(s: Slice, slow: bool, candle: Option<Candle>, now: int, skip: bool, cancelled: bool, commits: bool)
    requires Sound(s) && LevelsTold(s) && ClearState(s) && (candle.Some? ==> Sane(candle.value))
    requires cancelled ==> skip && !s.active
    ensures var t := StepScenario(s, slow, candle, now, skip, cancelled, commits); LevelsTold(t) && ClearState(t)
  {
    if Selected(s, slow) {
      var o := Observe(s, candle, now, skip);
      ObservationLawful(s, candle, now, skip);
      ObserveReport(s, candle, now, skip);
      if commits {
        WriteLevels(s, o, cancelled, now);
        WriteClear(s, o, cancelled, now);
      }
    }
  }

  /** Lost keys take nothing back, and recovery reads prices that pass no level. */
  lemma KeysClear(s: Slice, k: Keys)
    requires ClearState(s) && Survives(k, s.keys)
    ensures ClearState(s.(keys := k)) && ClearState(Recover(s.(keys := k)))
  {
    if s.status == Running && s.active && s.row.Some? && s.points != [] {
      var lo, hi := LowestPrice(s.points), HighestPrice(s.points);
      var p :| p in s.points && p.price == lo;
      var q :| q in s.points && q.price == hi;
      assert ClearBelow(s.sc, p.price) && ClearAbove(s.sc, q.price);
    }
  }

  lemma NextLevels(w: World, st: Step, x: int)
    requires Enabled(w, st) && x in w.slices && Sound(w.slices[x]) && SaneFeed([st])
    requires LevelsTold(w.slices[x]) && ClearState(w.slices[x])
    ensures LevelsTold(SliceNext(w, st, x)) && ClearState(SliceNext(w, st, x))
  {
    assert st in [st];
    match st {
      case Evaluation(p) =>
        StepLevels(w.slices[x], Slow(w), Get(p.candles, x), p.now, Skips(w, p, x), Cancels(w, p, x), p.commits);
      case Lose(kept) => KeysClear(w.slices[x], kept[x]);
      case Restart(kept, _) => KeysClear(w.slices[x], kept[x]);
      case _ =>
    }
  }

  lemma {:induction false} RunLevels(steps: seq<Step>, x: int)
    requires Legal(EMPTY, steps) && SaneFeed(steps) && x in Exec(EMPTY, steps).slices
    ensures LevelsTold(Exec(EMPTY, steps).slices[x]) && ClearState(Exec(EMPTY, steps).slices[x])
  {
    var front, st := steps[..|steps| - 1], steps[|steps| - 1];
    var w := Exec(EMPTY, front);
    if x in w.slices {
      NextSlice(w, st, x);
      RunConsistent(front);
      RunLevels(front, x);
      assert Sound(w.slices[x]);
      NextLevels(w, st, x);
    } else {
      NewSliceIsFresh(w, st, x);
    }
  }

  /** Main result, in prices alone, for every run over sane prices under any losses and failed batches: an open
      long has stayed above its stop and below every target, an open short below its stop and above every
      target, and neither has been evaluated past its expiry; a failure stands at a stop the extremes have
      passed, with no target reached; a success stands at a target they have reached. */
  lemma {:induction false} ExtremesTell(steps: seq<Step>, x: int)
    requires Legal(EMPTY, steps) && SaneFeed(steps) && x in Exec(EMPTY, steps).slices
    ensures var s := Exec(EMPTY, steps).slices[x]; var sc := s.sc;
      && (s.active ==>
            && s.row.Some? && s.row.value.lowest.Some? && s.row.value.highest.Some?
            && var lo, hi := s.row.value.lowest.value, s.row.value.highest.value;
            && lo <= hi && s.row.value.evaluatedAt < sc.expireAt
            && (IsLong(sc) && sc.stopLoss.Some? ==> lo > sc.stopLoss.value)
            && (IsShort(sc) && sc.stopLoss.Some? ==> hi < sc.stopLoss.value)
            && (IsLong(sc) ==> forall p :: p in sc.takeProfits ==> hi < p)
            && (IsShort(sc) ==> forall p :: p in sc.takeProfits ==> lo > p))
      && (s.status == Failed ==> s.row.Some? && FailedRow(sc, s.row.value))
      && (s.status == Success ==> s.row.Some? && SuccessRow(sc, s.row.value))
      && LevelsTold(s)
  {
    RunConsistent(steps);
    RunLevels(steps, x);
    RunRecorded(steps, x);
    assert Sound(Exec(EMPTY, steps).slices[x]);
  }
}
