/** What the database tells about a closed scenario: its audit log, its status, its result column
    and its target columns, in every run, under any key loss and any failed batch. */
module Outcomes {
  import opened Prelude
  import opened Domain
  import opened Evaluation
  import opened Machine
  import opened Audit
  import opened Exclusion
  import opened History

  // ----- the tp_hit events of a log -----------------------------------------------------------

  function TpHits(log: seq<Event>): seq<Event> {
    if log == [] then []
    else
      var front := TpHits(log[..|log| - 1]);
      if IsTpHit(log[|log| - 1]) then front + [log[|log| - 1]] else front
  }

  lemma {:induction false} TpHitsConcat(a: seq<Event>, b: seq<Event>)
    ensures TpHits(a + b) == TpHits(a) + TpHits(b)
  {
    if b == [] {
      assert a + b == a;
    } else {
      assert (a + b)[..|a + b| - 1] == a + b[..|b| - 1];
      TpHitsConcat(a, b[..|b| - 1]);
    }
  }

  lemma {:induction false} TpHitsCount(log: seq<Event>)
    ensures |TpHits(log)| == Count(log, IsTpHit)
  {
    if log != [] { TpHitsCount(log[..|log| - 1]); }
  }

  predicate AllHits(es: seq<Event>, yes: bool) {
    forall i :: 0 <= i < |es| ==> IsTpHit(es[i]) == yes
  }

  lemma {:induction false} TpHitsUniform(es: seq<Event>, yes: bool)
    requires AllHits(es, yes)
    ensures TpHits(es) == if yes then es else []
  {
    if es != [] {
      TpHitsUniform(es[..|es| - 1], yes);
      assert es == es[..|es| - 1] + [es[|es| - 1]];
    }
  }

  lemma TpHitsOfCourse(sc: Scenario, gapStart: Option<int>, d: Course, now: int)
    ensures TpHits(EventsOf(sc, gapStart, d, now)) == TpHitEvents(sc, d.entered, d.hit, now)
  {
    var gap := if gapStart.Some? && d.entered then [Event(GapEnd(gapStart.value), None, now)] else [];
    var ins := if d.newly then [Event(Entered, d.entry, now)] else [];
    var tps := TpHitEvents(sc, d.entered, d.hit, now);
    var end := ClosingEvents(d.verdict, now);
    Surrounded(gap + ins, tps, end);
  }

  lemma Surrounded(before: seq<Event>, hits: seq<Event>, after: seq<Event>)
    requires AllHits(before, false) && AllHits(hits, true) && AllHits(after, false)
    ensures TpHits(before + hits + after) == hits
  {
    TpHitsUniform(before, false);
    TpHitsUniform(hits, true);
    TpHitsUniform(after, false);
    TpHitsConcat(before, hits);
    TpHitsConcat(before + hits, after);
    assert [] + hits + [] == hits;
  }

  // ----- the invariants ---------------------------------------------------------------------------

  /** A sibling's entry overrules the result column, whatever the status says. */
  ghost predicate Told(s: Slice) {
    && (s.row.Some? ==> s.row.value.result == if Count(s.log, IsCancelled) > 0 then Cancelled else s.status)
    && (s.status == Cancelled ==> Count(s.log, IsCompleted) == 0)
    && (s.status != Running && s.status != Cancelled ==> Count(s.log, IsCompleted) == 1)
  }

  /** The tp_hit events are numbered from one, in order, at the prices of the targets and at the time of
      completion; there are some exactly on a success, which exits at the last of them. */
  ghost predicate HitsTold(s: Slice) {
    var n := HitIndex(s.row);
    && n <= |s.sc.takeProfits| && (n > 0 <==> s.status == Success)
    && if n == 0 then TpHits(s.log) == []
       else s.row.value.completedAt.Some?
            && TpHits(s.log) == TpEvents(s.sc.takeProfits, 0, n, s.row.value.completedAt.value)
            && s.row.value.exitPrice == Some(s.sc.takeProfits[n - 1])
  }

  lemma WriteTold(s: Slice, o: Observation, cancelled: bool, now: int)
    requires Sound(s) && s.status == Running && Lawful(s, o) && Told(s)
    requires cancelled ==> !o.newly && !s.active
    ensures Told(Write(s.(keys := if cancelled then NO_KEYS else o.keys), o.writes, cancelled, now))
  {
    AppendLog(s.log, o.writes.events, cancelled, now);
  }

  /** What one evaluation reports about targets. */
  ghost predicate ReportsHits(sc: Scenario, o: Observation, now: int) {
    var n := HitIndex(o.writes.row);
    && n <= |sc.takeProfits|
    && TpHits(o.writes.events) == TpEvents(sc.takeProfits, 0, n, now)
    && (o.writes.mark == Some(Closed(Success)) <==> n > 0)
    && (n > 0 ==>
          && o.writes.row.value.exitPrice == Some(sc.takeProfits[n - 1])
          && o.writes.row.value.completedAt == Some(now))
  }

  lemma CourseReportsHits(sc: Scenario, gapStart: Option<int>, d: Course, now: int)
    requires d.hit.previous == 0 && d.hit.index <= |sc.takeProfits| && (d.hit.index > 0 ==> d.entered)
    ensures TpHits(EventsOf(sc, gapStart, d, now)) == TpEvents(sc.takeProfits, 0, d.hit.index, now)
  {
    TpHitsOfCourse(sc, gapStart, d, now);
  }

  /** The target columns of the row an evaluation would write. */
  lemma RowTargets(sc: Scenario, d: Course, c: Candle, now: int)
    requires d.hit.index > 0 ==>
      d.hit.index <= |sc.takeProfits| && d.verdict == Close(Success, Some(sc.takeProfits[d.hit.index - 1]))
    ensures var r := RowOf(sc, d, c, now);
      && HitIndex(Some(r)) == d.hit.index
      && (d.hit.index > 0 ==> r.exitPrice == Some(sc.takeProfits[d.hit.index - 1]) && r.completedAt == Some(now))
  {
  }

  lemma PricedHits(s: Slice, c: Candle, now: int, skip: bool)
    requires Sound(s) && s.status == Running
    ensures ReportsHits(s.sc, Observe(s, Some(c), now, skip), now)
  {
    var d := CourseOf(s.sc, s.active, DbEntry(s.row), s.keys, c, now, skip);
    CourseFacts(s.sc, s.active, DbEntry(s.row), s.keys, c, now, skip);
    CourseReportsHits(s.sc, s.keys.gapStart, d, now);
    RowTargets(s.sc, d, c, now);
    ConcludedHits(s.sc, s.keys.gapStart, d, c, now);
    var o, r := Observe(s, Some(c), now, skip), Conclude(s.sc, s.keys.gapStart, d, c, now).report;
    assert o.writes == Writes(if r.dirty then Some(r.row) else None, r.point, r.mark, r.events);
  }

  lemma ConcludedHits(sc: Scenario, gapStart: Option<int>, d: Course, c: Candle, now: int)
    ensures var r := Conclude(sc, gapStart, d, c, now).report;
      && r.row == RowOf(sc, d, c, now) && r.events == EventsOf(sc, gapStart, d, now)
      && (r.mark == Some(Closed(Success)) <==> d.verdict.Close? && d.verdict.status == Success)
      && (d.entered ==> r.dirty)
  {
  }

  lemma ObservationHits(s: Slice, candle: Option<Candle>, now: int, skip: bool)
    requires Sound(s) && s.status == Running
    ensures ReportsHits(s.sc, Observe(s, candle, now, skip), now)
  {
    if candle.Some? {
      PricedHits(s, candle.value, now, skip);
    } else {
      TpHitsUniform(Observe(s, candle, now, skip).writes.events, false);
    }
  }

  lemma LogHits(log: seq<Event>, es: seq<Event>, cancelled: bool, now: int)
    requires Count(log, IsTpHit) == 0
    ensures TpHits(log + es + if cancelled then [Event(SiblingCancelled, None, now)] else []) == TpHits(es)
  {
    var tail := if cancelled then [Event(SiblingCancelled, None, now)] else [];
    TpHitsCount(log);
    TpHitsUniform(tail, false);
    TpHitsConcat(log, es);
    TpHitsConcat(log + es, tail);
  }

  lemma WriteHits(s: Slice, o: Observation, cancelled: bool, now: int)
    requires Sound(s) && s.status == Running && Lawful(s, o) && ReportsHits(s.sc, o, now)
    ensures HitsTold(Write(s.(keys := if cancelled then NO_KEYS else o.keys), o.writes, cancelled, now))
  {
    LogHits(s.log, o.writes.events, cancelled, now);
  }

  lemma StepTold(s: Slice, slow: bool, candle: Option<Candle>, now: int, skip: bool, cancelled: bool, commits: bool)
    requires Sound(s) && Told(s) && HitsTold(s) && (cancelled ==> skip && !s.active)
    ensures var t := StepScenario(s, slow, candle, now, skip, cancelled, commits); Told(t) && HitsTold(t)
  {
    if Selected(s, slow) && commits {
      ObservationLawful(s, candle, now, skip);
      ObservationHits(s, candle, now, skip);
      WriteTold(s, Observe(s, candle, now, skip), cancelled, now);
      WriteHits(s, Observe(s, candle, now, skip), cancelled, now);
    }
  }

  lemma CycleTold(w: World, p: Poll, x: int)
    requires x in w.slices && Sound(w.slices[x]) && Told(w.slices[x]) && HitsTold(w.slices[x])
    ensures Told(SliceAfter(w, p, x)) && HitsTold(SliceAfter(w, p, x))
  {
    StepTold(w.slices[x], Slow(w), Get(p.candles, x), p.now, Skips(w, p, x), Cancels(w, p, x), p.commits);
  }

  /** Keys do not matter. */
  lemma KeysTold(s: Slice, k: Keys)
    requires Told(s) && HitsTold(s)
    ensures Told(s.(keys := k)) && HitsTold(s.(keys := k))
  {
  }

  lemma NextTold(w: World, st: Step, x: int)
    requires x in w.slices && Sound(w.slices[x]) && Told(w.slices[x]) && HitsTold(w.slices[x])
    ensures Told(SliceNext(w, st, x)) && HitsTold(SliceNext(w, st, x))
  {
    if st.Evaluation? {
      CycleTold(w, st.poll, x);
    } else {
      assert SliceNext(w, st, x) == w.slices[x].(keys := SliceNext(w, st, x).keys);
      KeysTold(w.slices[x], SliceNext(w, st, x).keys);
    }
  }

  lemma {:induction false} RunTold(steps: seq<Step>, x: int)
    requires Legal(EMPTY, steps) && x in Exec(EMPTY, steps).slices
    ensures Told(Exec(EMPTY, steps).slices[x]) && HitsTold(Exec(EMPTY, steps).slices[x])
  {
    var front, st := steps[..|steps| - 1], steps[|steps| - 1];
    var w := Exec(EMPTY, front);
    if x in w.slices {
      NextSlice(w, st, x);
      RunConsistent(front);
      RunTold(front, x);
      NextTold(w, st, x);
    } else {
      NewSliceIsFresh(w, st, x);
    }
  }

  // ----- the audit log tells it all ---------------------------------------------------------------

  /** A log without a closing event leaves the scenario running. */
  lemma {:induction false} UnclosedReplay(st: ScState, log: seq<Event>)
    requires st.status == Running && Count(log, IsCompleted) == 0 && Count(log, IsCancelled) == 0
    ensures Replay(st, log).status == Running
    decreases |log|
  {
    if log != [] {
      assert log == [log[0]] + log[1..];
      CountConcat([log[0]], log[1..], IsCompleted);
      CountConcat([log[0]], log[1..], IsCancelled);
      CountOne(log[0], IsCompleted);
      CountOne(log[0], IsCancelled);
      UnclosedReplay(Apply(st, log[0]), log[1..]);
    }
  }

  /** Audit-log replay, in every run: status and active flag are a fold of the committed events, in which
      the first closing event wins; each lifecycle event occurs at most once; the result column is
      cancelled exactly when a cancelled event was logged, and the status otherwise; and the tp_hit
      events spell out the target columns. */
  lemma {:induction false} AuditReplay(steps: seq<Step>, x: int)
    requires Legal(EMPTY, steps) && x in Exec(EMPTY, steps).slices
    ensures var s := Exec(EMPTY, steps).slices[x];
      && ScState(s.status, s.active) == Replay(START, s.log)
      && Count(s.log, IsEntered) <= 1 && Count(s.log, IsCompleted) <= 1 && Count(s.log, IsCancelled) <= 1
      && (s.status == Running <==> Count(s.log, IsCompleted) == 0 && Count(s.log, IsCancelled) == 0)
      && (s.active <==> Count(s.log, IsEntered) == 1 && s.status == Running)
      && (s.status != Running ==> s.row.Some?)
      && (s.row.Some? ==> s.row.value.result == if Count(s.log, IsCancelled) > 0 then Cancelled else s.status)
      && HitsTold(s)
  {
    RunConsistent(steps);
    RunTold(steps, x);
    var s := Exec(EMPTY, steps).slices[x];
    if s.status != Running && Count(s.log, IsCompleted) == 0 && Count(s.log, IsCancelled) == 0 {
      UnclosedReplay(START, s.log);
    }
  }

  // ----- when status and result disagree ---------------------------------------------------------

  predicate Disagree(s: Slice) {
    s.row.Some? && s.row.value.result != s.status
  }

  /** A cycle that cancels x for a sibling while x's own evaluation closes it: it is overdue, or an
      earlier entry whose batch failed has left it the entered flag and it touches a level. */
  predicate Collides(w: World, p: Poll, x: int)
    requires x in w.slices
  {
    && Cancels(w, p, x) && x in p.candles
    && var s, c := w.slices[x], p.candles[x];
    && (p.now >= s.sc.expireAt || (s.keys.entered && (TargetTouched(s.sc, c) || StopTouched(s.sc, c))))
  }

  /** When an evaluation closes a scenario that is not active and may not enter. */
  lemma ClosesItself(s: Slice, candle: Option<Candle>, now: int)
    requires Sound(s) && s.status == Running && !s.active
    ensures Ends(Observe(s, candle, now, true)) <==>
      candle.Some? &&
      (now >= s.sc.expireAt ||
       (s.keys.entered && (TargetTouched(s.sc, candle.value) || StopTouched(s.sc, candle.value))))
  {
    if candle.Some? {
      var c := candle.value;
      CourseFacts(s.sc, false, DbEntry(s.row), s.keys, c, now, true);
      EnteredVerdict(s.sc, false, DbEntry(s.row), s.keys, c, now, true, true);
      assert CourseOf(s.sc, false, DbEntry(s.row), s.keys, c, now, true).entered == s.keys.entered;
    }
  }

  lemma WriteDisagrees(s: Slice, o: Observation, cancelled: bool, now: int)
    requires Sound(s) && s.status == Running && Lawful(s, o) && (cancelled ==> !o.newly && !s.active)
    ensures Disagree(Write(s.(keys := if cancelled then NO_KEYS else o.keys), o.writes, cancelled, now)) <==>
      cancelled && Ends(o)
  {
  }

  /** One cycle makes the two columns disagree exactly when it commits such a collision. */
  lemma CycleDisagrees(w: World, p: Poll, x: int)
    requires Consistent(w) && Lists(w, p.order) && x in w.slices && w.slices[x].status == Running
    ensures Disagree(SliceAfter(w, p, x)) <==> p.commits && Collides(w, p, x)
  {
    var s, candle := w.slices[x], Get(p.candles, x);
    if Picked(w, x) {
      var o := Observe(s, candle, p.now, Skips(w, p, x));
      ObservationLawful(s, candle, p.now, Skips(w, p, x));
      NewlyWins(w, p, x);
      if p.commits { WriteDisagrees(s, o, Cancels(w, p, x), p.now); }
      if Cancels(w, p, x) { ClosesItself(s, candle, p.now); }
    }
  }

  /** Some committed cycle of the run was such a collision for x. */
  predicate Collided(w: World, steps: seq<Step>, x: int) {
    steps != [] &&
    var front, st := steps[..|steps| - 1], steps[|steps| - 1];
    Collided(w, front, x) ||
    (st.Evaluation? && st.poll.commits && x in Exec(w, front).slices && Collides(Exec(w, front), st.poll, x))
  }

  lemma {:induction false} NoCollisionBeforeInsert(w: World, steps: seq<Step>, x: int)
    requires x !in Exec(w, steps).slices
    ensures !Collided(w, steps, x)
  {
    if steps != [] {
      var front := steps[..|steps| - 1];
      if x in Exec(w, front).slices { NextSlice(Exec(w, front), steps[|steps| - 1], x); }
      NoCollisionBeforeInsert(w, front, x);
    }
  }

  /** A step moves the disagreement of x exactly by a committed collision. */
  lemma NextDisagrees(w: World, st: Step, x: int)
    requires Consistent(w) && Enabled(w, st) && x in w.slices && Told(w.slices[x])
    ensures x in Next(w, st).slices
    ensures Disagree(Next(w, st).slices[x]) <==>
      Disagree(w.slices[x]) || (st.Evaluation? && st.poll.commits && Collides(w, st.poll, x))
  {
    NextSlice(w, st, x);
    if w.slices[x].status == Running {
      if st.Evaluation? { CycleDisagrees(w, st.poll, x); }
    }
  }

  /** Main result: in every run, under any losses and failed batches, the status of a scenario and its
      result column disagree exactly if the run has collided for it. */
  lemma {:induction false} ResultColumn(steps: seq<Step>, x: int)
    requires Legal(EMPTY, steps) && x in Exec(EMPTY, steps).slices
    ensures Disagree(Exec(EMPTY, steps).slices[x]) <==> Collided(EMPTY, steps, x)
    ensures var s := Exec(EMPTY, steps).slices[x]; Disagree(s) ==> s.row.value.result == Cancelled
  {
    var front, st := steps[..|steps| - 1], steps[|steps| - 1];
    var w := Exec(EMPTY, front);
    RunTold(steps, x);
    if x in w.slices {
      RunConsistent(front);
      RunTold(front, x);
      ResultColumn(front, x);
      NextDisagrees(w, st, x);
    } else {
      NewSliceIsFresh(w, st, x);
      NoCollisionBeforeInsert(EMPTY, front, x);
    }
  }
}
