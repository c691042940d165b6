/** Inputs at which a tempting claim about the evaluator fails. The exact condition of each failure
    is proved where the claim belongs; the lemmas here only show that it does happen. */
module Witnesses {
  import opened Prelude
  import opened Rounding
  import opened Domain
  import opened Evaluation
  import opened Machine
  import opened History

  // ----- status and result column disagree -------------------------------------------------------

  function LoadFailures(n: nat): seq<Step> {
    seq(n, i => LoadFails)
  }

  /** Cycles that load nothing only count. */
  lemma {:induction false} OnlyCounts(w: World, steps: seq<Step>, n: nat)
    requires Legal(w, steps)
    ensures Legal(w, steps + LoadFailures(n))
    ensures Exec(w, steps + LoadFailures(n)) == Exec(w, steps).(cycle := Exec(w, steps).cycle + n)
  {
    if n == 0 {
      assert steps + LoadFailures(0) == steps;
    } else {
      var run, front := steps + LoadFailures(n), steps + LoadFailures(n - 1);
      OnlyCounts(w, steps, n - 1);
      assert run[..|run| - 1] == front && run[|run| - 1] == LoadFails;
      assert Exec(w, run) == Next(Exec(w, front), LoadFails);
    }
  }

  lemma OneMoreCycle(steps: seq<Step>, p: Poll, x: int)
    requires Legal(EMPTY, steps) && Lists(Exec(EMPTY, steps), p.order) && x in Exec(EMPTY, steps).slices
    ensures var all := steps + [Evaluation(p)];
      && Legal(EMPTY, all) && x in Exec(EMPTY, all).slices
      && Exec(EMPTY, all) == Cycle(Exec(EMPTY, steps), p)
      && Exec(EMPTY, all).slices[x] == SliceAfter(Exec(EMPTY, steps), p, x)
  {
    var all := steps + [Evaluation(p)];
    assert all[..|all| - 1] == steps && all[|all| - 1] == Evaluation(p);
    NextSlice(Exec(EMPTY, steps), Evaluation(p), x);
  }

  /** Market entry, no levels. */
  const MARKET := Scenario(7, Some(Long), None, Market, FixNumber, [], None, None, 1000)

  /** Waits for a price of 100 until second 50. */
  const BRIEF := Scenario(7, Some(Long), Some(100.0), Fix, FixNumber, [], None, None, 50)

  const HIGH_CANDLE := Candle(120.0, 121.0, 119.0, 120.0)

  const PAIR := map[1 := MARKET, 2 := BRIEF]

  const TAKEN := Poll(60, [1, 2], map[1 := HIGH_CANDLE, 2 := HIGH_CANDLE], true)

  /** A signal of two scenarios just before its first slow cycle. */
  function Waiting(pair: map<int, Scenario>): World
    requires pair.Keys == {1, 2}
  {
    World(5, map[7 := Signal(false, None)], map[1 := Fresh(pair[1]), 2 := Fresh(pair[2])])
  }

  lemma WaitingIsReached(pair: map<int, Scenario>)
    requires pair.Keys == {1, 2} && pair[1].signalId == 7 && pair[2].signalId == 7
    ensures var steps := [Insert(7, pair)] + LoadFailures(5);
      Legal(EMPTY, steps) && Exec(EMPTY, steps) == Waiting(pair)
  {
    var first := [Insert(7, pair)];
    assert first[..|first| - 1] == [] && Legal(EMPTY, []) && Exec(EMPTY, []) == EMPTY;
    assert Enabled(EMPTY, first[0]);
    assert Legal(EMPTY, first);
    assert Exec(EMPTY, first).slices == Waiting(pair).slices;
    OnlyCounts(EMPTY, first, 5);
  }

  /** The waiting scenario runs out of time in the very cycle its sibling enters: it ends as expired,
      and its result row says cancelled. */
  lemma ExpiredButCancelled()
    ensures var steps := [Insert(7, PAIR)] + LoadFailures(5) + [Evaluation(TAKEN)];
      && Legal(EMPTY, steps) && 2 in Exec(EMPTY, steps).slices
      && var s := Exec(EMPTY, steps).slices[2];
      && s.status == Expired && s.row.Some? && s.row.value.result == Cancelled
  {
    WaitingIsReached(PAIR);
    FirstEnters(PAIR, TAKEN);
    OneMoreCycle([Insert(7, PAIR)] + LoadFailures(5), TAKEN, 2);
    BriefExpires();
  }

  lemma BriefExpires()
    ensures var t := StepScenario(Fresh(BRIEF), true, Some(HIGH_CANDLE), 60, true, true, true);
      t.status == Expired && t.row.Some? && t.row.value.result == Cancelled
  {
  }

  /** Waits for a price of 100, much longer. */
  const PATIENT := BRIEF.(expireAt := 1000)

  const TARGETED := MARKET.(takeProfits := [130.0])

  const LATE_PAIR := map[1 := PATIENT, 2 := TARGETED]

  const LOST := Poll(60, [1, 2], map[1 := HIGH_CANDLE, 2 := HIGH_CANDLE], false)

  const WIDE_CANDLE := Candle(120.0, 131.0, 99.0, 120.0)

  const RETRIED := Poll(120, [1, 2], map[1 := WIDE_CANDLE, 2 := WIDE_CANDLE], true)

  /** What the failed batch leaves of two waiting scenarios: the keys of the one that tried to enter. */
  lemma LostEntry()
    ensures var w := Cycle(Waiting(LATE_PAIR), LOST);
      && w.cycle == 6 && w.signals == map[7 := Signal(false, None)] && w.slices.Keys == {1, 2}
      && w.slices[1] == Fresh(PATIENT).(keys := w.slices[1].keys) && !w.slices[1].keys.entered
      && w.slices[2] == Fresh(TARGETED).(keys := w.slices[2].keys) && w.slices[2].keys.entered
      && w.slices[2].keys.bestTp.None? && w.slices[2].keys.bestTpIdx.None?
  {
    var w := Waiting(LATE_PAIR);
    PatientWaits();
    TargetedTries();
    SecondEnters(LATE_PAIR, LOST);
    assert Cycle(w, LOST).slices[1] == SliceAfter(w, LOST, 1);
    assert Cycle(w, LOST).slices[2] == SliceAfter(w, LOST, 2);
  }

  lemma PatientWaits()
    ensures !Observe(Fresh(PATIENT), Some(HIGH_CANDLE), 60, false).newly
    ensures var t := StepScenario(Fresh(PATIENT), true, Some(HIGH_CANDLE), 60, true, true, false);
      t == Fresh(PATIENT).(keys := t.keys) && !t.keys.entered
  {
  }

  lemma TargetedTries()
    ensures Observe(Fresh(TARGETED), Some(HIGH_CANDLE), 60, false).newly
    ensures var t := StepScenario(Fresh(TARGETED), true, Some(HIGH_CANDLE), 60, false, false, false);
      t == Fresh(TARGETED).(keys := t.keys) && t.keys.entered && t.keys.bestTp.None? && t.keys.bestTpIdx.None?
  {
    assert !Reached(TARGETED, 130.0, HIGH_CANDLE);
    assert BestReached(TARGETED, TARGETED.takeProfits, HIGH_CANDLE) == 0;
  }

  function LateRun(): seq<Step> {
    [Insert(7, LATE_PAIR)] + LoadFailures(5) + [Evaluation(LOST)] + LoadFailures(5)
  }

  lemma LateRunIsLegal()
    ensures Legal(EMPTY, LateRun())
    ensures var w := Cycle(Waiting(LATE_PAIR), LOST); Exec(EMPTY, LateRun()) == w.(cycle := w.cycle + 5)
  {
    var first := [Insert(7, LATE_PAIR)] + LoadFailures(5);
    var second := first + [Evaluation(LOST)];
    WaitingIsReached(LATE_PAIR);
    assert second[..|second| - 1] == first && second[|second| - 1] == Evaluation(LOST);
    assert Lists(Waiting(LATE_PAIR), LOST.order);
    assert Legal(EMPTY, second) && Exec(EMPTY, second) == Next(Waiting(LATE_PAIR), Evaluation(LOST));
    OnlyCounts(EMPTY, second, 5);
  }

  lemma LastCycle(w: World)
    requires w.cycle == 11 && w.slices.Keys == {1, 2}
    requires w.slices[1] == Fresh(PATIENT).(keys := w.slices[1].keys) && !w.slices[1].keys.entered
    requires w.slices[2] == Fresh(TARGETED).(keys := w.slices[2].keys) && w.slices[2].keys.entered
    requires w.slices[2].keys.bestTp.None? && w.slices[2].keys.bestTpIdx.None?
    ensures Lists(w, RETRIED.order)
    ensures SliceAfter(w, RETRIED, 2) == StepScenario(w.slices[2], true, Some(WIDE_CANDLE), 120, true, true, true)
  {
    assert Picked(w, 1) && Picked(w, 2);
    FirstWins(w, RETRIED);
  }

  /** The batch that should have recorded an entry failed; a sibling enters in the next slow cycle, in
      which the first one touches its target: it ends as a success, and its result row says cancelled. */
  lemma SucceededButCancelled()
    ensures var steps := LateRun() + [Evaluation(RETRIED)];
      && Legal(EMPTY, steps) && 2 in Exec(EMPTY, steps).slices
      && var s := Exec(EMPTY, steps).slices[2];
      && s.status == Success && s.row.Some? && s.row.value.result == Cancelled && s.row.value.pnl.None?
  {
    LateRunIsLegal();
    LostEntry();
    var w := Exec(EMPTY, LateRun());
    LastCycle(w);
    OneMoreCycle(LateRun(), RETRIED, 2);
    StuckSucceeds(w.slices[2]);
  }

  lemma StuckSucceeds(s: Slice)
    requires s == Fresh(TARGETED).(keys := s.keys) && s.keys.entered
    requires s.keys.bestTp.None? && s.keys.bestTpIdx.None?
    ensures var t := StepScenario(s, true, Some(WIDE_CANDLE), 120, true, true, true);
      t.status == Success && t.row.Some? && t.row.value.result == Cancelled && t.row.value.pnl.None?
  {
    assert Reached(TARGETED, 130.0, WIDE_CANDLE);
    assert BestReached(TARGETED, TARGETED.takeProfits, WIDE_CANDLE) == 1;
  }

  /** The first slow cycle of a pair whose first scenario enters. */
  lemma FirstEnters(pair: map<int, Scenario>, p: Poll)
    requires pair.Keys == {1, 2} && pair[1].signalId == 7 && pair[2].signalId == 7 && p.order == [1, 2]
    requires Observe(Fresh(pair[1]), Get(p.candles, 1), p.now, false).newly
    ensures Lists(Waiting(pair), p.order)
    ensures SliceAfter(Waiting(pair), p, 1) ==
      StepScenario(Fresh(pair[1]), true, Get(p.candles, 1), p.now, false, false, p.commits)
    ensures SliceAfter(Waiting(pair), p, 2) ==
      StepScenario(Fresh(pair[2]), true, Get(p.candles, 2), p.now, true, true, p.commits)
  {
    assert Picked(Waiting(pair), 1) && Picked(Waiting(pair), 2);
    FirstWins(Waiting(pair), p);
  }

  lemma SecondEnters(pair: map<int, Scenario>, p: Poll)
    requires pair.Keys == {1, 2} && pair[1].signalId == 7 && pair[2].signalId == 7 && p.order == [1, 2]
    requires !Observe(Fresh(pair[1]), Get(p.candles, 1), p.now, false).newly
    requires Observe(Fresh(pair[2]), Get(p.candles, 2), p.now, false).newly
    ensures SliceAfter(Waiting(pair), p, 1) ==
      StepScenario(Fresh(pair[1]), true, Get(p.candles, 1), p.now, true, true, p.commits)
    ensures SliceAfter(Waiting(pair), p, 2) ==
      StepScenario(Fresh(pair[2]), true, Get(p.candles, 2), p.now, false, false, p.commits)
  {
    assert Picked(Waiting(pair), 1) && Picked(Waiting(pair), 2);
    SecondWins(Waiting(pair), p);
  }

  /** Of two waiting siblings the first in row order enters if it can. */
  lemma FirstWins(w: World, p: Poll)
    requires p.order == [1, 2] && Picked(w, 1) && Picked(w, 2) && !w.slices[1].active && !w.slices[2].active
    requires w.slices.Keys == {1, 2} && w.slices[1].sc.signalId == 7 && w.slices[2].sc.signalId == 7
    requires Observe(w.slices[1], Get(p.candles, 1), p.now, false).newly
    ensures !Skips(w, p, 1) && !Cancels(w, p, 1) && Skips(w, p, 2) && Cancels(w, p, 2)
  {
    assert Busy(w) == {};
    assert p.order[..1] == [1] && [1][..0] == [];
    assert Winners(w, p, []) == map[];
    assert Candidate(w, 1, p);
    assert Winners(w, p, [1]) == map[7 := 1];
  }

  lemma SecondWins(w: World, p: Poll)
    requires p.order == [1, 2] && Picked(w, 1) && Picked(w, 2) && !w.slices[1].active && !w.slices[2].active
    requires w.slices.Keys == {1, 2} && w.slices[1].sc.signalId == 7 && w.slices[2].sc.signalId == 7
    requires !Observe(w.slices[1], Get(p.candles, 1), p.now, false).newly
    requires Observe(w.slices[2], Get(p.candles, 2), p.now, false).newly
    ensures Skips(w, p, 1) && Cancels(w, p, 1) && !Skips(w, p, 2) && !Cancels(w, p, 2)
  {
    assert Busy(w) == {};
    assert p.order[..1] == [1] && [1][..0] == [];
    assert Winners(w, p, []) == map[];
    assert Winners(w, p, [1]) == map[];
    assert Candidate(w, 2, p);
  }

  // ----- pnl outside drawdown and favorable at an exit ----------------------------------------------

  /** Waits for 100, stops at 90. */
  const STOPPED := PATIENT.(stopLoss := Some(90.0))

  const GAP_CANDLE := Candle(82.0, 85.0, 80.0, 82.0)

  const STOP_PAIR := map[1 := STOPPED, 2 := BRIEF]

  const GAPPED := Poll(60, [1, 2], map[1 := GAP_CANDLE], true)

  /** A committed evaluation that finds the scenario entered. */
  lemma EnteredStep(s: Slice, slow: bool, c: Candle, now: int, skip: bool)
    requires Selected(s, slow)
    ensures var d := CourseOf(s.sc, s.active, DbEntry(s.row), s.keys, c, now, skip);
            var t := StepScenario(s, slow, Some(c), now, skip, false, true);
            var r := RowOf(s.sc, d, c, now);
      && Observe(s, Some(c), now, skip).newly == d.newly
      && (d.entered ==>
            && t.sc == s.sc && t.row == Some(Upsert(s.row, r))
            && t.status == (if d.verdict.Close? then d.verdict.status else Running)
            && t.active == (d.verdict.Open? && (s.active || d.newly))
            && t.points == if d.due then InsertPoint(s.points, PricePoint(now, c.close, r.pnl)) else s.points)
  {
  }

  lemma GapCourse()
    ensures var d := CourseOf(STOPPED, false, None, NO_KEYS, GAP_CANDLE, 60, false);
      && d.entered && d.newly && d.entry == Some(100.0) && d.verdict == Close(Failed, Some(90.0))
      && d.keys.min == Some(80.0) && d.keys.max == Some(85.0)
  {
    assert BestReached(STOPPED, STOPPED.takeProfits, GAP_CANDLE) == 0;
  }

  lemma GapStops()
    ensures Observe(Fresh(STOPPED), Some(GAP_CANDLE), 60, false).newly
    ensures var t := StepScenario(Fresh(STOPPED), true, Some(GAP_CANDLE), 60, false, false, true);
      && t.status == Failed && t.row.Some?
      && t.row.value.drawdown == Some(Round4(-20.0)) && t.row.value.pnl == Some(Round4(-10.0))
      && t.row.value.maxFavorable == Some(Round4(-15.0))
  {
    GapCourse();
    EnteredStep(Fresh(STOPPED), true, GAP_CANDLE, 60, false);
    assert PnlExact(Long, 100.0, 80.0) == -20.0 && PnlExact(Long, 100.0, 90.0) == -10.0;
    assert PnlExact(Long, 100.0, 85.0) == -15.0;
  }

  /** The first price the scenario sees lies below its stop: it enters at 100, fails at 90, and its percentage
      exceeds the best price it ever saw. */
  lemma GapBreaksBound()
    ensures var steps := [Insert(7, STOP_PAIR)] + LoadFailures(5) + [Evaluation(GAPPED)];
      && Legal(EMPTY, steps) && 1 in Exec(EMPTY, steps).slices
      && var s := Exec(EMPTY, steps).slices[1];
      && s.status == Failed && s.row.Some? && s.row.value.pnl.Some? && s.row.value.maxFavorable.Some?
      && s.row.value.pnl.value > s.row.value.maxFavorable.value
  {
    WaitingIsReached(STOP_PAIR);
    GapStops();
    FirstEnters(STOP_PAIR, GAPPED);
    OneMoreCycle([Insert(7, STOP_PAIR)] + LoadFailures(5), GAPPED, 1);
  }

  // ----- a success that costs money ------------------------------------------------------------------

  const PAST_CANDLE := Candle(140.0, 141.0, 139.0, 140.0)

  const PAST_PAIR := map[1 := TARGETED, 2 := BRIEF]

  const PAST := Poll(60, [1, 2], map[1 := PAST_CANDLE], true)

  lemma PastCourse()
    ensures var d := CourseOf(TARGETED, false, None, NO_KEYS, PAST_CANDLE, 60, false);
      && d.entered && d.newly && d.entry == Some(140.0) && d.verdict == Close(Success, Some(130.0))
  {
    assert Reached(TARGETED, 130.0, PAST_CANDLE);
    assert BestReached(TARGETED, TARGETED.takeProfits, PAST_CANDLE) == 1;
  }

  lemma PastSucceeds()
    ensures Observe(Fresh(TARGETED), Some(PAST_CANDLE), 60, false).newly
    ensures var t := StepScenario(Fresh(TARGETED), true, Some(PAST_CANDLE), 60, false, false, true);
      t.status == Success && t.row.Some? && t.row.value.pnl == Some(Pnl(Long, 140.0, 130.0))
  {
    PastCourse();
    EnteredStep(Fresh(TARGETED), true, PAST_CANDLE, 60, false);
  }

  /** A market entry can be booked beyond its own target: it succeeds at once, with a negative percentage. */
  lemma SuccessCosts()
    ensures var steps := [Insert(7, PAST_PAIR)] + LoadFailures(5) + [Evaluation(PAST)];
      && Legal(EMPTY, steps) && 1 in Exec(EMPTY, steps).slices
      && var s := Exec(EMPTY, steps).slices[1];
      && s.status == Success && s.row.Some? && s.row.value.pnl.Some? && s.row.value.pnl.value < -7.0
  {
    WaitingIsReached(PAST_PAIR);
    PastSucceeds();
    FirstEnters(PAST_PAIR, PAST);
    OneMoreCycle([Insert(7, PAST_PAIR)] + LoadFailures(5), PAST, 1);
    assert PnlExact(Long, 140.0, 130.0) < -7.1;
  }

  // ----- drawdown shrinks, and points crowd, when keys go ------------------------------------------------

  /** The dipping scenario is PATIENT, or the same with a target. */
  const AIMED := PATIENT.(takeProfits := [130.0])

  function DipPair(sc: Scenario): map<int, Scenario> {
    map[1 := sc, 2 := BRIEF]
  }

  const DIP_CANDLE := Candle(100.0, 100.0, 80.0, 100.0)

  const DIPPED := Poll(60, [1, 2], map[1 := DIP_CANDLE], true)

  const CALM_CANDLE := Candle(99.0, 99.0, 99.0, 99.0)

  const CALM := Poll(70, [1], map[1 := CALM_CANDLE], true)

  const CRASH := Restart(map[1 := NO_KEYS, 2 := NO_KEYS], true)

  function DipRun(sc: Scenario): seq<Step> {
    [Insert(7, DipPair(sc))] + LoadFailures(5) + [Evaluation(DIPPED)]
  }

  /** Entered at 100 on a candle that fell to 80 and closed at 100, the only price point. */
  predicate Dipped(s: Slice, sc: Scenario) {
    && s.sc == sc && s.status == Running && s.active && s.row.Some?
    && s.row.value.entryPrice == Some(100.0) && s.row.value.enteredAt.Some?
    && s.row.value.highest == Some(100.0) && s.row.value.lowest == Some(80.0)
    && s.row.value.drawdown == Some(Round4(-20.0))
    && s.row.value.hitTp.None? && s.row.value.hitTpIdx.None?
    && |s.points| == 1 && s.points[0].at == 60 && s.points[0].price == 100.0
  }

  lemma DipCourse(sc: Scenario)
    requires sc == PATIENT || sc == AIMED
    ensures var d := CourseOf(sc, false, None, NO_KEYS, DIP_CANDLE, 60, false);
      && d.entered && d.newly && d.entry == Some(100.0) && d.verdict.Open? && d.due
      && d.keys.min == Some(80.0) && d.keys.max == Some(100.0) && d.hit == Hit(None, 0, 0)
  {
    NotReached(sc, DIP_CANDLE);
  }

  lemma DipEnters(sc: Scenario)
    requires sc == PATIENT || sc == AIMED
    ensures Observe(Fresh(sc), Some(DIP_CANDLE), 60, false).newly
    ensures Dipped(StepScenario(Fresh(sc), true, Some(DIP_CANDLE), 60, false, false, true), sc)
  {
    DipCourse(sc);
    EnteredStep(Fresh(sc), true, DIP_CANDLE, 60, false);
    assert PnlExact(Long, 100.0, 80.0) == -20.0;
  }

  lemma NotReached(sc: Scenario, c: Candle)
    requires (sc == PATIENT || sc == AIMED) && c.high < 130.0
    ensures BestReached(sc, sc.takeProfits, c) == 0
  {
    if sc == AIMED { assert !Reached(sc, 130.0, c); }
  }

  /** One of the pair has dipped, the other is closed. */
  predicate DippedPair(w: World, sc: Scenario) {
    && w.slices.Keys == {1, 2} && Dipped(w.slices[1], sc)
    && w.slices[2].status != Running && w.slices[2].sc.signalId == 7
  }

  lemma BriefIsCancelled()
    ensures StepScenario(Fresh(BRIEF), true, None, 60, true, true, true).status != Running
  {
  }

  lemma CycleSlice(w: World, p: Poll, x: int)
    requires x in w.slices
    ensures x in Cycle(w, p).slices && Cycle(w, p).slices[x] == SliceAfter(w, p, x)
  {
    NextSlice(w, Evaluation(p), x);
  }

  lemma PairAfter(pair: map<int, Scenario>, p: Poll)
    requires pair.Keys == {1, 2} && pair[1].signalId == 7 && pair[2].signalId == 7 && p.order == [1, 2]
    requires Observe(Fresh(pair[1]), Get(p.candles, 1), p.now, false).newly
    requires Dipped(StepScenario(Fresh(pair[1]), true, Get(p.candles, 1), p.now, false, false, p.commits), pair[1])
    requires StepScenario(Fresh(pair[2]), true, Get(p.candles, 2), p.now, true, true, p.commits).status != Running
    ensures Lists(Waiting(pair), p.order) && DippedPair(Cycle(Waiting(pair), p), pair[1])
  {
    FirstEnters(pair, p);
    CycleSlice(Waiting(pair), p, 1);
    CycleSlice(Waiting(pair), p, 2);
    SameScenario(Waiting(pair), Evaluation(p), 2);
  }

  lemma DipRunIsLegal(sc: Scenario)
    requires sc == PATIENT || sc == AIMED
    ensures Legal(EMPTY, DipRun(sc)) && DippedPair(Exec(EMPTY, DipRun(sc)), sc)
    ensures Exec(EMPTY, DipRun(sc)).cycle == 6
  {
    WaitingIsReached(DipPair(sc));
    DipEnters(sc);
    BriefIsCancelled();
    PairAfter(DipPair(sc), DIPPED);
    OneMoreCycle([Insert(7, DipPair(sc))] + LoadFailures(5), DIPPED, 1);
  }

  lemma CalmCourse(s: Slice, sc: Scenario, k: Keys)
    requires (sc == PATIENT || sc == AIMED) && Dipped(s, sc)
    requires k == NO_KEYS || k == RecoverKeys(NO_KEYS, s.row.value, s.points)
    ensures var d := CourseOf(sc, true, DbEntry(s.row), k, CALM_CANDLE, 70, true);
      && d.entered && !d.newly && d.entry == Some(100.0) && d.verdict.Open? && (k == NO_KEYS ==> d.due)
      && d.keys.min == Some(99.0) && d.hit == Hit(None, 0, 0)
  {
    NotReached(sc, CALM_CANDLE);
  }

  /** An entered scenario without keys on one calm candle: its drawdown is that of this candle alone, or of
      the stored points too after a recovery, and without a timer a point is stored at once. */
  lemma CalmRises(s: Slice, sc: Scenario, k: Keys)
    requires (sc == PATIENT || sc == AIMED) && Dipped(s, sc)
    requires k == NO_KEYS || k == RecoverKeys(NO_KEYS, s.row.value, s.points)
    ensures var t := StepScenario(s.(keys := k), false, Some(CALM_CANDLE), 70, true, false, true);
      && t.sc == sc && t.status == Running && t.active
      && t.row.Some? && t.row.value.drawdown == Some(Round4(-1.0)) && t.row.value.lowest == Some(80.0)
      && (k == NO_KEYS ==> |t.points| == 2 && t.points[0].at == 60 && t.points[1].at == 70)
  {
    CalmCourse(s, sc, k);
    EnteredStep(s.(keys := k), false, CALM_CANDLE, 70, true);
    assert PnlExact(Long, 100.0, 99.0) == -1.0;
  }

  // ----- ... after a restart -----------------------------------------------------------------------------

  /** The world after the crash. */
  lemma CrashRecovers(w: World)
    requires DippedPair(w, PATIENT)
    ensures Enabled(w, CRASH)
    ensures var v := Next(w, CRASH);
      && v.cycle == 0 && v.slices.Keys == {1, 2}
      && v.slices[1] == Recover(w.slices[1].(keys := NO_KEYS)) && v.slices[2].status != Running
      && v.slices[1].status == Running && v.slices[1].active
  {
  }

  /** A fast cycle of the pair. */
  lemma FastCycle(v: World, p: Poll)
    requires v.cycle < 5 || 5 < v.cycle < 11
    requires v.slices.Keys == {1, 2} && v.slices[2].status != Running
    requires v.slices[1].status == Running && v.slices[1].active && p.order == [1]
    ensures Lists(v, p.order)
    ensures SliceAfter(v, p, 1) == StepScenario(v.slices[1], false, Get(p.candles, 1), p.now, true, false, p.commits)
  {
    assert Picked(v, 1) && !Picked(v, 2);
    assert v.slices[1].sc.signalId in Busy(v);
  }

  /** Crash, recovery, one calm candle: drawdown rises from -20 to -1, while the stored lowest price stays. */
  lemma DrawdownShrinks()
    ensures var steps := DipRun(PATIENT) + [CRASH] + [Evaluation(CALM)];
      && Legal(EMPTY, steps) && 1 in Exec(EMPTY, DipRun(PATIENT)).slices && 1 in Exec(EMPTY, steps).slices
      && var s, t := Exec(EMPTY, DipRun(PATIENT)).slices[1], Exec(EMPTY, steps).slices[1];
      && s.row.Some? && t.row.Some? && s.row.value.lowest == t.row.value.lowest
      && s.row.value.drawdown == Some(Round4(-20.0)) && t.row.value.drawdown == Some(Round4(-1.0))
      && Round4(-20.0) < Round4(-1.0)
  {
    var middle := DipRun(PATIENT) + [CRASH];
    var w := Exec(EMPTY, DipRun(PATIENT));
    DipRunIsLegal(PATIENT);
    CrashRecovers(w);
    assert middle[..|middle| - 1] == DipRun(PATIENT) && middle[|middle| - 1] == CRASH;
    assert Legal(EMPTY, middle) && Exec(EMPTY, middle) == Next(w, CRASH);
    FastCycle(Exec(EMPTY, middle), CALM);
    OneMoreCycle(middle, CALM, 1);
    CalmRises(w.slices[1], PATIENT, RecoverKeys(NO_KEYS, w.slices[1].row.value, w.slices[1].points));
  }

  // ----- ... after a failed batch ------------------------------------------------------------------------

  const SPIKE_CANDLE := Candle(100.0, 131.0, 100.0, 100.0)

  const SPIKED := Poll(65, [1], map[1 := SPIKE_CANDLE], false)

  /** The batch that was to close the scenario fails: the database keeps it open, Redis has dropped its keys. */
  lemma SpikeCleans(s: Slice)
    requires Dipped(s, AIMED)
    ensures StepScenario(s, false, Some(SPIKE_CANDLE), 65, true, false, false) == s.(keys := NO_KEYS)
  {
    assert Reached(AIMED, 130.0, SPIKE_CANDLE);
    assert BestReached(AIMED, AIMED.takeProfits, SPIKE_CANDLE) == 1;
  }

  function SpikeRun(): seq<Step> {
    DipRun(AIMED) + [Evaluation(SPIKED)]
  }

  lemma SpikeRunIsLegal()
    ensures Legal(EMPTY, SpikeRun())
    ensures var w, v := Exec(EMPTY, DipRun(AIMED)), Exec(EMPTY, SpikeRun());
      && DippedPair(w, AIMED) && v.cycle == 7 && v.slices.Keys == {1, 2} && v.slices[2].status != Running
      && v.slices[1] == w.slices[1].(keys := NO_KEYS) && v.slices[1].status == Running && v.slices[1].active
  {
    var w := Exec(EMPTY, DipRun(AIMED));
    DipRunIsLegal(AIMED);
    FastCycle(w, SPIKED);
    SpikeCleans(w.slices[1]);
    OneMoreCycle(DipRun(AIMED), SPIKED, 1);
    OneMoreCycle(DipRun(AIMED), SPIKED, 2);
    ClosedStays(w, SPIKED, 2);
  }

  lemma ClosedStays(w: World, p: Poll, x: int)
    requires x in w.slices && w.slices[x].status != Running
    ensures SliceAfter(w, p, x) == w.slices[x]
  {
  }

  lemma NothingLost()
    ensures var steps := SpikeRun() + [Evaluation(CALM)];
      forall i :: 0 <= i < |steps| ==> !steps[i].Lose? && !steps[i].Restart?
  {
  }

  /** No key is ever lost and the process never restarts, but the batch that was to close the scenario fails:
      the next calm candle stores a point ten seconds after the first although the timeframe is an hour, and
      drawdown rises from -20 to -1. */
  lemma LostClosing()
    ensures var steps := SpikeRun() + [Evaluation(CALM)];
      && Legal(EMPTY, steps) && (forall i :: 0 <= i < |steps| ==> !steps[i].Lose? && !steps[i].Restart?)
      && 1 in Exec(EMPTY, DipRun(AIMED)).slices && 1 in Exec(EMPTY, steps).slices
      && var s, t := Exec(EMPTY, DipRun(AIMED)).slices[1], Exec(EMPTY, steps).slices[1];
      && t.active && TimeframeSeconds(t.sc.timeframe) == 3600
      && |t.points| == 2 && t.points[0].at == 60 && t.points[1].at == 70
      && s.row.Some? && t.row.Some? && s.row.value.drawdown == Some(Round4(-20.0))
      && t.row.value.drawdown == Some(Round4(-1.0)) && Round4(-20.0) < Round4(-1.0)
  {
    var w, v := Exec(EMPTY, DipRun(AIMED)), Exec(EMPTY, SpikeRun());
    SpikeRunIsLegal();
    NothingLost();
    FastCycle(v, CALM);
    CalmRises(w.slices[1], AIMED, NO_KEYS);
    OneMoreCycle(SpikeRun(), CALM, 1);
  }

  // ----- two prices, one percentage ----------------------------------------------------------------------

  /** Rounding can hide that a tracked extreme falls short of the stored one. */
  lemma RoundingHidesShortfall()
    ensures PnlExact(Long, 100.0, 80.0) < PnlExact(Long, 100.0, 80.000001)
    ensures Pnl(Long, 100.0, 80.0) == Pnl(Long, 100.0, 80.000001)
  {
  }
}
