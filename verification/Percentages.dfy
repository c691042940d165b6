/** The percentages the evaluator stores: their signs at the exits, their mutual bounds, and
    their agreement with the stored extremes. */
module Percentages {
  import opened Prelude
  import opened Rounding
  import opened Domain
  import opened Evaluation
  import opened Machine
  import opened Audit
  import opened Exclusion
  import opened History
  import opened Durability
  import opened Records
  import opened Targets

  // ----- arithmetic -------------------------------------------------------------------------

  lemma QuotientOrder(a: real, b: real, e: real)
    requires e > 0.0 && a <= b
    ensures a / e <= b / e
    ensures a < b ==> a / e < b / e
  {
    assert a / e * e == a && b / e * e == b;
  }

  /** A higher price is worth more to a long and less to everything else. */
  lemma PnlOrder(d: Direction, e: real, p: real, q: real)
    requires e > 0.0 && p <= q
    ensures d == Long ==> PnlExact(d, e, p) <= PnlExact(d, e, q) && Pnl(d, e, p) <= Pnl(d, e, q)
    ensures d != Long ==> PnlExact(d, e, q) <= PnlExact(d, e, p) && Pnl(d, e, q) <= Pnl(d, e, p)
  {
    QuotientOrder(p - e, q - e, e);
    QuotientOrder(e - q, e - p, e);
    if d == Long { Round4Monotone(PnlExact(d, e, p), PnlExact(d, e, q)); }
    else { Round4Monotone(PnlExact(d, e, q), PnlExact(d, e, p)); }
  }

  /** The bound drawdown <= pnl <= favorable on exact percentages, for a range of prices and an exit. */
  predicate ExactlyBounded(d: Direction, e: real, lo: real, x: real, hi: real)
    requires e > 0.0
  {
    var worst, best := if d == Long then lo else hi, if d == Long then hi else lo;
    PnlExact(d, e, worst) <= PnlExact(d, e, x) <= PnlExact(d, e, best)
  }

  predicate RoundlyBounded(d: Direction, e: real, lo: real, x: real, hi: real)
    requires e > 0.0
  {
    var worst, best := if d == Long then lo else hi, if d == Long then hi else lo;
    Pnl(d, e, worst) <= Pnl(d, e, x) <= Pnl(d, e, best)
  }

  /** The bound holds exactly when the exit lies in the range; rounding cannot break it. */
  lemma BoundedIff(d: Direction, e: real, lo: real, x: real, hi: real)
    requires e > 0.0
    ensures ExactlyBounded(d, e, lo, x, hi) <==> Between(lo, x, hi)
    ensures Between(lo, x, hi) ==> RoundlyBounded(d, e, lo, x, hi)
  {
    ExactOrder(d, e, lo, x);
    ExactOrder(d, e, x, hi);
    if Between(lo, x, hi) {
      PnlOrder(d, e, lo, x);
      PnlOrder(d, e, x, hi);
    }
  }

  lemma ExactOrder(d: Direction, e: real, p: real, q: real)
    requires e > 0.0
    ensures d == Long ==> (PnlExact(d, e, p) <= PnlExact(d, e, q) <==> p <= q)
    ensures d != Long ==> (PnlExact(d, e, q) <= PnlExact(d, e, p) <==> p <= q)
  {
    if p <= q {
      QuotientOrder(p - e, q - e, e);
      QuotientOrder(e - q, e - p, e);
    } else {
      QuotientOrder(q - e, p - e, e);
      QuotientOrder(e - p, e - q, e);
    }
  }

  lemma PnlSign(d: Direction, e: real, p: real)
    requires e > 0.0
    ensures PnlExact(d, e, p) > 0.0 <==> if d == Long then p > e else p < e
    ensures PnlExact(d, e, p) < 0.0 <==> if d == Long then p < e else p > e
    ensures PnlExact(d, e, p) >= 0.0 ==> Pnl(d, e, p) >= 0.0
    ensures PnlExact(d, e, p) <= 0.0 ==> Pnl(d, e, p) <= 0.0
  {
    if p <= e { QuotientOrder(p - e, 0.0, e); QuotientOrder(0.0, e - p, e); }
    if p >= e { QuotientOrder(0.0, p - e, e); QuotientOrder(e - p, 0.0, e); }
    assert 0.0 / e == 0.0;
    if PnlExact(d, e, p) >= 0.0 { Round4Monotone(0.0, PnlExact(d, e, p)); }
    if PnlExact(d, e, p) <= 0.0 { Round4Monotone(PnlExact(d, e, p), 0.0); }
  }

  // ----- the sign at the exit ------------------------------------------------------------------

  /** A placed scenario that enters at its own positive entry point. */
  predicate Anchorable(sc: Scenario) {
    && Placed(sc) && sc.entryPoint.Some? && sc.entryPoint.value > 0.0
    && (sc.entryType == Fix || sc.entryType == BreakUp || sc.entryType == BreakDown)
  }

  predicate IsGain(sc: Scenario, exit: Option<real>)
    requires Anchorable(sc)
  {
    exit.Some? && PnlExact(sc.Dir(), sc.entryPoint.value, exit.value) > 0.0
  }

  predicate IsLoss(sc: Scenario, exit: Option<real>)
    requires Anchorable(sc)
  {
    exit.Some? && PnlExact(sc.Dir(), sc.entryPoint.value, exit.value) < 0.0
  }

  /** The stored percentage, if any, is the rounded exact one of the stored exit price. */
  predicate PaidAt(sc: Scenario, r: Row)
    requires Anchorable(sc)
  {
    r.exitPrice.Some? && (r.pnl.Some? ==> r.pnl == Some(Pnl(sc.Dir(), sc.entryPoint.value, r.exitPrice.value)))
  }

  ghost predicate Anchored(s: Slice) {
    Anchorable(s.sc) ==>
      && (s.keys.entryPrice.Some? ==> s.keys.entryPrice == s.sc.entryPoint)
      && (s.row.Some? && s.row.value.entryPrice.Some? ==> s.row.value.entryPrice == s.sc.entryPoint)
      && (s.status == Success ==> s.row.Some? && IsGain(s.sc, s.row.value.exitPrice) && PaidAt(s.sc, s.row.value))
      && (s.status == Failed ==> s.row.Some? && IsLoss(s.sc, s.row.value.exitPrice) && PaidAt(s.sc, s.row.value))
  }

  lemma AnchoredEntry(s: Slice, c: Candle, now: int, skip: bool)
    requires Sound(s) && Anchored(s) && Anchorable(s.sc)
    ensures var d := CourseOf(s.sc, s.active, DbEntry(s.row), s.keys, c, now, skip);
      && (d.entry.Some? ==> d.entry == s.sc.entryPoint)
      && (d.keys.entryPrice.Some? ==> d.keys.entryPrice == s.sc.entryPoint)
  {
  }

  /** A success books a target and a failure the stop, on their sides of the entry point. */
  lemma VerdictSigns(sc: Scenario, d: Course, c: Candle)
    requires Anchorable(sc) && HitFits(sc, d, c)
    requires d.verdict.Close? && d.verdict.status == Failed ==> sc.stopLoss.Some? && d.verdict.exit == sc.stopLoss
    ensures d.verdict.Close? && d.verdict.status == Success && d.hit.index > 0 ==>
      IsGain(sc, d.verdict.exit) && Truthy(d.verdict.exit)
    ensures d.verdict.Close? && d.verdict.status == Failed ==> IsLoss(sc, d.verdict.exit) && Truthy(d.verdict.exit)
  {
    if d.verdict.Close? && d.verdict.exit.Some? { PnlSign(sc.Dir(), sc.entryPoint.value, d.verdict.exit.value); }
    if d.hit.index > 0 { assert sc.takeProfits[d.hit.index - 1] in sc.takeProfits; }
  }

  lemma ClosedRowIsPaid(sc: Scenario, d: Course, c: Candle, now: int)
    requires Anchorable(sc) && (d.entry.Some? ==> d.entry == sc.entryPoint)
    requires d.verdict.Close? && d.verdict.status in {Success, Failed} && Truthy(d.verdict.exit)
    ensures var r := RowOf(sc, d, c, now);
      r.exitPrice == d.verdict.exit && PaidAt(sc, r)
  {
  }

  lemma AnchoredCourse(s: Slice, c: Candle, now: int, skip: bool)
    requires Sound(s) && s.status == Running && Anchored(s) && Anchorable(s.sc)
    ensures var d := CourseOf(s.sc, s.active, DbEntry(s.row), s.keys, c, now, skip);
      && (d.entry.Some? ==> d.entry == s.sc.entryPoint)
      && (d.keys.entryPrice.Some? ==> d.keys.entryPrice == s.sc.entryPoint)
      && (d.verdict.Close? && d.verdict.status == Success ==> IsGain(s.sc, d.verdict.exit))
      && (d.verdict.Close? && d.verdict.status == Failed ==> IsLoss(s.sc, d.verdict.exit))
      && (d.verdict.Close? && d.verdict.status in {Success, Failed} ==>
            var r := RowOf(s.sc, d, c, now);
            r.exitPrice == d.verdict.exit && PaidAt(s.sc, r))
  {
    var d := CourseOf(s.sc, s.active, DbEntry(s.row), s.keys, c, now, skip);
    AnchoredEntry(s, c, now, skip);
    CourseHits(s, c, now, skip);
    VerdictSigns(s.sc, d, c);
    if d.verdict.Close? && d.verdict.status in {Success, Failed} { ClosedRowIsPaid(s.sc, d, c, now); }
  }

  /** An observation that keeps entry prices at the entry point and closes with the right sign. */
  ghost predicate AnchoredObservation(sc: Scenario, o: Observation)
    requires Anchorable(sc)
  {
    var w := o.writes;
    && (o.keys.entryPrice.Some? ==> o.keys.entryPrice == sc.entryPoint)
    && (w.row.Some? && w.row.value.entryPrice.Some? ==> w.row.value.entryPrice == sc.entryPoint)
    && (w.mark == Some(Closed(Success)) ==> w.row.Some? && IsGain(sc, w.row.value.exitPrice) && PaidAt(sc, w.row.value))
    && (w.mark == Some(Closed(Failed)) ==> w.row.Some? && IsLoss(sc, w.row.value.exitPrice) && PaidAt(sc, w.row.value))
  }

  lemma ObserveAnchored(s: Slice, candle: Option<Candle>, now: int, skip: bool)
    requires Sound(s) && s.status == Running && Anchored(s) && Anchorable(s.sc)
    ensures AnchoredObservation(s.sc, Observe(s, candle, now, skip))
  {
    if candle.Some? { AnchoredCourse(s, candle.value, now, skip); }
  }

  lemma WriteAnchored(s: Slice, o: Observation, cancelled: bool, now: int)
    requires Sound(s) && Anchored(s) && Anchorable(s.sc) && s.status == Running
    requires AnchoredObservation(s.sc, o) && Lawful(s, o)
    ensures Anchored(Write(s.(keys := if cancelled then NO_KEYS else o.keys), o.writes, cancelled, now))
  {
  }

  lemma StepAnchored(s: Slice, slow: bool, candle: Option<Candle>, now: int, skip: bool, cancelled: bool, commits: bool)
    requires Sound(s) && Anchored(s)
    ensures Anchored(StepScenario(s, slow, candle, now, skip, cancelled, commits))
  {
    if Selected(s, slow) && Anchorable(s.sc) {
      ObserveAnchored(s, candle, now, skip);
      ObservationLawful(s, candle, now, skip);
      WriteAnchored(s, Observe(s, candle, now, skip), cancelled, now);
    }
  }

  lemma RecoverAnchored(s: Slice, k: Keys)
    requires Anchored(s) && Survives(k, s.keys)
    ensures Anchored(s.(keys := k)) && Anchored(Recover(s.(keys := k)))
  {
  }

  /** Main result: in every run, with any losses and failed batches, a success of an anchored scenario
      is stored with an exit price of positive exact profit, a failure with one of negative profit. */
  lemma {:induction false} RunAnchored(steps: seq<Step>, x: int)
    requires Legal(EMPTY, steps) && x in Exec(EMPTY, steps).slices
    ensures Anchored(Exec(EMPTY, steps).slices[x])
  {
    var front, st := steps[..|steps| - 1], steps[|steps| - 1];
    var w := Exec(EMPTY, front);
    if x in w.slices {
      NextSlice(w, st, x);
      RunConsistent(front);
      RunAnchored(front, x);
      match st {
        case Evaluation(p) =>
          StepAnchored(w.slices[x], Slow(w), Get(p.candles, x), p.now, Skips(w, p, x), Cancels(w, p, x), p.commits);
        case Lose(kept) => RecoverAnchored(w.slices[x], kept[x]);
        case Restart(kept, _) => RecoverAnchored(w.slices[x], kept[x]);
        case _ =>
      }
    } else {
      NewSliceIsFresh(w, st, x);
    }
  }

  /** The sign a stored, rounded percentage may have. */
  lemma StoredSign(s: Slice)
    requires Anchored(s) && Anchorable(s.sc) && s.row.Some? && s.row.value.pnl.Some?
    ensures s.status == Success ==> s.row.value.pnl.value >= 0.0
    ensures s.status == Failed ==> s.row.value.pnl.value <= 0.0
  {
    if s.status == Success || s.status == Failed {
      PnlSign(s.sc.Dir(), s.sc.entryPoint.value, s.row.value.exitPrice.value);
    }
  }

  // ----- drawdown <= pnl <= favorable ---------------------------------------------------------------

  predicate Bounded(r: Row) {
    (r.result == Running || r.result == Expired) && r.drawdown.Some? ==>
      r.pnl.Some? && r.maxFavorable.Some? && r.drawdown.value <= r.pnl.value <= r.maxFavorable.value
  }

  predicate PositivePrices(sc: Scenario) {
    sc.entryPoint.Some? ==> sc.entryPoint.value > 0.0
  }

  ghost predicate Ranged(s: Slice) {
    PositivePrices(s.sc) ==>
      && (s.keys.entryPrice.Some? ==> s.keys.entryPrice.value > 0.0)
      && (s.row.Some? && s.row.value.entryPrice.Some? ==> s.row.value.entryPrice.value > 0.0)
      && (s.row.Some? ==> Bounded(s.row.value))
  }

  lemma BoundedCourse(s: Slice, c: Candle, now: int, skip: bool)
    requires Ranged(s) && PositivePrices(s.sc) && Sane(c)
    ensures var d := CourseOf(s.sc, s.active, DbEntry(s.row), s.keys, c, now, skip);
      && (d.entry.Some? ==> d.entry.value > 0.0)
      && (d.keys.entryPrice.Some? ==> d.keys.entryPrice.value > 0.0)
      && Bounded(RowOf(s.sc, d, c, now))
  {
    var d := CourseOf(s.sc, s.active, DbEntry(s.row), s.keys, c, now, skip);
    if d.entered && Truthy(d.entry) {
      PnlOrder(s.sc.Dir(), d.entry.value, d.keys.min.value, c.close);
      PnlOrder(s.sc.Dir(), d.entry.value, c.close, d.keys.max.value);
    }
  }

  lemma ObserveRanged(s: Slice, c: Candle, now: int, skip: bool)
    requires Ranged(s) && PositivePrices(s.sc) && Sane(c)
    ensures var o := Observe(s, Some(c), now, skip);
      && (o.keys.entryPrice.Some? ==> o.keys.entryPrice.value > 0.0)
      && (o.writes.row.Some? ==>
            && Bounded(o.writes.row.value)
            && (o.writes.row.value.entryPrice.Some? ==> o.writes.row.value.entryPrice.value > 0.0))
  {
    BoundedCourse(s, c, now, skip);
  }

  lemma StepRanged(s: Slice, slow: bool, candle: Option<Candle>, now: int, skip: bool, cancelled: bool, commits: bool)
    requires Ranged(s) && (candle.Some? ==> Sane(candle.value))
    ensures Ranged(StepScenario(s, slow, candle, now, skip, cancelled, commits))
  {
    if Selected(s, slow) && candle.Some? && PositivePrices(s.sc) {
      ObserveRanged(s, candle.value, now, skip);
    }
  }

  lemma RecoverRanged(s: Slice, k: Keys)
    requires Ranged(s) && Survives(k, s.keys)
    ensures Ranged(s.(keys := k)) && Ranged(Recover(s.(keys := k)))
  {
  }

  /** In every run over positive prices, with any losses and failed batches, each running or expired
      row that has percentages has max_drawdown <= pnl <= max_favorable. */
  lemma {:induction false} RunRanged(steps: seq<Step>, x: int)
    requires Legal(EMPTY, steps) && SaneFeed(steps) && x in Exec(EMPTY, steps).slices
    ensures Ranged(Exec(EMPTY, steps).slices[x])
  {
    var front, st := steps[..|steps| - 1], steps[|steps| - 1];
    var w := Exec(EMPTY, front);
    if x in w.slices {
      NextSlice(w, st, x);
      RunRanged(front, x);
      match st {
        case Evaluation(p) =>
          StepRanged(w.slices[x], Slow(w), Get(p.candles, x), p.now, Skips(w, p, x), Cancels(w, p, x), p.commits);
        case Lose(kept) => RecoverRanged(w.slices[x], kept[x]);
        case Restart(kept, _) => RecoverRanged(w.slices[x], kept[x]);
        case _ =>
      }
    } else {
      NewSliceIsFresh(w, st, x);
    }
  }

  // ----- the bound at the exit ------------------------------------------------------------------------

  /** The price a row's percentage is taken at. */
  function BookedAt(d: Course, c: Candle): real {
    match d.verdict
    case Open => c.close
    case Close(st, exit) => if st == Expired then c.close else OrPrice(exit, c.close)
  }

  /** Every row with percentages: they satisfy the bound exactly when the booked price lies in the tracked
      range, and then the rounded ones do too. */
  lemma RowBound(sc: Scenario, d: Course, c: Candle, now: int)
    requires d.entered && d.entry.Some? && d.entry.value > 0.0 && d.keys.min.Some? && d.keys.max.Some?
    ensures var r := RowOf(sc, d, c, now);
            var lo, x, hi := d.keys.min.value, BookedAt(d, c), d.keys.max.value;
      && r.drawdown.Some? && r.pnl.Some? && r.maxFavorable.Some?
      && (ExactlyBounded(sc.Dir(), d.entry.value, lo, x, hi) <==> Between(lo, x, hi))
      && (Between(lo, x, hi) ==> r.drawdown.value <= r.pnl.value <= r.maxFavorable.value)
  {
    BoundedIff(sc.Dir(), d.entry.value, d.keys.min.value, BookedAt(d, c), d.keys.max.value);
  }

  /** With exact levels a long or short exit breaks the bound only if the whole tracked range lies beyond
      the level: above a long target or a short stop, below a short target or a long stop. */
  lemma OnlyGapsBreakIt(s: Slice, c: Candle, now: int, skip: bool)
    requires Sound(s) && s.status == Running && Placed(s.sc) && s.sc.priceType == FixNumber && Shaped(c)
    ensures var d := CourseOf(s.sc, s.active, DbEntry(s.row), s.keys, c, now, skip);
      d.verdict.Close? && d.verdict.status in {Success, Failed} ==>
        && d.keys.min.Some? && d.keys.max.Some?
        && (!Between(d.keys.min.value, BookedAt(d, c), d.keys.max.value) <==>
            if (d.verdict.status == Success) == (s.sc.Dir() == Long) then BookedAt(d, c) < d.keys.min.value
            else BookedAt(d, c) > d.keys.max.value)
  {
    var d := CourseOf(s.sc, s.active, DbEntry(s.row), s.keys, c, now, skip);
    CourseHits(s, c, now, skip);
    if d.hit.index > 0 { assert s.sc.takeProfits[d.hit.index - 1] in s.sc.takeProfits; }
  }

  // ----- agreement with the stored extremes -------------------------------------------------------------

  /** The percentages of a row are those of its stored extremes. */
  predicate RowFigures(d: Direction, r: Row) {
    && r.highest.Some? && r.lowest.Some? && r.entryPrice.Some? && r.entryPrice.value > 0.0
    && var e := r.entryPrice.value;
    && r.drawdown == Some(Pnl(d, e, if d == Long then r.lowest.value else r.highest.value))
    && r.maxFavorable == Some(Pnl(d, e, if d == Long then r.highest.value else r.lowest.value))
  }

  /** The keys of an entered scenario reach at least as far as the extremes its row stores, and the
      percentages are those of the stored extremes. A failed batch leaves the keys ahead of the row. */
  ghost predicate Covered(s: Slice) {
    s.active && PositivePrices(s.sc) ==>
      && s.row.Some? && RowFigures(s.sc.Dir(), s.row.value) && s.keys.max.Some? && s.keys.min.Some?
      && s.keys.max.value >= s.row.value.highest.value && s.keys.min.value <= s.row.value.lowest.value
  }

  /** Every scenario that ever entered has the percentages of its stored extremes; a success or failure also has
      its percentage, taken at its exit price. */
  ghost predicate Figured(s: Slice) {
    PositivePrices(s.sc) ==>
      && (s.row.Some? && s.row.value.entryPrice.Some? ==> RowFigures(s.sc.Dir(), s.row.value))
      && (s.status == Success || s.status == Failed ==>
            && s.row.Some? && s.row.value.entryPrice.Some? && s.row.value.entryPrice.value > 0.0
            && (Truthy(s.row.value.exitPrice) ==>
                  s.row.value.pnl == Some(Pnl(s.sc.Dir(), s.row.value.entryPrice.value, s.row.value.exitPrice.value))))
  }

  /** The second slice's figures are no better and no worse where they must not be. */
  predicate Widens(s: Slice, t: Slice) {
    s.row.Some? && t.row.Some? &&
    var r, q := s.row.value, t.row.value;
    && r.drawdown.Some? && q.drawdown.Some? && q.drawdown.value <= r.drawdown.value
    && r.maxFavorable.Some? && q.maxFavorable.Some? && r.maxFavorable.value <= q.maxFavorable.value
  }

  function Farther(stored: Option<Row>, k: Keys): (real, real)
    requires k.min.Some? && k.max.Some?
  {
    (if stored.Some? && stored.value.lowest.Some? then Min(stored.value.lowest.value, k.min.value) else k.min.value,
     if stored.Some? && stored.value.highest.Some? then Max(stored.value.highest.value, k.max.value) else k.max.value)
  }

  /** The effective entry price of an evaluation that holds or enters. */
  lemma HeldEntry(s: Slice, o: Obs)
    requires Sound(s) && Recorded(s) && Idle(s) && Ranged(s) && PositivePrices(s.sc) && s.status == Running
    requires o.candle.Some? && Sane(o.candle.value) && CourseAt(s, o).entered
    ensures var d := CourseAt(s, o);
      && (s.active || d.newly) && !(s.active && d.newly)
      && d.entry.Some? && d.entry.value > 0.0 && (s.active ==> d.entry == s.row.value.entryPrice)
      && d.keys.max == Track(s.keys, o.candle.value).max && d.keys.min == Track(s.keys, o.candle.value).min
  {
    CourseFacts(s.sc, s.active, DbEntry(s.row), s.keys, o.candle.value, o.now, o.taken);
    BoundedCourse(s, o.candle.value, o.now, o.taken);
  }

  /** The row a committed evaluation that holds or enters leaves, in terms of what Redis tracked. */
  lemma HeldRow(s: Slice, o: Obs)
    requires Sound(s) && Recorded(s) && Idle(s) && Ranged(s) && PositivePrices(s.sc)
    requires s.status == Running && Selected(s, o.slow) && !o.taken
    requires o.candle.Some? && Sane(o.candle.value) && CourseAt(s, o).entered
    ensures var d, t := CourseAt(s, o), LocalStep(s, o);
      && t.sc == s.sc && t.row.Some? && d.entry.Some? && d.entry.value > 0.0 && d.keys.min.Some? && d.keys.max.Some?
      && var r, e, k := t.row.value, d.entry.value, d.keys;
      && r.entryPrice == d.entry
      && r.lowest == Some(Farther(s.row, k).0) && r.highest == Some(Farther(s.row, k).1)
      && r.drawdown == Drawdown(s.sc.Dir(), k, e) && r.maxFavorable == MaxFavorable(s.sc.Dir(), k, e)
  {
    HeldEntry(s, o);
    StepOfCourse(s, o);
  }

  lemma HeldExit(s: Slice, o: Obs)
    requires Sound(s) && Recorded(s) && Idle(s) && Ranged(s) && PositivePrices(s.sc)
    requires s.status == Running && Selected(s, o.slow) && !o.taken
    requires o.candle.Some? && Sane(o.candle.value) && CourseAt(s, o).entered
    ensures var d, t := CourseAt(s, o), LocalStep(s, o);
      && (t.active ==> t.keys.max == d.keys.max && t.keys.min == d.keys.min)
      && ((t.status == Success || t.status == Failed)
          && t.row.Some? && Truthy(t.row.value.exitPrice) && d.entry.Some? ==>
            t.row.value.pnl == Some(Pnl(s.sc.Dir(), d.entry.value, t.row.value.exitPrice.value)))
  {
    HeldEntry(s, o);
    StepOfCourse(s, o);
  }

  /** One committed cycle in which Redis holds at least the stored extremes. */
  lemma CoveredHeld(s: Slice, o: Obs)
    requires Sound(s) && Recorded(s) && Idle(s) && Ranged(s) && PositivePrices(s.sc) && Covered(s)
    requires s.status == Running && Selected(s, o.slow) && !o.taken
    requires o.candle.Some? && Sane(o.candle.value) && CourseAt(s, o).entered
    ensures Covered(LocalStep(s, o)) && Figured(LocalStep(s, o)) && (s.active ==> Widens(s, LocalStep(s, o)))
  {
    var d := CourseAt(s, o);
    HeldEntry(s, o);
    HeldRow(s, o);
    HeldExit(s, o);
    assert Farther(s.row, d.keys) == (d.keys.min.value, d.keys.max.value);
    if s.active {
      PnlOrder(s.sc.Dir(), d.entry.value, d.keys.min.value, s.row.value.lowest.value);
      PnlOrder(s.sc.Dir(), d.entry.value, s.row.value.highest.value, d.keys.max.value);
    }
  }

  /** A cycle that neither holds nor enters leaves the row's entry and extremes alone. */
  lemma UnheldRow(s: Slice, o: Obs)
    requires Sound(s) && Recorded(s) && Idle(s) && Selected(s, o.slow) && (s.active ==> !o.taken)
    requires o.candle.Some? ==> !CourseAt(s, o).entered
    ensures var t := LocalStep(s, o);
      && t.sc == s.sc && t.status != Success && t.status != Failed
      && (s.active ==> t == s.(keys := t.keys, log := t.log) && t.keys.max == s.keys.max && t.keys.min == s.keys.min)
      && (!s.active ==> !t.active && (t.row.Some? ==> t.row.value.entryPrice.None?))
  {
    if o.candle.Some? {
      CourseFacts(s.sc, s.active, DbEntry(s.row), s.keys, o.candle.value, o.now, o.taken);
    }
  }

  /** One committed cycle: the percentages stay those of the stored extremes, drawdown never rises and the
      favourable extreme never falls. */
  lemma StepCovered(s: Slice, o: Obs)
    requires Sound(s) && Recorded(s) && Idle(s) && Ranged(s) && Covered(s) && Figured(s) && (s.active ==> !o.taken)
    requires o.candle.Some? ==> Sane(o.candle.value)
    ensures Covered(LocalStep(s, o)) && Figured(LocalStep(s, o))
    ensures s.active && PositivePrices(s.sc) ==> Widens(s, LocalStep(s, o))
  {
    if Selected(s, o.slow) && PositivePrices(s.sc) {
      if o.candle.Some? && CourseAt(s, o).entered {
        if !o.taken { CoveredHeld(s, o); } else { TakenStaysOut(s, o); }
      } else {
        UnheldRow(s, o);
      }
    }
  }

  lemma TakenStaysOut(s: Slice, o: Obs)
    requires Idle(s) && s.status == Running && !s.active && o.taken && o.candle.Some?
    ensures !CourseAt(s, o).entered
  {
  }

  /** One failed batch: the row stays, and the keys can only have gone further. */
  lemma FailedCovered(s: Slice, candle: Option<Candle>, now: int, skip: bool)
    requires Sound(s) && Covered(s) && Figured(s) && s.active
    requires !Ends(Observe(s, candle, now, skip))
    ensures var t := s.(keys := Observe(s, candle, now, skip).keys); Covered(t) && Figured(t)
  {
    if candle.Some? {
      CourseFacts(s.sc, s.active, DbEntry(s.row), s.keys, candle.value, now, skip);
    }
  }

  /** The step spares x's extreme keys: none is lost or rebuilt while x is entered, and no failed batch was to
      record the entry or the closing of x. */
  predicate SparesExtremes(w: World, st: Step, x: int) {
    x in w.slices ==>
    match st
    case Evaluation(p) => p.commits || (!Wins(w, p, x) && !ClosesActive(w, p, x))
    case Insert(_, _) => true
    case LoadFails => true
    case _ =>
      var k := SliceNext(w, st, x).keys;
      w.slices[x].active ==> k.max == w.slices[x].keys.max && k.min == w.slices[x].keys.min
  }

  ghost predicate Steady(w: World, steps: seq<Step>, x: int) {
    steps == [] ||
    (Steady(w, steps[..|steps| - 1], x) && SparesExtremes(Exec(w, steps[..|steps| - 1]), steps[|steps| - 1], x))
  }

  lemma {:induction false} SteadyLosesNone(w: World, steps: seq<Step>, x: int)
    requires Steady(w, steps, x)
    ensures LosesNoEntry(w, steps, x)
  {
    if steps != [] { SteadyLosesNone(w, steps[..|steps| - 1], x); }
  }

  lemma CycleCovered(w: World, p: Poll, x: int)
    requires Consistent(w) && Lists(w, p.order) && x in w.slices && SparesExtremes(w, Evaluation(p), x)
    requires Recorded(w.slices[x]) && Idle(w.slices[x]) && Ranged(w.slices[x])
    requires Covered(w.slices[x]) && Figured(w.slices[x])
    requires x in p.candles ==> Sane(p.candles[x])
    ensures Covered(SliceAfter(w, p, x)) && Figured(SliceAfter(w, p, x))
    ensures w.slices[x].active && PositivePrices(w.slices[x].sc) ==> Widens(w.slices[x], SliceAfter(w, p, x))
  {
    var s := w.slices[x];
    assert Sound(s);
    if p.commits {
      Localized(w, p, x);
      StepCovered(s, ObsOf(w, p, x));
    } else if s.active {
      NewlyWins(w, p, x);
      FailedCovered(s, Get(p.candles, x), p.now, Skips(w, p, x));
    }
  }

  lemma NextCovered(w: World, st: Step, x: int)
    requires Consistent(w) && Enabled(w, st) && x in w.slices && SparesExtremes(w, st, x)
    requires Recorded(w.slices[x]) && Idle(w.slices[x]) && Ranged(w.slices[x])
    requires Covered(w.slices[x]) && Figured(w.slices[x])
    requires SaneFeed([st])
    ensures Covered(SliceNext(w, st, x)) && Figured(SliceNext(w, st, x))
    ensures w.slices[x].active && PositivePrices(w.slices[x].sc) ==> Widens(w.slices[x], SliceNext(w, st, x))
  {
    assert st in [st];
    if st.Evaluation? { CycleCovered(w, st.poll, x); }
  }

  lemma {:induction false} RunCovered(steps: seq<Step>, x: int)
    requires Legal(EMPTY, steps) && Steady(EMPTY, steps, x) && SaneFeed(steps) && x in Exec(EMPTY, steps).slices
    ensures Covered(Exec(EMPTY, steps).slices[x]) && Figured(Exec(EMPTY, steps).slices[x])
  {
    var front, st := steps[..|steps| - 1], steps[|steps| - 1];
    var w := Exec(EMPTY, front);
    if x in w.slices {
      NextSlice(w, st, x);
      RunCovered(front, x);
      SteadyBefore(steps, x);
      NextCovered(w, st, x);
    } else {
      NewSliceIsFresh(w, st, x);
    }
  }

  /** What a steady run knows before its last step. */
  lemma SteadyBefore(steps: seq<Step>, x: int)
    requires steps != [] && Legal(EMPTY, steps) && Steady(EMPTY, steps, x) && SaneFeed(steps)
    requires x in Exec(EMPTY, steps[..|steps| - 1]).slices
    ensures var w := Exec(EMPTY, steps[..|steps| - 1]);
      && Consistent(w) && Recorded(w.slices[x]) && Idle(w.slices[x]) && Ranged(w.slices[x])
      && SaneFeed([steps[|steps| - 1]])
  {
    var front := steps[..|steps| - 1];
    SteadyLosesNone(EMPTY, steps, x);
    RunConsistent(front);
    RunRecorded(front, x);
    RunIdle(front, x);
    RunRanged(front, x);
  }

  /** Main result: in every run that keeps the extreme keys, the exact percentages of a success or failure
      satisfy drawdown <= pnl <= favorable exactly when the exit price lies between the stored extremes; then
      the stored, rounded ones do too. A candle that gaps over the level is the only way out. */
  lemma {:induction false} ExitBound(steps: seq<Step>, x: int)
    requires Legal(EMPTY, steps) && Steady(EMPTY, steps, x) && SaneFeed(steps) && x in Exec(EMPTY, steps).slices
    requires var s := Exec(EMPTY, steps).slices[x];
      && (s.status == Success || s.status == Failed) && PositivePrices(s.sc)
      && s.row.Some? && Truthy(s.row.value.exitPrice)
    ensures var s := Exec(EMPTY, steps).slices[x]; var r := s.row.value;
      && r.entryPrice.Some? && r.entryPrice.value > 0.0 && r.lowest.Some? && r.highest.Some?
      && r.drawdown.Some? && r.pnl.Some? && r.maxFavorable.Some?
      && (ExactlyBounded(s.sc.Dir(), r.entryPrice.value, r.lowest.value, r.exitPrice.value, r.highest.value) <==>
          Between(r.lowest.value, r.exitPrice.value, r.highest.value))
      && (Between(r.lowest.value, r.exitPrice.value, r.highest.value) ==>
          r.drawdown.value <= r.pnl.value <= r.maxFavorable.value)
  {
    RunCovered(steps, x);
    var s := Exec(EMPTY, steps).slices[x];
    var r := s.row.value;
    BoundedIff(s.sc.Dir(), r.entryPrice.value, r.lowest.value, r.exitPrice.value, r.highest.value);
  }

  /** In every run that keeps the extreme keys, failed batches included that were not to enter or close x, from
      each state to the next the drawdown of an entered scenario never rises and its favourable extreme never
      falls; both are the percentages of the stored extremes. */
  lemma {:induction false} FiguresWiden(steps: seq<Step>, x: int)
    requires steps != [] && Legal(EMPTY, steps) && Steady(EMPTY, steps, x) && SaneFeed(steps)
    requires var w := Exec(EMPTY, steps[..|steps| - 1]);
      x in w.slices && w.slices[x].active && PositivePrices(w.slices[x].sc)
    ensures x in Exec(EMPTY, steps).slices
    ensures Widens(Exec(EMPTY, steps[..|steps| - 1]).slices[x], Exec(EMPTY, steps).slices[x])
    ensures var t := Exec(EMPTY, steps).slices[x]; t.row.Some? && RowFigures(t.sc.Dir(), t.row.value)
  {
    var front, st := steps[..|steps| - 1], steps[|steps| - 1];
    var w := Exec(EMPTY, front);
    NextSlice(w, st, x);
    RunCovered(front, x);
    SteadyBefore(steps, x);
    NextCovered(w, st, x);
    EntryStays(w, st, x);
  }

  lemma EntryStays(w: World, st: Step, x: int)
    requires Consistent(w) && x in w.slices && w.slices[x].active && Recorded(w.slices[x])
    ensures var t := SliceNext(w, st, x);
      t.sc == w.slices[x].sc && t.row.Some? && t.row.value.entryPrice == w.slices[x].row.value.entryPrice
  {
  }

  // ----- what lost and rebuilt keys do to the figures ------------------------------------------------------

  /** Together with the candle, the extreme keys reach the extremes the row stores. */
  predicate Reaches(k: Keys, r: Row, c: Candle) {
    && r.highest.Some? && r.lowest.Some?
    && Track(k, c).max.value >= r.highest.value && Track(k, c).min.value <= r.lowest.value
  }

  /** The exact percentages of the tracked prices are those of the stored extremes. */
  predicate ExactFigures(d: Direction, e: real, k: Keys, r: Row)
    requires e > 0.0 && k.min.Some? && k.max.Some? && r.lowest.Some? && r.highest.Some?
  {
    && PnlExact(d, e, k.min.value) == PnlExact(d, e, r.lowest.value)
    && PnlExact(d, e, k.max.value) == PnlExact(d, e, r.highest.value)
  }

  /** What a committed evaluation on candle c makes of the figures of an entered scenario: they are the
      percentages of what Redis tracked; the exact ones are those of the stored extremes exactly when keys and
      candle reach these; and then the rounded ones are too, and have widened if they were so before. */
  predicate FiguresDecided(s: Slice, t: Slice, c: Candle) {
    && s.row.Some? && t.row.Some?
    && var k, r, q := Track(s.keys, c), s.row.value, t.row.value;
    && r.entryPrice.Some? && r.entryPrice.value > 0.0 && q.entryPrice == r.entryPrice
    && q.lowest.Some? && q.highest.Some?
    && var d, e := s.sc.Dir(), r.entryPrice.value;
    && q.drawdown == Drawdown(d, k, e) && q.maxFavorable == MaxFavorable(d, k, e)
    && (ExactFigures(d, e, k, q) <==> Reaches(s.keys, r, c))
    && (Reaches(s.keys, r, c) ==> RowFigures(d, q))
    && (Reaches(s.keys, r, c) && RowFigures(d, r) ==> Widens(s, t))
  }

  lemma ExactEqual(d: Direction, e: real, p: real, q: real)
    requires e > 0.0
    ensures PnlExact(d, e, p) == PnlExact(d, e, q) <==> p == q
  {
    ExactOrder(d, e, p, q);
    ExactOrder(d, e, q, p);
  }

  lemma HeldFigures(s: Slice, o: Obs)
    requires Sound(s) && Recorded(s) && Ranged(s) && s.active && PositivePrices(s.sc)
    requires o.candle.Some? && Sane(o.candle.value) && !o.taken
    ensures FiguresDecided(s, LocalStep(s, o), o.candle.value)
  {
    var c, r := o.candle.value, s.row.value;
    var k, d, e := Track(s.keys, c), s.sc.Dir(), r.entryPrice.value;
    CourseFacts(s.sc, s.active, DbEntry(s.row), s.keys, c, o.now, o.taken);
    HeldEntry(s, o);
    HeldRow(s, o);
    var q := LocalStep(s, o).row.value;
    ExactEqual(d, e, k.min.value, q.lowest.value);
    ExactEqual(d, e, k.max.value, q.highest.value);
    PnlOrder(d, e, q.lowest.value, r.lowest.value);
    PnlOrder(d, e, r.highest.value, q.highest.value);
  }

  /** Main result: that is so in every run, under any key loss, any restarts and any failed batches, whenever a
      committed cycle evaluates an entered scenario. */
  lemma {:induction false} FiguresReturn(steps: seq<Step>, x: int)
    requires steps != [] && Legal(EMPTY, steps) && SaneFeed(steps)
    requires steps[|steps| - 1].Evaluation? && steps[|steps| - 1].poll.commits && x in steps[|steps| - 1].poll.candles
    requires var w := Exec(EMPTY, steps[..|steps| - 1]);
      x in w.slices && w.slices[x].active && PositivePrices(w.slices[x].sc)
    ensures x in Exec(EMPTY, steps).slices
    ensures FiguresDecided(Exec(EMPTY, steps[..|steps| - 1]).slices[x], Exec(EMPTY, steps).slices[x],
                           steps[|steps| - 1].poll.candles[x])
  {
    var front, p := steps[..|steps| - 1], steps[|steps| - 1].poll;
    var w := Exec(EMPTY, front);
    RunConsistent(front);
    RunRecorded(front, x);
    RunRanged(front, x);
    NextSlice(w, Evaluation(p), x);
    Localized(w, p, x);
    HeldFigures(w.slices[x], ObsOf(w, p, x));
  }

  /** After a recovery the keys hold the extremes of the price points, so the condition can be read from the
      rows: the points and the candle must reach the stored extremes. */
  predicate PointsReach(s: Slice, c: Candle) {
    && s.points != [] && s.row.Some? && s.row.value.highest.Some? && s.row.value.lowest.Some?
    && Max(HighestPrice(s.points), c.high) >= s.row.value.highest.value
    && Min(LowestPrice(s.points), c.low) <= s.row.value.lowest.value
  }

  lemma RecoveredReach(s: Slice, k: Keys, c: Candle)
    requires s.status == Running && s.active && s.row.Some? && s.points != []
    requires s.row.value.highest.Some? && s.row.value.lowest.Some?
    ensures Reaches(Recover(s.(keys := k)).keys, s.row.value, c) <==> PointsReach(s, c)
  {
  }

  /** The same for the first priced cycle after a crash, from the rows alone. */
  lemma {:induction false} FiguresAfterRestart(before: seq<Step>, kept: map<int, Keys>, p: Poll, x: int)
    requires var steps := before + [Restart(kept, true)] + [Evaluation(p)];
      Legal(EMPTY, steps) && SaneFeed(steps) && p.commits && x in p.candles
    requires var w := Exec(EMPTY, before); x in w.slices && w.slices[x].active && PositivePrices(w.slices[x].sc)
    ensures var s := Exec(EMPTY, before).slices[x]; var steps := before + [Restart(kept, true)] + [Evaluation(p)];
      && x in Exec(EMPTY, steps).slices && x in kept
      && FiguresDecided(Recover(s.(keys := kept[x])), Exec(EMPTY, steps).slices[x], p.candles[x])
      && s.row.Some?
      && (Reaches(Recover(s.(keys := kept[x])).keys, s.row.value, p.candles[x]) <==> PointsReach(s, p.candles[x]))
  {
    var middle := before + [Restart(kept, true)];
    var steps := middle + [Evaluation(p)];
    assert steps[..|steps| - 1] == middle && middle[..|middle| - 1] == before;
    var w := Exec(EMPTY, before);
    RunConsistent(before);
    RunRecorded(before, x);
    NextSlice(w, Restart(kept, true), x);
    assert Sound(w.slices[x]);
    RecoveredReach(w.slices[x], kept[x], p.candles[x]);
    FiguresReturn(steps, x);
  }
}
