/** The percentage a closed scenario is stored with, whatever its entry type: it is that of the stored entry
    and exit prices, so it is a profit exactly when the exit lies on the paying side of the booked entry. */
module Payouts {
  import opened Prelude
  import opened Domain
  import opened Evaluation
  import opened Machine
  import opened Audit
  import opened Exclusion
  import opened History
  import opened Records
  import opened Percentages

  /** A closed row: without an entry it is neither a success nor a failure and has no percentage; with one it
      has an exit and, unless the entry price is zero, the percentage of the two. The code cannot tell a level
      of zero from a missing one. */
  predicate Reckoned(sc: Scenario, st: Status, r: Row) {
    && (r.entryPrice.None? ==> r.pnl.None? && st != Success && st != Failed)
    && (r.entryPrice.Some? ==>
          && r.exitPrice.Some? && (r.pnl.Some? <==> r.entryPrice.value != 0.0)
          && (r.pnl.Some? && (st == Expired || r.exitPrice.value != 0.0) ==>
                r.pnl == Some(Pnl(sc.Dir(), r.entryPrice.value, r.exitPrice.value))))
  }

  predicate Accounted(s: Slice) {
    s.status != Running && s.row.Some? ==> Reckoned(s.sc, s.status, s.row.value)
  }

  /** The entry price an evaluation works with is the one on record, or the one it is about to book. */
  lemma EntryOnRecord(s: Slice, c: Candle, now: int, skip: bool)
    requires Idle(s) && Recorded(s) && s.status == Running
    ensures var d := CourseOf(s.sc, s.active, DbEntry(s.row), s.keys, c, now, skip);
      && (d.entered <==> s.active || d.newly)
      && (s.active ==> !d.newly && (d.entry == DbEntry(s.row) || (d.entry.None? && DbEntry(s.row) == Some(0.0))))
      && (d.newly ==> d.entry.Some?) && (!d.entered ==> d.entry.None?)
  {
  }

  /** A close finds an exit price if the scenario has entered. */
  lemma ExitOnRecord(s: Slice, c: Candle, now: int, skip: bool)
    requires Sound(s) && s.status == Running
    ensures var d := CourseOf(s.sc, s.active, DbEntry(s.row), s.keys, c, now, skip); var v := d.verdict;
      && (v.Close? && d.entered ==> v.exit.Some? && (v.status == Expired ==> v.exit.value == c.close))
      && (v.Close? && !d.entered ==> v == Close(Expired, None))
  {
    CourseFacts(s.sc, s.active, DbEntry(s.row), s.keys, c, now, skip);
  }

  lemma ReckonedRow(s: Slice, d: Course, c: Candle, now: int)
    requires s.status == Running && Sound(s) && Recorded(s) && Idle(s) && d.verdict.Close?
    requires d.entered <==> s.active || d.newly
    requires s.active ==> !d.newly && (d.entry == DbEntry(s.row) || (d.entry.None? && DbEntry(s.row) == Some(0.0)))
    requires (d.newly ==> d.entry.Some?) && (!d.entered ==> d.entry.None?)
    requires d.entered ==> d.verdict.exit.Some? && (d.verdict.status == Expired ==> d.verdict.exit.value == c.close)
    requires !d.entered ==> d.verdict == Close(Expired, None)
    ensures Reckoned(s.sc, d.verdict.status, Upsert(s.row, RowOf(s.sc, d, c, now)))
  {
  }

  lemma ObserveReckoned(s: Slice, candle: Option<Candle>, now: int, skip: bool)
    requires Sound(s) && Idle(s) && Recorded(s) && s.status == Running
    ensures var o := Observe(s, candle, now, skip);
      Ends(o) ==>
        o.writes.row.Some? && Reckoned(s.sc, o.writes.mark.value.status, Upsert(s.row, o.writes.row.value))
    ensures var o := Observe(s, candle, now, skip);
      !s.active && !o.newly && Ends(o) ==> o.writes.mark == Some(Closed(Expired))
  {
    if candle.Some? {
      EntryOnRecord(s, candle.value, now, skip);
      ExitOnRecord(s, candle.value, now, skip);
      var d := CourseOf(s.sc, s.active, DbEntry(s.row), s.keys, candle.value, now, skip);
      if d.verdict.Close? { ReckonedRow(s, d, candle.value, now); }
    }
  }

  /** A scenario that is not entered and does not enter has no entry price to reckon with. */
  lemma CancelReckoned(s: Slice, o: Observation, now: int)
    requires Idle(s) && s.status == Running && !s.active
    requires Ends(o) ==> o.writes.mark == Some(Closed(Expired))
    requires o.writes.row.Some? ==> o.writes.row.value.entryPrice.None?
    ensures Accounted(Write(s.(keys := NO_KEYS), o.writes, true, now))
  {
  }

  lemma WriteReckoned(s: Slice, o: Observation, now: int)
    requires Sound(s) && s.status == Running && Lawful(s, o)
    requires Ends(o) ==>
      o.writes.row.Some? && Reckoned(s.sc, o.writes.mark.value.status, Upsert(s.row, o.writes.row.value))
    ensures Accounted(Write(s.(keys := o.keys), o.writes, false, now))
  {
  }

  lemma StepAccounted(s: Slice, slow: bool, candle: Option<Candle>, now: int, skip: bool, cancelled: bool,
                      commits: bool)
    requires Sound(s) && Idle(s) && Recorded(s) && Accounted(s) && (cancelled ==> skip && !s.active)
    ensures Accounted(StepScenario(s, slow, candle, now, skip, cancelled, commits))
  {
    if Selected(s, slow) && commits {
      var o := Observe(s, candle, now, skip);
      ObservationLawful(s, candle, now, skip);
      ObserveReckoned(s, candle, now, skip);
      if cancelled {
        ObserveRecorded(s, candle, now, skip);
        CancelReckoned(s, o, now);
      } else {
        WriteReckoned(s, o, now);
      }
    }
  }

  lemma NextAccounted(w: World, st: Step, x: int)
    requires Consistent(w) && Enabled(w, st) && x in w.slices
    requires Idle(w.slices[x]) && Recorded(w.slices[x]) && Accounted(w.slices[x])
    ensures Accounted(SliceNext(w, st, x))
  {
    assert Sound(w.slices[x]);
    if st.Evaluation? {
      var p := st.poll;
      StepAccounted(w.slices[x], Slow(w), Get(p.candles, x), p.now, Skips(w, p, x), Cancels(w, p, x), p.commits);
    }
  }

  lemma {:induction false} RunAccounted(steps: seq<Step>, x: int)
    requires Legal(EMPTY, steps) && LosesNoEntry(EMPTY, steps, x) && x in Exec(EMPTY, steps).slices
    ensures Accounted(Exec(EMPTY, steps).slices[x])
  {
    var front, st := steps[..|steps| - 1], steps[|steps| - 1];
    var w := Exec(EMPTY, front);
    if x in w.slices {
      NextSlice(w, st, x);
      RunConsistent(front);
      RunIdle(front, x);
      RunRecorded(front, x);
      RunAccounted(front, x);
      NextAccounted(w, st, x);
    } else {
      NewSliceIsFresh(w, st, x);
    }
  }

  predicate Pays(d: Direction, entry: real, exit: real) {
    if d == Long then exit > entry else exit < entry
  }

  /** The percentage on record has the sign the booked prices call for; rounding can only blunt it. */
  predicate Signed(sc: Scenario, r: Row) {
    r.entryPrice.Some? && r.entryPrice.value > 0.0 && r.exitPrice != Some(0.0) ==>
      && r.pnl.Some? && r.exitPrice.Some?
      && (PnlExact(sc.Dir(), r.entryPrice.value, r.exitPrice.value) > 0.0 <==>
            Pays(sc.Dir(), r.entryPrice.value, r.exitPrice.value))
      && (Pays(sc.Dir(), r.entryPrice.value, r.exitPrice.value) ==> r.pnl.value >= 0.0)
      && (!Pays(sc.Dir(), r.entryPrice.value, r.exitPrice.value) ==> r.pnl.value <= 0.0)
  }

  /** Main result, for every entry type and every run but one that lost this entry: a scenario that closed
      after entering at a positive price has its percentage on record, that of the two booked prices, and it
      is a profit exactly when the exit is on the paying side of the entry. */
  lemma {:induction false} ClosedPays(steps: seq<Step>, x: int)
    requires Legal(EMPTY, steps) && LosesNoEntry(EMPTY, steps, x) && x in Exec(EMPTY, steps).slices
    ensures var s := Exec(EMPTY, steps).slices[x];
      s.status != Running ==> s.row.Some? && Reckoned(s.sc, s.status, s.row.value) && Signed(s.sc, s.row.value)
  {
    RunConsistent(steps);
    RunAccounted(steps, x);
    var s := Exec(EMPTY, steps).slices[x];
    assert Sound(s);
    if s.status != Running && s.row.value.entryPrice.Some? && s.row.value.entryPrice.value > 0.0 {
      PnlSign(s.sc.Dir(), s.row.value.entryPrice.value, s.row.value.exitPrice.value);
    }
  }

  // ----- while it is open --------------------------------------------------------------------------

  /** The percentage of price p against an entry; none against a missing or zero one. */
  function PnlAt(sc: Scenario, entry: Option<real>, p: real): Option<real> {
    if entry.Some? && entry.value != 0.0 then Some(Pnl(sc.Dir(), entry.value, p)) else None
  }

  /** Every price point has the percentage of its own price; only one taken at the close of the scenario may
      have that of the exit instead. */
  predicate PointsPay(s: Slice) {
    && (s.active ==>
          s.row.Some? && forall q :: q in s.points ==> q.pnl == PnlAt(s.sc, s.row.value.entryPrice, q.price))
    && (s.status != Running && s.row.Some? && s.row.value.entryPrice.Some? ==>
          forall q :: q in s.points ==>
            q.pnl == PnlAt(s.sc, s.row.value.entryPrice, q.price) ||
            (s.row.value.completedAt == Some(q.at) && q.pnl == s.row.value.pnl))
  }

  /** What an evaluation reports while the position stays open, or as it closes. */
  predicate PayReport(s: Slice, o: Observation, now: int) {
    var w := o.writes;
    (w.point.Some? ==> w.row.Some? && w.point.value.at == now && w.point.value.pnl == w.row.value.pnl) &&
    (w.row.Some? && (s.active || o.newly) && !Ends(o) && w.point.Some? ==>
      w.row.value.pnl == PnlAt(s.sc, Upsert(s.row, w.row.value).entryPrice, w.point.value.price))
  }

  lemma OpenRowPays(s: Slice, c: Candle, now: int, skip: bool)
    requires Idle(s) && Recorded(s) && s.status == Running
    ensures var d := CourseOf(s.sc, s.active, DbEntry(s.row), s.keys, c, now, skip); var r := RowOf(s.sc, d, c, now);
      d.entered && d.verdict.Open? ==> r.pnl == PnlAt(s.sc, Upsert(s.row, r).entryPrice, c.close)
  {
    EntryOnRecord(s, c, now, skip);
  }

  lemma ObservePays(s: Slice, candle: Option<Candle>, now: int, skip: bool)
    requires Idle(s) && Recorded(s) && s.status == Running
    ensures PayReport(s, Observe(s, candle, now, skip), now)
  {
    if candle.Some? {
      ReportOfCourse(s, candle.value, now, skip);
      EntryOnRecord(s, candle.value, now, skip);
      OpenRowPays(s, candle.value, now, skip);
    }
  }

  lemma WritePays(s: Slice, o: Observation, now: int)
    requires Sound(s) && Recorded(s) && Idle(s) && s.status == Running && PointsPay(s)
    requires Lawful(s, o) && RecordReport(s, o) && PayReport(s, o, now)
    requires o.writes.point.Some? ==> s.active || o.newly
    requires Ends(o) ==> o.writes.row.value.completedAt == Some(now)
    ensures PointsPay(Write(s.(keys := o.keys), o.writes, false, now))
  {
  }

  lemma CancelPays(s: Slice, o: Observation, now: int)
    requires Idle(s) && s.status == Running && !s.active && !o.newly && Lawful(s, o) && RecordReport(s, o)
    ensures PointsPay(Write(s.(keys := NO_KEYS), o.writes, true, now))
  {
  }

  lemma ReportDetails(s: Slice, candle: Option<Candle>, now: int, skip: bool)
    requires Idle(s) && Recorded(s) && s.status == Running
    ensures var o := Observe(s, candle, now, skip);
      && (o.writes.point.Some? ==> s.active || o.newly)
      && (Ends(o) ==> o.writes.row.Some? && o.writes.row.value.completedAt == Some(now))
  {
    if candle.Some? {
      ReportOfCourse(s, candle.value, now, skip);
      EntryOnRecord(s, candle.value, now, skip);
    }
  }

  lemma StepPays(s: Slice, slow: bool, candle: Option<Candle>, now: int, skip: bool, cancelled: bool, commits: bool)
    requires Sound(s) && Idle(s) && Recorded(s) && PointsPay(s) && (cancelled ==> skip && !s.active)
    ensures PointsPay(StepScenario(s, slow, candle, now, skip, cancelled, commits))
  {
    if Selected(s, slow) && commits {
      var o := Observe(s, candle, now, skip);
      ObservationLawful(s, candle, now, skip);
      ObserveRecorded(s, candle, now, skip);
      ReportDetails(s, candle, now, skip);
      ObservePays(s, candle, now, skip);
      if cancelled { CancelPays(s, o, now); } else { WritePays(s, o, now); }
    }
  }

  lemma NextPays(w: World, st: Step, x: int)
    requires x in w.slices && Sound(w.slices[x])
    requires Idle(w.slices[x]) && Recorded(w.slices[x]) && PointsPay(w.slices[x])
    ensures PointsPay(SliceNext(w, st, x))
  {
    if st.Evaluation? {
      var p := st.poll;
      StepPays(w.slices[x], Slow(w), Get(p.candles, x), p.now, Skips(w, p, x), Cancels(w, p, x), p.commits);
    }
  }

  /** In every run but one that lost this entry, each price point has the percentage of its own price. */
  lemma {:induction false} RunPointsPay(steps: seq<Step>, x: int)
    requires Legal(EMPTY, steps) && LosesNoEntry(EMPTY, steps, x) && x in Exec(EMPTY, steps).slices
    ensures PointsPay(Exec(EMPTY, steps).slices[x])
  {
    var front, st := steps[..|steps| - 1], steps[|steps| - 1];
    var w := Exec(EMPTY, front);
    if x in w.slices {
      NextSlice(w, st, x);
      RunConsistent(front);
      RunIdle(front, x);
      RunRecorded(front, x);
      RunPointsPay(front, x);
      assert Sound(w.slices[x]);
      NextPays(w, st, x);
    } else {
      NewSliceIsFresh(w, st, x);
    }
  }

  lemma OpenStepPays(s: Slice, o: Obs)
    requires Sound(s) && Idle(s) && Recorded(s) && Selected(s, o.slow) && !o.taken && o.candle.Some?
    ensures var t := LocalStep(s, o);
      t.active ==>
        && t.row.Some? && t.row.value.evaluatedAt == o.now
        && t.row.value.pnl == PnlAt(s.sc, t.row.value.entryPrice, o.candle.value.close)
  {
    OpenRowPays(s, o.candle.value, o.now, o.taken);
    EntryOnRecord(s, o.candle.value, o.now, o.taken);
    StepOfCourse(s, o);
  }

  /** Main result: the percentage stored for an open position is that of the latest close, whatever Redis and
      earlier batches lost. */
  lemma {:induction false} OpenPays(steps: seq<Step>, x: int)
    requires steps != [] && Legal(EMPTY, steps) && LosesNoEntry(EMPTY, steps, x)
    requires steps[|steps| - 1].Evaluation? && steps[|steps| - 1].poll.commits && x in steps[|steps| - 1].poll.candles
    requires x in Exec(EMPTY, steps).slices && Exec(EMPTY, steps).slices[x].active
    ensures var t, p := Exec(EMPTY, steps).slices[x], steps[|steps| - 1].poll;
      && t.row.Some? && t.row.value.evaluatedAt == p.now
      && t.row.value.pnl == PnlAt(t.sc, t.row.value.entryPrice, p.candles[x].close)
  {
    var front, p := steps[..|steps| - 1], steps[|steps| - 1].poll;
    var w := Exec(EMPTY, front);
    RunConsistent(front);
    RunIdle(front, x);
    RunRecorded(front, x);
    NextSlice(w, Evaluation(p), x);
    SameScenario(w, Evaluation(p), x);
    Localized(w, p, x);
    StaysOrEnters(w, p, x);
    OpenStepPays(w.slices[x], ObsOf(w, p, x));
  }

  /** A scenario that is active after a cycle was selected in it and not beaten. */
  lemma StaysOrEnters(w: World, p: Poll, x: int)
    requires Consistent(w) && Lists(w, p.order) && p.commits && x in w.slices && SliceAfter(w, p, x).active
    ensures Selected(w.slices[x], Slow(w)) && !ObsOf(w, p, x).taken
  {
    Localized(w, p, x);
    assert Sound(w.slices[x]);
    if Picked(w, x) { NewlyWins(w, p, x); }
  }

  /** For an entry at the scenario's own point, in every run: a success pays and a failure costs, exactly at the
      stored exit price, and weakly so in the rounded percentage, which is on record unless this entry was lost. */
  lemma {:induction false} ExitSigns(steps: seq<Step>, x: int)
    requires Legal(EMPTY, steps) && x in Exec(EMPTY, steps).slices
    requires Anchorable(Exec(EMPTY, steps).slices[x].sc)
    ensures var s := Exec(EMPTY, steps).slices[x];
      && (s.status == Success || s.status == Failed ==> s.row.Some?)
      && (s.status == Success ==>
            IsGain(s.sc, s.row.value.exitPrice) && (s.row.value.pnl.Some? ==> s.row.value.pnl.value >= 0.0))
      && (s.status == Failed ==>
            IsLoss(s.sc, s.row.value.exitPrice) && (s.row.value.pnl.Some? ==> s.row.value.pnl.value <= 0.0))
      && (LosesNoEntry(EMPTY, steps, x) && (s.status == Success || s.status == Failed) ==> s.row.value.pnl.Some?)
  {
    RunAnchored(steps, x);
    if LosesNoEntry(EMPTY, steps, x) { RunAccounted(steps, x); }
    var s := Exec(EMPTY, steps).slices[x];
    if (s.status == Success || s.status == Failed) && s.row.value.pnl.Some? { StoredSign(s); }
  }
}
