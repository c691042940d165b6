/** Mirror symmetry: reflect every price at a point and swap long with short, and the whole
    machine takes the same decisions at the same times. */
module Mirror {
  import opened Prelude
  import opened Domain
  import opened Evaluation
  import opened Machine
  import opened Audit
  import opened Exclusion

  // ----- the reflection -------------------------------------------------------------------

  function R(c: real, p: real): real {
    2.0 * c - p
  }

  function ROpt(c: real, p: Option<real>): Option<real> {
    if p.Some? then Some(R(c, p.value)) else None
  }

  function RSeq(c: real, ps: seq<real>): (qs: seq<real>)
    ensures |qs| == |ps| && forall i :: 0 <= i < |ps| ==> qs[i] == R(c, ps[i])
  {
    seq(|ps|, i requires 0 <= i < |ps| => R(c, ps[i]))
  }

  function SwapDirection(d: Direction): Direction {
    match d case Long => Short case Short => Long case Neutral => Neutral
  }

  function SwapEntry(t: EntryType): EntryType {
    match t
    case BreakUp => BreakDown
    case BreakDown => BreakUp
    case ConsolidationUp => ConsolidationDown
    case ConsolidationDown => ConsolidationUp
    case _ => t
  }

  /** Exact levels and a long or short direction. */
  predicate Reflectable(sc: Scenario) {
    sc.priceType == FixNumber && (sc.direction == Some(Long) || sc.direction == Some(Short))
  }

  function RScenario(c: real, sc: Scenario): Scenario
    requires Reflectable(sc)
  {
    sc.(direction := Some(SwapDirection(sc.direction.value)),
        entryPoint := ROpt(c, sc.entryPoint),
        entryType := SwapEntry(sc.entryType),
        takeProfits := RSeq(c, sc.takeProfits),
        stopLoss := ROpt(c, sc.stopLoss))
  }

  function RCandle(c: real, k: Candle): Candle {
    Candle(R(c, k.open), R(c, k.low), R(c, k.high), R(c, k.close))
  }

  function RCandleOpt(c: real, k: Option<Candle>): Option<Candle> {
    if k.Some? then Some(RCandle(c, k.value)) else None
  }

  function REvent(c: real, e: Event): Event {
    e.(price := ROpt(c, e.price))
  }

  function RLog(c: real, es: seq<Event>): (fs: seq<Event>)
    ensures |fs| == |es| && forall i :: 0 <= i < |es| ==> fs[i] == REvent(c, es[i])
  {
    seq(|es|, i requires 0 <= i < |es| => REvent(c, es[i]))
  }

  lemma RLogConcat(c: real, a: seq<Event>, b: seq<Event>)
    ensures RLog(c, a + b) == RLog(c, a) + RLog(c, b)
  {
  }

  // ----- the relation between a state and its image ------------------------------------------

  /** All decision-making keys agree; the extremes and the entry price may be anything. */
  predicate KeysImage(k: Keys, l: Keys) {
    && k.entered == l.entered && k.consolStart == l.consolStart && k.lastHist == l.lastHist
    && k.bestTpIdx == l.bestTpIdx && k.first == l.first && k.gapStart == l.gapStart
  }

  predicate RowImage(c: real, r: Row, q: Row) {
    && q.result == r.result && q.hitTpIdx == r.hitTpIdx && q.enteredAt == r.enteredAt
    && q.evaluatedAt == r.evaluatedAt && q.completedAt == r.completedAt
    && q.hitTp == ROpt(c, r.hitTp) && q.hitSl == ROpt(c, r.hitSl)
    && q.entryPrice == ROpt(c, r.entryPrice) && q.exitPrice == ROpt(c, r.exitPrice)
  }

  predicate RowOptImage(c: real, r: Option<Row>, q: Option<Row>) {
    r.Some? == q.Some? && (r.Some? ==> RowImage(c, r.value, q.value))
  }

  predicate PointImage(c: real, p: PricePoint, q: PricePoint) {
    q.at == p.at && q.price == R(c, p.price)
  }

  predicate PointsImage(c: real, ps: seq<PricePoint>, qs: seq<PricePoint>) {
    |ps| == |qs| && forall i :: 0 <= i < |ps| ==> PointImage(c, ps[i], qs[i])
  }

  /** Same status, same entry, exit and event times, same event types and target indices, mirrored prices. */
  ghost predicate Image(c: real, s: Slice, t: Slice) {
    && Reflectable(s.sc) && t.sc == RScenario(c, s.sc)
    && t.status == s.status && t.active == s.active
    && RowOptImage(c, s.row, t.row)
    && t.log == RLog(c, s.log)
    && PointsImage(c, s.points, t.points)
    && KeysImage(s.keys, t.keys)
  }

  // ----- one evaluation --------------------------------------------------------------------------

  lemma {:induction false} BestReachedImage(c: real, sc: Scenario, tps: seq<real>, qs: seq<real>, k: Candle)
    requires Reflectable(sc) && |qs| == |tps| && forall i :: 0 <= i < |tps| ==> qs[i] == R(c, tps[i])
    ensures BestReached(RScenario(c, sc), qs, RCandle(c, k)) == BestReached(sc, tps, k)
  {
    if tps != [] {
      assert Reached(RScenario(c, sc), qs[|tps| - 1], RCandle(c, k)) <==> Reached(sc, tps[|tps| - 1], k);
      BestReachedImage(c, sc, tps[..|tps| - 1], qs[..|tps| - 1], k);
    }
  }

  predicate VerdictImage(c: real, v: Verdict, u: Verdict) {
    if v.Close? then u == Close(v.status, ROpt(c, v.exit)) else u.Open?
  }

  predicate CourseImage(c: real, d: Course, e: Course) {
    && e.entered == d.entered && e.newly == d.newly && e.due == d.due
    && (d.newly ==> e.entry == ROpt(c, d.entry))
    && KeysImage(d.keys, e.keys)
    && e.hit == Hit(ROpt(c, d.hit.price), d.hit.index, d.hit.previous)
    && VerdictImage(c, d.verdict, e.verdict)
  }

  lemma RulesImage(c: real, sc: Scenario, m: Candle)
    requires Reflectable(sc)
    ensures Consolidating(RScenario(c, sc)) <==> Consolidating(sc)
    ensures Consolidating(sc) ==> (InZone(RScenario(c, sc), R(c, m.close)) <==> InZone(sc, m.close))
    ensures !Consolidating(sc) ==> (Touches(RScenario(c, sc), RCandle(c, m)) <==> Touches(sc, m))
    ensures EntryPriceOn(RScenario(c, sc), RCandle(c, m)) == R(c, EntryPriceOn(sc, m))
  {
  }

  lemma ConfirmImage(c: real, sc: Scenario, k: Keys, l: Keys, m: Candle, now: int)
    requires Reflectable(sc) && KeysImage(k, l)
    ensures var a, b := ConfirmEntry(sc, k, m, now), ConfirmEntry(RScenario(c, sc), l, RCandle(c, m), now);
      && a.entered == b.entered && b.price == ROpt(c, a.price) && KeysImage(a.keys, b.keys)
      && (!k.entered && a.entered ==> a.price.Some?)
      && a.keys.bestTp == k.bestTp && b.keys.bestTp == l.bestTp && a.keys.bestTpIdx == k.bestTpIdx
      && a.keys.lastHist == k.lastHist && b.keys.lastHist == l.lastHist
  {
    RulesImage(c, sc, m);
  }

  lemma EntryImage(c: real, sc: Scenario, active: bool, a: Option<real>, b: Option<real>, k: Keys, l: Keys,
                   m: Candle, now: int, skip: bool)
    requires Reflectable(sc) && KeysImage(k, l)
    ensures var e := EntryPhaseOf(sc, active, a, k, m, now, skip);
            var f := EntryPhaseOf(RScenario(c, sc), active, b, l, RCandle(c, m), now, skip);
      && e.entered == f.entered && e.newly == f.newly && KeysImage(e.keys, f.keys)
      && (e.newly ==> f.entry == ROpt(c, e.entry))
      && e.keys.bestTp == k.bestTp && f.keys.bestTp == l.bestTp && e.keys.bestTpIdx == k.bestTpIdx
      && e.keys.lastHist == k.lastHist && f.keys.lastHist == l.lastHist
  {
    ConfirmImage(c, sc, k.(gapStart := None, entered := k.entered || active),
                 l.(gapStart := None, entered := l.entered || active), m, now);
  }

  function RHit(c: real, h: Hit): Hit {
    Hit(ROpt(c, h.price), h.index, h.previous)
  }

  lemma HitImage(c: real, sc: Scenario, k: Keys, l: Keys, m: Candle)
    requires Reflectable(sc) && k.bestTp.None? && l.bestTp.None? && k.bestTpIdx.None? && l.bestTpIdx.None?
    ensures BestTp(RScenario(c, sc), l, RCandle(c, m)) == RHit(c, BestTp(sc, k, m))
  {
    BestReachedImage(c, sc, sc.takeProfits, RScenario(c, sc).takeProfits, m);
  }

  lemma SettleImage(c: real, sc: Scenario, entered: bool, h: Hit, m: Candle, now: int)
    requires Reflectable(sc)
    ensures VerdictImage(c, Settle(sc, entered, h, m, now),
                         Settle(RScenario(c, sc), entered, RHit(c, h), RCandle(c, m), now))
  {
    assert StopTouched(RScenario(c, sc), RCandle(c, m)) <==> StopTouched(sc, m);
  }

  lemma EvaluationImage(c: real, s: Slice, t: Slice, m: Candle, now: int, skip: bool)
    requires Image(c, s, t) && Sound(s) && Sound(t)
    ensures CourseImage(c, CourseOf(s.sc, s.active, DbEntry(s.row), s.keys, m, now, skip),
                        CourseOf(t.sc, t.active, DbEntry(t.row), t.keys, RCandle(c, m), now, skip))
  {
    EntryImage(c, s.sc, s.active, DbEntry(s.row), DbEntry(t.row), s.keys, t.keys, m, now, skip);
    var e := EntryPhaseOf(s.sc, s.active, DbEntry(s.row), s.keys, m, now, skip);
    var f := EntryPhaseOf(t.sc, t.active, DbEntry(t.row), t.keys, RCandle(c, m), now, skip);
    var k := if e.entered then Track(e.keys, m) else e.keys;
    var l := if f.entered then Track(f.keys, RCandle(c, m)) else f.keys;
    HitImage(c, s.sc, k, l, m);
    SettleImage(c, s.sc, e.entered, if e.entered then BestTp(s.sc, k, m) else Hit(None, 0, 0), m, now);
  }

  lemma TpHitsImage(c: real, sc: Scenario, entered: bool, h: Hit, now: int)
    requires Reflectable(sc)
    ensures TpHitEvents(RScenario(c, sc), entered, RHit(c, h), now) == RLog(c, TpHitEvents(sc, entered, h, now))
  {
  }

  lemma ClosingImage(c: real, v: Verdict, u: Verdict, now: int)
    requires VerdictImage(c, v, u)
    ensures ClosingEvents(u, now) == RLog(c, ClosingEvents(v, now))
  {
  }

  lemma EventsImage(c: real, sc: Scenario, gapStart: Option<int>, d: Course, e: Course, now: int)
    requires Reflectable(sc) && CourseImage(c, d, e)
    ensures EventsOf(RScenario(c, sc), gapStart, e, now) == RLog(c, EventsOf(sc, gapStart, d, now))
  {
    var gap := if gapStart.Some? && d.entered then [Event(GapEnd(gapStart.value), None, now)] else [];
    var ins := if d.newly then [Event(Entered, d.entry, now)] else [];
    var tps := TpHitEvents(sc, d.entered, d.hit, now);
    var end := ClosingEvents(d.verdict, now);
    TpHitsImage(c, sc, d.entered, d.hit, now);
    ClosingImage(c, d.verdict, e.verdict, now);
    RLogConcat(c, gap, ins);
    RLogConcat(c, gap + ins, tps);
    RLogConcat(c, gap + ins + tps, end);
    assert RLog(c, gap) == if gapStart.Some? && e.entered then [Event(GapEnd(gapStart.value), None, now)] else [];
    assert RLog(c, ins) == if e.newly then [Event(Entered, e.entry, now)] else [];
  }

  /** What one observation writes, mirrored. */
  ghost predicate WritesImage(c: real, w: Writes, v: Writes) {
    && RowOptImage(c, w.row, v.row)
    && w.point.Some? == v.point.Some? && (w.point.Some? ==> PointImage(c, w.point.value, v.point.value))
    && v.mark == w.mark && v.events == RLog(c, w.events)
  }

  lemma ObservationImage(c: real, s: Slice, t: Slice, m: Option<Candle>, now: int, skip: bool)
    requires Image(c, s, t) && Sound(s) && Sound(t)
    ensures var o, q := Observe(s, m, now, skip), Observe(t, RCandleOpt(c, m), now, skip);
      KeysImage(o.keys, q.keys) && WritesImage(c, o.writes, q.writes) && q.newly == o.newly
  {
    if m.Some? {
      var d := CourseOf(s.sc, s.active, DbEntry(s.row), s.keys, m.value, now, skip);
      var e := CourseOf(t.sc, t.active, DbEntry(t.row), t.keys, RCandle(c, m.value), now, skip);
      EvaluationImage(c, s, t, m.value, now, skip);
      EventsImage(c, s.sc, s.keys.gapStart, d, e, now);
      ConclusionImage(c, s.sc, s.keys.gapStart, d, e, m.value, now);
    }
  }

  lemma ConclusionImage(c: real, sc: Scenario, gapStart: Option<int>, d: Course, e: Course, m: Candle, now: int)
    requires Reflectable(sc) && CourseImage(c, d, e)
    ensures var a, b := Conclude(sc, gapStart, d, m, now), Conclude(RScenario(c, sc), gapStart, e, RCandle(c, m), now);
      && KeysImage(a.keys, b.keys) && RowImage(c, a.report.row, b.report.row)
      && a.report.point.Some? == b.report.point.Some?
      && (a.report.point.Some? ==> PointImage(c, a.report.point.value, b.report.point.value))
      && a.report.mark == b.report.mark && a.report.newly == b.report.newly && a.report.dirty == b.report.dirty
      && b.report.events == RLog(c, a.report.events)
  {
    EventsImage(c, sc, gapStart, d, e, now);
  }

  // ----- one cycle ----------------------------------------------------------------------------------

  lemma UpsertImage(c: real, a: Option<Row>, b: Option<Row>, r: Row, q: Row)
    requires RowOptImage(c, a, b) && RowImage(c, r, q)
    ensures RowImage(c, Upsert(a, r), Upsert(b, q))
  {
  }

  lemma InsertImage(c: real, ps: seq<PricePoint>, qs: seq<PricePoint>, p: PricePoint, q: PricePoint)
    requires PointsImage(c, ps, qs) && PointImage(c, p, q)
    ensures PointsImage(c, InsertPoint(ps, p), InsertPoint(qs, q))
  {
    if x :| x in ps && x.at == p.at {
      var i :| 0 <= i < |ps| && ps[i] == x;
      assert PointImage(c, ps[i], qs[i]) && qs[i] in qs;
    }
    if y :| y in qs && y.at == q.at {
      var i :| 0 <= i < |qs| && qs[i] == y;
      assert PointImage(c, ps[i], qs[i]) && ps[i] in ps;
    }
  }

  lemma WriteImage(c: real, s: Slice, t: Slice, w: Writes, v: Writes, cancelled: bool, now: int)
    requires Image(c, s, t) && WritesImage(c, w, v)
    ensures Image(c, Write(s, w, cancelled, now), Write(t, v, cancelled, now))
  {
    var tail := if cancelled then [Event(SiblingCancelled, None, now)] else [];
    RLogConcat(c, s.log, w.events);
    RLogConcat(c, s.log + w.events, tail);
    assert RLog(c, tail) == tail;
    if w.point.Some? { InsertImage(c, s.points, t.points, w.point.value, v.point.value); }
    if w.row.Some? { UpsertImage(c, s.row, t.row, w.row.value, v.row.value); }
    RowAfterImage(c, s, t, w, v, cancelled, now);
  }

  lemma RowAfterImage(c: real, s: Slice, t: Slice, w: Writes, v: Writes, cancelled: bool, now: int)
    requires RowOptImage(c, s.row, t.row) && RowOptImage(c, w.row, v.row)
    ensures RowOptImage(c, Write(s, w, cancelled, now).row, Write(t, v, cancelled, now).row)
  {
    var a := if w.row.Some? then Some(Upsert(s.row, w.row.value)) else s.row;
    var b := if v.row.Some? then Some(Upsert(t.row, v.row.value)) else t.row;
    if w.row.Some? { UpsertImage(c, s.row, t.row, w.row.value, v.row.value); }
    UpsertImage(c, a, b, CancelledRow(now), CancelledRow(now));
  }

  lemma KeyedImage(c: real, s: Slice, t: Slice, k: Keys, l: Keys)
    requires Image(c, s, t) && KeysImage(k, l)
    ensures Image(c, s.(keys := k), t.(keys := l))
  {
  }

  lemma StepImage(c: real, s: Slice, t: Slice, slow: bool, m: Option<Candle>, now: int, skip: bool,
                  cancelled: bool, commits: bool)
    requires Image(c, s, t) && Sound(s) && Sound(t)
    ensures Image(c, StepScenario(s, slow, m, now, skip, cancelled, commits),
                  StepScenario(t, slow, RCandleOpt(c, m), now, skip, cancelled, commits))
  {
    if Selected(s, slow) {
      ObservationImage(c, s, t, m, now, skip);
      var o, q := Observe(s, m, now, skip), Observe(t, RCandleOpt(c, m), now, skip);
      var k, l := if cancelled then NO_KEYS else o.keys, if cancelled then NO_KEYS else q.keys;
      KeyedImage(c, s, t, k, l);
      WriteImage(c, s.(keys := k), t.(keys := l), o.writes, q.writes, cancelled, now);
    }
  }

  // ----- the whole machine ----------------------------------------------------------------------------

  ghost predicate WorldImage(c: real, w: World, v: World) {
    && v.cycle == w.cycle && v.signals == w.signals && v.slices.Keys == w.slices.Keys
    && forall x :: x in w.slices ==> Image(c, w.slices[x], v.slices[x])
  }

  function RPoll(c: real, p: Poll): Poll {
    p.(candles := map x | x in p.candles :: RCandle(c, p.candles[x]))
  }

  predicate AllReflectable(scs: map<int, Scenario>) {
    forall x :: x in scs ==> Reflectable(scs[x])
  }

  predicate KeptImage(kept: map<int, Keys>, lept: map<int, Keys>) {
    kept.Keys == lept.Keys && forall x :: x in kept ==> KeysImage(kept[x], lept[x])
  }

  /** The same step on the mirrored market. */
  ghost predicate StepsImage(c: real, st: Step, ts: Step) {
    match st
    case Insert(g, scs) => AllReflectable(scs) && ts == Insert(g, map x | x in scs :: RScenario(c, scs[x]))
    case Evaluation(p) => ts == Evaluation(RPoll(c, p))
    case LoadFails => ts == LoadFails
    case Lose(kept) => ts.Lose? && KeptImage(kept, ts.kept)
    case Restart(kept, recovers) => ts.Restart? && ts.recovers == recovers && KeptImage(kept, ts.kept)
  }

  lemma PickedImage(c: real, w: World, v: World)
    requires WorldImage(c, w, v)
    ensures forall x :: Picked(w, x) <==> Picked(v, x)
    ensures Busy(w) == Busy(v) && (Slow(w) <==> Slow(v))
  {
    forall x ensures Picked(w, x) <==> Picked(v, x) {
      if x in w.slices { assert Image(c, w.slices[x], v.slices[x]); }
    }
    BusyWithin(c, w, v);
  }

  lemma BusyWithin(c: real, w: World, v: World)
    requires WorldImage(c, w, v) && forall x :: Picked(w, x) <==> Picked(v, x)
    ensures Busy(w) == Busy(v)
  {
    forall g ensures g in Busy(w) <==> g in Busy(v) {
      if x :| x in w.slices && Picked(w, x) && w.slices[x].active && w.slices[x].sc.signalId == g {
        assert Image(c, w.slices[x], v.slices[x]) && Picked(v, x);
      }
      if x :| x in v.slices && Picked(v, x) && v.slices[x].active && v.slices[x].sc.signalId == g {
        assert Image(c, w.slices[x], v.slices[x]) && Picked(w, x);
      }
    }
  }

  lemma CandidateImage(c: real, w: World, v: World, x: int, p: Poll)
    requires WorldImage(c, w, v) && AllSound(w) && AllSound(v)
    ensures Candidate(w, x, p) <==> Candidate(v, x, RPoll(c, p))
  {
    PickedImage(c, w, v);
    if Picked(w, x) {
      ObservationImage(c, w.slices[x], v.slices[x], Get(p.candles, x), p.now, false);
      assert Get(RPoll(c, p).candles, x) == RCandleOpt(c, Get(p.candles, x));
    }
  }

  lemma {:induction false} WinnersImage(c: real, w: World, v: World, p: Poll, order: seq<int>)
    requires WorldImage(c, w, v) && AllSound(w) && AllSound(v)
    ensures Winners(w, p, order) == Winners(v, RPoll(c, p), order)
  {
    if order != [] {
      var x := order[|order| - 1];
      WinnersImage(c, w, v, p, order[..|order| - 1]);
      CandidateImage(c, w, v, x, p);
    }
  }

  lemma LosesImage(c: real, w: World, v: World, p: Poll, x: int)
    requires WorldImage(c, w, v) && AllSound(w) && AllSound(v) && x in w.slices
    ensures Loses(w, p, x) <==> Loses(v, RPoll(c, p), x)
  {
    assert Image(c, w.slices[x], v.slices[x]);
    WinnersImage(c, w, v, p, p.order);
  }

  lemma SkipsImage(c: real, w: World, v: World, p: Poll, x: int)
    requires WorldImage(c, w, v) && AllSound(w) && AllSound(v) && x in w.slices
    ensures Skips(w, p, x) <==> Skips(v, RPoll(c, p), x)
  {
    assert Image(c, w.slices[x], v.slices[x]);
    LosesImage(c, w, v, p, x);
    PickedImage(c, w, v);
  }

  lemma CancelsImage(c: real, w: World, v: World, p: Poll, x: int)
    requires WorldImage(c, w, v) && AllSound(w) && AllSound(v) && x in w.slices
    ensures Cancels(w, p, x) <==> Cancels(v, RPoll(c, p), x)
  {
    assert Image(c, w.slices[x], v.slices[x]);
    LosesImage(c, w, v, p, x);
    PickedImage(c, w, v);
  }

  lemma CandleImage(c: real, p: Poll, x: int)
    ensures Get(RPoll(c, p).candles, x) == RCandleOpt(c, Get(p.candles, x))
  {
  }

  lemma CycleSliceImage(c: real, w: World, v: World, p: Poll, x: int)
    requires WorldImage(c, w, v) && AllSound(w) && AllSound(v) && x in w.slices
    ensures Image(c, SliceAfter(w, p, x), SliceAfter(v, RPoll(c, p), x))
  {
    SkipsImage(c, w, v, p, x);
    CancelsImage(c, w, v, p, x);
    CandleImage(c, p, x);
    PickedImage(c, w, v);
    assert Image(c, w.slices[x], v.slices[x]);
    StepImage(c, w.slices[x], v.slices[x], Slow(w), Get(p.candles, x), p.now,
              Skips(w, p, x), Cancels(w, p, x), p.commits);
  }

  lemma ClosesImage(c: real, w: World, v: World, p: Poll, x: int)
    requires WorldImage(c, w, v) && AllSound(w) && AllSound(v)
    ensures ClosesActive(w, p, x) <==> ClosesActive(v, RPoll(c, p), x)
  {
    PickedImage(c, w, v);
    if Picked(w, x) {
      SkipsImage(c, w, v, p, x);
      CandleImage(c, p, x);
      assert Image(c, w.slices[x], v.slices[x]);
      ObservationImage(c, w.slices[x], v.slices[x], Get(p.candles, x), p.now, Skips(w, p, x));
    }
  }

  lemma SignalImage(c: real, w: World, v: World, p: Poll, g: int)
    requires WorldImage(c, w, v) && AllSound(w) && AllSound(v) && g in w.signals
    ensures SignalAfter(w, p, g) == SignalAfter(v, RPoll(c, p), g)
  {
    WinnersImage(c, w, v, p, p.order);
    var m := Winners(w, p, p.order);
    var s := if g in m then Signal(true, Some(m[g])) else w.signals[g];
    if s.activeScenario.Some? {
      ClosesImage(c, w, v, p, s.activeScenario.value);
      var x := s.activeScenario.value;
      if x in w.slices { assert Image(c, w.slices[x], v.slices[x]); }
    }
  }

  lemma {:induction false} CycleImage(c: real, w: World, v: World, p: Poll)
    requires WorldImage(c, w, v) && AllSound(w) && AllSound(v)
    ensures WorldImage(c, Cycle(w, p), Cycle(v, RPoll(c, p)))
  {
    forall x | x in w.slices ensures Image(c, SliceAfter(w, p, x), SliceAfter(v, RPoll(c, p), x)) {
      CycleSliceImage(c, w, v, p, x);
    }
    forall g | g in w.signals ensures SignalAfter(w, p, g) == SignalAfter(v, RPoll(c, p), g) {
      SignalImage(c, w, v, p, g);
    }
  }

  lemma {:induction false} LatestImage(c: real, ps: seq<PricePoint>, qs: seq<PricePoint>)
    requires ps != [] && PointsImage(c, ps, qs)
    ensures LatestAt(ps) == LatestAt(qs)
  {
    assert PointImage(c, ps[|ps| - 1], qs[|qs| - 1]);
    if |ps| > 1 { LatestImage(c, ps[..|ps| - 1], qs[..|qs| - 1]); }
  }

  lemma RecoverImage(c: real, s: Slice, t: Slice)
    requires Image(c, s, t)
    ensures Image(c, Recover(s), Recover(t))
  {
    if s.points != [] { LatestImage(c, s.points, t.points); }
  }

  lemma KeysStepImage(c: real, w: World, v: World, st: Step, ts: Step, x: int)
    requires WorldImage(c, w, v) && StepsImage(c, st, ts) && x in w.slices && (st.Lose? || st.Restart?)
    ensures Image(c, SliceNext(w, st, x), SliceNext(v, ts, x))
  {
    var s, t := w.slices[x], v.slices[x];
    assert Image(c, s, t);
    if x in st.kept {
      assert KeysImage(st.kept[x], ts.kept[x]);
      RecoverImage(c, s.(keys := st.kept[x]), t.(keys := ts.kept[x]));
    } else {
      RecoverImage(c, s, t);
    }
  }

  lemma InsertStepImage(c: real, w: World, v: World, st: Step, ts: Step)
    requires WorldImage(c, w, v) && StepsImage(c, st, ts) && st.Insert?
    ensures WorldImage(c, Next(w, st), Next(v, ts))
  {
    forall x | x in Next(w, st).slices ensures Image(c, Next(w, st).slices[x], Next(v, ts).slices[x]) {
      if x in w.slices {
        assert Image(c, w.slices[x], v.slices[x]);
      } else {
        assert RLog(c, []) == [];
      }
    }
  }

  lemma NextImage(c: real, w: World, v: World, st: Step, ts: Step)
    requires WorldImage(c, w, v) && AllSound(w) && AllSound(v) && StepsImage(c, st, ts)
    ensures WorldImage(c, Next(w, st), Next(v, ts))
  {
    match st {
      case Insert(_, _) => InsertStepImage(c, w, v, st, ts);
      case Evaluation(p) => CycleImage(c, w, v, p);
      case LoadFails =>
      case _ =>
        forall x | x in w.slices ensures Image(c, SliceNext(w, st, x), SliceNext(v, ts, x)) {
          KeysStepImage(c, w, v, st, ts, x);
        }
    }
  }

  ghost predicate RunsImage(c: real, steps: seq<Step>, mirrored: seq<Step>) {
    |steps| == |mirrored| && forall i :: 0 <= i < |steps| ==> StepsImage(c, steps[i], mirrored[i])
  }

  /** Main result: a run and its mirror image go through mirror-image states: cycle by cycle the same
      statuses, entries, exits, event types, times and target indices, at mirrored prices. The mirrored
      run lists its rows in the same order and loses the same keys; the values of the price keys that
      survive play no part. */
  lemma {:induction false} MirrorSymmetry(c: real, steps: seq<Step>, mirrored: seq<Step>)
    requires Legal(EMPTY, steps) && Legal(EMPTY, mirrored) && RunsImage(c, steps, mirrored)
    ensures WorldImage(c, Exec(EMPTY, steps), Exec(EMPTY, mirrored))
  {
    if steps != [] {
      var n := |steps| - 1;
      MirrorSymmetry(c, steps[..n], mirrored[..n]);
      RunConsistent(steps[..n]);
      RunConsistent(mirrored[..n]);
      NextImage(c, Exec(EMPTY, steps[..n]), Exec(EMPTY, mirrored[..n]), steps[n], mirrored[n]);
    }
  }
}
