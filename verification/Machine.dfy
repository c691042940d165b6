/** The evaluator as a state machine: one joined record per scenario, one step per
    evaluation cycle or environment event, and runs of such steps. */
module Machine {
  import opened Prelude
  import opened Domain
  import opened Evaluation

  const SLOW_CYCLES := 6

  /** Everything the database and Redis hold about one scenario: its scenarios row, its
      scenario_results row, its part of scenario_events and scenario_price_points in
      insertion order, and its eval:* keys. */
  datatype Slice = Slice(
    sc: Scenario,
    status: Status,
    active: bool,
    row: Option<Row>,
    log: seq<Event>,
    points: seq<PricePoint>,
    keys: Keys)

  datatype World = World(cycle: nat, signals: map<int, Signal>, slices: map<int, Slice>)

  const EMPTY := World(0, map[], map[])

  // ----- one scenario in one cycle -------------------------------------------------

  /** The status filter of the cycle's SELECT. */
  predicate Selected(s: Slice, slow: bool) {
    s.status == Running && (slow || s.active)
  }

  /** What one evaluation contributes to the batch. */
  datatype Writes = Writes(row: Option<Row>, point: Option<PricePoint>, mark: Option<Mark>, events: seq<Event>)

  datatype Observation = Observation(keys: Keys, writes: Writes, newly: bool)

  function DbEntry(row: Option<Row>): Option<real> {
    if row.Some? then row.value.entryPrice else None
  }

  function EvaluateSlice(s: Slice, c: Candle, now: int, skip: bool): Evaluated {
    Evaluate(s.sc, s.active, DbEntry(s.row), s.keys, c, now, skip)
  }

  /** Evaluate the scenario, or note a data gap when there is no price. */
  function Observe(s: Slice, candle: Option<Candle>, now: int, skip: bool): Observation {
    match candle
    case None =>
      var opens := s.active && s.keys.gapStart.None?;
      Observation(
        if opens then s.keys.(gapStart := Some(now)) else s.keys,
        Writes(None, None, None, if opens then [Event(GapStart, None, now)] else []),
        false)
    case Some(c) =>
      var e := EvaluateSlice(s, c, now, skip);
      var r := e.report;
      Observation(e.keys, Writes(if r.dirty then Some(r.row) else None, r.point, r.mark, r.events), r.newly)
  }

  /** INSERT ... ON CONFLICT DO UPDATE on scenario_results. */
  function Upsert(stored: Option<Row>, r: Row): Row {
    if stored.None? then r
    else
      var o := stored.value;
      r.(hitTpIdx := Coalesce(r.hitTpIdx, o.hitTpIdx),
         hitSl := Coalesce(o.hitSl, r.hitSl),
         enteredAt := Coalesce(o.enteredAt, r.enteredAt),
         entryPrice := Coalesce(o.entryPrice, r.entryPrice),
         exitPrice := Coalesce(o.exitPrice, r.exitPrice),
         completedAt := Coalesce(o.completedAt, r.completedAt),
         highest := if r.highest.None? then o.highest
                    else Some(Max(Coalesce(o.highest, Some(0.0)).value, r.highest.value)),
         lowest := if r.lowest.None? then o.lowest
                   else Some(Min(Coalesce(o.lowest, Some(9000000000000000.0)).value, r.lowest.value)))
  }

  /** INSERT ... ON CONFLICT DO NOTHING on scenario_price_points. */
  function InsertPoint(ps: seq<PricePoint>, p: PricePoint): seq<PricePoint> {
    if exists q :: q in ps && q.at == p.at then ps else ps + [p]
  }

  function CancelledRow(now: int): Row {
    Row(Cancelled, None, None, None, None, None, None, None, now, None, None, Some(now), None, None)
  }

  datatype ScState = ScState(status: Status, active: bool)

  /** The three UPDATEs of scenarios, in batch order: enter, close, cancel. */
  function Marked(st: ScState, mark: Option<Mark>, cancelled: bool): ScState {
    var s1 := if mark == Some(Activated) && st.status == Running then st.(active := true) else st;
    var s2 := if mark.Some? && mark.value.Closed? && s1.status == Running
              then ScState(mark.value.status, false) else s1;
    if cancelled && s2.status == Running && !s2.active then ScState(Cancelled, false) else s2
  }

  /** One scenario's share of a committed batch. */
  function Write(s: Slice, w: Writes, cancelled: bool, now: int): Slice {
    var st := Marked(ScState(s.status, s.active), w.mark, cancelled);
    var r1 := if w.row.Some? then Some(Upsert(s.row, w.row.value)) else s.row;
    s.(status := st.status,
       active := st.active,
       row := if cancelled then Some(Upsert(r1, CancelledRow(now))) else r1,
       log := s.log + w.events + if cancelled then [Event(SiblingCancelled, None, now)] else [],
       points := if w.point.Some? then InsertPoint(s.points, w.point.value) else s.points)
  }

  /** One cycle as one scenario sees it. A failed commit keeps the Redis side only. */
  function StepScenario(s: Slice, slow: bool, candle: Option<Candle>, now: int,
                        skip: bool, cancelled: bool, commits: bool): Slice
  {
    if !Selected(s, slow) then s
    else
      var o := Observe(s, candle, now, skip);
      var s' := s.(keys := if cancelled then NO_KEYS else o.keys);
      if commits then Write(s', o.writes, cancelled, now) else s'
  }

  /** The observation of a scenario closes it. */
  predicate Ends(o: Observation) {
    o.writes.mark.Some? && o.writes.mark.value.Closed?
  }

  // ----- one cycle of the whole machine ----------------------------------------------

  /** The inputs of a cycle: the clock, the order in which the SELECT returned its rows,
      the candle each scenario got (absent: no price), and whether the batch committed. */
  datatype Poll = Poll(now: int, order: seq<int>, candles: map<int, Candle>, commits: bool)

  predicate Slow(w: World) {
    (w.cycle + 1) % SLOW_CYCLES == 0
  }

  predicate Picked(w: World, x: int) {
    x in w.slices && Selected(w.slices[x], Slow(w))
  }

  predicate Distinct(xs: seq<int>) {
    forall i, j :: 0 <= i < j < |xs| ==> xs[i] != xs[j]
  }

  ghost predicate Lists(w: World, order: seq<int>) {
    Distinct(order) && (forall j :: 0 <= j < |order| ==> Picked(w, order[j])) && forall x :: Picked(w, x) ==> x in order
  }

  /** Signals that have an entered scenario among the selected rows. */
  function Busy(w: World): set<int> {
    set x | x in w.slices && Picked(w, x) && w.slices[x].active :: w.slices[x].sc.signalId
  }

  /** x would enter this cycle if nothing of its signal had entered before it. */
  predicate Candidate(w: World, x: int, p: Poll) {
    && Picked(w, x)
    && w.slices[x].sc.signalId !in Busy(w)
    && Observe(w.slices[x], Get(p.candles, x), p.now, false).newly
  }

  /** Per signal, the first candidate in row order. */
  function Winners(w: World, p: Poll, order: seq<int>): map<int, int> {
    if order == [] then map[]
    else
      var x := order[|order| - 1];
      var m := Winners(w, p, order[..|order| - 1]);
      if Candidate(w, x, p) && w.slices[x].sc.signalId !in m then m[w.slices[x].sc.signalId := x] else m
  }

  /** Exactly the signals with a candidate have a winner, and it is one of their candidates. */
  lemma {:induction false} WinnerIsCandidate(w: World, p: Poll, order: seq<int>, g: int)
    requires g in Winners(w, p, order)
    ensures var x := Winners(w, p, order)[g]; Candidate(w, x, p) && w.slices[x].sc.signalId == g && x in order
  {
    var front := order[..|order| - 1];
    if g in Winners(w, p, front) { WinnerIsCandidate(w, p, front, g); }
  }

  lemma {:induction false} CandidateHasWinner(w: World, p: Poll, order: seq<int>, x: int)
    requires x in order && Candidate(w, x, p)
    ensures w.slices[x].sc.signalId in Winners(w, p, order)
  {
    var front := order[..|order| - 1];
    if x in front { CandidateHasWinner(w, p, front, x); }
  }

  /** Another scenario of x's signal enters this cycle. */
  predicate Loses(w: World, p: Poll, x: int)
    requires x in w.slices
  {
    var m := Winners(w, p, p.order);
    var g := w.slices[x].sc.signalId;
    g in m && m[g] != x
  }

  predicate Skips(w: World, p: Poll, x: int)
    requires x in w.slices
  {
    w.slices[x].sc.signalId in Busy(w) || Loses(w, p, x)
  }

  predicate Cancels(w: World, p: Poll, x: int)
    requires x in w.slices
  {
    Picked(w, x) && !w.slices[x].active && Loses(w, p, x)
  }

  function SliceAfter(w: World, p: Poll, x: int): Slice
    requires x in w.slices
  {
    StepScenario(w.slices[x], Slow(w), Get(p.candles, x), p.now, Skips(w, p, x), Cancels(w, p, x), p.commits)
  }

  /** x closes this cycle as the entered scenario of its signal. */
  predicate ClosesActive(w: World, p: Poll, x: int) {
    Picked(w, x) &&
    var o := Observe(w.slices[x], Get(p.candles, x), p.now, Skips(w, p, x));
    Ends(o) && (w.slices[x].active || o.newly)
  }

  /** The two UPDATEs of signals, in batch order. */
  function SignalAfter(w: World, p: Poll, g: int): Signal
    requires g in w.signals
  {
    var m := Winners(w, p, p.order);
    var s := if g in m then Signal(true, Some(m[g])) else w.signals[g];
    if s.activeScenario.Some? && ClosesActive(w, p, s.activeScenario.value)
       && w.slices[s.activeScenario.value].sc.signalId == g
    then s.(active := false) else s
  }

  function Cycle(w: World, p: Poll): World {
    World(
      w.cycle + 1,
      if p.commits then map g | g in w.signals :: SignalAfter(w, p, g) else w.signals,
      map x | x in w.slices :: SliceAfter(w, p, x))
  }

  // ----- restart ---------------------------------------------------------------------

  function LowestPrice(ps: seq<PricePoint>): (m: real)
    requires ps != []
    ensures forall q :: q in ps ==> m <= q.price
    ensures exists q :: q in ps && q.price == m
  {
    var last := ps[|ps| - 1];
    if |ps| == 1 then last.price else Min(LowestPrice(ps[..|ps| - 1]), last.price)
  }

  function HighestPrice(ps: seq<PricePoint>): (m: real)
    requires ps != []
    ensures forall q :: q in ps ==> q.price <= m
    ensures exists q :: q in ps && q.price == m
  {
    var last := ps[|ps| - 1];
    if |ps| == 1 then last.price else Max(HighestPrice(ps[..|ps| - 1]), last.price)
  }

  /** recorded_at of the last point in time order. */
  function LatestAt(ps: seq<PricePoint>): (t: int)
    requires ps != []
    ensures forall q :: q in ps ==> q.at <= t
    ensures exists q :: q in ps && q.at == t
  {
    var last := ps[|ps| - 1];
    if |ps| == 1 then last.at
    else var t := LatestAt(ps[..|ps| - 1]); if t >= last.at then t else last.at
  }

  /** The keys recovery writes for an entered scenario; everything else is left as it is. */
  function RecoverKeys(k: Keys, row: Row, ps: seq<PricePoint>): Keys {
    k.(entered := true,
       first := true,
       entryPrice := if Truthy(row.entryPrice) then row.entryPrice else k.entryPrice,
       bestTp := if Truthy(row.hitTp) then row.hitTp else k.bestTp,
       bestTpIdx := if row.hitTpIdx.Some? && row.hitTpIdx.value != 0 then row.hitTpIdx else k.bestTpIdx,
       min := if ps != [] then Some(LowestPrice(ps)) else k.min,
       max := if ps != [] then Some(HighestPrice(ps)) else k.max,
       lastHist := if ps != [] then Some(LatestAt(ps))
                   else if row.enteredAt.Some? then row.enteredAt else k.lastHist)
  }

  function Recover(s: Slice): Slice {
    if s.status == Running && s.active && s.row.Some?
    then s.(keys := RecoverKeys(s.keys, s.row.value, s.points)) else s
  }

  // ----- steps and runs ----------------------------------------------------------------

  datatype Step =
    | Insert(signal: int, scenarios: map<int, Scenario>)    // a signal with all its scenarios
    | Evaluation(poll: Poll)                                // a cycle whose SELECT succeeds
    | LoadFails                                             // a cycle whose SELECT fails
    | Lose(kept: map<int, Keys>)                            // Redis loses keys
    | Restart(kept: map<int, Keys>, recovers: bool)         // a new process; recovers: its DB read succeeds

  /** a has no key that b lacks, and the same values for those it has. */
  predicate Survives(a: Keys, b: Keys) {
    && (a.entered ==> b.entered)
    && (a.first ==> b.first)
    && (a.entryPrice.Some? ==> a.entryPrice == b.entryPrice)
    && (a.consolStart.Some? ==> a.consolStart == b.consolStart)
    && (a.lastHist.Some? ==> a.lastHist == b.lastHist)
    && (a.bestTp.Some? ==> a.bestTp == b.bestTp)
    && (a.bestTpIdx.Some? ==> a.bestTpIdx == b.bestTpIdx)
    && (a.min.Some? ==> a.min == b.min)
    && (a.max.Some? ==> a.max == b.max)
    && (a.gapStart.Some? ==> a.gapStart == b.gapStart)
  }

  predicate KeepsKeys(w: World, kept: map<int, Keys>) {
    kept.Keys == w.slices.Keys && forall x :: x in kept ==> Survives(kept[x], w.slices[x].keys)
  }

  ghost predicate Enabled(w: World, st: Step) {
    match st
    case Insert(g, scs) =>
      g !in w.signals && scs.Keys !! w.slices.Keys && forall x :: x in scs ==> scs[x].signalId == g
    case Evaluation(p) => Lists(w, p.order)
    case LoadFails => true
    case Lose(kept) => KeepsKeys(w, kept)
    case Restart(kept, _) => KeepsKeys(w, kept)
  }

  function Fresh(sc: Scenario): Slice {
    Slice(sc, Running, false, None, [], [], NO_KEYS)
  }

  function SliceNext(w: World, st: Step, x: int): Slice
    requires x in w.slices
  {
    match st
    case Insert(_, _) => w.slices[x]
    case Evaluation(p) => SliceAfter(w, p, x)
    case LoadFails => w.slices[x]
    case Lose(kept) => if x in kept then w.slices[x].(keys := kept[x]) else w.slices[x]
    case Restart(kept, recovers) =>
      var s := if x in kept then w.slices[x].(keys := kept[x]) else w.slices[x];
      if recovers then Recover(s) else s
  }

  function Next(w: World, st: Step): World {
    match st
    case Insert(g, scs) =>
      World(w.cycle, w.signals[g := Signal(false, None)],
            map x | x in w.slices.Keys + scs.Keys :: if x in w.slices then w.slices[x] else Fresh(scs[x]))
    case Evaluation(p) => Cycle(w, p)
    case LoadFails => w.(cycle := w.cycle + 1)
    case Lose(_) => w.(slices := map x | x in w.slices :: SliceNext(w, st, x))
    case Restart(_, _) => World(0, w.signals, map x | x in w.slices :: SliceNext(w, st, x))
  }

  /** Every scenario already known moves by SliceNext, whatever the step. */
  lemma NextSlice(w: World, st: Step, x: int)
    requires x in w.slices
    ensures x in Next(w, st).slices && Next(w, st).slices[x] == SliceNext(w, st, x)
  {
  }

  function Exec(w: World, steps: seq<Step>): World {
    if steps == [] then w else Next(Exec(w, steps[..|steps| - 1]), steps[|steps| - 1])
  }

  ghost predicate Legal(w: World, steps: seq<Step>) {
    steps == [] ||
    (Legal(w, steps[..|steps| - 1]) && Enabled(Exec(w, steps[..|steps| - 1]), steps[|steps| - 1]))
  }

  /** Every evaluation of the run commits its batch. */
  predicate Commits(steps: seq<Step>) {
    forall st :: st in steps && st.Evaluation? ==> st.poll.commits
  }
}
