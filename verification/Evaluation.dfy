/** What one evaluation of one scenario decides: a value-level account of
    SignalEvaluator._eval and the helpers it calls. */
module Evaluation {
  import opened Prelude
  import opened Rounding
  import opened Domain

  const RANGE_TOLERANCE_PCT := 2.0

  /** Length of a timeframe in seconds; one hour when absent or unknown. */
  function TimeframeSeconds(tf: Option<string>): (s: int)
    ensures s >= 60
  {
    match tf
    case None => 3600
    case Some(t) =>
      if t == "1m" then 60 else if t == "5m" then 300 else if t == "15m" then 900
      else if t == "30m" then 1800 else if t == "1h" then 3600 else if t == "4h" then 14400
      else if t == "1d" then 86400 else if t == "1w" then 604800 else if t == "1M" then 2592000
      else 3600
  }

  function Tolerance(reference: real, pt: PriceType): real {
    if pt == Range then reference * RANGE_TOLERANCE_PCT / 100.0 else 0.0
  }

  /** Profit in percent of the entry, before rounding. Everything but long counts as short. */
  function PnlExact(d: Direction, entry: real, exit: real): real
    requires entry != 0.0
  {
    if d == Long then (exit - entry) / entry * 100.0 else (entry - exit) / entry * 100.0
  }

  function Pnl(d: Direction, entry: real, exit: real): real
    requires entry != 0.0
  {
    Round4(PnlExact(d, entry, exit))
  }

  // ----- entry ---------------------------------------------------------------

  /** The scenario waits for the price to hold beyond its entry point. */
  predicate Consolidating(sc: Scenario) {
    sc.entryPoint.Some? && (sc.entryType == ConsolidationUp || sc.entryType == ConsolidationDown)
  }

  predicate InZone(sc: Scenario, price: real)
    requires Consolidating(sc)
  {
    var t := Tolerance(sc.entryPoint.value, sc.priceType);
    if sc.entryType == ConsolidationUp then price >= sc.entryPoint.value - t
    else price <= sc.entryPoint.value + t
  }

  /** The entry rules that one candle alone decides. */
  predicate Touches(sc: Scenario, c: Candle)
    requires !Consolidating(sc)
  {
    sc.entryPoint.None? || sc.entryType == Market ||
    var ep := sc.entryPoint.value;
    var t := Tolerance(ep, sc.priceType);
    match sc.entryType
    case BreakUp => c.high >= ep - t
    case BreakDown => c.low <= ep + t
    case _ => (sc.Dir() == Long && c.low <= ep + t) || (sc.Dir() == Short && c.high >= ep - t)
  }

  /** The price an entry on this candle is booked at. */
  function EntryPriceOn(sc: Scenario, c: Candle): real {
    if sc.entryPoint.None? || sc.entryType == Market || Consolidating(sc) then c.close else sc.entryPoint.value
  }

  /** The consolidation clock: whether the zone has been held long enough, and the new clock. */
  function Consolidate(sc: Scenario, start: Option<int>, price: real, now: int): (bool, Option<int>)
    requires Consolidating(sc)
  {
    if !InZone(sc, price) then (false, None)
    else if start.None? then (false, Some(now))
    else (now - start.value >= TimeframeSeconds(sc.timeframe), start)
  }

  datatype Confirmation = Confirmation(entered: bool, price: Option<real>, keys: Keys)

  function ConfirmEntry(sc: Scenario, k: Keys, c: Candle, now: int): Confirmation {
    if k.entered then Confirmation(true, None, k)
    else if Consolidating(sc) then
      var held := Consolidate(sc, k.consolStart, c.close, now);
      if held.0 then Confirmation(true, Some(c.close), k.(entered := true, consolStart := None))
      else Confirmation(false, None, k.(consolStart := held.1))
    else if Touches(sc, c) then Confirmation(true, Some(EntryPriceOn(sc, c)), k.(entered := true))
    else Confirmation(false, None, k)
  }

  function EffectiveEntry(conf: Confirmation, newly: bool, dbEntry: Option<real>): Option<real> {
    if newly && conf.price.Some? then conf.price
    else if !conf.entered then None
    else if conf.keys.entryPrice.Some? then conf.keys.entryPrice
    else if Truthy(dbEntry) then dbEntry
    else None
  }

  // ----- extremes, targets and stop --------------------------------------------

  function Track(k: Keys, c: Candle): Keys {
    k.(min := Some(if k.min.Some? then Min(c.low, k.min.value) else c.low),
       max := Some(if k.max.Some? then Max(c.high, k.max.value) else c.high))
  }

  /** Target p is reached by the candle, within the range tolerance. */
  predicate Reached(sc: Scenario, p: real, c: Candle) {
    var t := Tolerance(c.close, sc.priceType);
    if sc.Dir() == Long then c.high >= p - t else c.low <= p + t
  }

  /** One-based position of the last target reached by the candle; 0 if none is. */
  function BestReached(sc: Scenario, tps: seq<real>, c: Candle): (n: nat)
    ensures n <= |tps|
    ensures n > 0 ==> Reached(sc, tps[n - 1], c)
    ensures forall i :: n <= i < |tps| ==> !Reached(sc, tps[i], c)
  {
    if tps == [] then 0
    else if Reached(sc, tps[|tps| - 1], c) then |tps|
    else BestReached(sc, tps[..|tps| - 1], c)
  }

  datatype Hit = Hit(price: Option<real>, index: nat, previous: nat)

  function StoredIndex(k: Keys): nat {
    if k.bestTpIdx.Some? then k.bestTpIdx.value else 0
  }

  function BestTp(sc: Scenario, k: Keys, c: Candle): Hit {
    var n := BestReached(sc, sc.takeProfits, c);
    if n > 0 && n > StoredIndex(k) then Hit(Some(sc.takeProfits[n - 1]), n, StoredIndex(k))
    else Hit(k.bestTp, StoredIndex(k), StoredIndex(k))
  }

  function BestTpKeys(k: Keys, hit: Hit): Keys {
    if hit.index > hit.previous then k.(bestTp := hit.price, bestTpIdx := Some(hit.index)) else k
  }

  predicate StopTouched(sc: Scenario, c: Candle) {
    sc.stopLoss.Some? &&
    ((sc.Dir() == Long && c.low <= sc.stopLoss.value) || (sc.Dir() == Short && c.high >= sc.stopLoss.value))
  }

  datatype Verdict = Open | Close(status: Status, exit: Option<real>)

  function Settle(sc: Scenario, entered: bool, hit: Hit, c: Candle, now: int): (v: Verdict)
    ensures v.Close? ==> v.status in {Success, Failed, Expired}
    ensures v.Close? && v.status == Failed ==> sc.stopLoss.Some? && v.exit == sc.stopLoss
  {
    if entered && StopTouched(sc, c) && hit.index == 0 then Close(Failed, sc.stopLoss)
    else if entered && StopTouched(sc, c) then Close(Success, hit.price)
    else if entered && sc.takeProfits != [] && hit.index > 0 then Close(Success, hit.price)
    else if now < sc.expireAt then Open
    else if !entered then Close(Expired, None)
    else if hit.index > 0 then Close(Success, hit.price)
    else Close(Expired, Some(c.close))
  }

  // ----- percentages -------------------------------------------------------------

  function OrPrice(o: Option<real>, price: real): real {
    if Truthy(o) then o.value else price
  }

  function FinalPnl(sc: Scenario, entered: bool, entry: Option<real>, v: Verdict, c: Candle): Option<real> {
    if !Truthy(entry) then None
    else match v
      case Close(Expired, _) => if entered then Some(Pnl(sc.Dir(), entry.value, c.close)) else None
      case Close(_, exit) => Some(Pnl(sc.Dir(), entry.value, OrPrice(exit, c.close)))
      case Open => if entered then Some(Pnl(sc.Dir(), entry.value, c.close)) else None
  }

  function Drawdown(d: Direction, k: Keys, entry: real): Option<real>
    requires entry != 0.0
  {
    var worst := if d == Long then k.min else k.max;
    if worst.Some? then Some(Pnl(d, entry, worst.value)) else None
  }

  function MaxFavorable(d: Direction, k: Keys, entry: real): Option<real>
    requires entry != 0.0
  {
    var best := if d == Long then k.max else k.min;
    if best.Some? then Some(Pnl(d, entry, best.value)) else None
  }

  // ----- price history -------------------------------------------------------------

  predicate PointDue(sc: Scenario, lastHist: Option<int>, now: int, newly: bool) {
    newly || lastHist.None? || now - lastHist.value >= TimeframeSeconds(sc.timeframe)
  }

  // ----- one evaluation --------------------------------------------------------------

  function TpEvents(tps: seq<real>, from: nat, upto: nat, now: int): (es: seq<Event>)
    requires from <= upto <= |tps|
    ensures |es| == upto - from
    ensures forall i :: 0 <= i < |es| ==> es[i] == Event(TpHit(from + i + 1), Some(tps[from + i]), now)
  {
    seq(upto - from, i requires 0 <= i < upto - from => Event(TpHit(from + i + 1), Some(tps[from + i]), now))
  }

  lemma TpEventsExtend(tps: seq<real>, from: nat, i: nat, now: int)
    requires from <= i < |tps|
    ensures TpEvents(tps, from, i + 1, now) == TpEvents(tps, from, i, now) + [Event(TpHit(i + 1), Some(tps[i]), now)]
  {
  }

  function TpHitEvents(sc: Scenario, entered: bool, hit: Hit, now: int): seq<Event> {
    if entered && hit.previous < hit.index <= |sc.takeProfits|
    then TpEvents(sc.takeProfits, hit.previous, hit.index, now) else []
  }

  function ClosingEvents(v: Verdict, now: int): seq<Event> {
    match v
    case Open => []
    case Close(st, exit) =>
      (if st == Failed then [Event(SlHit, exit, now)] else []) + [Event(Completed(st), exit, now)]
  }

  datatype Report = Report(
    row: Row,
    point: Option<PricePoint>,
    mark: Option<Mark>,
    newly: bool,
    dirty: bool,
    events: seq<Event>)

  datatype Evaluated = Evaluated(keys: Keys, report: Report)

  /** The decisions of one evaluation, in the order they are taken. */
  datatype Course = Course(
    entered: bool,
    newly: bool,
    entry: Option<real>,       // effective entry price
    keys: Keys,                // after entry, extremes and targets
    hit: Hit,
    verdict: Verdict,
    due: bool)                 // a price point is due

  datatype EntryPhase = EntryPhase(entered: bool, newly: bool, entry: Option<real>, keys: Keys)

  function EntryPhaseOf(sc: Scenario, active: bool, dbEntry: Option<real>, k: Keys, c: Candle, now: int,
                        skip: bool): EntryPhase {
    var k0 := k.(gapStart := None, entered := k.entered || active);
    var conf := if skip && !k0.entered then Confirmation(false, None, k0) else ConfirmEntry(sc, k0, c, now);
    var newly := conf.entered && !k0.entered;
    var entry := EffectiveEntry(conf, newly, dbEntry);
    EntryPhase(conf.entered, newly, entry, if newly then conf.keys.(entryPrice := entry) else conf.keys)
  }

  function CourseOf(sc: Scenario, active: bool, dbEntry: Option<real>, k: Keys, c: Candle, now: int,
                    skip: bool): Course {
    var e := EntryPhaseOf(sc, active, dbEntry, k, c, now, skip);
    var tracked := if e.entered then Track(e.keys, c) else e.keys;
    var hit := if e.entered then BestTp(sc, tracked, c) else Hit(None, 0, 0);
    Course(e.entered, e.newly, e.entry, BestTpKeys(tracked, hit), hit,
           Settle(sc, e.entered, hit, c, now),
           e.entered && PointDue(sc, tracked.lastHist, now, e.newly))
  }

  function EventsOf(sc: Scenario, gapStart: Option<int>, d: Course, now: int): seq<Event> {
    (if gapStart.Some? && d.entered then [Event(GapEnd(gapStart.value), None, now)] else []) +
    (if d.newly then [Event(Entered, d.entry, now)] else []) +
    TpHitEvents(sc, d.entered, d.hit, now) +
    ClosingEvents(d.verdict, now)
  }

  function RowOf(sc: Scenario, d: Course, c: Candle, now: int): Row {
    var closed := d.verdict.Close?;
    var figures := d.entered && Truthy(d.entry);
    Row(if closed then d.verdict.status else Running,
        FinalPnl(sc, d.entered, d.entry, d.verdict, c),
        d.hit.price,
        if d.hit.index > 0 then Some(d.hit.index) else None,
        if closed && d.verdict.status == Failed then d.verdict.exit else None,
        if figures then Drawdown(sc.Dir(), d.keys, d.entry.value) else None,
        if figures then MaxFavorable(sc.Dir(), d.keys, d.entry.value) else None,
        if d.newly then Some(now) else None,
        now,
        if d.newly then d.entry else None,
        if closed then d.verdict.exit else None,
        if closed then Some(now) else None,
        if d.entered then d.keys.max else None,
        if d.entered then d.keys.min else None)
  }

  /** Record the course: result row, price point, events, and the keys left behind. */
  function Conclude(sc: Scenario, gapStart: Option<int>, d: Course, c: Candle, now: int): Evaluated {
    var row := RowOf(sc, d, c, now);
    var kept := if d.due then d.keys.(lastHist := Some(now)) else d.keys;
    Evaluated(
      if d.verdict.Close? then NO_KEYS else kept.(first := true),
      Report(
        row,
        if d.due then Some(PricePoint(now, c.close, row.pnl)) else None,
        if d.verdict.Close? then Some(Closed(d.verdict.status)) else if d.newly then Some(Activated) else None,
        d.newly,
        d.entered || d.verdict.Close? || !d.keys.first,
        EventsOf(sc, gapStart, d, now)))
  }

  function Evaluate(sc: Scenario, active: bool, dbEntry: Option<real>, k: Keys, c: Candle, now: int, skip: bool)
    : Evaluated
  {
    Conclude(sc, k.gapStart, CourseOf(sc, active, dbEntry, k, c, now, skip), c, now)
  }

  /** A scenario that would not enter anyway is reported the same whether or not entry is tried;
      only its consolidation clock can tell the difference. */
  lemma SkipIndifferent(sc: Scenario, active: bool, dbEntry: Option<real>, k: Keys, c: Candle, now: int)
    requires !Evaluate(sc, active, dbEntry, k, c, now, false).report.newly
    ensures Evaluate(sc, active, dbEntry, k, c, now, true).report ==
            Evaluate(sc, active, dbEntry, k, c, now, false).report
  {
  }
}
