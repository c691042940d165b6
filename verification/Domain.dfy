/** The rows, Redis keys and candles the signal evaluator works on. Prices are
    exact reals and instants are whole seconds. */
module Domain {
  import opened Prelude

  datatype Direction = Long | Short | Neutral

  /** Fix stands for every entry type the evaluator has no rule of its own for. */
  datatype EntryType = Market | BreakUp | BreakDown | ConsolidationUp | ConsolidationDown | Fix

  datatype PriceType = FixNumber | Range

  datatype Status = Running | Success | Failed | Expired | Cancelled

  datatype Candle = Candle(open: real, high: real, low: real, close: real)

  predicate Shaped(c: Candle) {
    c.low <= c.close <= c.high
  }

  /** The columns of scenarios that never change after the insert. */
  datatype Scenario = Scenario(
    signalId: int,
    direction: Option<Direction>,
    entryPoint: Option<real>,
    entryType: EntryType,
    priceType: PriceType,
    takeProfits: seq<real>,
    stopLoss: Option<real>,
    timeframe: Option<string>,
    expireAt: int)
  {
    function Dir(): Direction {
      if direction.Some? then direction.value else Long
    }
  }

  /** A scenario without a direction is treated as a long. */
  predicate IsLong(sc: Scenario) {
    sc.direction != Some(Short) && sc.direction != Some(Neutral)
  }

  predicate IsShort(sc: Scenario) {
    sc.direction == Some(Short)
  }

  /** The eval:* keys of one scenario; NO_KEYS is a scenario Redis knows nothing about. */
  datatype Keys = Keys(
    entered: bool,
    entryPrice: Option<real>,
    consolStart: Option<int>,
    lastHist: Option<int>,
    bestTp: Option<real>,
    bestTpIdx: Option<nat>,
    min: Option<real>,
    max: Option<real>,
    first: bool,
    gapStart: Option<int>)

  const NO_KEYS := Keys(false, None, None, None, None, None, None, None, false, None)

  /** A row of scenario_results. */
  datatype Row = Row(
    result: Status,
    pnl: Option<real>,
    hitTp: Option<real>,
    hitTpIdx: Option<nat>,
    hitSl: Option<real>,
    drawdown: Option<real>,
    maxFavorable: Option<real>,
    enteredAt: Option<int>,
    evaluatedAt: int,
    entryPrice: Option<real>,
    exitPrice: Option<real>,
    completedAt: Option<int>,
    highest: Option<real>,
    lowest: Option<real>)

  datatype EventKind =
    | Entered
    | TpHit(index: nat)
    | SlHit
    | Completed(result: Status)
    | SiblingCancelled
    | GapStart
    | GapEnd(from: int)

  /** A row of scenario_events, without its scenario_id. */
  datatype Event = Event(kind: EventKind, price: Option<real>, at: int)

  /** A row of scenario_price_points, without its scenario_id. */
  datatype PricePoint = PricePoint(at: int, price: real, pnl: Option<real>)

  /** What one evaluation asks the batch to do to scenarios.status and scenarios.active. */
  datatype Mark = Activated | Closed(status: Status)

  datatype Signal = Signal(active: bool, activeScenario: Option<int>)
}
