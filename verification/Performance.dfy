/** The API's read model of one scenario, computed from the rows the evaluator stores. */
module Performance {
  import opened Prelude
  import opened Domain
  import opened Machine
  import opened Audit
  import opened Exclusion
  import opened Durability
  import opened Outcomes
  import opened Targets
  import opened Levels
  import opened Percentages
  import opened Payouts

  /** The computed fields; percentages stay numbers instead of formatted strings. */
  datatype Snapshot = Snapshot(
    ageSeconds: real,
    totalTargets: nat,
    activationTime: Option<int>,
    activationPrice: Option<real>,
    isProfit: bool,
    isLoss: bool,
    statusPercent: Option<real>,
    maxProfit: Option<real>,
    maxDrawdown: Option<real>,
    highest: Option<real>,
    lowest: Option<real>,
    completedCount: int,
    targetsHit: seq<real>,
    targetsHitAt: seq<Option<int>>,
    stopLossHit: bool,
    stopLossHitAt: Option<int>,
    progress: Option<real>,
    priceHistory: seq<PricePoint>,
    eventHistory: seq<Event>)

  // ----- specification -------------------------------------------------------------------

  /** Go's math.Round: to the nearest integer, halves away from zero. */
  function RoundAway(y: real): (r: int)
    ensures -0.5 <= r as real - y <= 0.5
    ensures r as real - y == 0.5 ==> y >= 0.0
    ensures r as real - y == -0.5 ==> y < 0.0
  {
    if y >= 0.0 then (y + 0.5).Floor else -(0.5 - y).Floor
  }

  /** The snapshot of a scenario without a result row. */
  function Blank(age: real, targets: nat): Snapshot {
    Snapshot(RoundAway(age * 10.0) as real / 10.0, targets, None, None, false, false, None, None, None,
             None, None, 0, [], [], false, None, None, [], [])
  }

  /** Prices that are not positive are dropped. */
  function TargetPrices(items: seq<real>): seq<real> {
    if items == [] then []
    else
      var front := TargetPrices(items[..|items| - 1]);
      if items[|items| - 1] > 0.0 then front + [items[|items| - 1]] else front
  }

  /** The times of the tp_hit events, in order. */
  function HitTimes(events: seq<Event>): seq<int> {
    if events == [] then []
    else
      var front := HitTimes(events[..|events| - 1]);
      if IsTpHit(events[|events| - 1]) then front + [events[|events| - 1].at] else front
  }

  /** n timestamps: the known ones first, the rest missing. */
  function Stamps(n: nat, times: seq<int>): (ts: seq<Option<int>>)
    ensures |ts| == n && forall i :: 0 <= i < n ==> ts[i] == if i < |times| then Some(times[i]) else None
  {
    seq(n, i => if 0 <= i < |times| then Some(times[i]) else None)
  }

  function Reachable(tps: seq<real>, hitIdx: int): (n: nat)
    ensures n <= |tps|
  {
    if hitIdx <= 0 then 0 else if hitIdx < |tps| then hitIdx else |tps|
  }

  function Snap(age: real, items: seq<real>, res: Option<Row>, points: seq<PricePoint>, events: seq<Event>): Snapshot {
    var tps := TargetPrices(items);
    if res.None? then Blank(age, |tps|)
    else
      var r := res.value;
      var hitIdx: int := if r.hitTpIdx.Some? then r.hitTpIdx.value else 0;
      var n := Reachable(tps, hitIdx);
      var stopped := r.result == Failed || r.hitSl.Some?;
      Snapshot(
        RoundAway(age * 10.0) as real / 10.0, |tps|, r.enteredAt, r.entryPrice,
        r.pnl.Some? && r.pnl.value > 0.0, r.pnl.Some? && r.pnl.value < 0.0,
        r.pnl, r.maxFavorable, r.drawdown, r.highest, r.lowest, hitIdx,
        tps[..n], Stamps(n, HitTimes(events)),
        stopped, if stopped then r.completedAt else None,
        if |tps| > 0 && hitIdx > 0 then Some(hitIdx as real / |tps| as real * 100.0) else None,
        points, events)
  }

  /** Every figure is the row's own: a profit is a positive percentage and a loss a negative one, histories are
      shown whole, the age is right to a tenth of a second, and without a row there is nothing to show. */
  predicate Truthful(p: Snapshot, age: real, res: Option<Row>, points: seq<PricePoint>, events: seq<Event>) {
    && -0.05 <= p.ageSeconds - age <= 0.05 && (p.ageSeconds * 10.0).Floor as real == p.ageSeconds * 10.0
    && if res.None? then
         && !p.isProfit && !p.isLoss && !p.stopLossHit && p.completedCount == 0
         && p.activationTime.None? && p.activationPrice.None? && p.statusPercent.None? && p.maxProfit.None?
         && p.maxDrawdown.None? && p.highest.None? && p.lowest.None? && p.progress.None?
         && p.targetsHit == [] && p.priceHistory == [] && p.eventHistory == []
       else
         var r := res.value;
         && (p.isProfit <==> r.pnl.Some? && r.pnl.value > 0.0)
         && (p.isLoss <==> r.pnl.Some? && r.pnl.value < 0.0)
         && p.statusPercent == r.pnl && p.maxProfit == r.maxFavorable && p.maxDrawdown == r.drawdown
         && p.highest == r.highest && p.lowest == r.lowest
         && p.activationTime == r.enteredAt && p.activationPrice == r.entryPrice
         && p.priceHistory == points && p.eventHistory == events
  }

  lemma SnapIsTruthful(age: real, items: seq<real>, res: Option<Row>, points: seq<PricePoint>, events: seq<Event>)
    ensures Truthful(Snap(age, items, res, points, events), age, res, points, events)
  {
    var n := RoundAway(age * 10.0);
    assert (n as real / 10.0) * 10.0 == n as real;
  }

  // ----- the code --------------------------------------------------------------------------

  /** Exactly the positive prices are kept, each as often as it was given. */
  ghost predicate PositiveOnly(items: seq<real>, prices: seq<real>) {
    forall p :: multiset(prices)[p] == if p > 0.0 then multiset(items)[p] else 0
  }

  lemma {:induction false} TargetPricesPositive(items: seq<real>)
    ensures PositiveOnly(items, TargetPrices(items))
  {
    if items != [] {
      TargetPricesPositive(items[..|items| - 1]);
      assert items == items[..|items| - 1] + [items[|items| - 1]];
    }
  }

  method ParseTakeProfitPrices(items: seq<real>) returns (prices: seq<real>)
    ensures prices == TargetPrices(items) && PositiveOnly(items, prices)
  {
    TargetPricesPositive(items);
    prices := [];
    for i := 0 to |items|
      invariant prices == TargetPrices(items[..i])
    {
      assert items[..i + 1][..i] == items[..i];
      if items[i] > 0.0 {
        prices := prices + [items[i]];
      }
    }
    assert items[..|items|] == items;
  }

  /** Fill the i-th missing timestamp from the i-th tp_hit event. */
  method FillTimes(n: nat, events: seq<Event>) returns (at: seq<Option<int>>, history: seq<Event>)
    ensures at == Stamps(n, HitTimes(events))
    ensures history == events
  {
    at := Stamps(n, []);
    history := [];
    var idx := 0;
    for i := 0 to |events|
      invariant history == events[..i]
      invariant |at| == n && idx == (if |HitTimes(events[..i])| < n then |HitTimes(events[..i])| else n)
      invariant at == Stamps(n, HitTimes(events[..i]))
    {
      assert events[..i + 1][..i] == events[..i];
      history := history + [events[i]];
      if IsTpHit(events[i]) && idx < |at| {
        at := at[idx := Some(events[i].at)];
        idx := idx + 1;
      }
    }
    assert events[..|events|] == events;
  }

  method HitPrices(tps: seq<real>, hitIdx: int) returns (hits: seq<real>)
    ensures hits == tps[..Reachable(tps, hitIdx)]
  {
    hits := [];
    if hitIdx > 0 && |tps| > 0 {
      var i := 0;
      while i < hitIdx && i < |tps|
        invariant 0 <= i <= Reachable(tps, hitIdx) && hits == tps[..i]
      {
        hits := hits + [tps[i]];
        i := i + 1;
      }
    }
  }

  method ComputePerformance(age: real, items: seq<real>, res: Option<Row>, points: seq<PricePoint>, events: seq<Event>)
    returns (p: Snapshot)
    ensures p == Snap(age, items, res, points, events) && Truthful(p, age, res, points, events)
  {
    SnapIsTruthful(age, items, res, points, events);
    var tps := ParseTakeProfitPrices(items);
    p := Blank(age, |tps|);
    if res.None? {
      return;
    }
    var r := res.value;
    var isProfit, isLoss := false, false;
    if r.pnl.Some? {
      isProfit, isLoss := r.pnl.value > 0.0, r.pnl.value < 0.0;
    }
    p := p.(activationTime := r.enteredAt, activationPrice := r.entryPrice, statusPercent := r.pnl,
            isProfit := isProfit, isLoss := isLoss, highest := r.highest, lowest := r.lowest,
            maxProfit := r.maxFavorable, maxDrawdown := r.drawdown);
    var hitIdx: int := 0;
    if r.hitTpIdx.Some? {
      hitIdx := r.hitTpIdx.value;
    }
    var hits := HitPrices(tps, hitIdx);
    var stopped, stoppedAt := r.result == Failed || r.hitSl.Some?, None;
    if stopped {
      stoppedAt := r.completedAt;
    }
    var progress := None;
    if p.totalTargets > 0 && hitIdx > 0 {
      progress := Some(hitIdx as real / p.totalTargets as real * 100.0);
    }
    var at, history := FillTimes(|hits|, events);
    p := p.(completedCount := hitIdx, targetsHit := hits, targetsHitAt := at, stopLossHit := stopped,
            stopLossHitAt := stoppedAt, progress := progress, priceHistory := points, eventHistory := history);
  }

  // ----- alignment with the evaluator ----------------------------------------------------------

  lemma {:induction false} AllPositive(items: seq<real>)
    requires forall i :: 0 <= i < |items| ==> items[i] > 0.0
    ensures TargetPrices(items) == items
  {
    if items != [] {
      assert items == items[..|items| - 1] + [items[|items| - 1]];
      AllPositive(items[..|items| - 1]);
    }
  }

  lemma {:induction false} HitTimesOfHits(events: seq<Event>)
    ensures |HitTimes(events)| == |TpHits(events)|
    ensures forall i :: 0 <= i < |HitTimes(events)| ==> HitTimes(events)[i] == TpHits(events)[i].at
  {
    if events != [] { HitTimesOfHits(events[..|events| - 1]); }
  }

  /** pct is the percentage a makes of b. */
  predicate IsPercentage(pct: real, a: nat, b: nat) {
    pct * b as real == 100.0 * a as real
  }

  lemma Ratio(a: nat, b: nat, pct: real)
    requires 0 < a <= b && pct == a as real / b as real * 100.0
    ensures 0.0 < pct <= 100.0 && IsPercentage(pct, a, b)
  {
    var q := a as real / b as real;
    assert q * b as real == a as real;
    assert pct * b as real == q * b as real * 100.0;
  }

  /** Progress is the percentage of targets hit, and shown only if there are any. */
  predicate ShowsProgress(p: Snapshot, n: nat) {
    && (p.progress.Some? <==> n > 0)
    && (p.progress.Some? ==> 0.0 < p.progress.value <= 100.0 && IsPercentage(p.progress.value, n, p.totalTargets))
  }

  /** Hit targets and their times are aligned, complete and within the targets, and the times are that of the
      completion; progress is the percentage of targets hit; the stop flag means a failed scenario, stopped at
      its completion. */
  ghost predicate Aligned(p: Snapshot, s: Slice) {
    && |p.targetsHit| == |p.targetsHitAt| == p.completedCount == HitIndex(s.row) <= p.totalTargets == |s.sc.takeProfits|
    && p.targetsHit == s.sc.takeProfits[..HitIndex(s.row)]
    && (forall i :: 0 <= i < |p.targetsHitAt| ==>
          p.targetsHitAt[i].Some? && p.targetsHitAt[i] == s.row.value.completedAt)
    && ShowsProgress(p, HitIndex(s.row))
    && (p.stopLossHit <==> s.status == Failed)
    && p.stopLossHitAt == (if s.status == Failed && s.row.Some? then s.row.value.completedAt else None)
    && (p.completedCount > 0 <==> s.status == Success)
  }

  lemma SnapProgress(age: real, items: seq<real>, res: Option<Row>, points: seq<PricePoint>, events: seq<Event>)
    requires TargetPrices(items) == items && HitIndex(res) <= |items|
    ensures ShowsProgress(Snap(age, items, res, points, events), HitIndex(res))
  {
    var p, n := Snap(age, items, res, points, events), HitIndex(res);
    assert p.totalTargets == |items| && (p.progress.Some? <==> n > 0);
    if n > 0 { Ratio(n, |items|, p.progress.value); }
  }

  lemma SoundIsAligned(s: Slice, age: real)
    requires Sound(s) && HitsTold(s) && forall p :: p in s.sc.takeProfits ==> p > 0.0
    ensures Aligned(Snap(age, s.sc.takeProfits, s.row, s.points, s.log), s)
  {
    assert forall i :: 0 <= i < |s.sc.takeProfits| ==> s.sc.takeProfits[i] in s.sc.takeProfits;
    AllPositive(s.sc.takeProfits);
    HitTimesOfHits(s.log);
    SnapProgress(age, s.sc.takeProfits, s.row, s.points, s.log);
  }

  /** Main result: in every reachable state, under any losses and failed batches, the read model of a
      scenario with positive targets is aligned with what the evaluator decided and shows its row's figures. */
  lemma {:induction false} ReadModelAligned(steps: seq<Step>, x: int, age: real)
    requires Legal(EMPTY, steps) && x in Exec(EMPTY, steps).slices && Placed(Exec(EMPTY, steps).slices[x].sc)
    ensures var s := Exec(EMPTY, steps).slices[x];
            var p := Snap(age, s.sc.takeProfits, s.row, s.points, s.log);
      Aligned(p, s) && Truthful(p, age, s.row, s.points, s.log)
  {
    RunConsistent(steps);
    RunTold(steps, x);
    SoundIsAligned(Exec(EMPTY, steps).slices[x], age);
    var s := Exec(EMPTY, steps).slices[x];
    SnapIsTruthful(age, s.sc.takeProfits, s.row, s.points, s.log);
  }

  /** What the figures of one snapshot promise each other and the scenario's status. */
  ghost predicate Coherent(p: Snapshot, s: Slice) {
    && !(p.isProfit && p.isLoss)
    && (p.lowest.Some? <==> p.highest.Some?) && (p.lowest.Some? ==> p.lowest.value <= p.highest.value)
    && (Anchorable(s.sc) && s.status == Success ==> !p.isLoss)
    && (Anchorable(s.sc) && s.status == Failed ==> !p.isProfit)
    && (PositivePrices(s.sc) && s.row.Some? && s.row.value.result in {Running, Expired} && p.maxDrawdown.Some? ==>
          && p.statusPercent.Some? && p.maxProfit.Some?
          && p.maxDrawdown.value <= p.statusPercent.value <= p.maxProfit.value)
  }

  /** Main result: in every run over sane prices, under any losses and failed batches, the read model never shows
      an anchored success as a loss or an anchored failure as a profit, and orders its extremes and, while the
      scenario runs or has expired, its percentages. */
  lemma {:induction false} ReadModelCoherent(steps: seq<Step>, x: int, age: real)
    requires Legal(EMPTY, steps) && SaneFeed(steps) && x in Exec(EMPTY, steps).slices
    ensures var s := Exec(EMPTY, steps).slices[x];
      Coherent(Snap(age, s.sc.takeProfits, s.row, s.points, s.log), s)
  {
    var s := Exec(EMPTY, steps).slices[x];
    RunRanged(steps, x);
    RunLevels(steps, x);
    if Anchorable(s.sc) { ExitSigns(steps, x); }
    RowsCohere(s, age);
  }

  lemma RowsCohere(s: Slice, age: real)
    requires Ranged(s) && LevelsTold(s)
    requires Anchorable(s.sc) && s.status == Success && s.row.Some? && s.row.value.pnl.Some? ==>
      s.row.value.pnl.value >= 0.0
    requires Anchorable(s.sc) && s.status == Failed && s.row.Some? && s.row.value.pnl.Some? ==>
      s.row.value.pnl.value <= 0.0
    ensures Coherent(Snap(age, s.sc.takeProfits, s.row, s.points, s.log), s)
  {
    SnapIsTruthful(age, s.sc.takeProfits, s.row, s.points, s.log);
  }
}
