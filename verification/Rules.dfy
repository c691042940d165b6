/** The history theorem in candle fields: at which price of which candle a scenario enters and leaves, as
    comparisons of high, low and close with the entry point and the levels. */
module Rules {
  import opened Prelude
  import opened Domain
  import opened Evaluation
  import opened Machine
  import opened History
  import opened Records

  // ----- timeframes ----------------------------------------------------------------------------------

  /** How many units the text of a timeframe counts, and which. */
  function CountOf(tf: string): int
    requires |tf| >= 2
  {
    if |tf| == 2 then tf[0] as int - '0' as int
    else (tf[0] as int - '0' as int) * 10 + (tf[1] as int - '0' as int)
  }

  function UnitSeconds(unit: char): int {
    match unit
    case 'm' => 60
    case 'h' => 60 * 60
    case 'd' => 24 * 60 * 60
    case 'w' => 7 * 24 * 60 * 60
    case _ => 30 * 24 * 60 * 60
  }

  const TIMEFRAMES := {"1m", "5m", "15m", "30m", "1h", "4h", "1d", "1w", "1M"}

  /** A timeframe is as long as its text says, and an hour if it is not one of the nine. */
  lemma TimeframeUnits(tf: string)
    ensures tf in TIMEFRAMES ==>
      |tf| >= 2 && TimeframeSeconds(Some(tf)) == CountOf(tf) * UnitSeconds(tf[|tf| - 1])
    ensures tf !in TIMEFRAMES ==> TimeframeSeconds(Some(tf)) == UnitSeconds('h')
    ensures TimeframeSeconds(None) == UnitSeconds('h')
  {
  }

  // ----- entry -------------------------------------------------------------------------------------

  /** Enters at the first price it gets. */
  predicate Unconditional(sc: Scenario) {
    sc.entryPoint.None? || sc.entryType == Market
  }

  /** The price of a candle a scenario watches: break orders the extreme in their direction, consolidations the
      close, and fix orders the extreme that comes back to them. */
  function Watched(sc: Scenario, c: Candle): real {
    match sc.entryType
    case BreakUp => c.high
    case BreakDown => c.low
    case ConsolidationUp => c.close
    case ConsolidationDown => c.close
    case _ => if IsLong(sc) then c.low else c.high
  }

  /** Whether it waits for that price to be at the entry point or above, or at it or below. */
  predicate FromBelow(sc: Scenario) {
    match sc.entryType
    case BreakUp => true
    case BreakDown => false
    case ConsolidationUp => true
    case ConsolidationDown => false
    case _ => IsShort(sc)
  }

  /** Two percent either way for range prices. */
  function Margin(sc: Scenario, price: real): real {
    if sc.priceType == Range then price * 0.02 else 0.0
  }

  predicate AtEntry(sc: Scenario, c: Candle)
    requires sc.entryPoint.Some?
  {
    var ep := sc.entryPoint.value;
    if FromBelow(sc) then Watched(sc, c) >= ep - Margin(sc, ep) else Watched(sc, c) <= ep + Margin(sc, ep)
  }

  /** A neutral scenario with a fix entry has no side to come from. */
  predicate Sided(sc: Scenario) {
    sc.entryType == Fix ==> sc.direction != Some(Neutral)
  }

  predicate Consolidates(sc: Scenario) {
    sc.entryPoint.Some? && (sc.entryType == ConsolidationUp || sc.entryType == ConsolidationDown)
  }

  predicate Seen(o: Obs) {
    o.slow && o.candle.Some?
  }

  /** Prices let a waiting scenario enter in cycle i. */
  ghost predicate CanEnter(sc: Scenario, h: seq<Obs>, i: nat)
    requires i < |h|
  {
    && Seen(h[i])
    && (Unconditional(sc) ||
        if Consolidates(sc) then
          exists j: nat :: j < i && Seen(h[j]) && h[i].now - h[j].now >= TimeframeSeconds(sc.timeframe) &&
            forall k :: j <= k <= i && Seen(h[k]) ==> AtEntry(sc, h[k].candle.value)
        else Sided(sc) && AtEntry(sc, h[i].candle.value))
  }

  lemma TouchesInPrices(sc: Scenario, c: Candle)
    requires !Consolidates(sc)
    ensures !Consolidating(sc) && (Touches(sc, c) <==> Unconditional(sc) || (Sided(sc) && AtEntry(sc, c)))
  {
  }

  lemma ZoneInPrices(sc: Scenario, c: Candle)
    requires Consolidates(sc)
    ensures Consolidating(sc) && (InZone(sc, c.close) <==> AtEntry(sc, c))
  {
  }

  lemma EntryInPrices(sc: Scenario, h: seq<Obs>, i: nat)
    requires i < |h|
    ensures EntryRule(sc, h, i) <==> CanEnter(sc, h, i)
  {
    if Consolidates(sc) {
      forall j: nat | j < i
        ensures HeldSince(sc, h, j, i) <==>
          Seen(h[j]) && h[i].now - h[j].now >= TimeframeSeconds(sc.timeframe) &&
          forall k :: j <= k <= i && Seen(h[k]) ==> AtEntry(sc, h[k].candle.value)
      {
        forall k | j <= k <= i && Seen(h[k]) ensures PolledInZone(sc, h[k]) <==> AtEntry(sc, h[k].candle.value) {
          ZoneInPrices(sc, h[k].candle.value);
        }
      }
    } else if Seen(h[i]) {
      TouchesInPrices(sc, h[i].candle.value);
    }
  }

  // ----- levels --------------------------------------------------------------------------------------

  /** The candle goes up to a long's target, or down to anyone else's. */
  predicate TargetPassed(sc: Scenario, p: real, c: Candle) {
    if IsLong(sc) then c.high >= p - Margin(sc, c.close) else c.low <= p + Margin(sc, c.close)
  }

  /** The candle goes down to a long's stop, or up to a short's. */
  predicate StopPassed(sc: Scenario, c: Candle) {
    sc.stopLoss.Some? &&
    ((IsLong(sc) && c.low <= sc.stopLoss.value) || (IsShort(sc) && c.high >= sc.stopLoss.value))
  }

  /** An entered scenario lives through the cycle. */
  predicate LivesThrough(sc: Scenario, o: Obs) {
    o.candle.Some? ==>
      o.now < sc.expireAt && !StopPassed(sc, o.candle.value) &&
      forall p :: p in sc.takeProfits ==> !TargetPassed(sc, p, o.candle.value)
  }

  /** It dies in the cycle, as st and at the price exit: at the last target passed, else at the stop passed,
      else, expired, at the close. */
  predicate DiesAt(sc: Scenario, o: Obs, st: Status, exit: Option<real>) {
    o.candle.Some? && var c := o.candle.value;
    if exists p :: p in sc.takeProfits && TargetPassed(sc, p, c) then
      st == Success &&
      exists k :: 0 <= k < |sc.takeProfits| && exit == Some(sc.takeProfits[k]) &&
        TargetPassed(sc, sc.takeProfits[k], c) &&
        forall i :: k < i < |sc.takeProfits| ==> !TargetPassed(sc, sc.takeProfits[i], c)
    else if StopPassed(sc, c) then st == Failed && exit == sc.stopLoss
    else o.now >= sc.expireAt && st == Expired && exit == Some(c.close)
  }

  lemma LevelsInPrices(sc: Scenario, c: Candle)
    ensures StopTouched(sc, c) <==> StopPassed(sc, c)
    ensures forall p :: Reached(sc, p, c) <==> TargetPassed(sc, p, c)
    ensures TargetTouched(sc, c) <==> exists p :: p in sc.takeProfits && TargetPassed(sc, p, c)
  {
    forall p ensures Reached(sc, p, c) <==> TargetPassed(sc, p, c) {}
    if p :| p in sc.takeProfits && TargetPassed(sc, p, c) {
      var i :| 0 <= i < |sc.takeProfits| && sc.takeProfits[i] == p;
      assert Reached(sc, sc.takeProfits[i], c);
    }
    if TargetTouched(sc, c) {
      var i :| 0 <= i < |sc.takeProfits| && Reached(sc, sc.takeProfits[i], c);
      assert TargetPassed(sc, sc.takeProfits[i], c);
    }
  }

  lemma ClosesInPrices(sc: Scenario, o: Obs)
    ensures LivesThrough(sc, o) <==> !ClosesOn(sc, o)
    ensures ClosesOn(sc, o) ==> DiesAt(sc, o, ExitStatus(sc, o.candle.value), ExitPrice(sc, o.candle.value))
  {
    if o.candle.Some? {
      var c := o.candle.value;
      LevelsInPrices(sc, c);
      if TargetTouched(sc, c) {
        var n := BestReached(sc, sc.takeProfits, c);
        TargetsAndBest(sc, c);
        assert TargetPassed(sc, sc.takeProfits[n - 1], c);
      }
    }
  }

  // ----- whole runs ----------------------------------------------------------------------------------

  /** Cycle i does not end the wait. */
  ghost predicate StillWaits(sc: Scenario, h: seq<Obs>, i: nat)
    requires i < |h|
  {
    h[i].slow ==> !h[i].taken && !CanEnter(sc, h, i) && (h[i].candle.Some? ==> h[i].now < sc.expireAt)
  }

  ghost predicate WaitsUpTo(sc: Scenario, h: seq<Obs>, d: nat)
    requires d <= |h|
  {
    forall i: nat :: i < d ==> StillWaits(sc, h, i)
  }

  /** The row books an entry in cycle d, the first in which prices allowed one. */
  ghost predicate EnteredIn(sc: Scenario, r: Row, h: seq<Obs>, d: nat) {
    && d < |h| && WaitsUpTo(sc, h, d) && !h[d].taken && CanEnter(sc, h, d)
    && r.enteredAt == Some(h[d].now)
    && r.entryPrice ==
         Some(if Unconditional(sc) || Consolidates(sc) then h[d].candle.value.close else sc.entryPoint.value)
  }

  ghost predicate LivesUpTo(sc: Scenario, h: seq<Obs>, d: nat, e: nat)
    requires e <= |h|
  {
    forall i: nat :: d <= i < e ==> LivesThrough(sc, h[i])
  }

  /** The row books the exit in cycle e, the first since d that did not leave the position alone. */
  ghost predicate ClosedIn(sc: Scenario, st: Status, r: Row, h: seq<Obs>, d: nat, e: nat) {
    && d <= e < |h| && LivesUpTo(sc, h, d, e)
    && DiesAt(sc, h[e], st, r.exitPrice) && r.completedAt == Some(h[e].now)
  }

  /** The wait ends in cycle d without an entry. */
  ghost predicate DroppedIn(sc: Scenario, st: Status, r: Row, h: seq<Obs>, d: nat) {
    && d < |h| && WaitsUpTo(sc, h, d) && h[d].slow && r.completedAt == Some(h[d].now)
    && (h[d].taken || !CanEnter(sc, h, d))
    && var late := h[d].candle.Some? && h[d].now >= sc.expireAt;
    && (h[d].taken || late) && st == (if late then Expired else Cancelled)
  }

  /** The stored state, told in prices. */
  ghost predicate Story(s: Slice, h: seq<Obs>) {
    var sc := s.sc;
    && (s.status == Running && !s.active ==> WaitsUpTo(sc, h, |h|))
    && (s.active ==>
          && s.status == Running && s.row.Some?
          && exists d :: EnteredIn(sc, s.row.value, h, d) && LivesUpTo(sc, h, d, |h|))
    && (s.status != Running ==>
          && !s.active && s.row.Some?
          && if s.row.value.entryPrice.Some?
             then exists d, e :: EnteredIn(sc, s.row.value, h, d) && ClosedIn(sc, s.status, s.row.value, h, d, e)
             else exists d :: DroppedIn(sc, s.status, s.row.value, h, d))
  }

  lemma DecidesInPrices(sc: Scenario, h: seq<Obs>)
    ensures forall i: nat :: i < |h| ==> (Decides(sc, h, i) <==> !StillWaits(sc, h, i))
  {
    forall i: nat | i < |h| ensures Decides(sc, h, i) <==> !StillWaits(sc, h, i) { EntryInPrices(sc, h, i); }
  }

  lemma EntersAtInPrices(s: Slice, h: seq<Obs>, d: nat)
    requires EntersAt(s.sc, h, d) && h[d].candle.Some? && s.row.Some? && BookedEntry(s.sc, s.row.value, h[d])
    ensures EnteredIn(s.sc, s.row.value, h, d)
  {
    DecidesInPrices(s.sc, h);
    EntryInPrices(s.sc, h, d);
  }

  lemma LivesInPrices(sc: Scenario, h: seq<Obs>, d: nat, e: nat)
    requires e <= |h| && forall i :: d <= i < e ==> !ClosesOn(sc, h[i])
    ensures LivesUpTo(sc, h, d, e)
  {
    forall i: nat | d <= i < e ensures LivesThrough(sc, h[i]) { ClosesInPrices(sc, h[i]); }
  }

  lemma DropsInPrices(s: Slice, h: seq<Obs>, d: nat)
    requires DecidesFirst(s.sc, h, d) && !EntersAt(s.sc, h, d) && s.row.Some? && BookedDrop(s.row.value, h[d])
    requires s.status == DropStatus(s.sc, h[d])
    ensures DroppedIn(s.sc, s.status, s.row.value, h, d)
  {
    DecidesInPrices(s.sc, h);
    EntryInPrices(s.sc, h, d);
  }

  lemma FollowsInPrices(s: Slice, h: seq<Obs>)
    requires Follows(s, h) && PhaseMeans(s.sc, h, PhaseOf(s.sc, h))
    ensures Story(s, h)
  {
    DecidesInPrices(s.sc, h);
    match PhaseOf(s.sc, h) {
      case Waiting(_) =>
      case Holding(d) =>
        EntersAtInPrices(s, h, d);
        LivesInPrices(s.sc, h, d, |h|);
      case Shut(d, e) =>
        EntersAtInPrices(s, h, d);
        LivesInPrices(s.sc, h, d, e);
        ClosesInPrices(s.sc, h[e]);
        assert ClosedIn(s.sc, s.status, s.row.value, h, d, e);
      case Dropped(d) => DropsInPrices(s, h, d);
    }
  }

  /** Main result: the history theorem with every rule spelled out in candle fields. A scenario waits while no
      watched price has come to its entry point, enters in the first cycle in which one has, lives through
      every cycle that leaves its levels alone, and dies in the first that does not, at the price stated. */
  lemma {:induction false} StoryInPrices(steps: seq<Step>, x: int)
    requires Legal(EMPTY, steps) && LosesNoEntry(EMPTY, steps, x) && x in Exec(EMPTY, steps).slices
    requires Consolidates(Exec(EMPTY, steps).slices[x].sc) ==>
      KeepsClock(EMPTY, steps, x) && Clocked(HistoryOf(EMPTY, steps, x))
    ensures Story(Exec(EMPTY, steps).slices[x], HistoryOf(EMPTY, steps, x))
  {
    RunFollows(steps, x);
    PhaseIsDirect(Exec(EMPTY, steps).slices[x].sc, HistoryOf(EMPTY, steps, x));
    FollowsInPrices(Exec(EMPTY, steps).slices[x], HistoryOf(EMPTY, steps, x));
  }

  // ----- entry type by entry type --------------------------------------------------------------------

  function HighAtLeast(p: real): Candle -> bool { (c: Candle) => c.high >= p }
  function LowAtMost(p: real): Candle -> bool { (c: Candle) => c.low <= p }
  function CloseAtLeast(p: real): Candle -> bool { (c: Candle) => c.close >= p }
  function CloseAtMost(p: real): Candle -> bool { (c: Candle) => c.close <= p }

  /** The entry candle meets a price rule, no candle met it before, and none has while the scenario waits. */
  ghost predicate FirstTo(s: Slice, h: seq<Obs>, meets: Candle -> bool) {
    && (s.status == Running && !s.active ==>
          forall i :: 0 <= i < |h| && Seen(h[i]) ==> !meets(h[i].candle.value))
    && (s.row.Some? && s.row.value.entryPrice.Some? ==>
          exists d :: 0 <= d < |h| && Seen(h[d]) && meets(h[d].candle.value)
            && s.row.value.enteredAt == Some(h[d].now) && s.row.value.entryPrice == s.sc.entryPoint
            && forall i :: 0 <= i < d && Seen(h[i]) ==> !meets(h[i].candle.value))
  }

  /** All candles seen from cycle j to cycle i meet the rule, and the two are a timeframe apart. */
  ghost predicate Stretch(sc: Scenario, h: seq<Obs>, j: int, i: int, meets: Candle -> bool) {
    && 0 <= j < i < |h| && Seen(h[j]) && Seen(h[i]) && h[i].now - h[j].now >= TimeframeSeconds(sc.timeframe)
    && forall k :: j <= k <= i && Seen(h[k]) ==> meets(h[k].candle.value)
  }

  /** The same for a rule that has to hold for a timeframe; the entry is at the close. */
  ghost predicate FirstToHold(s: Slice, h: seq<Obs>, meets: Candle -> bool) {
    && (s.status == Running && !s.active ==> forall j, i :: !Stretch(s.sc, h, j, i, meets))
    && (s.row.Some? && s.row.value.entryPrice.Some? ==>
          exists j, d :: Stretch(s.sc, h, j, d, meets)
            && s.row.value.enteredAt == Some(h[d].now) && s.row.value.entryPrice == Some(h[d].candle.value.close)
            && forall a, i :: i < d ==> !Stretch(s.sc, h, a, i, meets))
  }

  lemma EntryFound(s: Slice, h: seq<Obs>) returns (d: nat)
    requires Story(s, h) && s.row.Some? && s.row.value.entryPrice.Some?
    requires s.active || s.status != Running
    ensures EnteredIn(s.sc, s.row.value, h, d)
  {
    if s.active {
      d :| EnteredIn(s.sc, s.row.value, h, d) && LivesUpTo(s.sc, h, d, |h|);
    } else {
      var e: nat;
      d, e :| EnteredIn(s.sc, s.row.value, h, d) && ClosedIn(s.sc, s.status, s.row.value, h, d, e);
    }
  }

  /** A waiting scenario has no entry on record. */
  predicate NoEntryYet(s: Slice) {
    s.status == Running && !s.active && s.row.Some? ==> s.row.value.entryPrice.None?
  }

  lemma StoryFirstTo(s: Slice, h: seq<Obs>, meets: Candle -> bool)
    requires Story(s, h) && NoEntryYet(s)
    requires s.sc.entryPoint.Some? && s.sc.entryType != Market && !Consolidates(s.sc) && Sided(s.sc)
    requires forall c :: meets(c) <==> AtEntry(s.sc, c)
    ensures FirstTo(s, h, meets)
  {
    forall i: nat | i < |h| && Seen(h[i]) && StillWaits(s.sc, h, i) ensures !meets(h[i].candle.value) {
      assert !CanEnter(s.sc, h, i);
    }
    if s.row.Some? && s.row.value.entryPrice.Some? {
      var d := EntryFound(s, h);
      forall i: nat | i < d ensures StillWaits(s.sc, h, i) {}
      assert Seen(h[d]) && meets(h[d].candle.value);
    }
  }

  lemma StretchEnters(sc: Scenario, h: seq<Obs>, j: nat, i: nat, meets: Candle -> bool)
    requires Consolidates(sc) && Stretch(sc, h, j, i, meets)
    requires forall c :: meets(c) <==> AtEntry(sc, c)
    ensures !StillWaits(sc, h, i)
  {
    assert CanEnter(sc, h, i);
  }

  lemma EntersStretch(sc: Scenario, h: seq<Obs>, d: nat, meets: Candle -> bool) returns (j: nat)
    requires d < |h| && Consolidates(sc) && CanEnter(sc, h, d)
    requires forall c :: meets(c) <==> AtEntry(sc, c)
    ensures Stretch(sc, h, j, d, meets)
  {
    j :| j < d && Seen(h[j]) && h[d].now - h[j].now >= TimeframeSeconds(sc.timeframe) &&
      forall k :: j <= k <= d && Seen(h[k]) ==> AtEntry(sc, h[k].candle.value);
  }

  lemma StoryFirstToHold(s: Slice, h: seq<Obs>, meets: Candle -> bool)
    requires Story(s, h) && NoEntryYet(s) && Consolidates(s.sc)
    requires forall c :: meets(c) <==> AtEntry(s.sc, c)
    ensures FirstToHold(s, h, meets)
  {
    forall j, i | Stretch(s.sc, h, j, i, meets) ensures !StillWaits(s.sc, h, i) {
      StretchEnters(s.sc, h, j, i, meets);
    }
    if s.status == Running && !s.active {
      forall i: nat | i < |h| ensures StillWaits(s.sc, h, i) {}
    }
    if s.row.Some? && s.row.value.entryPrice.Some? {
      var d := EntryFound(s, h);
      var j := EntersStretch(s.sc, h, d, meets);
      forall i: nat | i < d ensures StillWaits(s.sc, h, i) {}
    }
  }

  /** The six rules; range prices give two percent of the entry point. */
  ghost predicate EntryPrices(s: Slice, h: seq<Obs>)
    requires s.sc.entryPoint.Some?
  {
    var ep := s.sc.entryPoint.value;
    var m := Margin(s.sc, ep);
    match s.sc.entryType
    case BreakUp => FirstTo(s, h, HighAtLeast(ep - m))
    case BreakDown => FirstTo(s, h, LowAtMost(ep + m))
    case ConsolidationUp => FirstToHold(s, h, CloseAtLeast(ep - m))
    case ConsolidationDown => FirstToHold(s, h, CloseAtMost(ep + m))
    case Fix =>
      && (IsLong(s.sc) ==> FirstTo(s, h, LowAtMost(ep + m)))
      && (IsShort(s.sc) ==> FirstTo(s, h, HighAtLeast(ep - m)))
    case Market => true
  }

  lemma OneCandleEntries(s: Slice, h: seq<Obs>)
    requires s.sc.entryPoint.Some? && Story(s, h) && NoEntryYet(s)
    requires s.sc.entryType in {BreakUp, BreakDown, Fix}
    ensures EntryPrices(s, h)
  {
    var ep := s.sc.entryPoint.value;
    var m := Margin(s.sc, ep);
    match s.sc.entryType {
      case BreakUp => StoryFirstTo(s, h, HighAtLeast(ep - m));
      case BreakDown => StoryFirstTo(s, h, LowAtMost(ep + m));
      case _ => FixEntries(s, h);
    }
  }

  lemma FixEntries(s: Slice, h: seq<Obs>)
    requires s.sc.entryPoint.Some? && Story(s, h) && NoEntryYet(s) && s.sc.entryType == Fix
    ensures EntryPrices(s, h)
  {
    var ep := s.sc.entryPoint.value;
    var m := Margin(s.sc, ep);
    if IsLong(s.sc) { StoryFirstTo(s, h, LowAtMost(ep + m)); }
    if IsShort(s.sc) { StoryFirstTo(s, h, HighAtLeast(ep - m)); }
  }

  lemma HeldEntries(s: Slice, h: seq<Obs>)
    requires s.sc.entryPoint.Some? && Story(s, h) && NoEntryYet(s) && Consolidates(s.sc)
    ensures EntryPrices(s, h)
  {
    var ep := s.sc.entryPoint.value;
    var m := Margin(s.sc, ep);
    if s.sc.entryType == ConsolidationUp {
      StoryFirstToHold(s, h, CloseAtLeast(ep - m));
    } else {
      StoryFirstToHold(s, h, CloseAtMost(ep + m));
    }
  }

  lemma StoryEntries(s: Slice, h: seq<Obs>)
    requires s.sc.entryPoint.Some? && Story(s, h) && NoEntryYet(s)
    ensures EntryPrices(s, h)
  {
    if Consolidates(s.sc) {
      HeldEntries(s, h);
    } else if s.sc.entryType != Market {
      OneCandleEntries(s, h);
    }
  }

  /** Main result, entry type by entry type: the candle price a scenario enters on, and no earlier one like it.
      Range prices give two percent. */
  lemma {:induction false} EntriesInPrices(steps: seq<Step>, x: int)
    requires Legal(EMPTY, steps) && LosesNoEntry(EMPTY, steps, x) && x in Exec(EMPTY, steps).slices
    requires Exec(EMPTY, steps).slices[x].sc.entryPoint.Some?
    requires Consolidates(Exec(EMPTY, steps).slices[x].sc) ==>
      KeepsClock(EMPTY, steps, x) && Clocked(HistoryOf(EMPTY, steps, x))
    ensures EntryPrices(Exec(EMPTY, steps).slices[x], HistoryOf(EMPTY, steps, x))
  {
    StoryInPrices(steps, x);
    RunRecorded(steps, x);
    StoryEntries(Exec(EMPTY, steps).slices[x], HistoryOf(EMPTY, steps, x));
  }
}
