/** The incremental machine computes, for every scenario, exactly what a direct reading of
    its whole price history says: when it enters, when it closes, as what and at which price. */
module History {
  import opened Prelude
  import opened Domain
  import opened Evaluation
  import opened Machine
  import opened Audit
  import opened Exclusion

  // ----- what a scenario gets to see ------------------------------------------------

  /** One cycle from the viewpoint of one scenario. taken: a sibling enters in this cycle. */
  datatype Obs = Obs(slow: bool, now: int, candle: Option<Candle>, taken: bool)

  function ObsOf(w: World, p: Poll, x: int): Obs
    requires x in w.slices
  {
    Obs(Slow(w), p.now, Get(p.candles, x), Loses(w, p, x))
  }

  /** What the committed cycles of a run let x see. */
  function HistoryOf(w: World, steps: seq<Step>, x: int): seq<Obs> {
    if steps == [] then []
    else
      var front := steps[..|steps| - 1];
      var st := steps[|steps| - 1];
      var h := HistoryOf(w, front, x);
      if st.Evaluation? && st.poll.commits && x in Exec(w, front).slices
      then h + [ObsOf(Exec(w, front), st.poll, x)] else h
  }

  function LocalStep(s: Slice, o: Obs): Slice {
    StepScenario(s, o.slow, o.candle, o.now, o.taken, o.taken, true)
  }

  /** Whether entry is skipped makes no difference to an entered scenario. */
  lemma ActiveIgnoresSkip(s: Slice, candle: Option<Candle>, now: int)
    requires s.active
    ensures Observe(s, candle, now, true) == Observe(s, candle, now, false)
  {
  }

  /** In a consistent state a committed cycle acts on each scenario through its observation alone. */
  lemma {:induction false} Localized(w: World, p: Poll, x: int)
    requires Consistent(w) && Lists(w, p.order) && p.commits && x in w.slices
    ensures SliceAfter(w, p, x) == LocalStep(w.slices[x], ObsOf(w, p, x))
    ensures w.slices[x].active ==> !Loses(w, p, x)
  {
    var s := w.slices[x];
    var g := s.sc.signalId;
    if Picked(w, x) {
      NewlyWins(w, p, x);
      if s.active {
        assert g in Busy(w);
        ActiveIgnoresSkip(s, Get(p.candles, x), p.now);
      } else {
        forall y | y in w.slices && w.slices[y].active ensures w.slices[y].sc.signalId != g {
          assert HasEntered(w, y) && (w.slices[y].sc.signalId == g ==> Siblings(w, y, x));
        }
      }
    }
  }

  /** How many of n cycles, after the first ones of the process, look at waiting scenarios too. */
  function SlowAmong(first: nat, n: nat): nat {
    if n == 0 then 0
    else SlowAmong(first, n - 1) + if Slow(World(first + n - 1, map[], map[])) then 1 else 0
  }

  lemma NextSixth(n: nat)
    requires n > 0
    ensures n / 6 == (n - 1) / 6 + if n % 6 == 0 then 1 else 0
  {
  }

  /** As many as there are multiples of six among their numbers. */
  lemma {:induction false} SlowCount(first: nat, n: nat)
    ensures SlowAmong(first, n) == (first + n) / 6 - first / 6
  {
    if n > 0 {
      SlowCount(first, n - 1);
      NextSixth(first + n);
    }
  }

  /** The first five do not, and of six in a row exactly one does. */
  lemma EverySixth(first: nat)
    ensures SlowAmong(0, 5) == 0 && SlowAmong(first, 6) == 1
  {
    SlowCount(0, 5);
    SlowCount(first, 6);
  }

  // ----- the direct reading ------------------------------------------------------------

  /** A cycle in which a waiting scenario is evaluated. */
  predicate Polled(o: Obs) {
    o.slow && o.candle.Some?
  }

  predicate PolledInZone(sc: Scenario, o: Obs)
    requires Consolidating(sc)
  {
    Polled(o) && InZone(sc, o.candle.value.close)
  }

  /** From cycle j to cycle i every evaluated close stays in the zone, for a timeframe or more. */
  ghost predicate HeldSince(sc: Scenario, h: seq<Obs>, j: nat, i: nat)
    requires Consolidating(sc) && j < i < |h|
  {
    && Polled(h[j]) && h[i].now - h[j].now >= TimeframeSeconds(sc.timeframe)
    && forall k :: j <= k <= i && Polled(h[k]) ==> PolledInZone(sc, h[k])
  }

  /** The entry rule at cycle i. */
  ghost predicate EntryRule(sc: Scenario, h: seq<Obs>, i: nat)
    requires i < |h|
  {
    Polled(h[i]) &&
    if Consolidating(sc) then exists j: nat :: j < i && HeldSince(sc, h, j, i)
    else Touches(sc, h[i].candle.value)
  }

  predicate Overdue(sc: Scenario, o: Obs) {
    o.candle.Some? && o.now >= sc.expireAt
  }

  /** Waiting ends at cycle i: a sibling enters, or the rule is met, or time is up. */
  ghost predicate Decides(sc: Scenario, h: seq<Obs>, i: nat)
    requires i < |h|
  {
    h[i].slow && (h[i].taken || EntryRule(sc, h, i) || Overdue(sc, h[i]))
  }

  ghost predicate DecidesFirst(sc: Scenario, h: seq<Obs>, d: nat) {
    d < |h| && Decides(sc, h, d) && forall i: nat :: i < d ==> !Decides(sc, h, i)
  }

  ghost predicate EntersAt(sc: Scenario, h: seq<Obs>, d: nat) {
    DecidesFirst(sc, h, d) && !h[d].taken && EntryRule(sc, h, d)
  }

  predicate TargetTouched(sc: Scenario, c: Candle) {
    exists i :: 0 <= i < |sc.takeProfits| && Reached(sc, sc.takeProfits[i], c)
  }

  predicate ClosesOn(sc: Scenario, o: Obs) {
    o.candle.Some? && (TargetTouched(sc, o.candle.value) || StopTouched(sc, o.candle.value) || o.now >= sc.expireAt)
  }

  ghost predicate ExitsAt(sc: Scenario, h: seq<Obs>, d: nat, e: nat) {
    d <= e < |h| && ClosesOn(sc, h[e]) && forall i :: d <= i < e ==> !ClosesOn(sc, h[i])
  }

  /** A touched target wins over a touched stop, and both over expiry. */
  function ExitStatus(sc: Scenario, c: Candle): Status {
    if TargetTouched(sc, c) then Success else if StopTouched(sc, c) then Failed else Expired
  }

  function ExitPrice(sc: Scenario, c: Candle): Option<real> {
    if TargetTouched(sc, c) then Some(sc.takeProfits[BestReached(sc, sc.takeProfits, c) - 1])
    else if StopTouched(sc, c) then sc.stopLoss
    else Some(c.close)
  }

  // ----- a monitor that reads the history once --------------------------------------------

  /** zone: the cycle since which the closes have been in the zone. */
  datatype Phase = Waiting(zone: Option<nat>) | Holding(d: nat) | Shut(d: nat, e: nat) | Dropped(d: nat)

  function Enters(sc: Scenario, h: seq<Obs>, zone: Option<nat>, o: Obs): bool
    requires Polled(o) && (zone.Some? ==> zone.value < |h|)
  {
    if Consolidating(sc)
    then PolledInZone(sc, o) && zone.Some? && o.now - h[zone.value].now >= TimeframeSeconds(sc.timeframe)
    else Touches(sc, o.candle.value)
  }

  function ZoneAfter(sc: Scenario, zone: Option<nat>, o: Obs, n: nat): Option<nat>
    requires Polled(o)
  {
    if Consolidating(sc) && PolledInZone(sc, o) then (if zone.Some? then zone else Some(n)) else None
  }

  function PhaseStep(sc: Scenario, h: seq<Obs>, ph: Phase, o: Obs): Phase
    requires ph.Waiting? && ph.zone.Some? ==> ph.zone.value < |h|
  {
    var n := |h|;
    match ph
    case Waiting(zone) =>
      if !o.slow then ph
      else if o.taken then Dropped(n)
      else if o.candle.None? then ph
      else if Enters(sc, h, zone, o) then (if ClosesOn(sc, o) then Shut(n, n) else Holding(n))
      else if o.now >= sc.expireAt then Dropped(n)
      else Waiting(ZoneAfter(sc, zone, o, n))
    case Holding(d) => if ClosesOn(sc, o) then Shut(d, n) else ph
    case _ => ph
  }

  function PhaseOf(sc: Scenario, h: seq<Obs>): (ph: Phase)
    ensures ph.Waiting? && ph.zone.Some? ==> ph.zone.value < |h|
    ensures ph.Holding? || ph.Dropped? ==> ph.d < |h|
    ensures ph.Shut? ==> ph.d <= ph.e < |h|
    ensures ph.Holding? || ph.Shut? ==> Polled(h[ph.d])
    ensures ph.Shut? ==> h[ph.e].candle.Some?
  {
    if h == [] then Waiting(None)
    else PhaseStep(sc, h[..|h| - 1], PhaseOf(sc, h[..|h| - 1]), h[|h| - 1])
  }

  lemma PhaseExtend(sc: Scenario, h: seq<Obs>, o: Obs)
    ensures PhaseOf(sc, h + [o]) == PhaseStep(sc, h, PhaseOf(sc, h), o)
  {
    assert (h + [o])[..|h|] == h;
  }

  // ----- the machine follows the monitor ------------------------------------------------------

  predicate BookedEntry(sc: Scenario, r: Row, o: Obs)
    requires o.candle.Some?
  {
    r.enteredAt == Some(o.now) && r.entryPrice == Some(EntryPriceOn(sc, o.candle.value))
  }

  predicate NeverEntered(r: Row) {
    r.enteredAt.None? && r.entryPrice.None? && r.highest.None? && r.lowest.None?
  }

  predicate BookedExit(sc: Scenario, r: Row, o: Obs)
    requires o.candle.Some?
  {
    && r.result == ExitStatus(sc, o.candle.value)
    && r.exitPrice == ExitPrice(sc, o.candle.value) && r.completedAt == Some(o.now)
  }

  function DropStatus(sc: Scenario, o: Obs): Status {
    if o.taken && !Overdue(sc, o) then Cancelled else Expired
  }

  /** The result column of a dropped scenario: a sibling's entry has the last word on it. */
  function DropResult(o: Obs): Status {
    if o.taken then Cancelled else Expired
  }

  /** A row of a scenario that was closed by o without ever entering. */
  predicate BookedDrop(r: Row, o: Obs) {
    NeverEntered(r) && r.exitPrice.None? && r.completedAt == Some(o.now) && r.result == DropResult(o)
  }

  /** The stored state is the one the phase calls for. */
  ghost predicate Follows(s: Slice, h: seq<Obs>) {
    var sc := s.sc;
    match PhaseOf(sc, h)
    case Waiting(zone) =>
      && s.status == Running && !s.active && !s.keys.entered
      && (s.row.Some? ==> NeverEntered(s.row.value) && Unsettled(s.row.value))
      && (Consolidating(sc) ==> s.keys.consolStart == if zone.Some? then Some(h[zone.value].now) else None)
    case Holding(d) =>
      && s.status == Running && s.active
      && s.row.Some? && BookedEntry(sc, s.row.value, h[d]) && Unsettled(s.row.value)
    case Shut(d, e) =>
      && s.status == ExitStatus(sc, h[e].candle.value) && !s.active
      && s.row.Some? && BookedEntry(sc, s.row.value, h[d]) && BookedExit(sc, s.row.value, h[e])
    case Dropped(d) =>
      && s.status == DropStatus(sc, h[d]) && !s.active
      && s.row.Some? && BookedDrop(s.row.value, h[d])
  }

  lemma TargetsAndBest(sc: Scenario, c: Candle)
    ensures TargetTouched(sc, c) <==> BestReached(sc, sc.takeProfits, c) > 0
  {
    var n := BestReached(sc, sc.takeProfits, c);
    if n > 0 { assert Reached(sc, sc.takeProfits[n - 1], c); }
  }

  /** An entered scenario closes exactly when and how the direct reading says. */
  lemma EnteredVerdict(sc: Scenario, active: bool, dbEntry: Option<real>, k: Keys, c: Candle, now: int,
                       skip: bool, taken: bool)
    requires k.bestTp.None? && k.bestTpIdx.None?
    ensures var d := CourseOf(sc, active, dbEntry, k, c, now, skip);
            var o := Obs(true, now, Some(c), taken);
      d.entered ==>
        && (d.verdict.Close? <==> ClosesOn(sc, o))
        && (d.verdict.Close? ==> d.verdict == Close(ExitStatus(sc, c), ExitPrice(sc, c)))
  {
    TargetsAndBest(sc, c);
    CourseFacts(sc, active, dbEntry, k, c, now, skip);
  }

  /** A waiting scenario enters exactly when the monitor does. */
  lemma WaitingCourse(s: Slice, h: seq<Obs>, zone: Option<nat>, o: Obs)
    requires !s.active && !s.keys.entered && Polled(o) && (zone.Some? ==> zone.value < |h|)
    requires Consolidating(s.sc) ==> s.keys.consolStart == if zone.Some? then Some(h[zone.value].now) else None
    ensures var d := CourseOf(s.sc, false, DbEntry(s.row), s.keys, o.candle.value, o.now, o.taken);
      && (d.entered <==> !o.taken && Enters(s.sc, h, zone, o)) && (d.newly <==> d.entered)
      && (d.entered ==> d.entry == Some(EntryPriceOn(s.sc, o.candle.value)))
      && (!d.entered ==> !d.keys.entered)
      && (!d.entered ==> d.verdict == if o.now >= s.sc.expireAt then Close(Expired, None) else Verdict.Open)
      && (!d.entered && !o.taken && Consolidating(s.sc) ==>
            var z := ZoneAfter(s.sc, zone, o, |h|);
            d.keys.consolStart == if z.None? then None else if z == zone then Some(h[zone.value].now) else Some(o.now))
  {
  }

  /** The state part of a cycle that evaluates a scenario no sibling beats. */
  lemma StepOfCourse(s: Slice, o: Obs)
    requires s.status == Running && Selected(s, o.slow) && o.candle.Some? && !o.taken
    ensures var c := o.candle.value;
            var d := CourseOf(s.sc, s.active, DbEntry(s.row), s.keys, c, o.now, false);
            var s' := LocalStep(s, o);
      && s'.sc == s.sc
      && (d.verdict.Close? ==> s'.status == d.verdict.status && !s'.active)
      && (!d.verdict.Close? ==> s'.status == Running && s'.active == (s.active || d.newly))
      && (!d.verdict.Close? ==> s'.keys == (if d.due then d.keys.(lastHist := Some(o.now)) else d.keys).(first := true))
      && s'.row == (if d.entered || d.verdict.Close? || !d.keys.first
                    then Some(Upsert(s.row, RowOf(s.sc, d, c, o.now))) else s.row)
  {
  }

  /** A waiting scenario a sibling's entry or its expiry has closed. */
  predicate DroppedBy(s: Slice, o: Obs) {
    && s.status == DropStatus(s.sc, o) && !s.active
    && s.row.Some? && BookedDrop(s.row.value, o)
  }

  lemma TakenPriced(s: Slice, h: seq<Obs>, zone: Option<nat>, o: Obs)
    requires Sound(s) && Follows(s, h) && PhaseOf(s.sc, h) == Waiting(zone) && Polled(o) && o.taken
    ensures DroppedBy(LocalStep(s, o), o) && LocalStep(s, o).sc == s.sc
  {
    WaitingCourse(s, h, zone, o);
    CourseFacts(s.sc, s.active, DbEntry(s.row), s.keys, o.candle.value, o.now, true);
  }

  lemma TakenUnpriced(s: Slice, h: seq<Obs>, o: Obs)
    requires Follows(s, h) && PhaseOf(s.sc, h).Waiting? && o.slow && o.candle.None? && o.taken
    ensures DroppedBy(LocalStep(s, o), o) && LocalStep(s, o).sc == s.sc
  {
  }

  lemma DroppedFollows(s: Slice, h: seq<Obs>, o: Obs)
    requires PhaseOf(s.sc, h + [o]) == Dropped(|h|) && DroppedBy(s, o)
    ensures Follows(s, h + [o])
  {
    assert (h + [o])[|h|] == o;
  }

  lemma WaitingExpires(s: Slice, h: seq<Obs>, zone: Option<nat>, o: Obs)
    requires Sound(s) && Follows(s, h) && PhaseOf(s.sc, h) == Waiting(zone) && Polled(o) && !o.taken
    requires !Enters(s.sc, h, zone, o) && o.now >= s.sc.expireAt
    ensures DroppedBy(LocalStep(s, o), o) && LocalStep(s, o).sc == s.sc
  {
    WaitingCourse(s, h, zone, o);
    CourseFacts(s.sc, s.active, DbEntry(s.row), s.keys, o.candle.value, o.now, false);
    StepOfCourse(s, o);
  }

  lemma WaitingGoesOn(s: Slice, h: seq<Obs>, zone: Option<nat>, o: Obs)
    requires Sound(s) && Follows(s, h) && PhaseOf(s.sc, h) == Waiting(zone) && Polled(o) && !o.taken
    requires !Enters(s.sc, h, zone, o) && o.now < s.sc.expireAt
    ensures Follows(LocalStep(s, o), h + [o])
  {
    PhaseExtend(s.sc, h, o);
    WaitingCourse(s, h, zone, o);
    CourseFacts(s.sc, s.active, DbEntry(s.row), s.keys, o.candle.value, o.now, false);
    StepOfCourse(s, o);
  }

  lemma WaitingEnters(s: Slice, h: seq<Obs>, zone: Option<nat>, o: Obs)
    requires Sound(s) && Follows(s, h) && PhaseOf(s.sc, h) == Waiting(zone) && Polled(o) && !o.taken
    requires Enters(s.sc, h, zone, o)
    ensures Follows(LocalStep(s, o), h + [o])
  {
    var c := o.candle.value;
    PhaseExtend(s.sc, h, o);
    WaitingCourse(s, h, zone, o);
    EnteredVerdict(s.sc, s.active, DbEntry(s.row), s.keys, c, o.now, false, false);
    CourseFacts(s.sc, s.active, DbEntry(s.row), s.keys, c, o.now, false);
    StepOfCourse(s, o);
  }

  lemma WaitingEvaluated(s: Slice, h: seq<Obs>, zone: Option<nat>, o: Obs)
    requires Sound(s) && Follows(s, h) && PhaseOf(s.sc, h) == Waiting(zone) && Polled(o) && !o.taken
    ensures Follows(LocalStep(s, o), h + [o])
  {
    if Enters(s.sc, h, zone, o) {
      WaitingEnters(s, h, zone, o);
    } else if o.now < s.sc.expireAt {
      WaitingGoesOn(s, h, zone, o);
    } else {
      PhaseExtend(s.sc, h, o);
      WaitingExpires(s, h, zone, o);
      DroppedFollows(LocalStep(s, o), h, o);
    }
  }

  lemma WaitingTaken(s: Slice, h: seq<Obs>, o: Obs)
    requires Sound(s) && Follows(s, h) && PhaseOf(s.sc, h).Waiting? && o.slow && o.taken
    ensures Follows(LocalStep(s, o), h + [o])
  {
    PhaseExtend(s.sc, h, o);
    if o.candle.Some? { TakenPriced(s, h, PhaseOf(s.sc, h).zone, o); } else { TakenUnpriced(s, h, o); }
    DroppedFollows(LocalStep(s, o), h, o);
  }

  lemma FollowWaiting(s: Slice, h: seq<Obs>, o: Obs)
    requires Sound(s) && Follows(s, h) && PhaseOf(s.sc, h).Waiting?
    ensures Follows(LocalStep(s, o), h + [o])
  {
    if o.slow && o.taken {
      WaitingTaken(s, h, o);
    } else if Polled(o) {
      WaitingEvaluated(s, h, PhaseOf(s.sc, h).zone, o);
    } else {
      PhaseExtend(s.sc, h, o);
    }
  }

  lemma FollowHolding(s: Slice, h: seq<Obs>, o: Obs)
    requires Sound(s) && Follows(s, h) && PhaseOf(s.sc, h).Holding? && !o.taken
    ensures Follows(LocalStep(s, o), h + [o])
  {
    PhaseExtend(s.sc, h, o);
    if o.candle.Some? {
      EnteredVerdict(s.sc, s.active, DbEntry(s.row), s.keys, o.candle.value, o.now, o.taken, o.taken);
      CourseFacts(s.sc, s.active, DbEntry(s.row), s.keys, o.candle.value, o.now, o.taken);
    }
  }

  /** One observation takes machine and monitor to matching states. */
  lemma FollowStep(s: Slice, h: seq<Obs>, o: Obs)
    requires Sound(s) && Follows(s, h) && (s.active ==> !o.taken)
    ensures Follows(LocalStep(s, o), h + [o])
  {
    match PhaseOf(s.sc, h) {
      case Waiting(_) => FollowWaiting(s, h, o);
      case Holding(_) => FollowHolding(s, h, o);
      case _ => PhaseExtend(s.sc, h, o);
    }
  }

  // ----- the monitor computes the direct reading ------------------------------------------------

  ghost predicate Clocked(h: seq<Obs>) {
    forall i, j :: 0 <= i <= j < |h| ==> h[i].now <= h[j].now
  }

  lemma EntryRuleStable(sc: Scenario, h: seq<Obs>, o: Obs, i: nat)
    requires i < |h|
    ensures EntryRule(sc, h + [o], i) <==> EntryRule(sc, h, i)
  {
    var g := h + [o];
    if Consolidating(sc) {
      forall j: nat | j < i ensures HeldSince(sc, g, j, i) <==> HeldSince(sc, h, j, i) {
        assert forall k :: j <= k <= i ==> g[k] == h[k];
      }
    }
  }

  lemma DecidesStable(sc: Scenario, h: seq<Obs>, o: Obs)
    ensures forall i: nat :: i < |h| ==> (Decides(sc, h + [o], i) <==> Decides(sc, h, i))
    ensures forall d: nat :: d < |h| ==> (DecidesFirst(sc, h + [o], d) <==> DecidesFirst(sc, h, d))
    ensures forall d: nat :: d < |h| ==> (EntersAt(sc, h + [o], d) <==> EntersAt(sc, h, d))
  {
    forall i: nat | i < |h| ensures EntryRule(sc, h + [o], i) <==> EntryRule(sc, h, i) {
      EntryRuleStable(sc, h, o, i);
    }
    assert forall i: nat :: i < |h| ==> (Decides(sc, h + [o], i) <==> Decides(sc, h, i));
  }

  /** Since zone, and not before, the evaluated closes are in the zone. */
  ghost predicate ZoneIs(sc: Scenario, h: seq<Obs>, zone: Option<nat>)
    requires Consolidating(sc) && (zone.Some? ==> zone.value < |h|)
  {
    && (zone.Some? ==>
          && Polled(h[zone.value])
          && forall k :: zone.value <= k < |h| && Polled(h[k]) ==> PolledInZone(sc, h[k]))
    && forall j :: 0 <= j < (if zone.Some? then zone.value else |h|) && Polled(h[j]) ==>
         exists k :: j <= k < |h| && Polled(h[k]) && !PolledInZone(sc, h[k])
  }

  lemma ZoneStep(sc: Scenario, h: seq<Obs>, zone: Option<nat>, o: Obs)
    requires Consolidating(sc) && (zone.Some? ==> zone.value < |h|) && ZoneIs(sc, h, zone)
    ensures ZoneIs(sc, h + [o], if Polled(o) then ZoneAfter(sc, zone, o, |h|) else zone)
  {
    var g := h + [o];
    var zone' := if Polled(o) then ZoneAfter(sc, zone, o, |h|) else zone;
    forall j | 0 <= j < (if zone'.Some? then zone'.value else |g|) && Polled(g[j])
      ensures exists k :: j <= k < |g| && Polled(g[k]) && !PolledInZone(sc, g[k])
    {
      if Polled(o) && !PolledInZone(sc, o) {
        assert Polled(g[|h|]) && !PolledInZone(sc, g[|h|]);
      } else {
        var k :| j <= k < |h| && Polled(h[k]) && !PolledInZone(sc, h[k]);
        assert Polled(g[k]) && !PolledInZone(sc, g[k]);
      }
    }
  }

  /** The zone clock covers every stretch of in-zone closes that reaches the present. */
  lemma ZoneCovers(sc: Scenario, h: seq<Obs>, zone: Option<nat>, j: nat)
    requires Consolidating(sc) && (zone.Some? ==> zone.value < |h|) && ZoneIs(sc, h, zone)
    requires j < |h| && Polled(h[j]) && forall k :: j <= k < |h| && Polled(h[k]) ==> PolledInZone(sc, h[k])
    ensures zone.Some? && zone.value <= j
  {
  }

  lemma HeldEnters(sc: Scenario, h: seq<Obs>, zone: Option<nat>, o: Obs, j: nat)
    requires Consolidating(sc) && (zone.Some? ==> zone.value < |h|) && ZoneIs(sc, h, zone)
    requires Polled(o) && Clocked(h + [o]) && j < |h| && HeldSince(sc, h + [o], j, |h|)
    ensures Enters(sc, h, zone, o)
  {
    var g := h + [o];
    assert PolledInZone(sc, g[|h|]);
    forall k | j <= k < |h| && Polled(h[k]) ensures PolledInZone(sc, h[k]) {
      assert g[k] == h[k];
    }
    assert g[j] == h[j];
    ZoneCovers(sc, h, zone, j);
    assert g[zone.value].now <= g[j].now;
  }

  lemma EntersHeld(sc: Scenario, h: seq<Obs>, zone: Option<nat>, o: Obs)
    requires Consolidating(sc) && (zone.Some? ==> zone.value < |h|) && ZoneIs(sc, h, zone)
    requires Polled(o) && Enters(sc, h, zone, o)
    ensures HeldSince(sc, h + [o], zone.value, |h|)
  {
  }

  lemma EntersIsEntryRule(sc: Scenario, h: seq<Obs>, zone: Option<nat>, o: Obs)
    requires zone.Some? ==> zone.value < |h|
    requires Polled(o) && (Consolidating(sc) ==> ZoneIs(sc, h, zone) && Clocked(h + [o]))
    ensures Enters(sc, h, zone, o) <==> EntryRule(sc, h + [o], |h|)
  {
    if Consolidating(sc) {
      if Enters(sc, h, zone, o) {
        EntersHeld(sc, h, zone, o);
      }
      if j: nat :| j < |h| && HeldSince(sc, h + [o], j, |h|) {
        HeldEnters(sc, h, zone, o, j);
      }
    }
  }

  /** What each phase says about the history. */
  ghost predicate PhaseMeans(sc: Scenario, h: seq<Obs>, ph: Phase) {
    match ph
    case Waiting(zone) =>
      && (forall i: nat :: i < |h| ==> !Decides(sc, h, i))
      && (Consolidating(sc) ==> (zone.Some? ==> zone.value < |h|) && ZoneIs(sc, h, zone))
    case Holding(d) => EntersAt(sc, h, d) && forall i :: d <= i < |h| ==> !ClosesOn(sc, h[i])
    case Shut(d, e) => EntersAt(sc, h, d) && ExitsAt(sc, h, d, e)
    case Dropped(d) => DecidesFirst(sc, h, d) && !EntersAt(sc, h, d)
  }

  lemma PhaseMeansStep(sc: Scenario, h: seq<Obs>, ph: Phase, o: Obs)
    requires ph.Waiting? && ph.zone.Some? ==> ph.zone.value < |h|
    requires PhaseMeans(sc, h, ph) && (Consolidating(sc) ==> Clocked(h + [o]))
    ensures PhaseMeans(sc, h + [o], PhaseStep(sc, h, ph, o))
  {
    DecidesStable(sc, h, o);
    if ph.Waiting? {
      if Polled(o) { EntersIsEntryRule(sc, h, ph.zone, o); }
      if Consolidating(sc) { ZoneStep(sc, h, ph.zone, o); }
    }
  }

  lemma {:induction false} PhaseIsDirect(sc: Scenario, h: seq<Obs>)
    requires Consolidating(sc) ==> Clocked(h)
    ensures PhaseMeans(sc, h, PhaseOf(sc, h))
  {
    if h != [] {
      var front := h[..|h| - 1];
      PhaseIsDirect(sc, front);
      assert front + [h[|h| - 1]] == h;
      PhaseMeansStep(sc, front, PhaseOf(sc, front), h[|h| - 1]);
    }
  }

  // ----- whole runs ---------------------------------------------------------------------------------

  /** Only committed cycles move x's consolidation clock: no key loss takes it, no failed batch touches it. */
  ghost predicate KeepsClock(w: World, steps: seq<Step>, x: int) {
    steps == [] ||
    var front := steps[..|steps| - 1];
    var st := steps[|steps| - 1];
    && KeepsClock(w, front, x)
    && (x in Exec(w, front).slices && (st.Lose? || st.Restart? || (st.Evaluation? && !st.poll.commits)) ==>
          SliceNext(Exec(w, front), st, x).keys.consolStart == Exec(w, front).slices[x].keys.consolStart)
  }

  /** No failed batch of the run was to record the entry of x. */
  ghost predicate LosesNoEntry(w: World, steps: seq<Step>, x: int) {
    steps == [] ||
    var front := steps[..|steps| - 1];
    var st := steps[|steps| - 1];
    && LosesNoEntry(w, front, x)
    && (st.Evaluation? && !st.poll.commits && x in Exec(w, front).slices ==> !Wins(Exec(w, front), st.poll, x))
  }

  predicate Wins(w: World, p: Poll, x: int)
    requires x in w.slices
  {
    var m := Winners(w, p, p.order);
    var g := w.slices[x].sc.signalId;
    g in m && m[g] == x
  }

  /** A failed batch that was not to record an entry leaves no trace in the reading. */
  lemma FailedFollows(w: World, p: Poll, x: int, h: seq<Obs>)
    requires Consistent(w) && Lists(w, p.order) && !p.commits && x in w.slices && Follows(w.slices[x], h)
    requires !Wins(w, p, x)
    requires Consolidating(w.slices[x].sc) ==> SliceAfter(w, p, x).keys.consolStart == w.slices[x].keys.consolStart
    ensures Follows(SliceAfter(w, p, x), h)
  {
    var s := w.slices[x];
    var k := SliceAfter(w, p, x).keys;
    assert SliceAfter(w, p, x) == s.(keys := k);
    if Picked(w, x) {
      NewlyWins(w, p, x);
      if !s.active && !s.keys.entered { StaysOut(s, Get(p.candles, x), p.now, Skips(w, p, x)); }
    }
    OtherKeysFollow(s, k, h);
  }

  /** Only the entered flag of a waiting scenario and its consolidation clock matter. */
  lemma OtherKeysFollow(s: Slice, k: Keys, h: seq<Obs>)
    requires Follows(s, h) && (!s.active && !s.keys.entered ==> !k.entered)
    requires Consolidating(s.sc) ==> k.consolStart == s.keys.consolStart
    ensures Follows(s.(keys := k), h)
  {
  }

  lemma StaysOut(s: Slice, candle: Option<Candle>, now: int, skip: bool)
    requires !s.active && !s.keys.entered && !Observe(s, candle, now, skip).newly
    ensures !Observe(s, candle, now, skip).keys.entered
  {
  }

  lemma {:induction false} NoHistoryBeforeInsert(w: World, steps: seq<Step>, x: int)
    requires x !in Exec(w, steps).slices
    ensures HistoryOf(w, steps, x) == []
  {
    if steps != [] {
      var front := steps[..|steps| - 1];
      if x in Exec(w, front).slices { NextSlice(Exec(w, front), steps[|steps| - 1], x); }
      NoHistoryBeforeInsert(w, front, x);
    }
  }

  lemma NewSliceIsFresh(w: World, st: Step, x: int)
    requires x !in w.slices && x in Next(w, st).slices
    ensures st.Insert? && x in st.scenarios && Next(w, st).slices[x] == Fresh(st.scenarios[x])
  {
  }

  lemma KeyLossFollows(w: World, st: Step, x: int, h: seq<Obs>)
    requires st.Lose? || st.Restart?
    requires Enabled(w, st) && x in w.slices && Follows(w.slices[x], h)
    requires Consolidating(w.slices[x].sc) ==> SliceNext(w, st, x).keys.consolStart == w.slices[x].keys.consolStart
    ensures Follows(SliceNext(w, st, x), h)
  {
  }

  lemma {:induction false} RunFollows(steps: seq<Step>, x: int)
    requires Legal(EMPTY, steps) && LosesNoEntry(EMPTY, steps, x) && x in Exec(EMPTY, steps).slices
    requires Consolidating(Exec(EMPTY, steps).slices[x].sc) ==> KeepsClock(EMPTY, steps, x)
    ensures Follows(Exec(EMPTY, steps).slices[x], HistoryOf(EMPTY, steps, x))
  {
    var front := steps[..|steps| - 1];
    var st := steps[|steps| - 1];
    var w := Exec(EMPTY, front);
    if x in w.slices {
      NextSlice(w, st, x);
      SameScenario(w, st, x);
      RunFollows(front, x);
      RunConsistent(front);
      if st.Evaluation? && !st.poll.commits {
        FailedFollows(w, st.poll, x, HistoryOf(EMPTY, front, x));
      } else if st.Evaluation? {
        Localized(w, st.poll, x);
        FollowStep(w.slices[x], HistoryOf(EMPTY, front, x), ObsOf(w, st.poll, x));
      } else if st.Lose? || st.Restart? {
        KeyLossFollows(w, st, x, HistoryOf(EMPTY, front, x));
      }
    } else {
      NewSliceIsFresh(w, st, x);
      NoHistoryBeforeInsert(EMPTY, front, x);
    }
  }

  lemma SameScenario(w: World, st: Step, x: int)
    requires x in w.slices
    ensures SliceNext(w, st, x).sc == w.slices[x].sc
  {
  }

  /** The stored state s is the direct reading of the history h. */
  ghost predicate DirectReading(s: Slice, h: seq<Obs>) {
    var sc := s.sc;
    && ((forall i: nat :: i < |h| ==> !Decides(sc, h, i)) ==>
          s.status == Running && !s.active && (s.row.Some? ==> NeverEntered(s.row.value) && Unsettled(s.row.value)))
    && (forall d: nat :: DecidesFirst(sc, h, d) && !EntersAt(sc, h, d) ==>
          s.status == DropStatus(sc, h[d]) && !s.active &&
          s.row.Some? && BookedDrop(s.row.value, h[d]))
    && (forall d: nat :: EntersAt(sc, h, d) ==>
          s.row.Some? && BookedEntry(sc, s.row.value, h[d]) &&
          ((forall i :: d <= i < |h| ==> !ClosesOn(sc, h[i])) ==>
             s.status == Running && s.active && Unsettled(s.row.value)))
    && (forall d: nat, e: nat :: EntersAt(sc, h, d) && ExitsAt(sc, h, d, e) ==>
          s.status == ExitStatus(sc, h[e].candle.value) && !s.active &&
          s.row.Some? && BookedExit(sc, s.row.value, h[e]))
  }

  lemma FollowsIsDirect(s: Slice, h: seq<Obs>)
    requires Follows(s, h) && PhaseMeans(s.sc, h, PhaseOf(s.sc, h))
    ensures DirectReading(s, h)
  {
    var ph := PhaseOf(s.sc, h);
    DirectIsUnique(s.sc, h, ph);
    if ph.Dropped? || ph.Holding? || ph.Shut? { assert Decides(s.sc, h, ph.d); }
    if ph.Shut? { assert ClosesOn(s.sc, h[ph.e]); }
  }

  /** Main result. In every run, under any key loss, any restarts and any failed batches but one that was to
      record its own entry, the stored state of a scenario is the direct reading of what the committed
      cycles let it see: it waits until the entry rule, its expiry or a sibling's entry decides; entered, it
      stays open until the first touch of a target or the stop or its expiry, and closes as the direct
      reading says, at that price and time. For a consolidation entry the consolidation clock must survive
      and the clock must not run backwards. */
  lemma {:induction false} HistoryRefinement(steps: seq<Step>, x: int)
    requires Legal(EMPTY, steps) && LosesNoEntry(EMPTY, steps, x) && x in Exec(EMPTY, steps).slices
    requires Consolidating(Exec(EMPTY, steps).slices[x].sc) ==>
      KeepsClock(EMPTY, steps, x) && Clocked(HistoryOf(EMPTY, steps, x))
    ensures DirectReading(Exec(EMPTY, steps).slices[x], HistoryOf(EMPTY, steps, x))
  {
    RunFollows(steps, x);
    PhaseIsDirect(Exec(EMPTY, steps).slices[x].sc, HistoryOf(EMPTY, steps, x));
    FollowsIsDirect(Exec(EMPTY, steps).slices[x], HistoryOf(EMPTY, steps, x));
  }

  /** At most one phase fits a history. */
  lemma DirectIsUnique(sc: Scenario, h: seq<Obs>, ph: Phase)
    requires PhaseMeans(sc, h, ph)
    ensures forall d: nat :: DecidesFirst(sc, h, d) ==> !ph.Waiting? && d == ph.d
    ensures forall d: nat :: EntersAt(sc, h, d) ==> (ph.Holding? || ph.Shut?) && d == ph.d
    ensures forall d: nat, e: nat :: EntersAt(sc, h, d) && ExitsAt(sc, h, d, e) ==> ph == Shut(d, e)
  {
    forall d: nat | DecidesFirst(sc, h, d) ensures !ph.Waiting? && d == ph.d {
      if !ph.Waiting? {
        assert DecidesFirst(sc, h, ph.d);
      }
    }
  }

  /** What a reader of the database learns about a scenario's course; a missing row tells nothing. */
  datatype Outcome = Outcome(
    status: Status,
    active: bool,
    result: Status,
    enteredAt: Option<int>,
    entryPrice: Option<real>,
    completedAt: Option<int>,
    exitPrice: Option<real>)

  function OutcomeOf(s: Slice): Outcome {
    if s.row.None? then Outcome(s.status, s.active, Running, None, None, None, None)
    else
      var r := s.row.value;
      Outcome(s.status, s.active, r.result, r.enteredAt, r.entryPrice, r.completedAt, r.exitPrice)
  }

  ghost function OutcomeAt(sc: Scenario, h: seq<Obs>, ph: Phase): Outcome
    requires PhaseMeans(sc, h, ph)
  {
    match ph
    case Waiting(_) => Outcome(Running, false, Running, None, None, None, None)
    case Holding(d) =>
      Outcome(Running, true, Running, Some(h[d].now), Some(EntryPriceOn(sc, h[d].candle.value)), None, None)
    case Shut(d, e) =>
      var c := h[e].candle.value;
      Outcome(ExitStatus(sc, c), false, ExitStatus(sc, c), Some(h[d].now), Some(EntryPriceOn(sc, h[d].candle.value)),
              Some(h[e].now), ExitPrice(sc, c))
    case Dropped(d) => Outcome(DropStatus(sc, h[d]), false, DropResult(h[d]), None, None, Some(h[d].now), None)
  }

  lemma ReadingOutcome(s: Slice, h: seq<Obs>, ph: Phase)
    requires DirectReading(s, h) && PhaseMeans(s.sc, h, ph)
    ensures OutcomeOf(s) == OutcomeAt(s.sc, h, ph)
  {
  }

  /** The history alone fixes status, result, entry and exit, with their prices and times; nothing
      Redis holds can show in them. */
  lemma {:induction false} ReadingDetermines(s: Slice, t: Slice, h: seq<Obs>)
    requires s.sc == t.sc && DirectReading(s, h) && DirectReading(t, h)
    requires Consolidating(s.sc) ==> Clocked(h)
    ensures OutcomeOf(s) == OutcomeOf(t)
  {
    PhaseIsDirect(s.sc, h);
    ReadingOutcome(s, h, PhaseOf(s.sc, h));
    ReadingOutcome(t, h, PhaseOf(s.sc, h));
  }
}
