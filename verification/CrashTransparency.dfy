/** A crash with recovery is invisible in the future of an entered scenario: two runs that
    feed it the same candles store the same outcome, however often either one crashed. Only
    max_drawdown, max_favorable and the data-gap events may tell them apart. */
module CrashTransparency {
  import opened Prelude
  import opened Domain
  import opened Evaluation
  import opened Machine
  import opened Audit
  import opened Exclusion
  import opened History
  import opened Durability
  import opened Cadence
  import opened Records

  // ----- what is compared ---------------------------------------------------------------

  predicate IsGap(e: Event) {
    e.kind == EventKind.GapStart || e.kind.GapEnd?
  }

  function NonGap(log: seq<Event>): seq<Event> {
    if log == [] then []
    else
      var front := NonGap(log[..|log| - 1]);
      if IsGap(log[|log| - 1]) then front else front + [log[|log| - 1]]
  }

  lemma {:induction false} NonGapConcat(a: seq<Event>, b: seq<Event>)
    ensures NonGap(a + b) == NonGap(a) + NonGap(b)
  {
    if b == [] {
      assert a + b == a;
    } else {
      assert (a + b)[..|a + b| - 1] == a + b[..|b| - 1];
      NonGapConcat(a, b[..|b| - 1]);
    }
  }

  function Masked(row: Option<Row>): Option<Row> {
    if row.Some? then Some(row.value.(drawdown := None, maxFavorable := None)) else None
  }

  ghost predicate Alike(s: Slice, t: Slice) {
    && s.sc == t.sc && s.status == t.status && s.active == t.active
    && s.points == t.points && Masked(s.row) == Masked(t.row) && NonGap(s.log) == NonGap(t.log)
  }

  // ----- an entered scenario depends on the database only ---------------------------------

  /** The timer key agrees with the price points. */
  predicate Timed(s: Slice) {
    s.active ==> s.points != [] && s.keys.lastHist == Some(LatestAt(s.points))
  }

  ghost predicate Ready(s: Slice) {
    Sound(s) && Durable(s) && Timed(s)
  }

  function HitOn(sc: Scenario, c: Candle): Hit {
    var n := BestReached(sc, sc.takeProfits, c);
    Hit(if n > 0 then Some(sc.takeProfits[n - 1]) else None, n, 0)
  }

  function VerdictOn(sc: Scenario, c: Candle, now: int): Verdict {
    Settle(sc, true, HitOn(sc, c), c, now)
  }

  function PnlOn(s: Slice, c: Candle, now: int): Option<real> {
    FinalPnl(s.sc, true, DbEntry(s.row), VerdictOn(s.sc, c, now), c)
  }

  function PointOn(s: Slice, c: Candle, now: int): PricePoint {
    PricePoint(now, c.close, PnlOn(s, c, now))
  }

  predicate DueOn(s: Slice, now: int) {
    s.points != [] && now - LatestAt(s.points) >= TimeframeSeconds(s.sc.timeframe)
  }

  /** The course of an entered scenario, read off its database rows. */
  lemma ActiveCourse(s: Slice, o: Obs)
    requires Ready(s) && s.active && o.candle.Some? && !o.taken
    ensures var d := CourseAt(s, o); var c := o.candle.value;
      && d.entered && !d.newly && d.hit == HitOn(s.sc, c) && d.verdict == VerdictOn(s.sc, c, o.now)
      && (d.due <==> DueOn(s, o.now))
      && FinalPnl(s.sc, true, d.entry, d.verdict, c) == PnlOn(s, c, o.now)
  {
    EnteredCourse(s, o);
    CourseFacts(s.sc, s.active, DbEntry(s.row), s.keys, o.candle.value, o.now, o.taken);
  }

  /** The row an entered scenario gets, up to the two masked columns. */
  function RowOn(s: Slice, c: Candle, now: int): Row
    requires s.row.Some?
  {
    var r, v, hit := s.row.value, VerdictOn(s.sc, c, now), HitOn(s.sc, c);
    var closed := v.Close?;
    Row(if closed then v.status else Running,
        PnlOn(s, c, now),
        hit.price,
        if hit.index > 0 then Some(hit.index) else r.hitTpIdx,
        Coalesce(r.hitSl, if closed && v.status == Failed then v.exit else None),
        None, None, r.enteredAt, now, r.entryPrice,
        Coalesce(r.exitPrice, if closed then v.exit else None),
        Coalesce(r.completedAt, if closed then Some(now) else None),
        Some(HighAfter(s.row, c)), Some(LowAfter(s.row, c)))
  }

  lemma ActiveRow(s: Slice, o: Obs)
    requires Ready(s) && s.active && o.candle.Some? && !o.taken && Sane(o.candle.value)
    ensures Masked(LocalStep(s, o).row) == Some(RowOn(s, o.candle.value, o.now))
  {
    ActiveCourse(s, o);
    StoredExtremes(s, o);
    StepOfCourse(s, o);
  }

  function EventsOn(sc: Scenario, c: Candle, now: int): seq<Event> {
    TpHitEvents(sc, true, HitOn(sc, c), now) + ClosingEvents(VerdictOn(sc, c, now), now)
  }

  lemma {:induction false} NoGaps(es: seq<Event>)
    requires forall e :: e in es ==> !IsGap(e)
    ensures NonGap(es) == es
  {
    if es != [] { NoGaps(es[..|es| - 1]); }
  }

  lemma NonGapAfter(gap: seq<Event>, rest: seq<Event>)
    requires |gap| <= 1 && (gap != [] ==> IsGap(gap[0])) && forall e :: e in rest ==> !IsGap(e)
    ensures NonGap(gap + rest) == rest
  {
    NonGapConcat(gap, rest);
    NoGaps(rest);
    if gap != [] { assert gap[..0] == []; }
  }

  lemma NoGapIn(sc: Scenario, hit: Hit, v: Verdict, now: int)
    ensures forall e :: e in TpHitEvents(sc, true, hit, now) ==> !IsGap(e)
    ensures forall e :: e in ClosingEvents(v, now) ==> !IsGap(e)
  {
  }

  lemma NonGapEvents(sc: Scenario, gapStart: Option<int>, d: Course, now: int)
    requires d.entered && !d.newly
    ensures NonGap(EventsOf(sc, gapStart, d, now)) == TpHitEvents(sc, true, d.hit, now) + ClosingEvents(d.verdict, now)
  {
    var gap := if gapStart.Some? then [Event(GapEnd(gapStart.value), None, now)] else [];
    var hits, closing := TpHitEvents(sc, true, d.hit, now), ClosingEvents(d.verdict, now);
    assert EventsOf(sc, gapStart, d, now) == gap + (hits + closing);
    NoGapIn(sc, d.hit, d.verdict, now);
    NonGapAfter(gap, hits + closing);
  }

  lemma LogStep(s: Slice, o: Obs)
    requires s.status == Running && Selected(s, o.slow) && o.candle.Some? && !o.taken
    ensures LocalStep(s, o).log == s.log + EventsOf(s.sc, s.keys.gapStart, CourseAt(s, o), o.now)
  {
  }

  lemma ActiveLog(s: Slice, o: Obs)
    requires Ready(s) && s.active && o.candle.Some? && !o.taken
    ensures NonGap(LocalStep(s, o).log) == NonGap(s.log) + EventsOn(s.sc, o.candle.value, o.now)
  {
    ActiveCourse(s, o);
    LogStep(s, o);
    NonGapEvents(s.sc, s.keys.gapStart, CourseAt(s, o), o.now);
    NonGapConcat(s.log, EventsOf(s.sc, s.keys.gapStart, CourseAt(s, o), o.now));
  }

  lemma ActiveRest(s: Slice, o: Obs)
    requires Ready(s) && s.active && o.candle.Some? && !o.taken
    ensures var t := LocalStep(s, o); var v := VerdictOn(s.sc, o.candle.value, o.now);
      && t.sc == s.sc
      && t.status == (if v.Close? then v.status else Running) && t.active == v.Open?
      && t.points == (if DueOn(s, o.now)
                      then InsertPoint(s.points, PointOn(s, o.candle.value, o.now))
                      else s.points)
      && Timed(t)
  {
    ActiveCourse(s, o);
    EnteredCourse(s, o);
    StepOfCourse(s, o);
    PointsStep(s, o);
  }

  /** Same candle, same time: alike entered scenarios stay alike, whatever their keys hold. */
  lemma AlikeStep(s: Slice, o: Obs, t: Slice, q: Obs)
    requires Alike(s, t) && Ready(s) && Ready(t) && s.active && !o.taken && !q.taken
    requires o.now == q.now && o.candle == q.candle && o.candle.Some? && Sane(o.candle.value)
    ensures Alike(LocalStep(s, o), LocalStep(t, q))
  {
    ActiveRow(s, o); ActiveRow(t, q);
    ActiveLog(s, o); ActiveLog(t, q);
    ActiveRest(s, o); ActiveRest(t, q);
  }

  /** A cycle without a price can only add a data-gap event. */
  lemma AlikeGap(s: Slice, o: Obs)
    requires Ready(s) && s.active && o.candle.None? && !o.taken
    ensures Alike(LocalStep(s, o), s) && Timed(LocalStep(s, o))
  {
    var es := Observe(s, o.candle, o.now, o.taken).writes.events;
    NonGapConcat(s.log, es);
    if es != [] { assert es[..0] == []; }
    assert LocalStep(s, o).log == s.log + es;
  }

  // ----- the uncrashed reference ------------------------------------------------------------------

  datatype Tick = Tick(now: int, candle: Option<Candle>)

  /** What the run feeds to x: the inputs of its committed evaluation cycles. */
  function Feed(steps: seq<Step>, x: int): seq<Tick> {
    if steps == [] then []
    else
      var st := steps[|steps| - 1];
      Feed(steps[..|steps| - 1], x) +
      if st.Evaluation? && st.poll.commits then [Tick(st.poll.now, Get(st.poll.candles, x))] else []
  }

  /** s carried through the feed with Redis intact. */
  function Reference(s: Slice, feed: seq<Tick>): Slice {
    if feed == [] then s
    else
      var t := feed[|feed| - 1];
      LocalStep(Reference(s, feed[..|feed| - 1]), Obs(true, t.now, t.candle, false))
  }

  predicate SaneTicks(feed: seq<Tick>) {
    forall t :: t in feed && t.candle.Some? ==> Sane(t.candle.value)
  }

  /** Ready, and entered or already closed. */
  ghost predicate Committed(s: Slice) {
    Ready(s) && (s.active || s.status != Running)
  }

  lemma CommittedStep(s: Slice, o: Obs)
    requires Committed(s) && !o.taken && (o.candle.Some? ==> Sane(o.candle.value))
    ensures Committed(LocalStep(s, o))
  {
    if s.active {
      StepSound(s, o.slow, o.candle, o.now, o.taken, o.taken, true);
      StepDurable(s, o);
      if o.candle.Some? { ActiveRest(s, o); } else { AlikeGap(s, o); }
    }
  }

  lemma {:induction false} ReferenceCommitted(s: Slice, feed: seq<Tick>)
    requires Committed(s) && SaneTicks(feed)
    ensures Committed(Reference(s, feed))
  {
    if feed != [] {
      var t := feed[|feed| - 1];
      ReferenceCommitted(s, feed[..|feed| - 1]);
      CommittedStep(Reference(s, feed[..|feed| - 1]), Obs(true, t.now, t.candle, false));
    }
  }

  /** One common observation keeps run and reference alike. */
  lemma AlikeFollow(s: Slice, o: Obs, t: Slice)
    requires Alike(s, t) && Committed(s) && Committed(t) && !o.taken && (o.candle.Some? ==> Sane(o.candle.value))
    ensures Alike(LocalStep(s, o), LocalStep(t, o.(slow := true)))
  {
    var q := o.(slow := true);
    if s.active {
      if o.candle.Some? {
        AlikeStep(s, o, t, q);
      } else {
        AlikeGap(s, o);
        AlikeGap(t, q);
      }
    }
  }

  /** Recovery after any key loss keeps an entered scenario ready and its rows untouched. */
  lemma RecoverCommitted(s: Slice, k: Keys)
    requires Committed(s) && Survives(k, s.keys)
    ensures Committed(Recover(s.(keys := k))) && Alike(Recover(s.(keys := k)), s)
  {
    LossDurable(s, k);
    RecoverDurable(s.(keys := k));
    RecoverSound(s.(keys := k));
  }

  /** So does a loss that spares the timer key, without any recovery. */
  lemma LossCommitted(s: Slice, k: Keys)
    requires Committed(s) && Survives(k, s.keys) && k.lastHist == s.keys.lastHist
    ensures Committed(s.(keys := k)) && Alike(s.(keys := k), s)
  {
    LossDurable(s, k);
  }

  function Referred(t: Slice, st: Step, x: int): Slice {
    if st.Evaluation? && st.poll.commits
    then LocalStep(t, Obs(true, st.poll.now, Get(st.poll.candles, x), false)) else t
  }

  lemma CycleLikeReference(w: World, p: Poll, x: int, t: Slice)
    requires Consistent(w) && Lists(w, p.order) && p.commits && x in w.slices && Committed(w.slices[x])
    requires Committed(t) && Alike(w.slices[x], t) && (x in p.candles ==> Sane(p.candles[x]))
    ensures Committed(SliceAfter(w, p, x)) && Alike(SliceAfter(w, p, x), Referred(t, Evaluation(p), x))
  {
    var s := w.slices[x];
    var o := ObsOf(w, p, x);
    Localized(w, p, x);
    if s.active {
      CommittedStep(s, o);
      AlikeFollow(s, o, t);
    }
  }

  lemma StepLikeReference(w: World, st: Step, x: int, t: Slice)
    requires Consistent(w) && Enabled(w, st) && x in w.slices && Committed(w.slices[x])
    requires KeepsTimer(w, st, x) && SaneFeed([st]) && Committed(t) && Alike(w.slices[x], t)
    ensures Committed(SliceNext(w, st, x)) && Alike(SliceNext(w, st, x), Referred(t, st, x))
  {
    assert st in [st];
    match st {
      case Evaluation(p) => CycleLikeReference(w, p, x, t);
      case Restart(kept, recovers) =>
        if recovers { RecoverCommitted(w.slices[x], kept[x]); } else { LossCommitted(w.slices[x], kept[x]); }
      case Lose(kept) => LossCommitted(w.slices[x], kept[x]);
      case _ =>
    }
  }

  lemma NextLikeReference(w: World, st: Step, x: int, t: Slice)
    requires Consistent(w) && Enabled(w, st) && x in w.slices && Committed(w.slices[x])
    requires KeepsTimer(w, st, x) && SaneFeed([st]) && Committed(t) && Alike(w.slices[x], t)
    ensures Consistent(Next(w, st)) && x in Next(w, st).slices && Committed(Next(w, st).slices[x])
    ensures Alike(Next(w, st).slices[x], Referred(t, st, x))
  {
    NextConsistent(w, st);
    NextSlice(w, st, x);
    StepLikeReference(w, st, x, t);
  }

  lemma ReferenceExtend(s: Slice, steps: seq<Step>, x: int)
    requires steps != []
    ensures var front, st := steps[..|steps| - 1], steps[|steps| - 1];
      Reference(s, Feed(steps, x)) == Referred(Reference(s, Feed(front, x)), st, x)
  {
    var front, st := steps[..|steps| - 1], steps[|steps| - 1];
    if st.Evaluation? && st.poll.commits {
      assert Feed(steps, x)[..|Feed(steps, x)| - 1] == Feed(front, x);
    } else {
      assert Feed(steps, x) == Feed(front, x);
    }
  }

  lemma {:induction false} FeedIsSane(steps: seq<Step>, x: int)
    requires SaneFeed(steps)
    ensures SaneTicks(Feed(steps, x))
  {
    if steps != [] { FeedIsSane(steps[..|steps| - 1], x); }
  }

  lemma ReferenceReady(s: Slice, steps: seq<Step>, x: int)
    requires Committed(s) && SaneFeed(steps)
    ensures Committed(Reference(s, Feed(steps, x)))
  {
    FeedIsSane(steps, x);
    ReferenceCommitted(s, Feed(steps, x));
  }

  lemma SaneParts(steps: seq<Step>)
    requires steps != [] && SaneFeed(steps)
    ensures SaneFeed(steps[..|steps| - 1]) && SaneFeed([steps[|steps| - 1]])
  {
  }

  /** A run from any state w in which x is entered ends, for x, like the crash-free reference. */
  lemma {:induction false} RunLikeReference(w: World, steps: seq<Step>, x: int)
    requires Consistent(w) && x in w.slices && Committed(w.slices[x])
    requires Legal(w, steps) && Orderly(w, steps, x) && SaneFeed(steps)
    ensures Consistent(Exec(w, steps)) && x in Exec(w, steps).slices && Committed(Exec(w, steps).slices[x])
    ensures Alike(Exec(w, steps).slices[x], Reference(w.slices[x], Feed(steps, x)))
  {
    if steps != [] {
      var front, st := steps[..|steps| - 1], steps[|steps| - 1];
      SaneParts(steps);
      RunLikeReference(w, front, x);
      ReferenceReady(w.slices[x], front, x);
      ReferenceExtend(w.slices[x], steps, x);
      NextLikeReference(Exec(w, front), st, x, Reference(w.slices[x], Feed(front, x)));
    }
  }

  /** Main result: after any orderly run in which x is entered, two continuations that feed x the
      same candles store the same status, price points, entry, exit, extremes and events, although
      either may lose keys at any time, crash and recover any number of times. */
  lemma {:induction false} CrashesAreTransparent(pre: seq<Step>, one: seq<Step>, two: seq<Step>, x: int)
    requires Legal(EMPTY, pre) && Orderly(EMPTY, pre, x) && SaneFeed(pre)
    requires x in Exec(EMPTY, pre).slices && Exec(EMPTY, pre).slices[x].active
    requires Legal(Exec(EMPTY, pre), one) && Orderly(Exec(EMPTY, pre), one, x) && SaneFeed(one)
    requires Legal(Exec(EMPTY, pre), two) && Orderly(Exec(EMPTY, pre), two, x) && SaneFeed(two)
    requires Feed(one, x) == Feed(two, x)
    ensures x in Exec(Exec(EMPTY, pre), one).slices && x in Exec(Exec(EMPTY, pre), two).slices
    ensures Alike(Exec(Exec(EMPTY, pre), one).slices[x], Exec(Exec(EMPTY, pre), two).slices[x])
  {
    var w := Exec(EMPTY, pre);
    RunConsistent(pre);
    OrderlyCommits(EMPTY, pre, x);
    RunDurable(pre, x);
    PointsAreThinned(pre, x);
    TimedByPoints(w.slices[x], HeldSamples(EMPTY, pre, x));
    RunLikeReference(w, one, x);
    RunLikeReference(w, two, x);
  }

  lemma TimedByPoints(s: Slice, samples: seq<Sample>)
    requires PointsAre(s, samples)
    ensures Timed(s)
  {
    var tf := TimeframeSeconds(s.sc.timeframe);
    var kept := Thin(samples, tf);
    ThinSpaced(samples, tf);
    if s.active {
      assert |s.points| == |kept| > 0;
      LatestIsLast(s.points, kept, tf);
    }
  }

  // ----- any losses and any failed batches ---------------------------------------------------------

  /** The row without what only Redis remembers between two cycles: extremes and their percentages. */
  function Core(row: Option<Row>): Option<Row> {
    if row.Some?
    then Some(row.value.(drawdown := None, maxFavorable := None, highest := None, lowest := None)) else None
  }

  ghost predicate CoreAlike(s: Slice, t: Slice) {
    && s.sc == t.sc && s.status == t.status && s.active == t.active
    && Core(s.row) == Core(t.row) && NonGap(s.log) == NonGap(t.log)
  }

  /** Entered or already closed, in any run. */
  ghost predicate Settled(s: Slice) {
    Sound(s) && Recorded(s) && (s.active || s.status != Running)
  }

  /** What an evaluation decides about an entered scenario, whatever Redis holds. */
  lemma DecidedCourse(s: Slice, o: Obs)
    requires Settled(s) && s.active && o.candle.Some? && !o.taken
    ensures var d := CourseAt(s, o); var c := o.candle.value;
      && d.entered && !d.newly && d.hit == HitOn(s.sc, c) && d.verdict == VerdictOn(s.sc, c, o.now)
      && FinalPnl(s.sc, true, d.entry, d.verdict, c) == PnlOn(s, c, o.now)
  {
    CourseFacts(s.sc, s.active, DbEntry(s.row), s.keys, o.candle.value, o.now, o.taken);
  }

  function CoreOn(s: Slice, c: Candle, now: int): Row
    requires s.row.Some?
  {
    var r, v, hit := s.row.value, VerdictOn(s.sc, c, now), HitOn(s.sc, c);
    Row(if v.Close? then v.status else Running, PnlOn(s, c, now), hit.price,
        if hit.index > 0 then Some(hit.index) else r.hitTpIdx,
        Coalesce(r.hitSl, if v.Close? && v.status == Failed then v.exit else None),
        None, None, r.enteredAt, now, r.entryPrice,
        Coalesce(r.exitPrice, if v.Close? then v.exit else None),
        Coalesce(r.completedAt, if v.Close? then Some(now) else None), None, None)
  }

  lemma DecidedStep(s: Slice, o: Obs)
    requires Settled(s) && s.active && o.candle.Some? && !o.taken
    ensures var t := LocalStep(s, o); var v := VerdictOn(s.sc, o.candle.value, o.now);
      && t.sc == s.sc && t.status == (if v.Close? then v.status else Running) && t.active == v.Open?
      && Core(t.row) == Some(CoreOn(s, o.candle.value, o.now))
  {
    DecidedCourse(s, o);
    StepOfCourse(s, o);
  }

  lemma DecidedLog(s: Slice, o: Obs)
    requires Settled(s) && s.active && o.candle.Some? && !o.taken
    ensures NonGap(LocalStep(s, o).log) == NonGap(s.log) + EventsOn(s.sc, o.candle.value, o.now)
  {
    DecidedCourse(s, o);
    LogStep(s, o);
    NonGapEvents(s.sc, s.keys.gapStart, CourseAt(s, o), o.now);
    NonGapConcat(s.log, EventsOf(s.sc, s.keys.gapStart, CourseAt(s, o), o.now));
  }

  lemma UnpricedStep(s: Slice, o: Obs)
    requires Settled(s) && s.active && o.candle.None? && !o.taken
    ensures CoreAlike(LocalStep(s, o), s)
  {
    var es := Observe(s, o.candle, o.now, o.taken).writes.events;
    NonGapConcat(s.log, es);
    if es != [] { assert es[..0] == []; }
    assert LocalStep(s, o).log == s.log + es;
  }

  lemma CoreOnAlike(s: Slice, t: Slice, c: Candle, now: int)
    requires CoreAlike(s, t) && s.row.Some?
    ensures t.row.Some? && CoreOn(s, c, now) == CoreOn(t, c, now)
  {
  }

  lemma CoreStep(s: Slice, o: Obs, t: Slice)
    requires CoreAlike(s, t) && Settled(s) && Settled(t) && !o.taken
    ensures CoreAlike(LocalStep(s, o), LocalStep(t, o.(slow := true)))
  {
    var q := o.(slow := true);
    if s.active {
      if o.candle.Some? {
        DecidedStep(s, o); DecidedStep(t, q);
        DecidedLog(s, o); DecidedLog(t, q);
        CoreOnAlike(s, t, o.candle.value, o.now);
      } else {
        UnpricedStep(s, o); UnpricedStep(t, q);
      }
    }
  }

  lemma SettledStep(s: Slice, o: Obs)
    requires Settled(s) && !o.taken
    ensures Settled(LocalStep(s, o))
  {
    StepSound(s, o.slow, o.candle, o.now, o.taken, o.taken, true);
    StepRecorded(s, o.slow, o.candle, o.now, o.taken, o.taken, true);
    if s.active {
      if o.candle.Some? { DecidedStep(s, o); } else { UnpricedStep(s, o); }
    }
  }

  lemma {:induction false} ReferenceSettled(s: Slice, feed: seq<Tick>)
    requires Settled(s)
    ensures Settled(Reference(s, feed))
  {
    if feed != [] {
      var t := feed[|feed| - 1];
      ReferenceSettled(s, feed[..|feed| - 1]);
      SettledStep(Reference(s, feed[..|feed| - 1]), Obs(true, t.now, t.candle, false));
    }
  }

  lemma CoreCycle(w: World, p: Poll, x: int, t: Slice)
    requires Consistent(w) && Lists(w, p.order) && x in w.slices && Settled(w.slices[x])
    requires Settled(t) && CoreAlike(w.slices[x], t)
    ensures Settled(SliceAfter(w, p, x)) && CoreAlike(SliceAfter(w, p, x), Referred(t, Evaluation(p), x))
  {
    var s := w.slices[x];
    if p.commits {
      Localized(w, p, x);
      if s.active {
        SettledStep(s, ObsOf(w, p, x));
        CoreStep(s, ObsOf(w, p, x), t);
      }
    } else {
      StepSound(s, Slow(w), Get(p.candles, x), p.now, Skips(w, p, x), Cancels(w, p, x), false);
      StepRecorded(s, Slow(w), Get(p.candles, x), p.now, Skips(w, p, x), Cancels(w, p, x), false);
    }
  }

  lemma CoreNext(w: World, st: Step, x: int, t: Slice)
    requires Consistent(w) && Enabled(w, st) && x in w.slices && Settled(w.slices[x])
    requires Settled(t) && CoreAlike(w.slices[x], t)
    ensures Consistent(Next(w, st)) && x in Next(w, st).slices && Settled(Next(w, st).slices[x])
    ensures CoreAlike(Next(w, st).slices[x], Referred(t, st, x))
  {
    NextConsistent(w, st);
    NextSlice(w, st, x);
    NextRecorded(w, st, x);
    assert Sound(Next(w, st).slices[x]);
    if st.Evaluation? { CoreCycle(w, st.poll, x, t); }
  }

  lemma {:induction false} CoreRun(w: World, steps: seq<Step>, x: int)
    requires Consistent(w) && x in w.slices && Settled(w.slices[x]) && Legal(w, steps)
    ensures Consistent(Exec(w, steps)) && x in Exec(w, steps).slices && Settled(Exec(w, steps).slices[x])
    ensures CoreAlike(Exec(w, steps).slices[x], Reference(w.slices[x], Feed(steps, x)))
  {
    if steps != [] {
      var front, st := steps[..|steps| - 1], steps[|steps| - 1];
      CoreRun(w, front, x);
      ReferenceSettled(w.slices[x], Feed(front, x));
      ReferenceExtend(w.slices[x], steps, x);
      CoreNext(Exec(w, front), st, x, Reference(w.slices[x], Feed(front, x)));
    }
  }

  /** Main result: after any run in which x is entered, two continuations whose committed cycles feed x the
      same candles store the same status, entry, exit, percentage and events, whatever keys either loses,
      whenever it crashes, and whatever batches it fails, one that was to close x included. */
  lemma {:induction false} FailuresAreTransparent(pre: seq<Step>, one: seq<Step>, two: seq<Step>, x: int)
    requires Legal(EMPTY, pre) && x in Exec(EMPTY, pre).slices && Exec(EMPTY, pre).slices[x].active
    requires Legal(Exec(EMPTY, pre), one) && Legal(Exec(EMPTY, pre), two) && Feed(one, x) == Feed(two, x)
    ensures x in Exec(Exec(EMPTY, pre), one).slices && x in Exec(Exec(EMPTY, pre), two).slices
    ensures CoreAlike(Exec(Exec(EMPTY, pre), one).slices[x], Exec(Exec(EMPTY, pre), two).slices[x])
  {
    var w := Exec(EMPTY, pre);
    RunConsistent(pre);
    RunRecorded(pre, x);
    CoreRun(w, one, x);
    CoreRun(w, two, x);
  }
}
