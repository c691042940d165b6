/** What the database keeps although Redis forgets: price extremes, the price-point
    timer, and the whole future of an entered scenario. Batches commit throughout. */
module Durability {
  import opened Prelude
  import opened Domain
  import opened Evaluation
  import opened Machine
  import opened Audit
  import opened Exclusion
  import opened History

  /** A price the SQL sentinels 0 and 9e15 cannot mask. */
  predicate Sane(c: Candle) {
    Shaped(c) && 0.0 < c.low && c.high < 9000000000000000.0
  }

  // ----- the invariant of a committed run ------------------------------------------------

  predicate Between(lo: real, p: real, hi: real) {
    lo <= p <= hi
  }

  predicate WithinRow(r: Row, ps: seq<PricePoint>) {
    r.highest.Some? && r.lowest.Some? &&
    forall q :: q in ps ==> Between(r.lowest.value, q.price, r.highest.value)
  }

  /** The stored extremes bound whatever Redis and the price points hold. */
  predicate Bounds(r: Row, k: Keys) {
    && r.highest.Some? && r.lowest.Some?
    && (k.max.Some? ==> k.max.value <= r.highest.value)
    && (k.min.Some? ==> r.lowest.value <= k.min.value)
  }

  ghost predicate Durable(s: Slice) {
    && (s.status == Running && !s.active ==>
          && !s.keys.entered && s.keys.entryPrice.None? && s.keys.lastHist.None?
          && s.keys.min.None? && s.keys.max.None?
          && s.points == [] && (s.row.Some? ==> NeverEntered(s.row.value)))
    && (s.active ==>
          && s.row.Some? && s.row.value.enteredAt.Some? && s.row.value.entryPrice.Some?
          && (s.keys.entryPrice.Some? ==> s.keys.entryPrice == s.row.value.entryPrice)
          && s.points != [] && WithinRow(s.row.value, s.points) && Bounds(s.row.value, s.keys))
  }

  lemma LossDurable(s: Slice, k: Keys)
    requires Durable(s) && Survives(k, s.keys)
    ensures Durable(s.(keys := k))
  {
  }

  lemma RecoverDurable(s: Slice)
    requires Durable(s)
    ensures Durable(Recover(s))
  {
    if s.active {
      var hi, lo := HighestPrice(s.points), LowestPrice(s.points);
      var p :| p in s.points && p.price == hi;
      var q :| q in s.points && q.price == lo;
      assert Between(lo, p.price, hi);
    }
  }

  /** How a committed cycle moves the stored extremes of a scenario that is or gets entered. */
  function HighAfter(row: Option<Row>, c: Candle): real {
    if row.Some? && row.value.highest.Some? then Max(row.value.highest.value, c.high) else c.high
  }

  function LowAfter(row: Option<Row>, c: Candle): real {
    if row.Some? && row.value.lowest.Some? then Min(row.value.lowest.value, c.low) else c.low
  }

  function CourseAt(s: Slice, o: Obs): Course
    requires o.candle.Some?
  {
    CourseOf(s.sc, s.active, DbEntry(s.row), s.keys, o.candle.value, o.now, o.taken)
  }

  /** The keys of an entered scenario after its course. */
  lemma EnteredCourse(s: Slice, o: Obs)
    requires Sound(s) && Durable(s) && s.status == Running && o.candle.Some? && (s.active ==> !o.taken)
    ensures var d := CourseAt(s, o);
      && (d.entered <==> s.active || d.newly) && (o.taken ==> !d.entered)
      && (d.newly ==> d.entry == Some(EntryPriceOn(s.sc, o.candle.value)) && d.keys.entryPrice == d.entry && d.due)
      && (d.entered && !d.newly ==> d.keys.entryPrice == s.keys.entryPrice)
      && (d.entered ==> d.keys.max.Some? && d.keys.min.Some?)
      && (d.entered ==> d.keys.max == Track(s.keys, o.candle.value).max)
      && (d.entered ==> d.keys.min == Track(s.keys, o.candle.value).min)
      && (!d.entered ==> d.keys == s.keys.(gapStart := None, consolStart := d.keys.consolStart))
      && d.keys.lastHist == s.keys.lastHist
      && (d.due <==> d.entered && PointDue(s.sc, s.keys.lastHist, o.now, d.newly))
  {
  }

  /** The stored extremes after a committed cycle, whatever Redis remembered. */
  lemma StoredExtremes(s: Slice, o: Obs)
    requires Sound(s) && Durable(s) && s.status == Running && Selected(s, o.slow)
    requires o.candle.Some? && Sane(o.candle.value) && !o.taken && CourseAt(s, o).entered
    ensures var r := LocalStep(s, o).row;
      && r.Some? && r.value.highest == Some(HighAfter(s.row, o.candle.value))
      && r.value.lowest == Some(LowAfter(s.row, o.candle.value))
      && r.value.enteredAt.Some? && r.value.entryPrice.Some?
      && (s.active ==> r.value.entryPrice == s.row.value.entryPrice)
      && (CourseAt(s, o).newly ==> r.value.entryPrice == CourseAt(s, o).entry && r.value.enteredAt == Some(o.now))
  {
    EnteredCourse(s, o);
    StepOfCourse(s, o);
  }

  /** The price point a due evaluation inserts. */
  function PointAt(s: Slice, o: Obs): PricePoint
    requires o.candle.Some?
  {
    var d, c := CourseAt(s, o), o.candle.value;
    PricePoint(o.now, c.close, FinalPnl(s.sc, d.entered, d.entry, d.verdict, c))
  }

  lemma PointsStep(s: Slice, o: Obs)
    requires s.status == Running && Selected(s, o.slow) && o.candle.Some? && !o.taken
    ensures LocalStep(s, o).points ==
      if CourseAt(s, o).due then InsertPoint(s.points, PointAt(s, o)) else s.points
  {
  }

  lemma EnteredStepDurable(s: Slice, o: Obs)
    requires Sound(s) && Durable(s) && s.status == Running && Selected(s, o.slow)
    requires o.candle.Some? && Sane(o.candle.value) && !o.taken && CourseAt(s, o).entered
    ensures Durable(LocalStep(s, o))
  {
    EnteredCourse(s, o);
    StepOfCourse(s, o);
    StoredExtremes(s, o);
    PointsStep(s, o);
    CourseFacts(s.sc, s.active, DbEntry(s.row), s.keys, o.candle.value, o.now, o.taken);
  }

  lemma WaitingStepDurable(s: Slice, o: Obs)
    requires Sound(s) && Durable(s) && Selected(s, o.slow) && (s.active ==> !o.taken)
    requires o.candle.Some? ==> !CourseAt(s, o).entered
    ensures Durable(LocalStep(s, o))
  {
    if o.candle.Some? {
      EnteredCourse(s, o);
      CourseFacts(s.sc, s.active, DbEntry(s.row), s.keys, o.candle.value, o.now, o.taken);
    }
  }

  lemma StepDurable(s: Slice, o: Obs)
    requires Sound(s) && Durable(s) && (s.active ==> !o.taken) && (o.candle.Some? ==> Sane(o.candle.value))
    ensures Durable(LocalStep(s, o))
  {
    if Selected(s, o.slow) {
      if o.candle.Some? && CourseAt(s, o).entered {
        EnteredCourse(s, o);
        EnteredStepDurable(s, o);
      } else {
        WaitingStepDurable(s, o);
      }
    }
  }

  predicate SaneFeed(steps: seq<Step>) {
    forall st :: st in steps && st.Evaluation? ==> forall x :: x in st.poll.candles ==> Sane(st.poll.candles[x])
  }

  lemma {:induction false} RunDurable(steps: seq<Step>, x: int)
    requires Legal(EMPTY, steps) && Commits(steps) && SaneFeed(steps) && x in Exec(EMPTY, steps).slices
    ensures Durable(Exec(EMPTY, steps).slices[x])
  {
    var front := steps[..|steps| - 1];
    var st := steps[|steps| - 1];
    var w := Exec(EMPTY, front);
    if x in w.slices {
      NextSlice(w, st, x);
      RunDurable(front, x);
      RunConsistent(front);
      match st {
        case Evaluation(p) =>
          Localized(w, p, x);
          StepDurable(w.slices[x], ObsOf(w, p, x));
        case Lose(kept) => LossDurable(w.slices[x], kept[x]);
        case Restart(kept, _) =>
          LossDurable(w.slices[x], kept[x]);
          RecoverDurable(w.slices[x].(keys := kept[x]));
        case _ =>
      }
    } else {
      NewSliceIsFresh(w, st, x);
    }
  }

  // ----- the stored extremes are the true ones -------------------------------------------------

  /** x is evaluated with a price in this cycle while entered, or enters in it. */
  predicate Holds(w: World, p: Poll, x: int) {
    && Picked(w, x) && x in p.candles
    && var m := Winners(w, p, p.order);
    && var g := w.slices[x].sc.signalId;
    && (w.slices[x].active || (g in m && m[g] == x))
  }

  datatype Sample = Sample(at: int, candle: Candle)

  /** Every candle x was evaluated on since its entry, the entry candle included, with its time. */
  function HeldSamples(w: World, steps: seq<Step>, x: int): seq<Sample> {
    if steps == [] then []
    else
      var front := steps[..|steps| - 1];
      var st := steps[|steps| - 1];
      HeldSamples(w, front, x) +
      if st.Evaluation? && Holds(Exec(w, front), st.poll, x) then [Sample(st.poll.now, st.poll.candles[x])] else []
  }

  ghost predicate IsHighest(m: real, cs: seq<Sample>) {
    (forall c :: c in cs ==> c.candle.high <= m) && exists c :: c in cs && c.candle.high == m
  }

  ghost predicate IsLowest(m: real, cs: seq<Sample>) {
    (forall c :: c in cs ==> m <= c.candle.low) && exists c :: c in cs && c.candle.low == m
  }

  /** The row's extremes are those of the candles; with no candles there is no entry. */
  ghost predicate ExtremesOf(row: Option<Row>, cs: seq<Sample>) {
    if cs == [] then row.Some? ==> NeverEntered(row.value)
    else row.Some? && row.value.highest.Some? && row.value.lowest.Some? && row.value.enteredAt.Some?
         && IsHighest(row.value.highest.value, cs) && IsLowest(row.value.lowest.value, cs)
  }

  lemma ExtremesGrow(row: Option<Row>, cs: seq<Sample>, c: Sample, row': Option<Row>)
    requires ExtremesOf(row, cs)
    requires row'.Some? && row'.value.enteredAt.Some?
    requires row'.value.highest == Some(HighAfter(row, c.candle)) && row'.value.lowest == Some(LowAfter(row, c.candle))
    ensures ExtremesOf(row', cs + [c])
  {
    var ds := cs + [c];
    assert c in ds;
    if cs != [] {
      var a :| a in cs && a.candle.high == row.value.highest.value;
      var b :| b in cs && b.candle.low == row.value.lowest.value;
      assert a in ds && b in ds;
    }
  }

  /** The observed course of x enters or holds exactly when Holds says so. */
  lemma HoldsCourse(w: World, p: Poll, x: int)
    requires Consistent(w) && Lists(w, p.order) && p.commits && Picked(w, x) && x in p.candles && Durable(w.slices[x])
    ensures var o := ObsOf(w, p, x);
      && (w.slices[x].active ==> !o.taken)
      && (Holds(w, p, x) <==> CourseAt(w.slices[x], o).entered)
  {
    var s := w.slices[x];
    var o := ObsOf(w, p, x);
    Localized(w, p, x);
    NewlyWins(w, p, x);
    EnteredCourse(s, o);
    if !s.active {
      assert Skips(w, p, x) == o.taken by { IdleSkips(w, p, x); }
    }
  }

  lemma IdleSkips(w: World, p: Poll, x: int)
    requires Consistent(w) && Picked(w, x) && !w.slices[x].active
    ensures Skips(w, p, x) == Loses(w, p, x)
  {
    forall y | y in w.slices && w.slices[y].active ensures w.slices[y].sc.signalId != w.slices[x].sc.signalId {
      assert HasEntered(w, y) && (w.slices[y].sc.signalId == w.slices[x].sc.signalId ==> Siblings(w, y, x));
    }
  }

  lemma ExtremesCycle(w: World, p: Poll, x: int, cs: seq<Sample>)
    requires Consistent(w) && Lists(w, p.order) && p.commits && x in w.slices && Durable(w.slices[x])
    requires x in p.candles ==> Sane(p.candles[x])
    requires ExtremesOf(w.slices[x].row, cs)
    ensures ExtremesOf(SliceAfter(w, p, x).row, cs + if Holds(w, p, x) then [Sample(p.now, p.candles[x])] else [])
  {
    var s := w.slices[x];
    var o := ObsOf(w, p, x);
    Localized(w, p, x);
    if Picked(w, x) {
      if x in p.candles { HoldsCourse(w, p, x); }
      if Holds(w, p, x) {
        EnteredCourse(s, o);
        StoredExtremes(s, o);
        ExtremesGrow(s.row, cs, Sample(p.now, p.candles[x]), LocalStep(s, o).row);
      } else {
        IdleRow(s, o);
        assert cs + [] == cs;
      }
    } else {
      assert cs + [] == cs;
    }
  }

  /** A cycle that does not hold the scenario leaves its entry and its extremes alone. */
  lemma IdleRow(s: Slice, o: Obs)
    requires Sound(s) && Durable(s) && Selected(s, o.slow) && (s.active ==> !o.taken)
    requires o.candle.Some? ==> !CourseAt(s, o).entered
    ensures var r := LocalStep(s, o).row;
      && (s.row.None? && r.Some? ==> NeverEntered(r.value))
      && (s.row.Some? ==> r.Some? && r.value.highest == s.row.value.highest && r.value.lowest == s.row.value.lowest)
      && (s.row.Some? ==> r.value.enteredAt == s.row.value.enteredAt && r.value.entryPrice == s.row.value.entryPrice)
  {
    if o.candle.Some? { EnteredCourse(s, o); }
  }

  lemma ExtremesNext(w: World, st: Step, x: int, cs: seq<Sample>)
    requires Consistent(w) && Enabled(w, st) && x in w.slices && Durable(w.slices[x])
    requires st.Evaluation? ==> st.poll.commits && (x in st.poll.candles ==> Sane(st.poll.candles[x]))
    requires ExtremesOf(w.slices[x].row, cs)
    ensures x in Next(w, st).slices
    ensures ExtremesOf(Next(w, st).slices[x].row,
      cs + if st.Evaluation? && Holds(w, st.poll, x) then [Sample(st.poll.now, st.poll.candles[x])] else [])
  {
    NextSlice(w, st, x);
    assert cs + [] == cs;
    if st.Evaluation? { ExtremesCycle(w, st.poll, x, cs); }
  }

  /** Main result: the stored highest and lowest price are exactly the extremes of all candles
      evaluated since entry, although Redis may lose any keys at any time or be rebuilt from the
      sparse price points. */
  lemma {:induction false} DurableExtremes(steps: seq<Step>, x: int)
    requires Legal(EMPTY, steps) && Commits(steps) && SaneFeed(steps) && x in Exec(EMPTY, steps).slices
    ensures ExtremesOf(Exec(EMPTY, steps).slices[x].row, HeldSamples(EMPTY, steps, x))
  {
    var front, st := steps[..|steps| - 1], steps[|steps| - 1];
    var w := Exec(EMPTY, front);
    if x in w.slices {
      RunConsistent(front);
      RunDurable(front, x);
      DurableExtremes(front, x);
      assert st in steps;
      ExtremesNext(w, st, x, HeldSamples(EMPTY, front, x));
    } else {
      NewSliceIsFresh(w, st, x);
      NoneHeldBeforeInsert(EMPTY, front, x);
    }
  }

  lemma {:induction false} NoneHeldBeforeInsert(w: World, steps: seq<Step>, x: int)
    requires x !in Exec(w, steps).slices
    ensures HeldSamples(w, steps, x) == []
  {
    if steps != [] {
      var front := steps[..|steps| - 1];
      if x in Exec(w, front).slices { NextSlice(Exec(w, front), steps[|steps| - 1], x); }
      NoneHeldBeforeInsert(w, front, x);
    }
  }
}
