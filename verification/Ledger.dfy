/** The audit log against the result row: every event carries the price and the time the row has for it, and
    data gaps open and close in turn. */
module Ledger {
  import opened Prelude
  import opened Domain
  import opened Evaluation
  import opened Machine
  import opened Audit
  import opened Exclusion
  import opened History
  import opened Records

  // ----- prices and times --------------------------------------------------------------------------

  /** What one event has to agree with. */
  predicate Vouched(e: Event, st: Status, r: Option<Row>) {
    match e.kind
    case Entered => r.Some? && e.price.Some? && e.price == r.value.entryPrice && r.value.enteredAt == Some(e.at)
    case TpHit(_) => st == Success && r.Some? && r.value.completedAt == Some(e.at)
    case SlHit => st == Failed && r.Some? && e.price == r.value.hitSl && r.value.completedAt == Some(e.at)
    case Completed(c) =>
      st == c != Running && r.Some? && e.price == r.value.exitPrice && r.value.completedAt == Some(e.at)
    case SiblingCancelled => st != Running && r.Some? && e.price.None? && r.value.completedAt == Some(e.at)
    case _ => e.price.None?
  }

  ghost predicate LogVouched(s: Slice) {
    && (forall e :: e in s.log ==> Vouched(e, s.status, s.row))
    && (s.status == Failed ==> exists e :: e in s.log && e.kind == SlHit)
    && (s.status != Running && s.row.Some? ==> s.row.value.completedAt == Some(s.row.value.evaluatedAt))
  }

  /** The events of one observation agree with the row it writes. */
  ghost predicate EventsVouched(o: Observation, now: int) {
    var w := o.writes;
    && (forall e :: e in w.events ==>
          && e.at == now && !e.kind.SiblingCancelled? && (e.kind.Entered? ==> o.newly)
          && Vouched(e, if Ends(o) then w.mark.value.status else Running, w.row))
    && (Ends(o) && w.mark.value.status == Failed ==> exists e :: e in w.events && e.kind == SlHit)
  }

  /** The five forms an event of one evaluation can have. */
  lemma EventForms(sc: Scenario, gapStart: Option<int>, d: Course, now: int, e: Event)
    requires e in EventsOf(sc, gapStart, d, now)
    ensures
      || (gapStart.Some? && d.entered && e == Event(GapEnd(gapStart.value), None, now))
      || (d.newly && e == Event(Entered, d.entry, now))
      || e in TpHitEvents(sc, d.entered, d.hit, now)
      || (d.verdict.Close? && d.verdict.status == Failed && e == Event(SlHit, d.verdict.exit, now))
      || (d.verdict.Close? && e == Event(Completed(d.verdict.status), d.verdict.exit, now))
  {
    if e in ClosingEvents(d.verdict, now) {
      assert d.verdict.Close?;
    }
  }

  lemma StopEvent(sc: Scenario, gapStart: Option<int>, d: Course, now: int)
    requires d.verdict.Close? && d.verdict.status == Failed
    ensures Event(SlHit, d.verdict.exit, now) in EventsOf(sc, gapStart, d, now)
  {
    var es := ClosingEvents(d.verdict, now);
    assert es[0] in es;
  }

  lemma EventVouched(sc: Scenario, gapStart: Option<int>, d: Course, c: Candle, now: int, e: Event)
    requires e in EventsOf(sc, gapStart, d, now) && (d.newly ==> d.entry.Some?)
    requires d.hit.previous == 0 && (d.hit.index > 0 ==> d.verdict.Close? && d.verdict.status == Success)
    requires d.verdict.Close? ==> d.verdict.status in {Success, Failed, Expired}
    ensures e.at == now && !e.kind.SiblingCancelled? && (e.kind.Entered? ==> d.newly)
    ensures Vouched(e, if d.verdict.Close? then d.verdict.status else Running, Some(RowOf(sc, d, c, now)))
  {
    EventForms(sc, gapStart, d, now, e);
  }

  lemma NewlyHasPrice(s: Slice, c: Candle, now: int, skip: bool)
    ensures var d := CourseOf(s.sc, s.active, DbEntry(s.row), s.keys, c, now, skip); d.newly ==> d.entry.Some?
  {
  }

  lemma CourseVouched(s: Slice, c: Candle, now: int, skip: bool)
    requires Sound(s) && s.status == Running
    ensures EventsVouched(Observe(s, Some(c), now, skip), now)
  {
    var d := CourseOf(s.sc, s.active, DbEntry(s.row), s.keys, c, now, skip);
    CourseFacts(s.sc, s.active, DbEntry(s.row), s.keys, c, now, skip);
    ReportOfCourse(s, c, now, skip);
    NewlyHasPrice(s, c, now, skip);
    forall e | e in EventsOf(s.sc, s.keys.gapStart, d, now)
      ensures e.at == now && !e.kind.SiblingCancelled? && (e.kind.Entered? ==> d.newly)
      ensures Vouched(e, if d.verdict.Close? then d.verdict.status else Running, Some(RowOf(s.sc, d, c, now)))
    {
      EventVouched(s.sc, s.keys.gapStart, d, c, now, e);
    }
    if d.verdict.Close? && d.verdict.status == Failed { StopEvent(s.sc, s.keys.gapStart, d, now); }
  }

  lemma ObserveVouched(s: Slice, candle: Option<Candle>, now: int, skip: bool)
    requires Sound(s) && s.status == Running
    ensures EventsVouched(Observe(s, candle, now, skip), now)
  {
    if candle.Some? { CourseVouched(s, candle.value, now, skip); }
  }

  /** An event already logged keeps its row. */
  lemma OldVouched(s: Slice, o: Observation, cancelled: bool, now: int, e: Event)
    requires Sound(s) && s.status == Running && Vouched(e, s.status, s.row)
    ensures var t := Write(s.(keys := if cancelled then NO_KEYS else o.keys), o.writes, cancelled, now);
      Vouched(e, t.status, t.row)
  {
  }

  /** A new one finds its row written with it. */
  lemma NewVouched(s: Slice, o: Observation, cancelled: bool, now: int, e: Event)
    requires Sound(s) && Recorded(s) && s.status == Running && Lawful(s, o) && EventsVouched(o, now)
    requires e in o.writes.events
    ensures var t := Write(s.(keys := if cancelled then NO_KEYS else o.keys), o.writes, cancelled, now);
      Vouched(e, t.status, t.row)
  {
  }

  lemma CancelVouched(s: Slice, o: Observation, now: int)
    requires Sound(s) && s.status == Running && Lawful(s, o) && !s.active && !o.newly
    requires o.writes.row.Some? && o.writes.row.value.completedAt.Some? ==> o.writes.row.value.completedAt == Some(now)
    ensures var t := Write(s.(keys := NO_KEYS), o.writes, true, now);
      Vouched(Event(SiblingCancelled, None, now), t.status, t.row)
  {
  }

  lemma CompletedNow(s: Slice, candle: Option<Candle>, now: int, skip: bool)
    ensures var o := Observe(s, candle, now, skip); var w := o.writes;
      && (w.row.Some? && w.row.value.completedAt.Some? ==> w.row.value.completedAt == Some(now))
      && (Ends(o) ==> w.row.Some? && w.row.value.completedAt == Some(now) == Some(w.row.value.evaluatedAt))
  {
  }

  lemma ClosedNow(s: Slice, o: Observation, cancelled: bool, now: int)
    requires Sound(s) && s.status == Running && Lawful(s, o) && (cancelled ==> !s.active && !o.newly)
    requires o.writes.row.Some? && o.writes.row.value.completedAt.Some? ==> o.writes.row.value.completedAt == Some(now)
    requires Ends(o) ==>
      o.writes.row.Some? && o.writes.row.value.completedAt == Some(now) == Some(o.writes.row.value.evaluatedAt)
    ensures var t := Write(s.(keys := if cancelled then NO_KEYS else o.keys), o.writes, cancelled, now);
      t.status != Running && t.row.Some? ==> t.row.value.completedAt == Some(t.row.value.evaluatedAt)
  {
  }

  lemma StepVouched(s: Slice, slow: bool, candle: Option<Candle>, now: int, skip: bool, cancelled: bool, commits: bool)
    requires Sound(s) && Recorded(s) && LogVouched(s) && (cancelled ==> skip && !s.active)
    ensures LogVouched(StepScenario(s, slow, candle, now, skip, cancelled, commits))
  {
    if Selected(s, slow) && commits {
      var o := Observe(s, candle, now, skip);
      var t := StepScenario(s, slow, candle, now, skip, cancelled, commits);
      ObservationLawful(s, candle, now, skip);
      ObserveVouched(s, candle, now, skip);
      CompletedNow(s, candle, now, skip);
      if cancelled { CancelVouched(s, o, now); }
      forall e | e in t.log ensures Vouched(e, t.status, t.row) {
        if e in s.log {
          OldVouched(s, o, cancelled, now, e);
        } else if e in o.writes.events {
          NewVouched(s, o, cancelled, now, e);
        }
      }
      StopLogged(s, o, cancelled, now);
      ClosedNow(s, o, cancelled, now);
    }
  }

  lemma StopLogged(s: Slice, o: Observation, cancelled: bool, now: int)
    requires s.status == Running && Lawful(s, o) && EventsVouched(o, now)
    ensures var t := Write(s.(keys := if cancelled then NO_KEYS else o.keys), o.writes, cancelled, now);
      t.status == Failed ==> exists e :: e in t.log && e.kind == SlHit
  {
    if Ends(o) && o.writes.mark.value.status == Failed {
      var e :| e in o.writes.events && e.kind == SlHit;
      var t := Write(s.(keys := if cancelled then NO_KEYS else o.keys), o.writes, cancelled, now);
      assert e in t.log;
    }
  }

  lemma NextVouched(w: World, st: Step, x: int)
    requires x in w.slices && Sound(w.slices[x]) && Recorded(w.slices[x]) && LogVouched(w.slices[x])
    ensures LogVouched(SliceNext(w, st, x))
  {
    if st.Evaluation? {
      var p := st.poll;
      StepVouched(w.slices[x], Slow(w), Get(p.candles, x), p.now, Skips(w, p, x), Cancels(w, p, x), p.commits);
    }
  }

  /** Main result: in every run, under any losses and failed batches, each logged event bears the price and time
      of the row: the entry its entry, the stop and the completion their exit, a cancellation its time; and that
      time is when the row was last evaluated. */
  lemma {:induction false} LogMatchesRow(steps: seq<Step>, x: int)
    requires Legal(EMPTY, steps) && x in Exec(EMPTY, steps).slices
    ensures LogVouched(Exec(EMPTY, steps).slices[x])
  {
    var front, st := steps[..|steps| - 1], steps[|steps| - 1];
    var w := Exec(EMPTY, front);
    if x in w.slices {
      NextSlice(w, st, x);
      RunConsistent(front);
      RunRecorded(front, x);
      LogMatchesRow(front, x);
      assert Sound(w.slices[x]);
      NextVouched(w, st, x);
    } else {
      NewSliceIsFresh(w, st, x);
    }
  }

  // ----- data gaps ---------------------------------------------------------------------------------------

  predicate IsGap(e: Event) {
    e.kind.GapStart? || e.kind.GapEnd?
  }

  function Gaps(log: seq<Event>): seq<Event> {
    if log == [] then []
    else
      var front := Gaps(log[..|log| - 1]);
      if IsGap(log[|log| - 1]) then front + [log[|log| - 1]] else front
  }

  lemma {:induction false} GapsConcat(a: seq<Event>, b: seq<Event>)
    ensures Gaps(a + b) == Gaps(a) + Gaps(b)
  {
    if b == [] {
      assert a + b == a;
    } else {
      assert (a + b)[..|a + b| - 1] == a + b[..|b| - 1];
      GapsConcat(a, b[..|b| - 1]);
    }
  }

  lemma {:induction false} NoGaps(es: seq<Event>)
    requires forall e :: e in es ==> !IsGap(e)
    ensures Gaps(es) == []
  {
    if es != [] { NoGaps(es[..|es| - 1]); }
  }

  /** Gaps start and end in turn, each end names its own start, and open is the start of one that is not over. */
  ghost predicate Paired(gs: seq<Event>, open: Option<int>) {
    if gs == [] then open.None?
    else
      var last := gs[|gs| - 1];
      match last.kind
      case GapStart => open == Some(last.at) && Paired(gs[..|gs| - 1], None)
      case GapEnd(from) => open.None? && Paired(gs[..|gs| - 1], Some(from))
      case _ => false
  }

  /** Redis knows the open gap, and only an entered scenario has gaps. */
  ghost predicate GapsTold(s: Slice) {
    && Paired(Gaps(s.log), if s.status == Running then s.keys.gapStart else None)
    && (s.status == Running && !s.active ==> Gaps(s.log) == [] && s.keys.gapStart.None?)
  }

  /** What one observation adds: nothing, a start if no gap is open, or the end of the open one. */
  ghost predicate GapReport(s: Slice, o: Observation, now: int) {
    var gs := Gaps(o.writes.events);
    || (gs == [] && o.keys.gapStart == s.keys.gapStart)
    || (s.active && s.keys.gapStart.None? && gs == [Event(GapStart, None, now)] && o.keys.gapStart == Some(now))
    || (s.keys.gapStart.Some? && gs == [Event(GapEnd(s.keys.gapStart.value), None, now)] && o.keys.gapStart.None?)
  }

  /** The events of a course but the end of a gap. */
  function Plain(sc: Scenario, d: Course, now: int): seq<Event> {
    (if d.newly then [Event(Entered, d.entry, now)] else []) +
    (TpHitEvents(sc, d.entered, d.hit, now) + ClosingEvents(d.verdict, now))
  }

  lemma PlainHasNoGap(sc: Scenario, d: Course, now: int)
    ensures Gaps(Plain(sc, d, now)) == []
  {
    var entry := if d.newly then [Event(Entered, d.entry, now)] else [];
    var tps, closing := TpHitEvents(sc, d.entered, d.hit, now), ClosingEvents(d.verdict, now);
    NoGaps(entry);
    NoGaps(tps);
    NoGaps(closing);
    GapsConcat(tps, closing);
    GapsConcat(entry, tps + closing);
  }

  lemma CourseGaps(sc: Scenario, gapStart: Option<int>, d: Course, now: int)
    requires gapStart.Some? ==> d.entered
    ensures Gaps(EventsOf(sc, gapStart, d, now)) ==
      if gapStart.Some? then [Event(GapEnd(gapStart.value), None, now)] else []
  {
    var gap := if gapStart.Some? then [Event(GapEnd(gapStart.value), None, now)] else [];
    assert EventsOf(sc, gapStart, d, now) == gap + Plain(sc, d, now);
    PlainHasNoGap(sc, d, now);
    GapsConcat(gap, Plain(sc, d, now));
    if gapStart.Some? { assert gap[..0] == []; }
  }

  /** A price closes the gap, its absence opens one. */
  lemma ObserveGaps(s: Slice, candle: Option<Candle>, now: int, skip: bool)
    requires Sound(s) && GapsTold(s) && s.status == Running
    ensures var o := Observe(s, candle, now, skip);
      && GapReport(s, o, now)
      && (s.active && !Ends(o) ==> (o.keys.gapStart.None? <==> candle.Some?))
      && (Ends(o) ==> o.keys.gapStart.None?)
  {
    if candle.Some? {
      var d := CourseOf(s.sc, s.active, DbEntry(s.row), s.keys, candle.value, now, skip);
      CourseFacts(s.sc, s.active, DbEntry(s.row), s.keys, candle.value, now, skip);
      ReportOfCourse(s, candle.value, now, skip);
      CourseGaps(s.sc, s.keys.gapStart, d, now);
      assert d.keys.gapStart.None?;
    } else {
      var es := Observe(s, candle, now, skip).writes.events;
      if es != [] { assert es[..0] == []; }
    }
  }

  lemma PairedMore(gs: seq<Event>, open: Option<int>, e: Event, open': Option<int>)
    requires Paired(gs, open)
    requires
      || (e.kind.GapStart? && open.None? && open' == Some(e.at))
      || (open.Some? && e.kind == GapEnd(open.value) && open'.None?)
    ensures Paired(gs + [e], open')
  {
    assert (gs + [e])[..|gs|] == gs;
  }

  lemma WriteGaps(s: Slice, o: Observation, cancelled: bool, now: int)
    requires Sound(s) && GapsTold(s) && s.status == Running && Lawful(s, o) && GapReport(s, o, now)
    requires (Ends(o) ==> o.keys.gapStart.None?) && (cancelled ==> !s.active && !o.newly)
    ensures GapsTold(Write(s.(keys := if cancelled then NO_KEYS else o.keys), o.writes, cancelled, now))
  {
    var tail := if cancelled then [Event(SiblingCancelled, None, now)] else [];
    var gs := Gaps(o.writes.events);
    NoGaps(tail);
    GapsConcat(s.log, o.writes.events);
    GapsConcat(s.log + o.writes.events, tail);
    assert Gaps(s.log + o.writes.events + tail) == Gaps(s.log) + gs;
    if gs == [] {
      assert Gaps(s.log) + [] == Gaps(s.log);
    } else {
      PairedMore(Gaps(s.log), s.keys.gapStart, gs[0], o.keys.gapStart);
    }
  }

  /** Only committed cycles move x's gap key. */
  predicate KeepsGap(w: World, st: Step, x: int) {
    x in w.slices && (st.Lose? || st.Restart? || (st.Evaluation? && !st.poll.commits)) ==>
      SliceNext(w, st, x).keys.gapStart == w.slices[x].keys.gapStart
  }

  ghost predicate GapKept(w: World, steps: seq<Step>, x: int) {
    steps == [] ||
    (GapKept(w, steps[..|steps| - 1], x) && KeepsGap(Exec(w, steps[..|steps| - 1]), steps[|steps| - 1], x))
  }

  lemma CycleGaps(w: World, p: Poll, x: int)
    requires Consistent(w) && Lists(w, p.order) && p.commits && x in w.slices && GapsTold(w.slices[x])
    ensures GapsTold(SliceAfter(w, p, x))
    ensures w.slices[x].active && SliceAfter(w, p, x).active ==>
      (SliceAfter(w, p, x).keys.gapStart.None? <==> x in p.candles)
  {
    var s, skip := w.slices[x], Skips(w, p, x);
    assert Sound(s);
    if Picked(w, x) {
      var o := Observe(s, Get(p.candles, x), p.now, skip);
      ObservationLawful(s, Get(p.candles, x), p.now, skip);
      ObserveGaps(s, Get(p.candles, x), p.now, skip);
      WriteGaps(s, o, Cancels(w, p, x), p.now);
    }
  }

  lemma OtherGaps(w: World, st: Step, x: int)
    requires Consistent(w) && x in w.slices && GapsTold(w.slices[x]) && KeepsGap(w, st, x)
    requires !(st.Evaluation? && st.poll.commits)
    ensures GapsTold(SliceNext(w, st, x))
  {
    var s, t := w.slices[x], SliceNext(w, st, x);
    assert t == s.(keys := t.keys);
  }

  /** The last gap event is a start. */
  ghost predicate InGap(log: seq<Event>) {
    Gaps(log) != [] && Gaps(log)[|Gaps(log)| - 1].kind.GapStart?
  }

  /** Main result: while only committed cycles move its gap key, a scenario's data gaps start and end in turn, each
      end names its start, there are none before entry or after the close, and an open position is in a gap
      exactly while its last cycle had no price. */
  lemma {:induction false} GapsInTurn(steps: seq<Step>, x: int)
    requires Legal(EMPTY, steps) && GapKept(EMPTY, steps, x) && x in Exec(EMPTY, steps).slices
    ensures GapsTold(Exec(EMPTY, steps).slices[x])
    ensures var w, st := Exec(EMPTY, steps[..|steps| - 1]), steps[|steps| - 1];
      st.Evaluation? && st.poll.commits && x in w.slices && w.slices[x].active ==>
        Exec(EMPTY, steps).slices[x].active ==>
          (InGap(Exec(EMPTY, steps).slices[x].log) <==> x !in st.poll.candles)
  {
    var front, st := steps[..|steps| - 1], steps[|steps| - 1];
    var w := Exec(EMPTY, front);
    if x in w.slices {
      NextSlice(w, st, x);
      RunConsistent(front);
      GapsInTurn(front, x);
      if st.Evaluation? && st.poll.commits { CycleGaps(w, st.poll, x); } else { OtherGaps(w, st, x); }
      assert Sound(Next(w, st).slices[x]) by { RunConsistent(steps); }
    } else {
      NewSliceIsFresh(w, st, x);
    }
  }
}
