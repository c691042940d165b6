/** The audit log replays to the stored state, whatever Redis loses and whichever batches fail. */
module Audit {
  import opened Prelude
  import opened Domain
  import opened Evaluation
  import opened Machine

  // ----- replaying a log ---------------------------------------------------------

  /** The effect of one event on (status, active); after the first closing event nothing counts. */
  function Apply(st: ScState, e: Event): ScState {
    if st.status != Running then st
    else match e.kind
      case Entered => st.(active := true)
      case Completed(r) => ScState(r, false)
      case SiblingCancelled => ScState(Cancelled, false)
      case _ => st
  }

  function Replay(st: ScState, log: seq<Event>): ScState
    decreases |log|
  {
    if log == [] then st else Replay(Apply(st, log[0]), log[1..])
  }

  lemma {:induction false} ReplayConcat(st: ScState, a: seq<Event>, b: seq<Event>)
    ensures Replay(st, a + b) == Replay(Replay(st, a), b)
    decreases |a|
  {
    if a == [] {
      assert a + b == b;
    } else {
      assert (a + b)[1..] == a[1..] + b;
      ReplayConcat(Apply(st, a[0]), a[1..], b);
    }
  }

  lemma ReplaySingle(st: ScState, e: Event)
    ensures Replay(st, [e]) == Apply(st, e)
  {
    assert [e][1..] == [];
  }

  function Count(log: seq<Event>, p: Event -> bool): nat {
    if log == [] then 0 else Count(log[..|log| - 1], p) + if p(log[|log| - 1]) then 1 else 0
  }

  lemma {:induction false} CountConcat(a: seq<Event>, b: seq<Event>, p: Event -> bool)
    ensures Count(a + b, p) == Count(a, p) + Count(b, p)
  {
    if b == [] {
      assert a + b == a;
    } else {
      assert (a + b)[..|a + b| - 1] == a + b[..|b| - 1];
      CountConcat(a, b[..|b| - 1], p);
    }
  }

  lemma {:induction false} CountAll(a: seq<Event>, p: Event -> bool, yes: bool)
    requires forall e :: e in a ==> p(e) == yes
    ensures Count(a, p) == if yes then |a| else 0
  {
    if a != [] {
      CountAll(a[..|a| - 1], p, yes);
    }
  }

  lemma CountOne(e: Event, p: Event -> bool)
    ensures Count([e], p) == if p(e) then 1 else 0
  {
    assert [e][..0] == [];
  }

  predicate IsEntered(e: Event) { e.kind == Entered }
  predicate IsCompleted(e: Event) { e.kind.Completed? }
  predicate IsCancelled(e: Event) { e.kind == SiblingCancelled }
  predicate IsTpHit(e: Event) { e.kind.TpHit? }

  // ----- what one evaluation appends -----------------------------------------------

  lemma {:induction false} NeutralReplay(st: ScState, es: seq<Event>)
    requires forall e :: e in es ==> !IsEntered(e) && !IsCompleted(e) && !IsCancelled(e)
    ensures Replay(st, es) == st
    decreases |es|
  {
    if es != [] {
      assert es[0] in es;
      NeutralReplay(Apply(st, es[0]), es[1..]);
    }
  }

  ghost predicate Appends(es: seq<Event>, entered: nat, completed: nat, cancelled: nat, tpHits: nat) {
    && Count(es, IsEntered) == entered
    && Count(es, IsCompleted) == completed
    && Count(es, IsCancelled) == cancelled
    && Count(es, IsTpHit) == tpHits
  }

  lemma AppendsConcat(a: seq<Event>, b: seq<Event>)
    ensures Appends(a + b, Count(a, IsEntered) + Count(b, IsEntered), Count(a, IsCompleted) + Count(b, IsCompleted),
                    Count(a, IsCancelled) + Count(b, IsCancelled), Count(a, IsTpHit) + Count(b, IsTpHit))
  {
    CountConcat(a, b, IsEntered);
    CountConcat(a, b, IsCompleted);
    CountConcat(a, b, IsCancelled);
    CountConcat(a, b, IsTpHit);
  }

  lemma AppendsOne(e: Event)
    ensures Appends([e], if IsEntered(e) then 1 else 0, if IsCompleted(e) then 1 else 0,
                    if IsCancelled(e) then 1 else 0, if IsTpHit(e) then 1 else 0)
  {
    CountOne(e, IsEntered);
    CountOne(e, IsCompleted);
    CountOne(e, IsCancelled);
    CountOne(e, IsTpHit);
  }

  lemma AppendsTpHits(es: seq<Event>)
    requires forall e :: e in es ==> IsTpHit(e)
    ensures Appends(es, 0, 0, 0, |es|)
  {
    CountAll(es, IsEntered, false);
    CountAll(es, IsCompleted, false);
    CountAll(es, IsCancelled, false);
    CountAll(es, IsTpHit, true);
  }

  lemma ClosingAppends(v: Verdict, now: int, st: ScState)
    requires st.status == Running
    ensures Appends(ClosingEvents(v, now), 0, if v.Close? then 1 else 0, 0, 0)
    ensures Replay(st, ClosingEvents(v, now)) == if v.Close? then ScState(v.status, false) else st
  {
    if v.Close? {
      var sl := if v.status == Failed then [Event(SlHit, v.exit, now)] else [];
      var done := Event(Completed(v.status), v.exit, now);
      if v.status == Failed { AppendsOne(sl[0]); }
      AppendsOne(done);
      AppendsConcat(sl, [done]);
      NeutralReplay(st, sl);
      ReplayConcat(st, sl, [done]);
      ReplaySingle(st, done);
    }
  }

  /** The events of one evaluation carry exactly the transition it decides on. */
  lemma EventsCarryCourse(sc: Scenario, gapStart: Option<int>, d: Course, now: int, st: ScState)
    requires st.status == Running
    ensures var es := EventsOf(sc, gapStart, d, now);
      && Appends(es, if d.newly then 1 else 0, if d.verdict.Close? then 1 else 0, 0,
                 |TpHitEvents(sc, d.entered, d.hit, now)|)
      && Replay(st, es) == if d.verdict.Close? then ScState(d.verdict.status, false)
                           else st.(active := st.active || d.newly)
  {
    var gap := if gapStart.Some? && d.entered then [Event(GapEnd(gapStart.value), None, now)] else [];
    var ins := if d.newly then [Event(Entered, d.entry, now)] else [];
    var tps := TpHitEvents(sc, d.entered, d.hit, now);
    var end := ClosingEvents(d.verdict, now);
    if gap != [] { AppendsOne(gap[0]); }
    if ins != [] { AppendsOne(ins[0]); ReplaySingle(st, ins[0]); }
    AppendsTpHits(tps);
    var st1 := Replay(st, ins);
    ClosingAppends(d.verdict, now, st1);
    AppendsConcat(gap, ins);
    AppendsConcat(gap + ins, tps);
    AppendsConcat(gap + ins + tps, end);
    NeutralReplay(st, gap);
    ReplayConcat(st, gap, ins);
    NeutralReplay(st1, tps);
    ReplayConcat(st, gap + ins, tps);
    ReplayConcat(st, gap + ins + tps, end);
  }

  // ----- the invariant of one scenario ------------------------------------------------

  const START := ScState(Running, false)

  function HitIndex(row: Option<Row>): nat {
    if row.Some? && row.value.hitTpIdx.Some? then row.value.hitTpIdx.value else 0
  }

  /** No closing column is set yet. */
  predicate Unsettled(r: Row) {
    && r.result == Running && r.hitTp.None? && r.hitTpIdx.None? && r.hitSl.None?
    && r.exitPrice.None? && r.completedAt.None?
  }

  ghost predicate Sound(s: Slice) {
    && s.keys.bestTp.None? && s.keys.bestTpIdx.None?
    && Replay(START, s.log) == ScState(s.status, s.active)
    && (s.active ==> s.status == Running)
    && Count(s.log, IsEntered) <= 1
    && (s.active ==> Count(s.log, IsEntered) == 1)
    && (s.status == Running && !s.active ==> Count(s.log, IsEntered) == 0)
    && Count(s.log, IsCompleted) <= 1 && Count(s.log, IsCancelled) <= 1
    && (s.status == Running ==> Count(s.log, IsCompleted) == 0 && Count(s.log, IsCancelled) == 0)
    && Count(s.log, IsTpHit) == HitIndex(s.row) <= |s.sc.takeProfits|
    && (s.status != Running ==> s.row.Some?)
    && (s.row.Some? ==>
          && (s.status == Running ==> Unsettled(s.row.value))
          && (s.row.value.hitSl.Some? <==> s.status == Failed)
          && (s.row.value.result == Failed ==> s.status == Failed))
  }

  lemma FreshSound(sc: Scenario)
    ensures Sound(Fresh(sc))
  {
  }

  lemma RecoverSound(s: Slice)
    requires Sound(s)
    ensures Sound(Recover(s))
  {
  }

  lemma AppendLog(log: seq<Event>, es: seq<Event>, cancelled: bool, now: int)
    ensures var tail := if cancelled then [Event(SiblingCancelled, None, now)] else [];
      && Replay(START, log + es + tail) ==
           (var st := Replay(Replay(START, log), es);
            if cancelled then Apply(st, Event(SiblingCancelled, None, now)) else st)
      && Count(log + es + tail, IsEntered) == Count(log, IsEntered) + Count(es, IsEntered)
      && Count(log + es + tail, IsCompleted) == Count(log, IsCompleted) + Count(es, IsCompleted)
      && Count(log + es + tail, IsCancelled) ==
           Count(log, IsCancelled) + Count(es, IsCancelled) + (if cancelled then 1 else 0)
      && Count(log + es + tail, IsTpHit) == Count(log, IsTpHit) + Count(es, IsTpHit)
  {
    var tail := if cancelled then [Event(SiblingCancelled, None, now)] else [];
    ReplayConcat(START, log, es);
    ReplayConcat(START, log + es, tail);
    AppendsConcat(log, es);
    AppendsConcat(log + es, tail);
    if cancelled {
      AppendsOne(tail[0]);
      ReplaySingle(Replay(START, log + es), tail[0]);
    }
  }

  /** What the batch may be told about a running scenario. */
  ghost predicate Lawful(s: Slice, o: Observation) {
    var w := o.writes;
    var closed := w.mark.Some? && w.mark.value.Closed?;
    && o.keys.bestTp.None? && o.keys.bestTpIdx.None?
    && (s.active ==> !o.newly)
    && (closed ==> w.mark.value.status in {Success, Failed, Expired})
    && (w.mark == Some(Activated) <==> o.newly && !closed)
    && (w.mark.Some? ==> w.row.Some?)
    && Appends(w.events, if o.newly then 1 else 0, if closed then 1 else 0, 0, HitIndex(w.row))
    && HitIndex(w.row) <= |s.sc.takeProfits|
    && Replay(ScState(s.status, s.active), w.events) == Marked(ScState(s.status, s.active), w.mark, false)
    && (w.row.Some? ==>
          && (!closed ==> Unsettled(w.row.value))
          && (w.row.value.hitSl.Some? <==> closed && w.mark.value.status == Failed)
          && (closed ==> w.row.value.result == w.mark.value.status))
  }

  /** With no target remembered from an earlier cycle, a target touch closes at once. */
  lemma CourseFacts(sc: Scenario, active: bool, dbEntry: Option<real>, k: Keys, c: Candle, now: int, skip: bool)
    requires k.bestTp.None? && k.bestTpIdx.None?
    ensures var d := CourseOf(sc, active, dbEntry, k, c, now, skip);
      && (active || k.entered ==> d.entered && !d.newly)
      && (skip ==> !d.newly)
      && (d.newly ==> d.entered)
      && d.hit.previous == 0
      && d.hit.index == (if d.entered then BestReached(sc, sc.takeProfits, c) else 0)
      && |TpHitEvents(sc, d.entered, d.hit, now)| == d.hit.index
      && (d.hit.index > 0 ==>
            d.hit.price == Some(sc.takeProfits[d.hit.index - 1]) && d.verdict == Close(Success, d.hit.price))
      && (d.hit.index == 0 ==> d.hit.price.None? && d.keys.bestTp.None? && d.keys.bestTpIdx.None?)
      && (d.hit.index == 0 && d.verdict.Close? ==> d.verdict.status != Success)
  {
    var d := CourseOf(sc, active, dbEntry, k, c, now, skip);
    assert sc.takeProfits == [] ==> d.hit.index == 0;
  }

  lemma PricedLawful(s: Slice, c: Candle, now: int, skip: bool)
    requires Sound(s) && s.status == Running
    ensures Lawful(s, Observe(s, Some(c), now, skip))
    ensures skip && !s.active ==> !Observe(s, Some(c), now, skip).newly
  {
    var d := CourseOf(s.sc, s.active, DbEntry(s.row), s.keys, c, now, skip);
    CourseFacts(s.sc, s.active, DbEntry(s.row), s.keys, c, now, skip);
    EventsCarryCourse(s.sc, s.keys.gapStart, d, now, ScState(s.status, s.active));
  }

  lemma UnpricedLawful(s: Slice, now: int, skip: bool)
    requires Sound(s) && s.status == Running
    ensures Lawful(s, Observe(s, None, now, skip)) && !Observe(s, None, now, skip).newly
  {
    var es := Observe(s, None, now, skip).writes.events;
    if es != [] {
      AppendsOne(es[0]);
      ReplaySingle(ScState(s.status, s.active), es[0]);
    }
  }

  lemma ObservationLawful(s: Slice, candle: Option<Candle>, now: int, skip: bool)
    requires Sound(s) && s.status == Running
    ensures Lawful(s, Observe(s, candle, now, skip))
    ensures skip && !s.active ==> !Observe(s, candle, now, skip).newly
  {
    if candle.Some? { PricedLawful(s, candle.value, now, skip); } else { UnpricedLawful(s, now, skip); }
  }

  lemma WriteSound(s: Slice, o: Observation, cancelled: bool, now: int)
    requires Sound(s) && s.status == Running && Lawful(s, o)
    requires cancelled ==> !o.newly && !s.active
    ensures Sound(Write(s.(keys := if cancelled then NO_KEYS else o.keys), o.writes, cancelled, now))
  {
    AppendLog(s.log, o.writes.events, cancelled, now);
  }

  /** One cycle keeps the invariant, committed or not, cancelled or not. */
  lemma StepSound(s: Slice, slow: bool, candle: Option<Candle>, now: int, skip: bool, cancelled: bool, commits: bool)
    requires Sound(s)
    requires cancelled ==> skip && !s.active
    ensures Sound(StepScenario(s, slow, candle, now, skip, cancelled, commits))
  {
    if Selected(s, slow) {
      ObservationLawful(s, candle, now, skip);
      WriteSound(s, Observe(s, candle, now, skip), cancelled, now);
    }
  }

  /** What one committed cycle does to the status, the active flag and the count of entries. */
  lemma StepEffect(s: Slice, slow: bool, candle: Option<Candle>, now: int, skip: bool, cancelled: bool)
    requires Sound(s) && Selected(s, slow)
    requires cancelled ==> skip && !s.active
    ensures var o := Observe(s, candle, now, skip);
            var s' := StepScenario(s, slow, candle, now, skip, cancelled, true);
      && (skip ==> !o.newly)
      && (s.active ==> !o.newly)
      && Count(s'.log, IsEntered) == Count(s.log, IsEntered) + (if o.newly then 1 else 0)
      && (s'.status == Running <==> !Ends(o) && !cancelled)
      && (s'.active <==> (s.active || o.newly) && !Ends(o))
  {
    ObservationLawful(s, candle, now, skip);
    AppendLog(s.log, Observe(s, candle, now, skip).writes.events, cancelled, now);
  }
}
