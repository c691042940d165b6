/** Take-profit levels: on the scenarios the normaliser stores, the levels a candle reaches
    form a prefix, so one index says it all. */
module Targets {
  import opened Prelude
  import opened Domain
  import opened Evaluation
  import opened Machine
  import opened Audit
  import N = Normaliser

  // ----- what the normaliser guarantees about a stored scenario -----------------------------

  predicate Ordered(d: Direction, tps: seq<real>) {
    forall i, j :: 0 <= i < j < |tps| ==> (d == Long ==> tps[i] <= tps[j]) && (d == Short ==> tps[i] >= tps[j])
  }

  /** Long or short, targets in order and beyond the entry, stop on the losing side. */
  predicate Placed(sc: Scenario) {
    && (sc.direction == Some(Long) || sc.direction == Some(Short))
    && Ordered(sc.Dir(), sc.takeProfits)
    && (forall p :: p in sc.takeProfits ==> p > 0.0)
    && (sc.stopLoss.Some? ==> sc.stopLoss.value > 0.0)
    && (Truthy(sc.entryPoint) ==>
          var e := sc.entryPoint.value;
          && (forall p :: p in sc.takeProfits ==> if sc.Dir() == Long then p > e else p < e)
          && (sc.stopLoss.Some? ==> if sc.Dir() == Long then sc.stopLoss.value < e else sc.stopLoss.value > e))
  }

  function Prices(ts: seq<N.Target>): (ps: seq<real>)
    ensures |ps| == |ts| && forall i :: 0 <= i < |ts| ==> ps[i] == ts[i].price
  {
    seq(|ts|, i requires 0 <= i < |ts| => ts[i].price)
  }

  /** Every long or short scenario stored from a normaliser's output is placed. */
  lemma NormalisedIsPlaced(sc: Scenario, raw: seq<N.RawTarget>, rawStop: Option<real>, word: string)
    requires var out := N.NormalizeSpec(sc.entryPoint, raw, rawStop, word);
      && N.Directed(out.direction) && sc.direction == out.direction
      && sc.takeProfits == Prices(out.takeProfits) && sc.stopLoss == out.stopLoss
    ensures Placed(sc)
  {
    var out := N.NormalizeSpec(sc.entryPoint, raw, rawStop, word);
    N.NormalisedGeometry(sc.entryPoint, raw, rawStop, word);
    N.KeptTargets(sc.entryPoint, raw, rawStop, word);
    forall p | p in sc.takeProfits
      ensures p > 0.0
      ensures Truthy(sc.entryPoint) ==> if sc.Dir() == Long then p > sc.entryPoint.value else p < sc.entryPoint.value
    {
      var i :| 0 <= i < |sc.takeProfits| && sc.takeProfits[i] == p;
      assert out.takeProfits[i] in out.takeProfits;
    }
  }

  // ----- the prefix --------------------------------------------------------------------------

  /** How many of the levels the candle reaches. */
  function CountReached(sc: Scenario, tps: seq<real>, c: Candle): (n: nat)
    ensures n <= |tps|
  {
    if tps == [] then 0
    else CountReached(sc, tps[..|tps| - 1], c) + if Reached(sc, tps[|tps| - 1], c) then 1 else 0
  }

  lemma {:induction false} CountAllReached(sc: Scenario, tps: seq<real>, c: Candle)
    requires forall i :: 0 <= i < |tps| ==> Reached(sc, tps[i], c)
    ensures CountReached(sc, tps, c) == |tps|
  {
    if tps != [] { CountAllReached(sc, tps[..|tps| - 1], c); }
  }

  lemma {:induction false} CountUpTo(sc: Scenario, tps: seq<real>, c: Candle, n: nat)
    requires n <= |tps|
    requires forall i :: 0 <= i < |tps| ==> (Reached(sc, tps[i], c) <==> i < n)
    ensures CountReached(sc, tps, c) == n
  {
    if n == |tps| {
      CountAllReached(sc, tps, c);
    } else {
      CountUpTo(sc, tps[..|tps| - 1], c, n);
    }
  }

  /** With ordered targets the reached levels are exactly the first BestReached ones, with or
      without range tolerance; the index counts them, and the last is the most favourable. */
  lemma ReachedIsPrefix(sc: Scenario, c: Candle)
    requires Placed(sc)
    ensures var n := BestReached(sc, sc.takeProfits, c);
      && (forall i :: 0 <= i < |sc.takeProfits| ==> (Reached(sc, sc.takeProfits[i], c) <==> i < n))
      && CountReached(sc, sc.takeProfits, c) == n
      && (forall i :: 0 <= i < n ==>
            if sc.Dir() == Long then sc.takeProfits[i] <= sc.takeProfits[n - 1]
            else sc.takeProfits[i] >= sc.takeProfits[n - 1])
  {
    CountUpTo(sc, sc.takeProfits, c, BestReached(sc, sc.takeProfits, c));
  }

  /** No reached level is more favourable than p. */
  predicate MostFavourable(sc: Scenario, c: Candle, p: real) {
    forall q :: q in sc.takeProfits && Reached(sc, q, c) ==> if sc.Dir() == Long then q <= p else q >= p
  }

  lemma LastReachedIsBest(sc: Scenario, c: Candle)
    requires Placed(sc) && BestReached(sc, sc.takeProfits, c) > 0
    ensures MostFavourable(sc, c, sc.takeProfits[BestReached(sc, sc.takeProfits, c) - 1])
  {
    ReachedIsPrefix(sc, c);
  }

  lemma TpHitsOnly(sc: Scenario, gapStart: Option<int>, d: Course, now: int)
    ensures forall e :: e in EventsOf(sc, gapStart, d, now) && e.kind.TpHit? ==>
      e in TpHitEvents(sc, d.entered, d.hit, now)
  {
  }

  /** What the course of an evaluation says about targets. */
  predicate HitFits(sc: Scenario, d: Course, c: Candle) {
    && d.hit.previous == 0
    && d.hit.index == (if d.entered then BestReached(sc, sc.takeProfits, c) else 0)
    && (d.hit.index > 0 ==>
          d.hit.price == Some(sc.takeProfits[d.hit.index - 1]) && d.verdict == Close(Success, d.hit.price))
    && (d.hit.index == 0 ==> d.hit.price.None? && (d.verdict.Close? ==> d.verdict.status != Success))
  }

  lemma CourseHits(s: Slice, c: Candle, now: int, skip: bool)
    requires Sound(s) && s.status == Running
    ensures HitFits(s.sc, CourseOf(s.sc, s.active, DbEntry(s.row), s.keys, c, now, skip), c)
  {
    CourseFacts(s.sc, s.active, DbEntry(s.row), s.keys, c, now, skip);
  }

  lemma HitIsReal(sc: Scenario, d: Course, c: Candle, now: int, e: Event)
    requires Placed(sc) && HitFits(sc, d, c) && e in TpHitEvents(sc, d.entered, d.hit, now)
    ensures e.kind.TpHit? && 1 <= e.kind.index <= CountReached(sc, sc.takeProfits, c)
    ensures e.price == Some(sc.takeProfits[e.kind.index - 1]) && e.at == now
    ensures Reached(sc, sc.takeProfits[e.kind.index - 1], c)
  {
    ReachedIsPrefix(sc, c);
  }

  /** Every tp_hit event of an evaluation names a level its own candle reaches, by its position. */
  lemma HitsAreReal(s: Slice, c: Candle, now: int, skip: bool, e: Event)
    requires Sound(s) && s.status == Running && Placed(s.sc)
    requires e in EvaluateSlice(s, c, now, skip).report.events && e.kind.TpHit?
    ensures 1 <= e.kind.index <= CountReached(s.sc, s.sc.takeProfits, c)
    ensures e.price == Some(s.sc.takeProfits[e.kind.index - 1]) && e.at == now
    ensures Reached(s.sc, s.sc.takeProfits[e.kind.index - 1], c)
  {
    var d := CourseOf(s.sc, s.active, DbEntry(s.row), s.keys, c, now, skip);
    CourseHits(s, c, now, skip);
    TpHitsOnly(s.sc, s.keys.gapStart, d, now);
    HitIsReal(s.sc, d, c, now, e);
  }

  /** A row is a success exactly when it names a target; then it names the last of the reached
      ones, counted from one, and is booked at the most favourable price reached. */
  predicate BooksBest(sc: Scenario, r: Row, c: Candle) {
    && (r.result == Success <==> r.hitTpIdx.Some?)
    && (r.hitTpIdx.Some? ==>
          && r.hitTpIdx.value == CountReached(sc, sc.takeProfits, c) > 0
          && r.exitPrice == Some(sc.takeProfits[r.hitTpIdx.value - 1])
          && MostFavourable(sc, c, r.exitPrice.value))
  }

  lemma RowBooksBest(sc: Scenario, d: Course, c: Candle, now: int)
    requires Placed(sc) && HitFits(sc, d, c)
    ensures BooksBest(sc, RowOf(sc, d, c, now), c)
  {
    if d.hit.index > 0 {
      ReachedIsPrefix(sc, c);
      LastReachedIsBest(sc, c);
    }
  }

  /** A target exit stores the number of reached levels and is booked at the most favourable one. */
  lemma TargetExitIsBest(s: Slice, c: Candle, now: int, skip: bool)
    requires Sound(s) && s.status == Running && Placed(s.sc)
    ensures BooksBest(s.sc, EvaluateSlice(s, c, now, skip).report.row, c)
  {
    CourseHits(s, c, now, skip);
    RowBooksBest(s.sc, CourseOf(s.sc, s.active, DbEntry(s.row), s.keys, c, now, skip), c, now);
  }
}
