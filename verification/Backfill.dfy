/** The migration's backfill of highest_price and lowest_price inverts the evaluator's
    percentages. */
module Backfill {
  import opened Prelude
  import opened Domain
  import opened Evaluation
  import opened Machine
  import opened Percentages
  import opened Durability

  function Above(entry: real, pct: real): real {
    entry * (1.0 + pct / 100.0)
  }

  function Below(entry: real, pct: real): real {
    entry * (1.0 - pct / 100.0)
  }

  /** The CASE expression for highest_price; the UPDATE applies to entry > 0. */
  function BackfilledHighest(d: Option<Direction>, entry: real, drawdown: Option<real>, favorable: Option<real>): real {
    if d == Some(Long) && favorable.Some? then Above(entry, favorable.value)
    else if d == Some(Short) && drawdown.Some? then Below(entry, drawdown.value)
    else entry
  }

  function BackfilledLowest(d: Option<Direction>, entry: real, drawdown: Option<real>, favorable: Option<real>): real {
    if d == Some(Long) && drawdown.Some? then Above(entry, drawdown.value)
    else if d == Some(Short) && favorable.Some? then Below(entry, favorable.value)
    else entry
  }

  /** Turning a percentage back into a price: exact for the exact percentage, and off by at most
      entry * 5e-7 for the rounded one. */
  lemma PriceFromPercent(entry: real, p: real, pct: real, error: real)
    requires entry > 0.0 && error >= 0.0
    requires -error <= pct - (p - entry) / entry * 100.0 <= error
    ensures -(entry * error / 100.0) <= entry * (1.0 + pct / 100.0) - p <= entry * error / 100.0
  {
    var exact := (p - entry) / entry * 100.0;
    assert entry * (exact / 100.0) == p - entry by {
      assert exact / 100.0 == (p - entry) / entry;
      assert (p - entry) / entry * entry == p - entry;
    }
    Scale(entry, pct / 100.0 - exact / 100.0, error / 100.0);
    Distribute(entry, pct / 100.0, exact / 100.0);
  }

  lemma Scale(entry: real, x: real, bound: real)
    requires entry > 0.0 && -bound <= x <= bound
    ensures -(entry * bound) <= entry * x <= entry * bound
  {
    assert entry * (bound - x) >= 0.0;
    assert entry * (bound + x) >= 0.0;
  }

  lemma Distribute(entry: real, x: real, y: real)
    ensures entry * (x - y) == entry * x - entry * y
  {
  }

  lemma Negated(entry: real, p: real)
    requires entry > 0.0
    ensures (entry - p) / entry * 100.0 == -((p - entry) / entry * 100.0)
  {
    assert (entry - p) / entry == -((p - entry) / entry) by {
      assert ((entry - p) / entry) * entry == entry - p;
      assert ((p - entry) / entry) * entry == p - entry;
    }
  }

  predicate Within(x: real, y: real, error: real) {
    -error <= x - y <= error
  }

  /** One price and its percentage, for a long. */
  lemma InvertsLong(entry: real, p: real)
    requires entry > 0.0
    ensures Within(Above(entry, Pnl(Long, entry, p)), p, entry * 0.0000005)
    ensures Above(entry, PnlExact(Long, entry, p)) == p
  {
    PriceFromPercent(entry, p, PnlExact(Long, entry, p), 0.0);
    PriceFromPercent(entry, p, Pnl(Long, entry, p), 0.00005);
  }

  /** One price and its percentage, for a short. */
  lemma InvertsShort(entry: real, p: real)
    requires entry > 0.0
    ensures Within(Below(entry, Pnl(Short, entry, p)), p, entry * 0.0000005)
    ensures Below(entry, PnlExact(Short, entry, p)) == p
  {
    Negated(entry, p);
    var exact, rounded := PnlExact(Short, entry, p), Pnl(Short, entry, p);
    PriceFromPercent(entry, p, -exact, 0.0);
    PriceFromPercent(entry, p, -rounded, 0.00005);
    assert 1.0 + (-exact) / 100.0 == 1.0 - exact / 100.0;
    assert 1.0 + (-rounded) / 100.0 == 1.0 - rounded / 100.0;
  }

  /** From the percentages of the extremes k holds, the backfill recovers both, to rounding. */
  predicate Recovers(d: Direction, entry: real, k: Keys)
    requires entry > 0.0 && k.max.Some? && k.min.Some?
  {
    var drawdown, favorable := Drawdown(d, k, entry), MaxFavorable(d, k, entry);
    && Within(BackfilledHighest(Some(d), entry, drawdown, favorable), k.max.value, entry * 0.0000005)
    && Within(BackfilledLowest(Some(d), entry, drawdown, favorable), k.min.value, entry * 0.0000005)
  }

  /** Main result: from the percentages the evaluator stores for a long or short scenario, the backfill
      recovers the highest and lowest price to within entry * 0.0000005. */
  lemma BackfillInverts(d: Direction, entry: real, k: Keys)
    requires entry > 0.0 && (d == Long || d == Short) && k.max.Some? && k.min.Some?
    ensures Recovers(d, entry, k)
  {
    if d == Long {
      InvertsLong(entry, k.max.value);
      InvertsLong(entry, k.min.value);
    } else {
      InvertsShort(entry, k.max.value);
      InvertsShort(entry, k.min.value);
    }
  }

  /** If prices have been on both sides of the entry the backfilled range contains it; where there is nothing to
      tell the range from it is the entry itself. */
  lemma BackfillSurroundsEntry(d: Option<Direction>, entry: real, drawdown: Option<real>, favorable: Option<real>)
    requires entry > 0.0
    requires (drawdown.Some? ==> drawdown.value <= 0.0) && (favorable.Some? ==> favorable.value >= 0.0)
    ensures var lo := BackfilledLowest(d, entry, drawdown, favorable);
            var hi := BackfilledHighest(d, entry, drawdown, favorable);
      && lo <= entry <= hi
      && ((drawdown.None? && favorable.None?) || (d != Some(Long) && d != Some(Short)) ==> lo == entry == hi)
  {
    if drawdown.Some? { Scaled(entry, drawdown.value); }
    if favorable.Some? { Scaled(entry, favorable.value); }
  }

  lemma Scaled(entry: real, pct: real)
    requires entry > 0.0
    ensures pct <= 0.0 ==> Above(entry, pct) <= entry <= Below(entry, pct)
    ensures pct >= 0.0 ==> Below(entry, pct) <= entry <= Above(entry, pct)
  {
    assert entry * (1.0 + pct / 100.0) == entry + entry * (pct / 100.0);
    assert entry * (1.0 - pct / 100.0) == entry - entry * (pct / 100.0);
    if pct <= 0.0 { assert entry * (pct / 100.0) <= 0.0; } else { assert entry * (pct / 100.0) >= 0.0; }
  }

  /** Without the rounding the backfill is the exact inverse. */
  lemma {:induction false} BackfillInvertsExactly(d: Direction, entry: real, highest: real, lowest: real)
    requires entry > 0.0 && (d == Long || d == Short)
    ensures var dd := Some(PnlExact(d, entry, if d == Long then lowest else highest));
            var mf := Some(PnlExact(d, entry, if d == Long then highest else lowest));
      && BackfilledHighest(Some(d), entry, dd, mf) == highest
      && BackfilledLowest(Some(d), entry, dd, mf) == lowest
  {
    if d == Long {
      InvertsLong(entry, highest);
      InvertsLong(entry, lowest);
    } else {
      InvertsShort(entry, highest);
      InvertsShort(entry, lowest);
    }
  }

  /** Lifted to runs: in every run that keeps the extreme keys, the backfill of any row of a long or short scenario that
      has entered, open or closed, reproduces its stored extremes. */
  lemma {:induction false} StoredRowBackfills(steps: seq<Step>, x: int)
    requires Legal(EMPTY, steps) && Steady(EMPTY, steps, x) && SaneFeed(steps) && x in Exec(EMPTY, steps).slices
    requires var s := Exec(EMPTY, steps).slices[x];
      && PositivePrices(s.sc) && (s.sc.direction == Some(Long) || s.sc.direction == Some(Short))
      && s.row.Some? && s.row.value.entryPrice.Some?
    ensures var s := Exec(EMPTY, steps).slices[x]; var r := s.row.value; var e := r.entryPrice.value;
      && r.highest.Some? && r.lowest.Some?
      && Within(BackfilledHighest(s.sc.direction, e, r.drawdown, r.maxFavorable), r.highest.value, e * 0.0000005)
      && Within(BackfilledLowest(s.sc.direction, e, r.drawdown, r.maxFavorable), r.lowest.value, e * 0.0000005)
  {
    RunCovered(steps, x);
    var s := Exec(EMPTY, steps).slices[x];
    var k := NO_KEYS.(max := s.row.value.highest, min := s.row.value.lowest);
    BackfillInverts(s.sc.Dir(), s.row.value.entryPrice.value, k);
  }
}
