/** The numeric core of the scenario normaliser: targets, stop, direction, geometry and order. */
module Normaliser {
  import opened Prelude
  import opened Domain

  /** An element of the raw targets list; price is None when it is not a number. */
  datatype RawTarget = RawTarget(price: Option<real>, caption: Option<string>)

  datatype Target = Target(price: real, caption: Option<string>)

  datatype Normalized = Normalized(
    direction: Option<Direction>,
    takeProfits: seq<Target>,
    stopLoss: Option<real>,
    corrected: bool)

  // ----- reading the raw fields ---------------------------------------------------------

  function PositiveTargets(raw: seq<RawTarget>): (ts: seq<Target>)
    ensures forall t :: t in ts ==> t.price > 0.0
  {
    if raw == [] then []
    else
      var front := PositiveTargets(raw[..|raw| - 1]);
      var r := raw[|raw| - 1];
      if r.price.Some? && r.price.value > 0.0
      then front + [Target(r.price.value, if r.caption == Some("") then None else r.caption)]
      else front
  }

  function PositiveStop(sl: Option<real>): Option<real> {
    if sl.Some? && sl.value <= 0.0 then None else sl
  }

  /** direction or action, already stripped and lower-cased. */
  function ReadDirection(word: string): Option<Direction> {
    if word == "long" || word == "up" || word == "buy" then Some(Long)
    else if word == "short" || word == "down" || word == "sell" then Some(Short)
    else if word == "neutral" then Some(Neutral)
    else None
  }

  function DirectionWord(d: Option<Direction>): string {
    match d
    case Some(Long) => "long"
    case Some(Short) => "short"
    case Some(Neutral) => "neutral"
    case None => ""
  }

  // ----- direction from geometry ------------------------------------------------------------

  function Sum(ts: seq<Target>): real {
    if ts == [] then 0.0 else Sum(ts[..|ts| - 1]) + ts[|ts| - 1].price
  }

  function Average(ts: seq<Target>): real
    requires ts != []
  {
    Sum(ts) / |ts| as real
  }

  function StopVotes(e: Option<real>, sl: Option<real>): (int, int) {
    if Truthy(sl) && Truthy(e) then
      (if sl.value < e.value then 2 else 0, if sl.value > e.value then 2 else 0)
    else (0, 0)
  }

  function TargetVotes(e: Option<real>, ts: seq<Target>): (int, int) {
    if ts != [] && Truthy(e) then
      (if Average(ts) > e.value then 1 else 0, if Average(ts) < e.value then 1 else 0)
    else (0, 0)
  }

  function Infer(e: Option<real>, ts: seq<Target>, sl: Option<real>): Option<Direction> {
    var a, b := StopVotes(e, sl), TargetVotes(e, ts);
    if a.0 + b.0 > a.1 + b.1 then Some(Long) else if a.1 + b.1 > a.0 + b.0 then Some(Short) else None
  }

  // ----- geometry and order -----------------------------------------------------------------

  /** p lies strictly on the profitable side of the entry. */
  predicate Profitable(d: Direction, e: real, p: real) {
    (d == Long && p > e) || (d == Short && p < e) || d == Neutral
  }

  function Keep(d: Direction, e: real, ts: seq<Target>): (kept: seq<Target>)
    ensures |kept| <= |ts|
  {
    if ts == [] then []
    else
      var front := Keep(d, e, ts[..|ts| - 1]);
      if Profitable(d, e, ts[|ts| - 1].price) then front + [ts[|ts| - 1]] else front
  }

  /** The stop is on the side where it would never stop a loss. */
  predicate Inverted(d: Direction, e: real, sl: Option<real>) {
    sl.Some? && ((d == Long && sl.value >= e) || (d == Short && sl.value <= e))
  }

  predicate InOrder(d: Option<Direction>, p: real, q: real) {
    match d
    case Some(Long) => p <= q
    case Some(Short) => p >= q
    case _ => true
  }

  ghost predicate Sorted(d: Option<Direction>, ts: seq<Target>) {
    forall i, j :: 0 <= i < j < |ts| ==> InOrder(d, ts[i].price, ts[j].price)
  }

  predicate Directed(d: Option<Direction>) {
    d == Some(Long) || d == Some(Short)
  }

  /** Insert t after every element that may stay before it. */
  function Insert(d: Option<Direction>, ts: seq<Target>, t: Target): seq<Target> {
    if ts == [] || InOrder(d, ts[|ts| - 1].price, t.price) then ts + [t]
    else Insert(d, ts[..|ts| - 1], t) + [ts[|ts| - 1]]
  }

  /** The stable sort: ascending for long, descending for short, untouched otherwise. */
  function Sort(d: Option<Direction>, ts: seq<Target>): seq<Target> {
    if ts == [] || !Directed(d) then ts else Insert(d, Sort(d, ts[..|ts| - 1]), ts[|ts| - 1])
  }

  function NormalizeSpec(e: Option<real>, raw: seq<RawTarget>, rawStop: Option<real>, word: string): Normalized {
    var ts, sl, given := PositiveTargets(raw), PositiveStop(rawStop), ReadDirection(word);
    var d := if given.Some? then given else Infer(e, ts, sl);
    var inferred := given.None? && d.Some?;
    if d.Some? && Truthy(e) then
      var kept := Keep(d.value, e.value, ts);
      var bad := Inverted(d.value, e.value, sl);
      Normalized(d, Sort(d, kept), if bad then None else sl, inferred || |kept| != |ts| || bad)
    else Normalized(d, Sort(d, ts), sl, inferred)
  }

  // ----- the code ------------------------------------------------------------------------------

  method InferDirection(e: Option<real>, ts: seq<Target>, sl: Option<real>) returns (d: Option<Direction>)
    ensures d == Infer(e, ts, sl)
  {
    var long, short := 0, 0;
    if Truthy(sl) && Truthy(e) {
      if sl.value < e.value {
        long := long + 2;
      } else if sl.value > e.value {
        short := short + 2;
      }
    }
    if ts != [] && Truthy(e) {
      var total := 0.0;
      for i := 0 to |ts|
        invariant total == Sum(ts[..i])
      {
        total := total + ts[i].price;
        assert ts[..i + 1][..i] == ts[..i];
      }
      assert ts[..|ts|] == ts;
      var average := total / |ts| as real;
      if average > e.value {
        long := long + 1;
      } else if average < e.value {
        short := short + 1;
      }
    }
    if long > short {
      return Some(Long);
    }
    if short > long {
      return Some(Short);
    }
    return None;
  }

  method FixGeometry(e: real, ts: seq<Target>, sl: Option<real>, d: Direction, corrected: bool)
    returns (ts': seq<Target>, sl': Option<real>, corrected': bool)
    ensures ts' == Keep(d, e, ts)
    ensures sl' == if Inverted(d, e, sl) then None else sl
    ensures corrected' <==> corrected || |ts'| != |ts| || Inverted(d, e, sl)
  {
    ts', sl', corrected' := ts, sl, corrected;
    var filtered: seq<Target> := [];
    for i := 0 to |ts|
      invariant filtered == Keep(d, e, ts[..i])
    {
      assert ts[..i + 1][..i] == ts[..i];
      if Profitable(d, e, ts[i].price) {
        filtered := filtered + [ts[i]];
      }
    }
    assert ts[..|ts|] == ts;
    if |filtered| != |ts| {
      ts' := filtered;
      corrected' := true;
    } else {
      KeepAll(d, e, ts);
    }
    if Inverted(d, e, sl) {
      sl' := None;
      corrected' := true;
    }
  }

  method NormalizeScenario(e: Option<real>, raw: seq<RawTarget>, rawStop: Option<real>, word: string)
    returns (out: Normalized)
    ensures out == NormalizeSpec(e, raw, rawStop, word)
    ensures word in LONG_WORDS && GivenFor(Long, e, raw, rawStop) ==> KeepsAll(Long, out, raw, rawStop)
    ensures word in SHORT_WORDS && GivenFor(Short, e, raw, rawStop) ==> KeepsAll(Short, out, raw, rawStop)
  {
    GivenDirection(e, raw, rawStop);
    var ts: seq<Target> := [];
    for i := 0 to |raw|
      invariant ts == PositiveTargets(raw[..i])
    {
      assert raw[..i + 1][..i] == raw[..i];
      var r := raw[i];
      if r.price.Some? && r.price.value > 0.0 {
        ts := ts + [Target(r.price.value, if r.caption == Some("") then None else r.caption)];
      }
    }
    assert raw[..|raw|] == raw;
    var sl := rawStop;
    if sl.Some? && sl.value <= 0.0 {
      sl := None;
    }
    var d, corrected := ReadDirection(word), false;
    if d.None? {
      d := InferDirection(e, ts, sl);
      if d.Some? {
        corrected := true;
      }
    }
    if d.Some? && Truthy(e) {
      ts, sl, corrected := FixGeometry(e.value, ts, sl, d.value, corrected);
    }
    out := Normalized(d, Sort(d, ts), sl, corrected);
  }

  // ----- what it promises -------------------------------------------------------------------------

  lemma {:induction false} KeepAll(d: Direction, e: real, ts: seq<Target>)
    ensures |Keep(d, e, ts)| == |ts| ==> Keep(d, e, ts) == ts
    ensures (forall t :: t in ts ==> Profitable(d, e, t.price)) ==> Keep(d, e, ts) == ts
  {
    if ts != [] {
      var front := ts[..|ts| - 1];
      KeepAll(d, e, front);
      assert ts == front + [ts[|ts| - 1]];
      assert ts[|ts| - 1] in ts;
    }
  }

  lemma {:induction false} KeepExactly(d: Direction, e: real, ts: seq<Target>)
    ensures forall t :: multiset(Keep(d, e, ts))[t] == if Profitable(d, e, t.price) then multiset(ts)[t] else 0
  {
    if ts != [] {
      KeepExactly(d, e, ts[..|ts| - 1]);
      assert ts == ts[..|ts| - 1] + [ts[|ts| - 1]];
    }
  }

  lemma {:induction false} InsertElements(d: Option<Direction>, ts: seq<Target>, t: Target)
    ensures multiset(Insert(d, ts, t)) == multiset(ts) + multiset{t}
  {
    if !(ts == [] || InOrder(d, ts[|ts| - 1].price, t.price)) {
      InsertElements(d, ts[..|ts| - 1], t);
      assert ts == ts[..|ts| - 1] + [ts[|ts| - 1]];
    }
  }

  /** What may precede last still may after the insertion. */
  lemma InsertBounded(d: Option<Direction>, ts: seq<Target>, t: Target, last: Target)
    requires forall i :: 0 <= i < |ts| ==> InOrder(d, ts[i].price, last.price)
    requires InOrder(d, t.price, last.price)
    ensures forall i :: 0 <= i < |Insert(d, ts, t)| ==> InOrder(d, Insert(d, ts, t)[i].price, last.price)
  {
    InsertElements(d, ts, t);
    var ins := Insert(d, ts, t);
    forall i | 0 <= i < |ins| ensures InOrder(d, ins[i].price, last.price) {
      assert ins[i] in multiset(ins);
      assert ins[i] in ts || ins[i] == t;
    }
  }

  lemma {:induction false} InsertSorted(d: Option<Direction>, ts: seq<Target>, t: Target)
    requires Directed(d) && Sorted(d, ts)
    ensures Sorted(d, Insert(d, ts, t))
  {
    if ts != [] && !InOrder(d, ts[|ts| - 1].price, t.price) {
      InsertSorted(d, ts[..|ts| - 1], t);
      InsertBounded(d, ts[..|ts| - 1], t, ts[|ts| - 1]);
    }
  }

  lemma {:induction false} SortSorts(d: Option<Direction>, ts: seq<Target>)
    ensures Sorted(d, Sort(d, ts)) && multiset(Sort(d, ts)) == multiset(ts)
  {
    if ts != [] && Directed(d) {
      var front, t := ts[..|ts| - 1], ts[|ts| - 1];
      SortSorts(d, front);
      InsertSorted(d, Sort(d, front), t);
      InsertElements(d, Sort(d, front), t);
      assert ts == front + [t];
      assert multiset(ts) == multiset(front) + multiset{t};
      assert Sort(d, ts) == Insert(d, Sort(d, front), t);
    }
  }

  lemma {:induction false} SortKeepsSorted(d: Option<Direction>, ts: seq<Target>)
    requires Sorted(d, ts)
    ensures Sort(d, ts) == ts
  {
    if ts != [] && Directed(d) {
      SortKeepsSorted(d, ts[..|ts| - 1]);
      assert ts == ts[..|ts| - 1] + [ts[|ts| - 1]];
    }
  }

  lemma Distribute(e: real, m: real)
    ensures e * (m + 1.0) == e * m + e
  {
  }

  lemma {:induction false} SumAtMost(ts: seq<Target>, e: real)
    requires forall t :: t in ts ==> t.price <= e
    ensures Sum(ts) <= e * |ts| as real
  {
    if ts != [] {
      SumAtMost(ts[..|ts| - 1], e);
      Distribute(e, (|ts| - 1) as real);
      assert ts[|ts| - 1] in ts;
    }
  }

  lemma {:induction false} SumAtLeast(ts: seq<Target>, e: real)
    requires forall t :: t in ts ==> t.price >= e
    ensures Sum(ts) >= e * |ts| as real
  {
    if ts != [] {
      SumAtLeast(ts[..|ts| - 1], e);
      Distribute(e, (|ts| - 1) as real);
      assert ts[|ts| - 1] in ts;
    }
  }

  lemma QuotientBounds(s: real, e: real, n: real)
    requires n > 0.0
    ensures s <= e * n ==> s / n <= e
    ensures s >= e * n ==> s / n >= e
  {
    assert s / n * n == s;
  }

  /** Averaging: an average beyond e needs a price beyond e. */
  lemma AverageHasWitness(ts: seq<Target>, e: real)
    requires ts != []
    ensures Average(ts) > e ==> exists t :: t in ts && t.price > e
    ensures Average(ts) < e ==> exists t :: t in ts && t.price < e
  {
    QuotientBounds(Sum(ts), e, |ts| as real);
    if forall t :: t in ts ==> t.price <= e { SumAtMost(ts, e); }
    if forall t :: t in ts ==> t.price >= e { SumAtLeast(ts, e); }
  }

  /** Signed distances of the prices from m. */
  function Deviations(ts: seq<Target>, m: real): real {
    if ts == [] then 0.0 else (ts[0].price - m) + Deviations(ts[1..], m)
  }

  lemma {:induction false} DeviationsAppend(ts: seq<Target>, t: Target, m: real)
    ensures Deviations(ts + [t], m) == Deviations(ts, m) + (t.price - m)
    decreases |ts|
  {
    if ts == [] {
      assert ([] + [t])[1..] == [];
    } else {
      assert (ts + [t])[1..] == ts[1..] + [t];
      DeviationsAppend(ts[1..], t, m);
    }
  }

  lemma {:induction false} DeviationsAre(ts: seq<Target>, m: real)
    ensures Deviations(ts, m) == Sum(ts) - m * |ts| as real
  {
    if ts != [] {
      var front := ts[..|ts| - 1];
      DeviationsAre(front, m);
      DeviationsAppend(front, ts[|ts| - 1], m);
      assert ts == front + [ts[|ts| - 1]];
      Distribute(m, |front| as real);
    }
  }

  lemma QuotientIs(s: real, n: real, m: real)
    requires n > 0.0
    ensures s - m * n == 0.0 <==> m == s / n
  {
    QuotientBounds(s, m, n);
    assert s / n * n == s;
  }

  /** The average is the price from which the targets deviate by nothing in total, and the only one. */
  lemma AverageBalances(ts: seq<Target>, m: real)
    requires ts != []
    ensures Deviations(ts, m) == 0.0 <==> m == Average(ts)
  {
    DeviationsAre(ts, m);
    QuotientIs(Sum(ts), |ts| as real, m);
  }

  lemma {:induction false} KeepHas(d: Direction, e: real, ts: seq<Target>, t: Target)
    requires t in ts && Profitable(d, e, t.price)
    ensures t in Keep(d, e, ts)
  {
    KeepExactly(d, e, ts);
    assert multiset(Keep(d, e, ts))[t] == multiset(ts)[t] > 0;
  }

  /** Soundness: the targets are a sorted permutation of exactly the positive ones on the profitable
      side, a kept stop is positive and strictly on the other side, and it is dropped only if inverted. */
  lemma {:induction false} NormalisedGeometry(e: Option<real>, raw: seq<RawTarget>, rawStop: Option<real>, word: string)
    ensures var out := NormalizeSpec(e, raw, rawStop, word);
            var d, ts, sl := out.direction, PositiveTargets(raw), PositiveStop(rawStop);
      && Sorted(d, out.takeProfits)
      && (forall t :: multiset(out.takeProfits)[t] ==
            if d.Some? && Truthy(e) && !Profitable(d.value, e.value, t.price) then 0 else multiset(ts)[t])
      && (forall t :: t in out.takeProfits ==> t.price > 0.0)
      && out.stopLoss == (if d.Some? && Truthy(e) && Inverted(d.value, e.value, sl) then None else sl)
      && (out.stopLoss.Some? ==> out.stopLoss.value > 0.0)
  {
    var out := NormalizeSpec(e, raw, rawStop, word);
    var d, ts := out.direction, PositiveTargets(raw);
    if d.Some? && Truthy(e) {
      KeepExactly(d.value, e.value, ts);
      SortSorts(d, Keep(d.value, e.value, ts));
    } else {
      SortSorts(d, ts);
    }
    forall t | t in out.takeProfits ensures t.price > 0.0 {
      assert t in multiset(out.takeProfits);
      assert multiset(ts)[t] > 0;
    }
  }

  /** The votes in words: the stop decides alone unless it is missing or on the entry; then the
      average target does; nothing is inferred without an entry, or when that too is on the entry. */
  lemma InferenceRule(e: Option<real>, raw: seq<RawTarget>, rawStop: Option<real>)
    ensures var ts, sl := PositiveTargets(raw), PositiveStop(rawStop);
      Infer(e, ts, sl) ==
        if !Truthy(e) then None
        else if sl.Some? && sl.value != e.value then Some(if sl.value < e.value then Long else Short)
        else if ts == [] || Average(ts) == e.value then None
        else Some(if Average(ts) > e.value then Long else Short)
  {
  }

  /** An inferred direction costs nothing essential: a stop that differs from the entry is kept, and
      without one at least one target is kept. It always raises the correction flag. */
  lemma InferredKeepsEvidence(e: Option<real>, raw: seq<RawTarget>, rawStop: Option<real>, word: string)
    requires ReadDirection(word).None? && NormalizeSpec(e, raw, rawStop, word).direction.Some?
    ensures var out := NormalizeSpec(e, raw, rawStop, word); var sl := PositiveStop(rawStop);
      && out.corrected && Truthy(e)
      && (sl.Some? && sl.value != e.value ==> out.stopLoss == sl)
      && (sl.None? || sl.value == e.value ==> out.takeProfits != [])
  {
    var out := NormalizeSpec(e, raw, rawStop, word);
    var ts, sl := PositiveTargets(raw), PositiveStop(rawStop);
    if sl.None? || sl.value == e.value {
      AverageHasWitness(ts, e.value);
      var t :| t in ts && Profitable(out.direction.value, e.value, t.price);
      KeepHas(out.direction.value, e.value, ts, t);
      SortSorts(out.direction, Keep(out.direction.value, e.value, ts));
      assert t in multiset(out.takeProfits);
    }
  }

  /** The normalised targets written back as raw ones. */
  function AsRaw(ts: seq<Target>): (raw: seq<RawTarget>)
    ensures |raw| == |ts| && forall i :: 0 <= i < |ts| ==> raw[i] == RawTarget(Some(ts[i].price), ts[i].caption)
  {
    seq(|ts|, i requires 0 <= i < |ts| => RawTarget(Some(ts[i].price), ts[i].caption))
  }

  lemma {:induction false} ReadsBack(ts: seq<Target>, raw: seq<RawTarget>)
    requires forall t :: t in ts ==> t.price > 0.0 && t.caption != Some("")
    requires |raw| == |ts| && forall i :: 0 <= i < |ts| ==> raw[i] == RawTarget(Some(ts[i].price), ts[i].caption)
    ensures PositiveTargets(raw) == ts
  {
    if ts != [] {
      ReadsBack(ts[..|ts| - 1], raw[..|raw| - 1]);
      assert ts == ts[..|ts| - 1] + [ts[|ts| - 1]] && ts[|ts| - 1] in ts;
    }
  }

  lemma {:induction false} CaptionsNotEmpty(raw: seq<RawTarget>)
    ensures forall t :: t in PositiveTargets(raw) ==> t.caption != Some("")
  {
    if raw != [] { CaptionsNotEmpty(raw[..|raw| - 1]); }
  }

  lemma WordsRoundTrip(d: Option<Direction>)
    ensures ReadDirection(DirectionWord(d)) == d
  {
  }

  /** Every kept target is an original one, and profitable where geometry applies. */
  lemma KeptTargets(e: Option<real>, raw: seq<RawTarget>, rawStop: Option<real>, word: string)
    ensures var out := NormalizeSpec(e, raw, rawStop, word);
      forall t :: t in out.takeProfits ==>
        && t.price > 0.0 && t.caption != Some("")
        && (out.direction.Some? && Truthy(e) ==> Profitable(out.direction.value, e.value, t.price))
  {
    var out := NormalizeSpec(e, raw, rawStop, word);
    NormalisedGeometry(e, raw, rawStop, word);
    CaptionsNotEmpty(raw);
    forall t | t in out.takeProfits ensures t in PositiveTargets(raw) {
      assert multiset(out.takeProfits)[t] > 0;
      assert multiset(PositiveTargets(raw))[t] > 0;
    }
    forall t | t in out.takeProfits && out.direction.Some? && Truthy(e)
      ensures Profitable(out.direction.value, e.value, t.price)
    {
      assert multiset(out.takeProfits)[t] > 0;
    }
  }

  /** A second pass over settled fields. */
  lemma SettledPass(e: Option<real>, out: Normalized)
    requires PositiveTargets(AsRaw(out.takeProfits)) == out.takeProfits && Sorted(out.direction, out.takeProfits)
    requires out.stopLoss.Some? ==> out.stopLoss.value > 0.0
    requires out.direction.Some? && Truthy(e) ==> Keep(out.direction.value, e.value, out.takeProfits) == out.takeProfits
    requires out.direction.Some? && Truthy(e) ==> !Inverted(out.direction.value, e.value, out.stopLoss)
    requires out.direction.None? ==> Infer(e, out.takeProfits, out.stopLoss).None?
    ensures NormalizeSpec(e, AsRaw(out.takeProfits), out.stopLoss, DirectionWord(out.direction)) ==
            out.(corrected := false)
  {
    WordsRoundTrip(out.direction);
    SortKeepsSorted(out.direction, out.takeProfits);
  }

  lemma UndecidedStays(e: Option<real>, raw: seq<RawTarget>, rawStop: Option<real>, word: string)
    ensures var out := NormalizeSpec(e, raw, rawStop, word);
      out.direction.None? ==> Infer(e, out.takeProfits, out.stopLoss).None?
  {
  }

  /** Idempotence: a second pass over a normalised scenario changes nothing and corrects nothing. */
  lemma SecondPassIsIdentity(e: Option<real>, raw: seq<RawTarget>, rawStop: Option<real>, word: string)
    ensures var out := NormalizeSpec(e, raw, rawStop, word);
      NormalizeSpec(e, AsRaw(out.takeProfits), out.stopLoss, DirectionWord(out.direction)) == out.(corrected := false)
  {
    var out := NormalizeSpec(e, raw, rawStop, word);
    NormalisedGeometry(e, raw, rawStop, word);
    KeptTargets(e, raw, rawStop, word);
    ReadsBack(out.takeProfits, AsRaw(out.takeProfits));
    if out.direction.Some? && Truthy(e) { KeepAll(out.direction.value, e.value, out.takeProfits); }
    UndecidedStays(e, raw, rawStop, word);
    SettledPass(e, out);
  }

  function AtPrice(ts: seq<Target>, p: real): seq<Target> {
    if ts == [] then []
    else
      var front := AtPrice(ts[..|ts| - 1], p);
      if ts[|ts| - 1].price == p then front + [ts[|ts| - 1]] else front
  }

  lemma AtPriceAppend(ts: seq<Target>, t: Target, p: real)
    ensures AtPrice(ts + [t], p) == AtPrice(ts, p) + if t.price == p then [t] else []
  {
    assert (ts + [t])[..|ts|] == ts;
  }

  lemma {:induction false} InsertStable(d: Option<Direction>, ts: seq<Target>, t: Target, p: real)
    requires Directed(d)
    ensures AtPrice(Insert(d, ts, t), p) == AtPrice(ts, p) + if t.price == p then [t] else []
  {
    if ts == [] || InOrder(d, ts[|ts| - 1].price, t.price) {
      AtPriceAppend(ts, t, p);
    } else {
      InsertStable(d, ts[..|ts| - 1], t, p);
      AtPriceAppend(Insert(d, ts[..|ts| - 1], t), ts[|ts| - 1], p);
    }
  }

  /** Targets at the same price keep their order, so the sorted list is fully determined. */
  lemma {:induction false} SortStable(d: Option<Direction>, ts: seq<Target>, p: real)
    ensures AtPrice(Sort(d, ts), p) == AtPrice(ts, p)
  {
    if ts != [] && Directed(d) {
      SortStable(d, ts[..|ts| - 1], p);
      InsertStable(d, Sort(d, ts[..|ts| - 1]), ts[|ts| - 1], p);
    }
  }

  /** The correction flag is raised exactly when the direction was inferred, a positive target lay on
      the wrong side of the entry, or the stop was inverted. */
  lemma {:induction false} CorrectionFlag(e: Option<real>, raw: seq<RawTarget>, rawStop: Option<real>, word: string)
    ensures var out := NormalizeSpec(e, raw, rawStop, word);
            var d, ts, sl := out.direction, PositiveTargets(raw), PositiveStop(rawStop);
      out.corrected <==>
        (ReadDirection(word).None? && d.Some?) ||
        (d.Some? && Truthy(e) &&
          ((exists t :: t in ts && !Profitable(d.value, e.value, t.price)) || Inverted(d.value, e.value, sl)))
  {
    var out := NormalizeSpec(e, raw, rawStop, word);
    var ts := PositiveTargets(raw);
    if out.direction.Some? && Truthy(e) {
      KeepAll(out.direction.value, e.value, ts);
      KeepExactly(out.direction.value, e.value, ts);
      forall t | t in ts && !Profitable(out.direction.value, e.value, t.price)
        ensures Keep(out.direction.value, e.value, ts) != ts
      {
        assert multiset(ts)[t] > 0;
      }
    }
  }

  // ----- the words ---------------------------------------------------------------------------------

  const LONG_WORDS := {"long", "up", "buy"}
  const SHORT_WORDS := {"short", "down", "sell"}

  lemma WordClasses(word: string)
    ensures ReadDirection(word) ==
      if word in LONG_WORDS then Some(Long) else if word in SHORT_WORDS then Some(Short)
      else if word == "neutral" then Some(Neutral) else None
    ensures word in LONG_WORDS ==> word !in SHORT_WORDS && word != "neutral"
    ensures word in SHORT_WORDS ==> word != "neutral"
    ensures "" !in LONG_WORDS && "" !in SHORT_WORDS && "" != "neutral"
  {
  }

  /** The word matters only through the direction it names. */
  lemma SameReading(e: Option<real>, raw: seq<RawTarget>, rawStop: Option<real>, one: string, other: string)
    requires ReadDirection(one) == ReadDirection(other)
    ensures NormalizeSpec(e, raw, rawStop, one) == NormalizeSpec(e, raw, rawStop, other)
  {
  }

  /** Synonyms are treated alike, whatever the other fields say, and a word that is none of the seven like a
      missing one. */
  lemma WordsMatter(e: Option<real>, raw: seq<RawTarget>, rawStop: Option<real>, word: string)
    ensures word in LONG_WORDS ==> NormalizeSpec(e, raw, rawStop, word) == NormalizeSpec(e, raw, rawStop, "long")
    ensures word in SHORT_WORDS ==> NormalizeSpec(e, raw, rawStop, word) == NormalizeSpec(e, raw, rawStop, "short")
    ensures word !in LONG_WORDS + SHORT_WORDS + {"neutral"} ==>
      NormalizeSpec(e, raw, rawStop, word) == NormalizeSpec(e, raw, rawStop, "")
  {
    WordClasses(word);
    WordClasses("long");
    WordClasses("short");
    WordClasses("");
    if word in LONG_WORDS { SameReading(e, raw, rawStop, word, "long"); }
    if word in SHORT_WORDS { SameReading(e, raw, rawStop, word, "short"); }
    if word !in LONG_WORDS + SHORT_WORDS + {"neutral"} { SameReading(e, raw, rawStop, word, ""); }
  }

  lemma {:induction false} TargetsFromRaw(raw: seq<RawTarget>)
    ensures forall t :: t in PositiveTargets(raw) ==> exists r :: r in raw && r.price == Some(t.price)
  {
    if raw != [] {
      var front := raw[..|raw| - 1];
      TargetsFromRaw(front);
      assert raw == front + [raw[|raw| - 1]];
      forall t | t in PositiveTargets(front) ensures exists r :: r in raw && r.price == Some(t.price) {
        var r :| r in front && r.price == Some(t.price);
        assert r in raw;
      }
      assert raw[|raw| - 1] in raw;
    }
  }

  /** How many raw entries carry the price p. */
  function PricedAt(raw: seq<RawTarget>, p: real): nat {
    if raw == [] then 0
    else PricedAt(raw[..|raw| - 1], p) + if raw[|raw| - 1].price == Some(p) then 1 else 0
  }

  lemma {:induction false} CountAtPrice(raw: seq<RawTarget>, p: real)
    ensures |AtPrice(PositiveTargets(raw), p)| == if p > 0.0 then PricedAt(raw, p) else 0
  {
    if raw != [] {
      var front, r := raw[..|raw| - 1], raw[|raw| - 1];
      CountAtPrice(front, p);
      if r.price.Some? && r.price.value > 0.0 {
        var t := Target(r.price.value, if r.caption == Some("") then None else r.caption);
        AtPriceAppend(PositiveTargets(front), t, p);
      }
    }
  }

  /** All levels given lie where a long, or a short, wants them. */
  predicate GivenFor(d: Direction, e: Option<real>, raw: seq<RawTarget>, rawStop: Option<real>) {
    Truthy(e) ==>
      && (forall r :: r in raw && r.price.Some? && r.price.value > 0.0 ==>
            if d == Long then r.price.value > e.value else r.price.value < e.value)
      && (rawStop.Some? && rawStop.value > 0.0 ==>
            if d == Long then rawStop.value < e.value else rawStop.value > e.value)
  }

  /** Everything given is kept: as many targets at every positive price as there were, in order, and the stop. */
  ghost predicate KeepsAll(d: Direction, out: Normalized, raw: seq<RawTarget>, rawStop: Option<real>) {
    && out.direction == Some(d) && !out.corrected
    && (forall p :: |AtPrice(out.takeProfits, p)| == if p > 0.0 then PricedAt(raw, p) else 0)
    && (forall i, j :: 0 <= i < j < |out.takeProfits| ==>
          if d == Long then out.takeProfits[i].price <= out.takeProfits[j].price
          else out.takeProfits[i].price >= out.takeProfits[j].price)
    && out.stopLoss == (if rawStop.Some? && rawStop.value > 0.0 then rawStop else None)
  }

  lemma GivenIsKept(d: Direction, e: Option<real>, raw: seq<RawTarget>, rawStop: Option<real>, word: string)
    requires (d == Long && word in LONG_WORDS) || (d == Short && word in SHORT_WORDS)
    requires GivenFor(d, e, raw, rawStop)
    ensures KeepsAll(d, NormalizeSpec(e, raw, rawStop, word), raw, rawStop)
  {
    var out, ts := NormalizeSpec(e, raw, rawStop, word), PositiveTargets(raw);
    WordClasses(word);
    TargetsFromRaw(raw);
    if Truthy(e) {
      forall t | t in ts ensures Profitable(d, e.value, t.price) {
        var r :| r in raw && r.price == Some(t.price);
      }
      KeepAll(d, e.value, ts);
    }
    assert out.takeProfits == Sort(Some(d), ts);
    SortSorts(Some(d), ts);
    forall p ensures |AtPrice(out.takeProfits, p)| == if p > 0.0 then PricedAt(raw, p) else 0 {
      SortStable(Some(d), ts, p);
      CountAtPrice(raw, p);
    }
  }

  /** A neutral scenario has no sides: every positive target is kept, in the order given, and every positive stop. */
  lemma NeutralIsKept(e: Option<real>, raw: seq<RawTarget>, rawStop: Option<real>)
    ensures var out := NormalizeSpec(e, raw, rawStop, "neutral");
      && out.direction == Some(Neutral) && !out.corrected && out.takeProfits == PositiveTargets(raw)
      && (forall p :: |AtPrice(out.takeProfits, p)| == if p > 0.0 then PricedAt(raw, p) else 0)
      && out.stopLoss == (if rawStop.Some? && rawStop.value > 0.0 then rawStop else None)
  {
    WordClasses("neutral");
    if Truthy(e) { KeepAll(Neutral, e.value, PositiveTargets(raw)); }
    forall p ensures |AtPrice(PositiveTargets(raw), p)| == if p > 0.0 then PricedAt(raw, p) else 0 {
      CountAtPrice(raw, p);
    }
  }

  /** Main result: a scenario given with any of the long words, positive targets above the entry and a stop below
      it is stored as a long, a scenario given with any of the short words and the levels the other way round as
      a short; nothing is dropped and no correction is flagged. */
  lemma GivenDirection(e: Option<real>, raw: seq<RawTarget>, rawStop: Option<real>)
    ensures GivenFor(Long, e, raw, rawStop) ==> forall word :: word in LONG_WORDS ==>
      KeepsAll(Long, NormalizeSpec(e, raw, rawStop, word), raw, rawStop)
    ensures GivenFor(Short, e, raw, rawStop) ==> forall word :: word in SHORT_WORDS ==>
      KeepsAll(Short, NormalizeSpec(e, raw, rawStop, word), raw, rawStop)
  {
    forall word | word in LONG_WORDS && GivenFor(Long, e, raw, rawStop)
      ensures KeepsAll(Long, NormalizeSpec(e, raw, rawStop, word), raw, rawStop)
    {
      GivenIsKept(Long, e, raw, rawStop, word);
    }
    forall word | word in SHORT_WORDS && GivenFor(Short, e, raw, rawStop)
      ensures KeepsAll(Short, NormalizeSpec(e, raw, rawStop, word), raw, rawStop)
    {
      GivenIsKept(Short, e, raw, rawStop, word);
    }
  }
}
