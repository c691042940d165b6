/** The statements of the batch, each run over its list of parameters as the driver does. */
module Tables {
  import opened Prelude
  import opened Domain
  import opened Machine

  datatype ScenarioRow = ScenarioRow(sc: Scenario, status: Status, active: bool)

  // ----- what a list of parameters does to one row --------------------------------

  function UpsertAll(o: Option<Row>, rs: seq<Row>): Option<Row> {
    if rs == [] then o else Some(Upsert(UpsertAll(o, rs[..|rs| - 1]), rs[|rs| - 1]))
  }

  function InsertAll(ps: seq<PricePoint>, qs: seq<PricePoint>): seq<PricePoint> {
    if qs == [] then ps else InsertPoint(InsertAll(ps, qs[..|qs| - 1]), qs[|qs| - 1])
  }

  /** The result row after the cycle's upserts and, for a cancelled sibling, the cancel row. */
  function ResultAfter(o: Option<Row>, rs: seq<Row>, cancelled: bool, now: int): Option<Row> {
    var r := UpsertAll(o, rs);
    if cancelled then Some(Upsert(r, CancelledRow(now))) else r
  }

  function CancelTail(cancelled: bool, now: int): seq<Event> {
    if cancelled then [Event(SiblingCancelled, None, now)] else []
  }

  lemma Singletons(o: Option<Row>, r: Row, ps: seq<PricePoint>, q: PricePoint)
    ensures UpsertAll(o, [r]) == Some(Upsert(o, r))
    ensures InsertAll(ps, [q]) == InsertPoint(ps, q)
  {
    assert [r][..0] == [] && [q][..0] == [];
  }

  function CloseAll(r: ScenarioRow, sts: seq<Status>): ScenarioRow {
    if sts == [] then r
    else
      var r1 := CloseAll(r, sts[..|sts| - 1]);
      if r1.status == Running then r1.(status := sts[|sts| - 1], active := false) else r1
  }

  lemma CloseOne(r: ScenarioRow, st: Status)
    ensures CloseAll(r, [st]) == if r.status == Running then r.(status := st, active := false) else r
  {
    assert [st][..0] == [];
    assert CloseAll(r, [st][..0]) == r;
  }

  function Last(acts: seq<int>, s: Signal): Signal {
    if acts == [] then s else Signal(true, Some(acts[|acts| - 1]))
  }

  /** Each named scenario clears the signal if the signal points at it. */
  function ClearAll(s: Signal, closed: seq<int>): Signal {
    if s.activeScenario.Some? && s.activeScenario.value in closed then s.(active := false) else s
  }

  // ----- the statements -------------------------------------------------------------

  method ExecuteUpserts(results: map<int, Row>, rows: seq<(int, Row)>) returns (out: map<int, Row>)
    ensures forall x :: Get(out, x) == UpsertAll(Get(results, x), For(rows, x))
  {
    out := results;
    for i := 0 to |rows|
      invariant forall x :: Get(out, x) == UpsertAll(Get(results, x), For(rows[..i], x))
    {
      out := out[rows[i].0 := Upsert(Get(out, rows[i].0), rows[i].1)];
      assert rows[..i + 1][..i] == rows[..i];
    }
    assert rows[..|rows|] == rows;
  }

  method ExecutePoints(points: seq<(int, PricePoint)>,
                       added: seq<(int, PricePoint)>) returns (out: seq<(int, PricePoint)>)
    ensures forall x :: For(out, x) == InsertAll(For(points, x), For(added, x))
  {
    out := points;
    for i := 0 to |added|
      invariant forall x :: For(out, x) == InsertAll(For(points, x), For(added[..i], x))
    {
      var x, p := added[i].0, added[i].1;
      ghost var before := out;
      if !(exists q :: q in For(out, x) && q.at == p.at) {
        out := out + [(x, p)];
      }
      forall y ensures For(out, y) == if y == x then InsertPoint(For(before, y), p) else For(before, y) {
        ForAppend(before, (x, p), y);
      }
      assert added[..i + 1][..i] == added[..i];
    }
    assert added[..|added|] == added;
  }

  /** Mark the listed scenarios as entered, as far as they are still running. */
  method ExecuteActivations(scenarios: map<int, ScenarioRow>, ids: seq<int>) returns (out: map<int, ScenarioRow>)
    ensures out.Keys == scenarios.Keys
    ensures forall x :: x in out ==>
      out[x] == if x in ids && scenarios[x].status == Running then scenarios[x].(active := true) else scenarios[x]
  {
    out := scenarios;
    for i := 0 to |ids|
      invariant out.Keys == scenarios.Keys
      invariant forall x :: x in out ==>
        out[x] == if x in ids[..i] && scenarios[x].status == Running
                  then scenarios[x].(active := true) else scenarios[x]
    {
      if ids[i] in out && out[ids[i]].status == Running {
        out := out[ids[i] := out[ids[i]].(active := true)];
      }
    }
  }

  /** Close scenarios with the listed statuses; one that is already closed keeps its first status. */
  method ExecuteTerminals(scenarios: map<int, ScenarioRow>,
                          changes: seq<(int, Status)>) returns (out: map<int, ScenarioRow>)
    ensures out.Keys == scenarios.Keys
    ensures forall x :: x in out ==> out[x] == CloseAll(scenarios[x], For(changes, x))
  {
    out := scenarios;
    for i := 0 to |changes|
      invariant out.Keys == scenarios.Keys
      invariant forall x :: x in out ==> out[x] == CloseAll(scenarios[x], For(changes[..i], x))
    {
      var x := changes[i].0;
      if x in out && out[x].status == Running {
        out := out[x := out[x].(status := changes[i].1, active := false)];
      }
      assert changes[..i + 1][..i] == changes[..i];
    }
    assert changes[..|changes|] == changes;
  }

  /** Cancel the listed scenarios that nobody has entered or closed. */
  method ExecuteCancels(scenarios: map<int, ScenarioRow>, ids: seq<int>) returns (out: map<int, ScenarioRow>)
    ensures out.Keys == scenarios.Keys
    ensures forall x :: x in out ==>
      out[x] == if x in ids && scenarios[x].status == Running && !scenarios[x].active
                then scenarios[x].(status := Cancelled, active := false) else scenarios[x]
  {
    out := scenarios;
    for i := 0 to |ids|
      invariant out.Keys == scenarios.Keys
      invariant forall x :: x in out ==>
        out[x] == if x in ids[..i] && scenarios[x].status == Running && !scenarios[x].active
                  then scenarios[x].(status := Cancelled, active := false) else scenarios[x]
    {
      if ids[i] in out && out[ids[i]].status == Running && !out[ids[i]].active {
        out := out[ids[i] := out[ids[i]].(status := Cancelled, active := false)];
      }
    }
  }

  /** Make each listed signal active and let it name the scenario listed with it. */
  method ExecuteSignalActivations(signals: map<int, Signal>, acts: seq<(int, int)>) returns (out: map<int, Signal>)
    ensures out.Keys == signals.Keys
    ensures forall g :: g in out ==> out[g] == Last(For(acts, g), signals[g])
  {
    out := signals;
    for i := 0 to |acts|
      invariant out.Keys == signals.Keys
      invariant forall g :: g in out ==> out[g] == Last(For(acts[..i], g), signals[g])
    {
      if acts[i].0 in out {
        out := out[acts[i].0 := Signal(true, Some(acts[i].1))];
      }
      assert acts[..i + 1][..i] == acts[..i];
    }
    assert acts[..|acts|] == acts;
  }

  /** Deactivate a listed signal, but only if the scenario listed with it is the one it names. */
  method ExecuteSignalTerminals(signals: map<int, Signal>, closed: seq<(int, int)>) returns (out: map<int, Signal>)
    ensures out.Keys == signals.Keys
    ensures forall g :: g in out ==> out[g] == ClearAll(signals[g], For(closed, g))
  {
    out := signals;
    for i := 0 to |closed|
      invariant out.Keys == signals.Keys
      invariant forall g :: g in out ==> out[g] == ClearAll(signals[g], For(closed[..i], g))
    {
      var g, x := closed[i].0, closed[i].1;
      if g in out && out[g].activeScenario == Some(x) {
        out := out[g := out[g].(active := false)];
      }
      assert closed[..i + 1][..i] == closed[..i];
    }
    assert closed[..|closed|] == closed;
  }

  // ----- parameter lists -----------------------------------------------------------------

  /** Split the status changes into scenarios to activate and scenarios to close. */
  method SplitMarks(marks: seq<(int, Mark)>) returns (toActive: seq<int>, terminals: seq<(int, Status)>)
    ensures forall x :: x in toActive <==> Activated in For(marks, x)
    ensures forall x :: For(terminals, x) == Statuses(For(marks, x))
  {
    toActive, terminals := [], [];
    for i := 0 to |marks|
      invariant forall x :: x in toActive <==> Activated in For(marks[..i], x)
      invariant forall x :: For(terminals, x) == Statuses(For(marks[..i], x))
    {
      var x, m := marks[i].0, marks[i].1;
      ghost var before := terminals;
      if m == Activated {
        toActive := toActive + [x];
      } else {
        terminals := terminals + [(x, m.status)];
        forall y ensures For(terminals, y) == if y == x then For(before, y) + [m.status] else For(before, y) {
          ForAppend(before, (x, m.status), y);
        }
      }
      assert marks[..i + 1] == marks[..i] + [marks[i]];
      forall y ensures For(marks[..i + 1], y) == if y == x then For(marks[..i], y) + [m] else For(marks[..i], y) {
        ForAppend(marks[..i], marks[i], y);
      }
    }
    assert marks[..|marks|] == marks;
  }

  function Statuses(ms: seq<Mark>): seq<Status> {
    if ms == [] then []
    else
      var front := Statuses(ms[..|ms| - 1]);
      match ms[|ms| - 1]
      case Activated => front
      case Closed(st) => front + [st]
  }

  /** The result rows and the audit events of the cancelled siblings. */
  method CancelParameters(ids: seq<int>, now: int) returns (rows: seq<(int, Row)>, es: seq<(int, Event)>)
    requires Distinct(ids)
    ensures forall x :: For(rows, x) == if x in ids then [CancelledRow(now)] else []
    ensures forall x :: For(es, x) == CancelTail(x in ids, now)
  {
    rows, es := [], [];
    for i := 0 to |ids|
      invariant forall x :: For(rows, x) == if x in ids[..i] then [CancelledRow(now)] else []
      invariant forall x :: For(es, x) == if x in ids[..i] then [Event(SiblingCancelled, None, now)] else []
    {
      var r, e := (ids[i], CancelledRow(now)), (ids[i], Event(SiblingCancelled, None, now));
      forall x
        ensures For(rows + [r], x) == if x in ids[..i + 1] then [CancelledRow(now)] else []
        ensures For(es + [e], x) == if x in ids[..i + 1] then [Event(SiblingCancelled, None, now)] else []
      {
        ForAppend(rows, r, x);
        ForAppend(es, e, x);
      }
      rows, es := rows + [r], es + [e];
    }
  }

  // ----- the batch, table by table ----------------------------------------------------------

  method UpdateResults(results: map<int, Row>, rows: seq<(int, Row)>, cancelRows: seq<(int, Row)>,
                       ghost cancels: seq<int>, ghost now: int)
    returns (out: map<int, Row>)
    requires forall x :: For(cancelRows, x) == if x in cancels then [CancelledRow(now)] else []
    ensures forall x :: Get(out, x) == ResultAfter(Get(results, x), For(rows, x), x in cancels, now)
  {
    var upserted := ExecuteUpserts(results, rows);
    out := ExecuteUpserts(upserted, cancelRows);
    forall x ensures Get(out, x) == ResultAfter(Get(results, x), For(rows, x), x in cancels, now) {
      Singletons(Get(upserted, x), CancelledRow(now), [], PricePoint(0, 0.0, None));
    }
  }

  function MarkOf(ms: seq<Mark>): Option<Mark> {
    if ms == [] then None else Some(ms[0])
  }

  function ScenarioAfter(r: ScenarioRow, ms: seq<Mark>, cancelled: bool): ScenarioRow {
    var st := Marked(ScState(r.status, r.active), MarkOf(ms), cancelled);
    ScenarioRow(r.sc, st.status, st.active)
  }

  /** Enter, close, cancel; each scenario has at most one mark. */
  method UpdateScenarios(scenarios: map<int, ScenarioRow>, marks: seq<(int, Mark)>, cancels: seq<int>)
    returns (out: map<int, ScenarioRow>)
    requires forall x :: |For(marks, x)| <= 1
    ensures out.Keys == scenarios.Keys
    ensures forall x :: x in out ==> out[x] == ScenarioAfter(scenarios[x], For(marks, x), x in cancels)
  {
    var toActive, terminals := SplitMarks(marks);
    var entered := ExecuteActivations(scenarios, toActive);
    var closed := ExecuteTerminals(entered, terminals);
    out := ExecuteCancels(closed, cancels);
    forall x | x in out ensures out[x] == ScenarioAfter(scenarios[x], For(marks, x), x in cancels) {
      var ms := For(marks, x);
      if ms != [] {
        assert ms == [ms[0]];
        assert Statuses(ms) == if ms[0].Closed? then [ms[0].status] else [];
        if ms[0].Closed? {
          CloseOne(entered[x], ms[0].status);
        }
      }
    }
  }

  method AppendEvents(events: seq<(int, Event)>, added: seq<(int, Event)>, cancelEvents: seq<(int, Event)>,
                      ghost cancels: seq<int>, ghost now: int)
    returns (out: seq<(int, Event)>)
    requires forall x :: For(cancelEvents, x) == CancelTail(x in cancels, now)
    ensures forall x :: For(out, x) == For(events, x) + For(added, x) + CancelTail(x in cancels, now)
  {
    var all := added + cancelEvents;
    out := events + all;
    forall x ensures For(out, x) == For(events, x) + For(added, x) + CancelTail(x in cancels, now) {
      ForConcat(events, all, x);
      ForConcat(added, cancelEvents, x);
    }
  }

  /** The lists one cycle hands to the batch; acts and closed hold (signal, scenario) pairs. */
  datatype Batch = Batch(
    rows: seq<(int, Row)>,
    marks: seq<(int, Mark)>,
    events: seq<(int, Event)>,
    points: seq<(int, PricePoint)>,
    acts: seq<(int, int)>,
    closed: seq<(int, int)>)

  const NO_BATCH := Batch([], [], [], [], [], [])

  /** What the batch makes of signal g: the last activation, then the closings. */
  function SignalFrom(s: Signal, b: Batch, g: int): Signal {
    ClearAll(Last(For(b.acts, g), s), For(b.closed, g))
  }

  /** The lists hold, for every scenario, exactly what its observation asked for. */
  ghost predicate Matches(b: Batch, seen: map<int, Observation>) {
    forall x :: MatchesAt(b, seen, x)
  }

  ghost predicate MatchesAt(b: Batch, seen: map<int, Observation>, x: int) {
    && For(b.rows, x) == (if x in seen then ToSeq(seen[x].writes.row) else [])
    && For(b.marks, x) == (if x in seen then ToSeq(seen[x].writes.mark) else [])
    && For(b.points, x) == (if x in seen then ToSeq(seen[x].writes.point) else [])
    && For(b.events, x) == (if x in seen then seen[x].writes.events else [])
  }

  /** b' holds for y what b holds, then w if y is x. */
  ghost predicate Adds(b: Batch, b': Batch, x: int, w: Writes, y: int) {
    && For(b'.rows, y) == For(b.rows, y) + (if y == x then ToSeq(w.row) else [])
    && For(b'.marks, y) == For(b.marks, y) + (if y == x then ToSeq(w.mark) else [])
    && For(b'.points, y) == For(b.points, y) + (if y == x then ToSeq(w.point) else [])
    && For(b'.events, y) == For(b.events, y) + (if y == x then w.events else [])
  }

  lemma ForAppended<T>(rows: seq<(int, T)>, o: Option<T>, x: int, y: int)
    ensures For(rows + (if o.Some? then [(x, o.value)] else []), y) == For(rows, y) + (if y == x then ToSeq(o) else [])
  {
    if o.Some? { ForAppend(rows, (x, o.value), y); } else { assert rows + [] == rows; }
  }

  /** Append one scenario's writes to the lists. */
  method Collect(b: Batch, x: int, w: Writes) returns (b': Batch)
    ensures b'.acts == b.acts && b'.closed == b.closed
    ensures forall y :: Adds(b, b', x, w, y)
  {
    var es := seq(|w.events|, i requires 0 <= i < |w.events| => (x, w.events[i]));
    b' := b.(rows := b.rows + (if w.row.Some? then [(x, w.row.value)] else []),
             marks := b.marks + (if w.mark.Some? then [(x, w.mark.value)] else []),
             points := b.points + (if w.point.Some? then [(x, w.point.value)] else []),
             events := b.events + es);
    forall y ensures Adds(b, b', x, w, y) {
      ForAppended(b.rows, w.row, x, y);
      ForAppended(b.marks, w.mark, x, y);
      ForAppended(b.points, w.point, x, y);
      ForConcat(b.events, es, y);
      ForTagged(w.events, es, x, y);
    }
  }
}
