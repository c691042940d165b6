/** The evaluator itself: Redis keys and tables updated in place, one batch per cycle.
    Every method is proved against the value-level account of Evaluation and Machine. */
module Evaluator {
  import opened Prelude
  import opened Domain
  import opened Evaluation
  import opened Machine
  import opened Tables

  function KeysAt(redis: map<int, Keys>, x: int): Keys {
    if x in redis then redis[x] else NO_KEYS
  }

  /** Only keys of scenario x may differ. */
  ghost predicate SameElsewhere(before: map<int, Keys>, after: map<int, Keys>, x: int) {
    forall y :: y != x ==> KeysAt(after, y) == KeysAt(before, y)
  }

  // ----- the row loop against the cycle specification -------------------------------------

  /** Whether entry is skipped for the j-th row, as the loop sees it when it gets there. */
  predicate SkipAt(w: World, p: Poll, j: nat)
    requires j < |p.order| && p.order[j] in w.slices
  {
    var g := w.slices[p.order[j]].sc.signalId;
    g in Busy(w) || g in Winners(w, p, p.order[..j])
  }

  function ObservedAt(w: World, p: Poll, j: nat): Observation
    requires j < |p.order| && p.order[j] in w.slices
  {
    var x := p.order[j];
    Observe(w.slices[x], Get(p.candles, x), p.now, SkipAt(w, p, j))
  }

  lemma WinnersStep(w: World, p: Poll, order: seq<int>, i: nat)
    requires i < |order|
    ensures var x := order[i]; var m := Winners(w, p, order[..i]);
      Winners(w, p, order[..i + 1]) ==
        if Candidate(w, x, p) && w.slices[x].sc.signalId !in m then m[w.slices[x].sc.signalId := x] else m
  {
    assert order[..i + 1][..i] == order[..i];
  }

  /** Once a signal has a winner, later rows do not change it. */
  lemma {:induction false} WinnersGrow(w: World, p: Poll, order: seq<int>, i: nat, g: int)
    requires i <= |order|
    ensures var m, n := Winners(w, p, order[..i]), Winners(w, p, order); g in m ==> g in n && n[g] == m[g]
  {
    if i == |order| {
      assert order[..i] == order;
    } else {
      var front := order[..|order| - 1];
      WinnersGrow(w, p, front, i, g);
      assert front[..i] == order[..i];
    }
  }

  lemma NewlyIsCandidate(w: World, p: Poll, j: nat)
    requires Lists(w, p.order) && j < |p.order|
    ensures var x := p.order[j];
      ObservedAt(w, p, j).newly <==> Candidate(w, x, p) && w.slices[x].sc.signalId !in Winners(w, p, p.order[..j])
  {
  }

  /** The winner's signal has no earlier winner when its own row comes up. */
  lemma WinnerUnbeaten(w: World, p: Poll, j: nat)
    requires Lists(w, p.order) && j < |p.order|
    requires var m := Winners(w, p, p.order); var g := w.slices[p.order[j]].sc.signalId; g in m && m[g] == p.order[j]
    ensures w.slices[p.order[j]].sc.signalId !in Winners(w, p, p.order[..j])
  {
    var g := w.slices[p.order[j]].sc.signalId;
    WinnersGrow(w, p, p.order, j, g);
    if g in Winners(w, p, p.order[..j]) {
      WinnerIsCandidate(w, p, p.order[..j], g);
      assert false;
    }
  }

  lemma SkipsCompared(w: World, p: Poll, j: nat)
    requires Lists(w, p.order) && j < |p.order|
    ensures var x := p.order[j];
      && (!Loses(w, p, x) ==> SkipAt(w, p, j) == Skips(w, p, x))
      && (Loses(w, p, x) ==> Cancels(w, p, x) && Skips(w, p, x) && (!SkipAt(w, p, j) ==> !ObservedAt(w, p, j).newly))
  {
    var x := p.order[j];
    var g := w.slices[x].sc.signalId;
    var m := Winners(w, p, p.order);
    WinnersGrow(w, p, p.order, j, g);
    if Loses(w, p, x) {
      WinnerIsCandidate(w, p, p.order, g);
      NewlyIsCandidate(w, p, j);
      WinnersStep(w, p, p.order, j);
      WinnersGrow(w, p, p.order, j + 1, g);
    } else if g in m {
      WinnerUnbeaten(w, p, j);
    }
  }

  lemma WritesIgnoreSkip(s: Slice, candle: Option<Candle>, now: int)
    requires !Observe(s, candle, now, false).newly
    ensures Observe(s, candle, now, true).writes == Observe(s, candle, now, false).writes
    ensures !Observe(s, candle, now, true).newly
  {
    if candle.Some? {
      SkipIndifferent(s.sc, s.active, DbEntry(s.row), s.keys, candle.value, now);
    }
  }

  /** What the loop records for a row is what the specification says, except for the keys of a
      sibling that is about to be cancelled. */
  lemma RowAgrees(w: World, p: Poll, j: nat)
    requires Lists(w, p.order) && j < |p.order|
    ensures var x := p.order[j];
            var o := Observe(w.slices[x], Get(p.candles, x), p.now, Skips(w, p, x));
      && ObservedAt(w, p, j).writes == o.writes
      && ObservedAt(w, p, j).newly == o.newly
      && (!Loses(w, p, x) ==> ObservedAt(w, p, j).keys == o.keys)
      && (Loses(w, p, x) <==> Cancels(w, p, x))
  {
    var x := p.order[j];
    SkipsCompared(w, p, j);
    if !SkipAt(w, p, j) && Loses(w, p, x) {
      WritesIgnoreSkip(w.slices[x], Get(p.candles, x), p.now);
    }
  }

  /** y has been seen to close as the entered scenario of signal g. */
  predicate ClosesSeen(w: World, seen: map<int, Observation>, g: int, y: int) {
    y in seen && y in w.slices && Ends(seen[y]) && (w.slices[y].active || seen[y].newly) && w.slices[y].sc.signalId == g
  }

  /** The observations of the first i rows. */
  ghost predicate SeenRows(w: World, p: Poll, i: nat, seen: map<int, Observation>)
    requires i <= |p.order| && Lists(w, p.order)
  {
    && (forall j :: 0 <= j < i ==> p.order[j] in seen && seen[p.order[j]] == ObservedAt(w, p, j))
    && (forall y :: y in seen ==> y in p.order[..i])
  }

  /** The entries noted so far are the winners m among those rows. */
  ghost predicate NotesEntries(m: map<int, int>, seen: map<int, Observation>, acts: seq<(int, int)>,
                               newly: set<int>, activated: set<int>) {
    && newly == m.Keys
    && (forall g :: For(acts, g) == if g in m then [m[g]] else [])
    && (forall y :: y in activated <==> y in seen && seen[y].newly)
  }

  ghost predicate NotesClosings(w: World, seen: map<int, Observation>, closed: seq<(int, int)>) {
    forall g, y :: y in For(closed, g) <==> ClosesSeen(w, seen, g, y)
  }

  /** The loop's accumulators after the first i rows. */
  ghost predicate RowsDone(w: World, p: Poll, i: nat, seen: map<int, Observation>, b: Batch, newly: set<int>,
                           activated: set<int>)
    requires i <= |p.order| && Lists(w, p.order)
  {
    && SeenRows(w, p, i, seen) && Matches(b, seen) && NotesClosings(w, seen, b.closed)
    && NotesEntries(Winners(w, p, p.order[..i]), seen, b.acts, newly, activated)
  }

  lemma KeysFollowStep(w: World, before: map<int, Keys>, after: map<int, Keys>, seen: map<int, Observation>,
                       x: int, o: Observation)
    requires KeysFollow(w, before, seen) && SameElsewhere(before, after, x) && KeysAt(after, x) == o.keys
    ensures KeysFollow(w, after, seen[x := o])
  {
  }

  lemma NoRowsDone(w: World, p: Poll)
    requires Lists(w, p.order)
    ensures RowsDone(w, p, 0, map[], NO_BATCH, {}, {})
  {
    assert p.order[..0] == [];
  }

  /** Redis holds the keys the observed rows left behind, and the initial ones for all others. */
  ghost predicate KeysFollow(w: World, redis: map<int, Keys>, seen: map<int, Observation>) {
    forall x :: x in w.slices ==> KeysAt(redis, x) == if x in seen then seen[x].keys else w.slices[x].keys
  }

  lemma SeenStep(w: World, p: Poll, i: nat, seen: map<int, Observation>)
    requires Lists(w, p.order) && i < |p.order| && SeenRows(w, p, i, seen)
    ensures p.order[i] !in seen
    ensures SeenRows(w, p, i + 1, seen[p.order[i] := ObservedAt(w, p, i)])
  {
  }

  lemma MatchesStep(b: Batch, b': Batch, seen: map<int, Observation>, x: int, o: Observation)
    requires Matches(b, seen) && x !in seen
    requires forall y :: Adds(b, b', x, o.writes, y)
    ensures Matches(b', seen[x := o])
  {
    var seen' := seen[x := o];
    forall y ensures MatchesAt(b', seen', y) {
      assert MatchesAt(b, seen, y) && Adds(b, b', x, o.writes, y);
    }
  }

  lemma MatchesFourLists(b: Batch, seen: map<int, Observation>, acts: seq<(int, int)>, closed: seq<(int, int)>)
    requires Matches(b, seen)
    ensures Matches(b.(acts := acts, closed := closed), seen)
  {
    forall y ensures MatchesAt(b.(acts := acts, closed := closed), seen, y) {
      assert MatchesAt(b, seen, y);
    }
  }

  lemma ActsGrow(m: map<int, int>, acts: seq<(int, int)>, g: int, x: int)
    requires forall h :: For(acts, h) == if h in m then [m[h]] else []
    ensures g !in m ==> forall h :: For(acts + [(g, x)], h) == if h in m[g := x] then [m[g := x][h]] else []
  {
    forall h ensures For(acts + [(g, x)], h) == For(acts, h) + (if h == g then [x] else []) {
      ForAppend(acts, (g, x), h);
    }
  }

  method NoteEntry(acts: seq<(int, int)>, newly: set<int>, activated: set<int>, x: int, g: int, o: Observation,
                   ghost m: map<int, int>, ghost seen: map<int, Observation>)
    returns (acts': seq<(int, int)>, newly': set<int>, activated': set<int>)
    requires NotesEntries(m, seen, acts, newly, activated) && x !in seen && (o.newly ==> g !in m)
    ensures NotesEntries(if o.newly then m[g := x] else m, seen[x := o], acts', newly', activated')
  {
    acts', newly', activated' := acts, newly, activated;
    if o.newly {
      newly' := newly + {g};
      activated' := activated + {x};
      acts' := acts + [(g, x)];
    }
    ActsGrow(m, acts, g, x);
  }

  lemma ClosesSeenStep(w: World, seen: map<int, Observation>, x: int, o: Observation, h: int, y: int)
    requires x !in seen && x in w.slices
    ensures ClosesSeen(w, seen[x := o], h, y) <==>
      ClosesSeen(w, seen, h, y) ||
      (y == x && Ends(o) && (w.slices[x].active || o.newly) && w.slices[x].sc.signalId == h)
  {
  }

  method NoteClosing(closed: seq<(int, int)>, x: int, g: int, active: bool, o: Observation,
                     ghost w: World, ghost seen: map<int, Observation>)
    returns (closed': seq<(int, int)>)
    requires NotesClosings(w, seen, closed) && x !in seen && x in w.slices
    requires g == w.slices[x].sc.signalId && active == w.slices[x].active
    ensures NotesClosings(w, seen[x := o], closed')
  {
    closed' := closed;
    if Ends(o) && (active || o.newly) {
      closed' := closed + [(g, x)];
    }
    forall h, y ensures y in For(closed', h) <==> ClosesSeen(w, seen[x := o], h, y) {
      ForAppend(closed, (g, x), h);
      ClosesSeenStep(w, seen, x, o, h, y);
      assert y in For(closed, h) <==> ClosesSeen(w, seen, h, y);
    }
  }

  lemma WinnersFollow(w: World, p: Poll, i: nat)
    requires Lists(w, p.order) && i < |p.order|
    ensures var x := p.order[i]; var g := w.slices[x].sc.signalId; var m := Winners(w, p, p.order[..i]);
      && Winners(w, p, p.order[..i + 1]) == (if ObservedAt(w, p, i).newly then m[g := x] else m)
      && (ObservedAt(w, p, i).newly ==> g !in m)
  {
    WinnersStep(w, p, p.order, i);
    NewlyIsCandidate(w, p, i);
  }

  /** Append one observed row to the accumulators. */
  method AddRow(b: Batch, newly: set<int>, activated: set<int>, x: int, g: int, active: bool, o: Observation,
                ghost w: World, ghost m: map<int, int>, ghost seen: map<int, Observation>)
    returns (b': Batch, newly': set<int>, activated': set<int>)
    requires Matches(b, seen) && NotesClosings(w, seen, b.closed) && NotesEntries(m, seen, b.acts, newly, activated)
    requires x !in seen && x in w.slices && g == w.slices[x].sc.signalId && active == w.slices[x].active
    requires o.newly ==> g !in m
    ensures Matches(b', seen[x := o]) && NotesClosings(w, seen[x := o], b'.closed)
    ensures NotesEntries(if o.newly then m[g := x] else m, seen[x := o], b'.acts, newly', activated')
  {
    var acts, closed;
    acts, newly', activated' := NoteEntry(b.acts, newly, activated, x, g, o, m, seen);
    closed := NoteClosing(b.closed, x, g, active, o, w, seen);
    b' := Collect(b, x, o.writes);
    MatchesStep(b, b', seen, x, o);
    MatchesFourLists(b', seen[x := o], acts, closed);
    b' := b'.(acts := acts, closed := closed);
  }

  /** The row is added, and the accumulators are those of one row more. */
  method AddObserved(b: Batch, newly: set<int>, activated: set<int>, x: int, g: int, active: bool, o: Observation,
                     ghost w: World, ghost p: Poll, ghost i: nat, ghost seen: map<int, Observation>)
    returns (b': Batch, newly': set<int>, activated': set<int>)
    requires Lists(w, p.order) && i < |p.order| && RowsDone(w, p, i, seen, b, newly, activated)
    requires x == p.order[i] && g == w.slices[x].sc.signalId && active == w.slices[x].active && o == ObservedAt(w, p, i)
    ensures x !in seen && RowsDone(w, p, i + 1, seen[x := o], b', newly', activated')
  {
    SeenStep(w, p, i, seen);
    WinnersFollow(w, p, i);
    b', newly', activated' := AddRow(b, newly, activated, x, g, active, o, w, Winners(w, p, p.order[..i]), seen);
  }

  // ----- what the batch amounts to ------------------------------------------------------------

  lemma NewlyThenWins(w: World, p: Poll, j: nat)
    requires Lists(w, p.order) && j < |p.order| && ObservedAt(w, p, j).newly
    ensures var x := p.order[j]; var g := w.slices[x].sc.signalId; var m := Winners(w, p, p.order);
      g in m && m[g] == x
  {
    WinnersFollow(w, p, j);
    WinnersGrow(w, p, p.order, j + 1, w.slices[p.order[j]].sc.signalId);
  }

  lemma WinsThenNewly(w: World, p: Poll, j: nat)
    requires Lists(w, p.order) && j < |p.order|
    requires var m := Winners(w, p, p.order); var g := w.slices[p.order[j]].sc.signalId; g in m && m[g] == p.order[j]
    ensures ObservedAt(w, p, j).newly
  {
    WinnerUnbeaten(w, p, j);
    NewlyIsCandidate(w, p, j);
    WinnerIsCandidate(w, p, p.order, w.slices[p.order[j]].sc.signalId);
  }

  lemma RowWins(w: World, p: Poll, j: nat)
    requires Lists(w, p.order) && j < |p.order|
    ensures var x := p.order[j]; var g := w.slices[x].sc.signalId; var m := Winners(w, p, p.order);
      ObservedAt(w, p, j).newly <==> g in m && m[g] == x
  {
    if ObservedAt(w, p, j).newly {
      NewlyThenWins(w, p, j);
    } else if w.slices[p.order[j]].sc.signalId in Winners(w, p, p.order)
              && Winners(w, p, p.order)[w.slices[p.order[j]].sc.signalId] == p.order[j] {
      WinsThenNewly(w, p, j);
    }
  }

  /** The observation of a picked scenario, in terms of the specification of the cycle. */
  lemma SeenAgrees(w: World, p: Poll, seen: map<int, Observation>, x: int)
    requires Lists(w, p.order) && SeenRows(w, p, |p.order|, seen) && x in w.slices
    ensures x in seen <==> Picked(w, x)
    ensures x in seen ==>
      var o := Observe(w.slices[x], Get(p.candles, x), p.now, Skips(w, p, x));
      var m := Winners(w, p, p.order); var g := w.slices[x].sc.signalId;
      && seen[x].writes == o.writes && seen[x].newly == o.newly
      && (!Loses(w, p, x) ==> seen[x].keys == o.keys)
      && (Loses(w, p, x) <==> Cancels(w, p, x))
      && (seen[x].newly <==> g in m && m[g] == x)
  {
    assert p.order[..|p.order|] == p.order;
    if Picked(w, x) {
      var j :| 0 <= j < |p.order| && p.order[j] == x;
      RowAgrees(w, p, j);
      RowWins(w, p, j);
    }
  }

  /** One scenario's part of every table after the batch, from its part of every list. */
  function TablesAfter(s: Slice, b: Batch, x: int, cancelled: bool, now: int, k: Keys): Slice {
    var r := ScenarioAfter(ScenarioRow(s.sc, s.status, s.active), For(b.marks, x), cancelled);
    Slice(s.sc, r.status, r.active, ResultAfter(s.row, For(b.rows, x), cancelled, now),
          s.log + For(b.events, x) + CancelTail(cancelled, now), InsertAll(s.points, For(b.points, x)), k)
  }

  lemma TablesMatchWrite(s: Slice, b: Batch, x: int, ws: Writes, cancelled: bool, now: int, k: Keys)
    requires For(b.rows, x) == ToSeq(ws.row) && For(b.marks, x) == ToSeq(ws.mark)
    requires For(b.points, x) == ToSeq(ws.point) && For(b.events, x) == ws.events
    ensures TablesAfter(s, b, x, cancelled, now, k) == Write(s.(keys := k), ws, cancelled, now)
  {
    if ws.row.Some? { Singletons(s.row, ws.row.value, [], PricePoint(0, 0.0, None)); }
    if ws.point.Some? { Singletons(None, CancelledRow(0), s.points, ws.point.value); }
  }

  lemma TablesUntouched(s: Slice, b: Batch, x: int, now: int)
    requires For(b.rows, x) == [] && For(b.marks, x) == [] && For(b.points, x) == [] && For(b.events, x) == []
    ensures TablesAfter(s, b, x, false, now, s.keys) == s
  {
  }

  /** The tables and keys of x after the batch are what the cycle specification says. */
  lemma SliceWritten(w: World, p: Poll, seen: map<int, Observation>, b: Batch, x: int, k: Keys)
    requires Lists(w, p.order) && SeenRows(w, p, |p.order|, seen) && Matches(b, seen) && x in w.slices
    requires k == if Cancels(w, p, x) then NO_KEYS else if x in seen then seen[x].keys else w.slices[x].keys
    ensures SliceAfter(w, p, x) ==
      if p.commits then TablesAfter(w.slices[x], b, x, Cancels(w, p, x), p.now, k) else w.slices[x].(keys := k)
  {
    var s := w.slices[x];
    SeenAgrees(w, p, seen, x);
    assert MatchesAt(b, seen, x);
    if x in seen {
      TablesMatchWrite(s, b, x, seen[x].writes, Cancels(w, p, x), p.now, k);
    } else {
      TablesUntouched(s, b, x, p.now);
    }
  }

  lemma ClosedAgrees(w: World, p: Poll, seen: map<int, Observation>, b: Batch, g: int, y: int)
    requires Lists(w, p.order) && SeenRows(w, p, |p.order|, seen) && NotesClosings(w, seen, b.closed)
    ensures y in For(b.closed, g) <==> ClosesActive(w, p, y) && w.slices[y].sc.signalId == g
  {
    assert y in For(b.closed, g) <==> ClosesSeen(w, seen, g, y);
    if y in w.slices { SeenAgrees(w, p, seen, y); }
  }

  /** The signal the batch leaves, by what its two lists hold for it. */
  lemma LastIsWinner(w: World, p: Poll, b: Batch, seen: map<int, Observation>, newly: set<int>,
                     activated: set<int>, g: int)
    requires NotesEntries(Winners(w, p, p.order), seen, b.acts, newly, activated) && g in w.signals
    ensures var m := Winners(w, p, p.order);
      Last(For(b.acts, g), w.signals[g]) == if g in m then Signal(true, Some(m[g])) else w.signals[g]
  {
    var m := Winners(w, p, p.order);
    if g in m {
      assert For(b.acts, g) == [m[g]];
    }
  }

  lemma SignalWritten(w: World, p: Poll, seen: map<int, Observation>, b: Batch, newly: set<int>,
                      activated: set<int>, g: int)
    requires Lists(w, p.order) && RowsDone(w, p, |p.order|, seen, b, newly, activated) && g in w.signals
    ensures SignalFrom(w.signals[g], b, g) == SignalAfter(w, p, g)
  {
    assert p.order[..|p.order|] == p.order;
    LastIsWinner(w, p, b, seen, newly, activated, g);
    var s := Last(For(b.acts, g), w.signals[g]);
    if s.activeScenario.Some? {
      ClosedAgrees(w, p, seen, b, g, s.activeScenario.value);
    }
  }

  /** The test of the sibling loop is the specification's. */
  lemma {:induction false} SiblingTest(w: World, p: Poll, seen: map<int, Observation>, b: Batch,
                                       newly: set<int>, activated: set<int>, j: nat)
    requires Lists(w, p.order) && j < |p.order| && RowsDone(w, p, |p.order|, seen, b, newly, activated)
    ensures var x := p.order[j]; var s := w.slices[x];
      s.sc.signalId in newly && x !in activated && s.status == Running && !s.active <==> Cancels(w, p, x)
  {
    assert p.order[..|p.order|] == p.order;
    SeenAgrees(w, p, seen, p.order[j]);
  }

  /** Redis at the end of the cycle. */
  ghost predicate KeysFinal(w: World, p: Poll, redis: map<int, Keys>, seen: map<int, Observation>) {
    forall x :: x in w.slices ==>
      KeysAt(redis, x) == if Cancels(w, p, x) then NO_KEYS else if x in seen then seen[x].keys else w.slices[x].keys
  }

  lemma MarksAreSingle(b: Batch, seen: map<int, Observation>)
    requires Matches(b, seen)
    ensures forall x :: |For(b.marks, x)| <= 1
  {
    forall x ensures |For(b.marks, x)| <= 1 {
      assert MatchesAt(b, seen, x);
    }
  }

  /** An empty batch would have changed nothing. */
  lemma EmptyBatch(w: World, p: Poll, seen: map<int, Observation>, b: Batch, newly: set<int>, activated: set<int>)
    requires Lists(w, p.order) && RowsDone(w, p, |p.order|, seen, b, newly, activated)
    requires b.rows == [] && b.events == [] && b.points == [] && b.acts == [] && b.closed == []
    ensures forall x, k :: x in w.slices ==> TablesAfter(w.slices[x], b, x, false, p.now, k) == w.slices[x].(keys := k)
    ensures forall g :: g in w.signals ==> SignalFrom(w.signals[g], b, g) == w.signals[g]
  {
    forall x, k | x in w.slices ensures TablesAfter(w.slices[x], b, x, false, p.now, k) == w.slices[x].(keys := k) {
      EmptySlice(w, p, seen, b, x, k);
    }
  }

  lemma EmptySlice(w: World, p: Poll, seen: map<int, Observation>, b: Batch, x: int, k: Keys)
    requires Lists(w, p.order) && SeenRows(w, p, |p.order|, seen) && Matches(b, seen) && x in w.slices
    requires b.rows == [] && b.events == [] && b.points == []
    ensures TablesAfter(w.slices[x], b, x, false, p.now, k) == w.slices[x].(keys := k)
  {
    MarkedRowsAreWritten(w, p, seen, x);
    assert MatchesAt(b, seen, x) && For(b.rows, x) == [];
  }

  lemma MarkedRowsAreWritten(w: World, p: Poll, seen: map<int, Observation>, x: int)
    requires Lists(w, p.order) && SeenRows(w, p, |p.order|, seen) && x in w.slices
    ensures x in seen && seen[x].writes.mark.Some? ==> seen[x].writes.row.Some?
  {
    SeenAgrees(w, p, seen, x);
  }

  /** The scenarios the cycle cancels. */
  function Losers(w: World, p: Poll): set<int> {
    set x | x in w.slices && Cancels(w, p, x)
  }

  /** x's tables and keys after the cycle, with or without the batch. */
  function WrittenSlice(w: World, p: Poll, b: Batch, cancels: seq<int>, redis: map<int, Keys>, x: int): Slice
    requires x in w.slices
  {
    if p.commits then TablesAfter(w.slices[x], b, x, x in cancels, p.now, KeysAt(redis, x))
    else w.slices[x].(keys := KeysAt(redis, x))
  }

  lemma AllWritten(w: World, p: Poll, seen: map<int, Observation>, b: Batch, newly: set<int>, activated: set<int>,
                   cancels: seq<int>, redis: map<int, Keys>)
    requires Lists(w, p.order) && RowsDone(w, p, |p.order|, seen, b, newly, activated) && KeysFinal(w, p, redis, seen)
    requires forall x :: x in cancels <==> x in Losers(w, p)
    ensures forall x :: x in w.slices ==> SliceAfter(w, p, x) == WrittenSlice(w, p, b, cancels, redis, x)
    ensures forall g :: g in w.signals ==> SignalFrom(w.signals[g], b, g) == SignalAfter(w, p, g)
  {
    forall x | x in w.slices ensures SliceAfter(w, p, x) == WrittenSlice(w, p, b, cancels, redis, x) {
      SliceWritten(w, p, seen, b, x, KeysAt(redis, x));
    }
    forall g | g in w.signals ensures SignalFrom(w.signals[g], b, g) == SignalAfter(w, p, g) {
      SignalWritten(w, p, seen, b, newly, activated, g);
    }
  }

  lemma LosersCleared(w: World, p: Poll, before: map<int, Keys>, after: map<int, Keys>, seen: map<int, Observation>)
    requires KeysFollow(w, before, seen)
    requires forall x :: KeysAt(after, x) == if x in Losers(w, p) then NO_KEYS else KeysAt(before, x)
    ensures KeysFinal(w, p, after, seen)
  {
  }

  lemma LosersAreRows(w: World, p: Poll)
    requires Lists(w, p.order)
    ensures forall x :: x in Losers(w, p) ==> x in p.order
  {
  }

  /** A state that agrees with the specification row by row is the specified state. */
  lemma IsCycle(w: World, p: Poll, after: World)
    requires after.cycle == w.cycle + 1
    requires after.slices.Keys == w.slices.Keys && forall x :: x in w.slices ==> after.slices[x] == SliceAfter(w, p, x)
    requires after.signals.Keys == w.signals.Keys
    requires p.commits ==> forall g :: g in w.signals ==> after.signals[g] == SignalAfter(w, p, g)
    requires !p.commits ==> after.signals == w.signals
    ensures after == Cycle(w, p)
  {
    assert after.slices == Cycle(w, p).slices;
    assert p.commits ==> after.signals == Cycle(w, p).signals;
  }

  class SignalEvaluator {
    var cycle: nat
    var redis: map<int, Keys>                  // eval:* keys by scenario id
    var scenarios: map<int, ScenarioRow>
    var results: map<int, Row>
    var signals: map<int, Signal>
    var events: seq<(int, Event)>
    var points: seq<(int, PricePoint)>

    constructor (redis: map<int, Keys>, scenarios: map<int, ScenarioRow>, results: map<int, Row>,
                 signals: map<int, Signal>, events: seq<(int, Event)>, points: seq<(int, PricePoint)>)
      ensures cycle == 0
      ensures this.redis == redis && this.scenarios == scenarios && this.results == results
      ensures this.signals == signals && this.events == events && this.points == points
    {
      cycle := 0;
      this.redis, this.scenarios, this.results := redis, scenarios, results;
      this.signals, this.events, this.points := signals, events, points;
    }

    // ----- the abstract state ---------------------------------------------------------

    function KeysOf(x: int): Keys
      reads this`redis
    {
      KeysAt(redis, x)
    }

    function SliceOf(x: int): Slice
      requires x in scenarios
      reads this
    {
      var r := scenarios[x];
      Slice(r.sc, r.status, r.active, Get(results, x), For(events, x), For(points, x), KeysOf(x))
    }

    function State(): World
      reads this
    {
      World(cycle, signals, map x | x in scenarios :: SliceOf(x))
    }

    // ----- Redis helpers ----------------------------------------------------------------

    method TrackExtremes(x: int, c: Candle) returns (high: real, low: real)
      modifies this`redis
      ensures KeysOf(x) == Track(old(KeysOf(x)), c)
      ensures SameElsewhere(old(redis), redis, x)
      ensures KeysOf(x).max == Some(high) && KeysOf(x).min == Some(low)
    {
      var prevMin, prevMax := KeysOf(x).min, KeysOf(x).max;
      low := if prevMin.Some? then Min(c.low, prevMin.value) else c.low;
      high := if prevMax.Some? then Max(c.high, prevMax.value) else c.high;
      redis := redis[x := KeysOf(x).(min := Some(low))];
      redis := redis[x := KeysOf(x).(max := Some(high))];
    }

    method FindBestTp(x: int, sc: Scenario, c: Candle) returns (hit: Hit)
      modifies this`redis
      ensures hit == BestTp(sc, old(KeysOf(x)), c)
      ensures KeysOf(x) == BestTpKeys(old(KeysOf(x)), hit)
      ensures hit.index > hit.previous ==> KeysOf(x).bestTp == hit.price && KeysOf(x).bestTpIdx == Some(hit.index)
      ensures SameElsewhere(old(redis), redis, x)
    {
      var prices := sc.takeProfits;
      var storedPrice, storedIdx := KeysOf(x).bestTp, StoredIndex(KeysOf(x));
      var best: nat := 0;
      for i := 0 to |prices|
        invariant best == BestReached(sc, prices[..i], c) <= i
      {
        assert prices[..i + 1][..i] == prices[..i];
        if Reached(sc, prices[i], c) {
          best := i + 1;
        }
      }
      assert prices[..|prices|] == prices;
      if best > 0 && best > storedIdx {
        redis := redis[x := KeysOf(x).(bestTp := Some(prices[best - 1]))];
        redis := redis[x := KeysOf(x).(bestTpIdx := Some(best))];
        return Hit(Some(prices[best - 1]), best, storedIdx);
      }
      return Hit(storedPrice, storedIdx, storedIdx);
    }

    method ShouldRecordPrice(x: int, sc: Scenario, now: int, newly: bool) returns (due: bool)
      modifies this`redis
      ensures due == PointDue(sc, old(KeysOf(x)).lastHist, now, newly)
      ensures KeysOf(x) == if due then old(KeysOf(x)).(lastHist := Some(now)) else old(KeysOf(x))
      ensures SameElsewhere(old(redis), redis, x)
    {
      if newly {
        redis := redis[x := KeysOf(x).(lastHist := Some(now))];
        return true;
      }
      var stored := KeysOf(x).lastHist;
      if stored.None? {
        redis := redis[x := KeysOf(x).(lastHist := Some(now))];
        return true;
      }
      if now - stored.value >= TimeframeSeconds(sc.timeframe) {
        redis := redis[x := KeysOf(x).(lastHist := Some(now))];
        return true;
      }
      return false;
    }

    method Cleanup(x: int)
      modifies this`redis
      ensures KeysOf(x) == NO_KEYS
      ensures SameElsewhere(old(redis), redis, x)
    {
      redis := redis - {x};
    }

    method NoteDataGap(x: int, now: int) returns (firstTime: bool)
      modifies this`redis
      ensures firstTime == old(KeysOf(x)).gapStart.None?
      ensures KeysOf(x) == if firstTime then old(KeysOf(x)).(gapStart := Some(now)) else old(KeysOf(x))
      ensures SameElsewhere(old(redis), redis, x)
    {
      firstTime := KeysOf(x).gapStart.None?;
      if firstTime {
        redis := redis[x := KeysOf(x).(gapStart := Some(now))];
      }
    }

    method CloseDataGap(x: int) returns (from: Option<int>)
      modifies this`redis
      ensures from == old(KeysOf(x)).gapStart
      ensures KeysOf(x) == old(KeysOf(x)).(gapStart := None)
      ensures SameElsewhere(old(redis), redis, x)
    {
      from := KeysOf(x).gapStart;
      if from.Some? {
        redis := redis[x := KeysOf(x).(gapStart := None)];
      }
    }

    method CheckConsolidation(x: int, sc: Scenario, price: real, now: int) returns (held: bool)
      requires Consolidating(sc)
      modifies this`redis
      ensures var z := Consolidate(sc, old(KeysOf(x)).consolStart, price, now);
        held == z.0 && KeysOf(x) == old(KeysOf(x)).(consolStart := z.1)
      ensures SameElsewhere(old(redis), redis, x)
    {
      if !InZone(sc, price) {
        redis := redis[x := KeysOf(x).(consolStart := None)];
        return false;
      }
      var stored := KeysOf(x).consolStart;
      if stored.None? {
        redis := redis[x := KeysOf(x).(consolStart := Some(now))];
        return false;
      }
      return now - stored.value >= TimeframeSeconds(sc.timeframe);
    }

    method Confirm(x: int, sc: Scenario, c: Candle, now: int) returns (entered: bool, price: Option<real>)
      modifies this`redis
      ensures ConfirmEntry(sc, old(KeysOf(x)), c, now) == Confirmation(entered, price, KeysOf(x))
      ensures SameElsewhere(old(redis), redis, x)
      ensures !old(KeysOf(x)).entered && sc.entryPoint.Some? ==>
        var ep := sc.entryPoint.value; var m := if sc.priceType == Range then ep * 0.02 else 0.0;
        && (sc.entryType == BreakUp ==> (entered <==> c.high >= ep - m))
        && (sc.entryType == BreakDown ==> (entered <==> c.low <= ep + m))
        && (sc.entryType == Fix ==> (entered <==> (IsLong(sc) && c.low <= ep + m) || (IsShort(sc) && c.high >= ep - m)))
        && (entered ==>
              && price == Some(if sc.entryType in {BreakUp, BreakDown, Fix} then ep else c.close) && KeysOf(x).entered
              && (Consolidating(sc) ==> KeysOf(x).consolStart.None?))
    {
      if KeysOf(x).entered {
        return true, None;
      }
      if sc.entryPoint.None? || sc.entryType == Market {
        redis := redis[x := KeysOf(x).(entered := true)];
        return true, Some(c.close);
      }
      var ep := sc.entryPoint.value;
      var t := Tolerance(ep, sc.priceType);
      if sc.entryType == BreakUp {
        if c.high >= ep - t {
          redis := redis[x := KeysOf(x).(entered := true)];
          return true, Some(ep);
        }
      } else if sc.entryType == BreakDown {
        if c.low <= ep + t {
          redis := redis[x := KeysOf(x).(entered := true)];
          return true, Some(ep);
        }
      } else if sc.entryType == ConsolidationUp || sc.entryType == ConsolidationDown {
        var held := CheckConsolidation(x, sc, c.close, now);
        if held {
          redis := redis[x := KeysOf(x).(entered := true)];
          redis := redis[x := KeysOf(x).(consolStart := None)];
          return true, Some(c.close);
        }
      } else {
        if sc.Dir() == Long && c.low <= ep + t {
          redis := redis[x := KeysOf(x).(entered := true)];
          return true, Some(ep);
        }
        if sc.Dir() == Short && c.high >= ep - t {
          redis := redis[x := KeysOf(x).(entered := true)];
          return true, Some(ep);
        }
      }
      return false, None;
    }

    // ----- one scenario -------------------------------------------------------------------

    /** Terminal check: stop, then targets, then expiry. */
    method CheckTerminal(sc: Scenario, entered: bool, hit: Hit, c: Candle, now: int) returns (v: Verdict)
      ensures v == Settle(sc, entered, hit, c, now)
      ensures entered && hit.index == 0 ==>
        (v == Close(Failed, sc.stopLoss) <==>
          sc.stopLoss.Some? &&
          ((IsLong(sc) && c.low <= sc.stopLoss.value) || (IsShort(sc) && c.high >= sc.stopLoss.value)))
    {
      v := Verdict.Open;
      if entered {
        if StopTouched(sc, c) {
          if hit.index > 0 {
            v := Close(Success, hit.price);
          } else {
            v := Close(Failed, sc.stopLoss);
          }
        }
        if v.Open? && sc.takeProfits != [] && hit.index > 0 {
          v := Close(Success, hit.price);
        }
      }
      if v.Open? && now >= sc.expireAt {
        if !entered {
          v := Close(Expired, None);
        } else if hit.index > 0 {
          v := Close(Success, hit.price);
        } else {
          v := Close(Expired, Some(c.close));
        }
      }
    }

    /** Restore the entered flag, try to enter, and find the effective entry price. */
    method Enter(x: int, sc: Scenario, active: bool, dbEntry: Option<real>, c: Candle, now: int, skip: bool)
      returns (entered: bool, newly: bool, entry: Option<real>)
      modifies this`redis
      ensures EntryPhaseOf(sc, active, dbEntry, old(KeysOf(x)), c, now, skip) ==
              EntryPhase(entered, newly, entry, KeysOf(x))
      ensures SameElsewhere(old(redis), redis, x)
    {
      var gap := CloseDataGap(x);
      if active && !KeysOf(x).entered {
        redis := redis[x := KeysOf(x).(entered := true)];
      }
      var wasEntered := KeysOf(x).entered;
      var confirmed: Option<real> := None;
      entered := false;
      if !(skip && !wasEntered) {
        entered, confirmed := Confirm(x, sc, c, now);
      }
      newly := entered && !wasEntered;
      entry := None;
      if newly && confirmed.Some? {
        entry := confirmed;
        redis := redis[x := KeysOf(x).(entryPrice := entry)];
      } else if entered {
        if KeysOf(x).entryPrice.Some? {
          entry := KeysOf(x).entryPrice;
        } else if Truthy(dbEntry) {
          entry := dbEntry;
        }
      }
    }

    /** Entry, extremes, targets and terminal check, on Redis in place. */
    method Decide(x: int, sc: Scenario, active: bool, dbEntry: Option<real>, c: Candle, now: int, skip: bool)
      returns (d: Course)
      modifies this`redis
      ensures d == CourseOf(sc, active, dbEntry, old(KeysOf(x)), c, now, skip)
      ensures KeysOf(x) == d.keys
      ensures SameElsewhere(old(redis), redis, x)
    {
      var entered, newly, entry := Enter(x, sc, active, dbEntry, c, now, skip);
      var hit := Hit(None, 0, 0);
      if entered {
        var high, low := TrackExtremes(x, c);
        hit := FindBestTp(x, sc, c);
      }
      var v := CheckTerminal(sc, entered, hit, c, now);
      d := Course(entered, newly, entry, KeysOf(x), hit, v, entered && PointDue(sc, KeysOf(x).lastHist, now, newly));
    }

    /** The audit events of one evaluation, in the order they are appended. */
    method CollectEvents(sc: Scenario, gapStart: Option<int>, d: Course, now: int) returns (es: seq<Event>)
      requires d.hit.index > d.hit.previous ==> d.hit.index <= |sc.takeProfits|
      ensures es == EventsOf(sc, gapStart, d, now)
    {
      es := [];
      if gapStart.Some? && d.entered {
        es := es + [Event(GapEnd(gapStart.value), None, now)];
      }
      if d.newly {
        es := es + [Event(Entered, d.entry, now)];
      }
      var tps := CollectTpHits(sc, d, now);
      es := es + tps;
      ghost var before := es;
      if d.verdict.Close? && d.verdict.status == Failed {
        es := es + [Event(SlHit, d.verdict.exit, now)];
      }
      if d.verdict.Close? {
        es := es + [Event(Completed(d.verdict.status), d.verdict.exit, now)];
      }
      assert es == before + ClosingEvents(d.verdict, now);
    }

    method CollectTpHits(sc: Scenario, d: Course, now: int) returns (es: seq<Event>)
      requires d.hit.index > d.hit.previous ==> d.hit.index <= |sc.takeProfits|
      ensures es == TpHitEvents(sc, d.entered, d.hit, now)
    {
      es := [];
      if d.entered && d.hit.index > d.hit.previous {
        for i := d.hit.previous to d.hit.index
          invariant es == TpEvents(sc.takeProfits, d.hit.previous, i, now)
        {
          TpEventsExtend(sc.takeProfits, d.hit.previous, i, now);
          es := es + [Event(TpHit(i + 1), Some(sc.takeProfits[i]), now)];
        }
      }
    }

    /** Price point, first-seen key, cleanup, marks and events of a decided course. */
    method Record(x: int, sc: Scenario, gapStart: Option<int>, d: Course, c: Candle, now: int) returns (r: Report)
      requires KeysOf(x) == d.keys
      requires d.hit.index > d.hit.previous ==> d.hit.index <= |sc.takeProfits|
      requires d.due == (d.entered && PointDue(sc, d.keys.lastHist, now, d.newly))
      requires d.newly ==> d.entered
      modifies this`redis
      ensures Conclude(sc, gapStart, d, c, now) == Evaluated(KeysOf(x), r)
      ensures SameElsewhere(old(redis), redis, x)
    {
      var row := RowOf(sc, d, c, now);
      var record := false;
      if d.entered {
        record := ShouldRecordPrice(x, sc, now, d.newly);
      }
      var dirty := d.verdict.Close? || d.newly || record || d.entered;
      if !KeysOf(x).first {
        redis := redis[x := KeysOf(x).(first := true)];
        dirty := true;
      }
      var mark: Option<Mark> := None;
      if d.verdict.Close? {
        mark := Some(Closed(d.verdict.status));
        Cleanup(x);
      } else if d.newly {
        mark := Some(Activated);
      }
      var es := CollectEvents(sc, gapStart, d, now);
      r := Report(row, if record then Some(PricePoint(now, c.close, row.pnl)) else None, mark, d.newly, dirty, es);
    }

    /** None when there is no price: the cycle skips the scenario. */
    method Eval(x: int, candle: Option<Candle>, now: int, skip: bool) returns (report: Option<Report>)
      requires x in scenarios
      modifies this`redis
      ensures candle.None? ==> report.None? && KeysOf(x) == old(KeysOf(x))
      ensures candle.Some? ==>
        var e := EvaluateSlice(old(SliceOf(x)), candle.value, now, skip);
        report == Some(e.report) && KeysOf(x) == e.keys
      ensures SameElsewhere(old(redis), redis, x)
    {
      if candle.None? {
        return None;
      }
      var sc, gapStart := scenarios[x].sc, KeysOf(x).gapStart;
      var d := Decide(x, sc, scenarios[x].active, DbEntry(Get(results, x)), candle.value, now, skip);
      var r := Record(x, sc, gapStart, d, candle.value, now);
      return Some(r);
    }

    // ----- the batch -------------------------------------------------------------------------

    method BatchWrite(b: Batch, cancels: seq<int>, now: int)
      requires Distinct(cancels) && forall x :: |For(b.marks, x)| <= 1
      modifies this`scenarios, this`results, this`signals, this`events, this`points
      ensures forall x :: Get(results, x) == ResultAfter(old(Get(results, x)), For(b.rows, x), x in cancels, now)
      ensures forall x :: For(points, x) == InsertAll(old(For(points, x)), For(b.points, x))
      ensures forall x :: For(events, x) == old(For(events, x)) + For(b.events, x) + CancelTail(x in cancels, now)
      ensures scenarios.Keys == old(scenarios).Keys
      ensures forall x :: x in scenarios ==>
        scenarios[x] == ScenarioAfter(old(scenarios)[x], For(b.marks, x), x in cancels)
      ensures signals.Keys == old(signals).Keys
      ensures forall g :: g in signals ==>
        signals[g] == SignalFrom(old(signals)[g], b, g)
    {
      var cancelRows, cancelEvents := CancelParameters(cancels, now);
      results := UpdateResults(results, b.rows, cancelRows, cancels, now);
      points := ExecutePoints(points, b.points);
      scenarios := UpdateScenarios(scenarios, b.marks, cancels);
      signals := ExecuteSignalActivations(signals, b.acts);
      signals := ExecuteSignalTerminals(signals, b.closed);
      events := AppendEvents(events, b.events, cancelEvents, cancels, now);
    }

    // ----- the cycle ----------------------------------------------------------------------------

    /** Evaluate one row, or note the data gap, and say what to write. */
    method EvaluateRow(x: int, candle: Option<Candle>, now: int, skip: bool) returns (o: Observation)
      requires x in scenarios
      modifies this`redis
      ensures o == Observe(old(SliceOf(x)), candle, now, skip)
      ensures KeysOf(x) == o.keys
      ensures SameElsewhere(old(redis), redis, x)
    {
      var report := Eval(x, candle, now, skip);
      if report.None? {
        var es: seq<Event> := [];
        if scenarios[x].active {
          var firstTime := NoteDataGap(x, now);
          if firstTime {
            es := [Event(GapStart, None, now)];
          }
        }
        return Observation(KeysOf(x), Writes(None, None, None, es), false);
      }
      var r := report.value;
      return Observation(KeysOf(x), Writes(if r.dirty then Some(r.row) else None, r.point, r.mark, r.events), r.newly);
    }

    /** The database still holds what w holds. */
    ghost predicate Loaded(w: World)
      reads this
    {
      scenarios.Keys == w.slices.Keys &&
      forall x :: x in scenarios ==> SliceOf(x) == w.slices[x].(keys := KeysOf(x))
    }

    /** The i-th row of the cycle, while its own keys are still those of the start of the cycle. */
    method ObserveRow(p: Poll, i: nat, busy: set<int>, newly: set<int>, ghost w: World) returns (o: Observation)
      requires Lists(w, p.order) && i < |p.order| && Loaded(w)
      requires KeysOf(p.order[i]) == w.slices[p.order[i]].keys
      requires busy == Busy(w) && newly == Winners(w, p, p.order[..i]).Keys
      modifies this`redis
      ensures o == ObservedAt(w, p, i) && KeysOf(p.order[i]) == o.keys
      ensures SameElsewhere(old(redis), redis, p.order[i]) && Loaded(w)
    {
      var x := p.order[i];
      var g := scenarios[x].sc.signalId;
      o := EvaluateRow(x, Get(p.candles, x), p.now, g in busy || g in newly);
    }

    method BusySignals(order: seq<int>, ghost w: World) returns (busy: set<int>)
      requires Lists(w, order) && Loaded(w)
      ensures busy == Busy(w)
    {
      busy := set x | x in order && scenarios[x].active :: scenarios[x].sc.signalId;
    }

    method StepRow(p: Poll, i: nat, busy: set<int>, b: Batch, newly: set<int>, activated: set<int>,
                   ghost w: World, ghost seen: map<int, Observation>)
      returns (b': Batch, newly': set<int>, activated': set<int>, ghost seen': map<int, Observation>)
      requires Lists(w, p.order) && i < |p.order| && Loaded(w) && busy == Busy(w)
      requires RowsDone(w, p, i, seen, b, newly, activated) && KeysFollow(w, redis, seen)
      modifies this`redis
      ensures RowsDone(w, p, i + 1, seen', b', newly', activated') && KeysFollow(w, redis, seen') && Loaded(w)
    {
      var x := p.order[i];
      SeenStep(w, p, i, seen);
      ghost var before := redis;
      var o := ObserveRow(p, i, busy, newly, w);
      KeysFollowStep(w, before, redis, seen, x, o);
      b', newly', activated' := AddObserved(b, newly, activated, x, scenarios[x].sc.signalId, scenarios[x].active, o,
                                            w, p, i, seen);
      seen' := seen[x := o];
    }

    method EvaluateRows(p: Poll, ghost w: World)
      returns (b: Batch, newly: set<int>, activated: set<int>, ghost seen: map<int, Observation>)
      requires Lists(w, p.order) && Loaded(w) && KeysFollow(w, redis, map[])
      modifies this`redis
      ensures RowsDone(w, p, |p.order|, seen, b, newly, activated) && KeysFollow(w, redis, seen) && Loaded(w)
    {
      b, newly, activated, seen := NO_BATCH, {}, {}, map[];
      NoRowsDone(w, p);
      var busy := BusySignals(p.order, w);
      for i := 0 to |p.order|
        invariant RowsDone(w, p, i, seen, b, newly, activated) && KeysFollow(w, redis, seen) && Loaded(w)
      {
        b, newly, activated, seen := StepRow(p, i, busy, b, newly, activated, w, seen);
      }
    }

    /** The running, not entered siblings of the scenarios that entered, with their keys cleared. */
    method CancelSiblings(order: seq<int>, newly: set<int>, activated: set<int>, ghost w: World, ghost losers: set<int>)
      returns (cancels: seq<int>)
      requires Loaded(w) && Distinct(order) && forall j :: 0 <= j < |order| ==> order[j] in scenarios
      requires forall j :: 0 <= j < |order| ==>
        var r := scenarios[order[j]];
        (r.sc.signalId in newly && order[j] !in activated && r.status == Running && !r.active <==> order[j] in losers)
      requires forall x :: x in losers ==> x in order
      modifies this`redis
      ensures Distinct(cancels) && forall x :: x in cancels <==> x in losers
      ensures forall x :: KeysOf(x) == if x in losers then NO_KEYS else old(KeysOf(x))
      ensures Loaded(w)
    {
      cancels := [];
      for i := 0 to |order|
        invariant Distinct(cancels) && forall x :: x in cancels <==> x in order[..i] && x in losers
        invariant forall x :: KeysOf(x) == if x in cancels then NO_KEYS else old(KeysOf(x))
      {
        var x := order[i];
        var r := scenarios[x];
        if r.sc.signalId in newly && x !in activated && r.status == Running && !r.active {
          cancels := cancels + [x];
          Cleanup(x);
        }
      }
    }

    /** The batch, written over the tables w describes. */
    method WriteLoaded(b: Batch, cancels: seq<int>, now: int, ghost w: World)
      requires Loaded(w) && Distinct(cancels) && forall x :: |For(b.marks, x)| <= 1
      modifies this`scenarios, this`results, this`signals, this`events, this`points
      ensures scenarios.Keys == w.slices.Keys
      ensures forall x :: x in scenarios ==> SliceOf(x) == TablesAfter(w.slices[x], b, x, x in cancels, now, KeysOf(x))
      ensures signals.Keys == old(signals).Keys
      ensures forall g :: g in signals ==> signals[g] == SignalFrom(old(signals)[g], b, g)
    {
      BatchWrite(b, cancels, now);
    }

    /** Write the batch if there is anything in it. */
    method WriteUnlessEmpty(p: Poll, b: Batch, cancels: seq<int>, ghost w: World, ghost seen: map<int, Observation>,
                            ghost newly: set<int>, ghost activated: set<int>)
      requires Lists(w, p.order) && RowsDone(w, p, |p.order|, seen, b, newly, activated)
      requires Loaded(w) && signals == w.signals && Distinct(cancels)
      modifies this`scenarios, this`results, this`signals, this`events, this`points
      ensures scenarios.Keys == w.slices.Keys && signals.Keys == w.signals.Keys
      ensures forall x :: x in scenarios ==>
        SliceOf(x) == TablesAfter(w.slices[x], b, x, x in cancels, p.now, KeysOf(x))
      ensures forall g :: g in signals ==> signals[g] == SignalFrom(w.signals[g], b, g)
    {
      if b.rows != [] || cancels != [] || b.events != [] || b.points != [] || b.acts != [] || b.closed != [] {
        MarksAreSingle(b, seen);
        WriteLoaded(b, cancels, p.now, w);
      } else {
        EmptyBatch(w, p, seen, b, newly, activated);
      }
    }

    /** A failed commit leaves the tables alone. */
    method Commit(p: Poll, b: Batch, cancels: seq<int>, ghost w: World, ghost seen: map<int, Observation>,
                  ghost newly: set<int>, ghost activated: set<int>)
      requires Lists(w, p.order) && RowsDone(w, p, |p.order|, seen, b, newly, activated)
      requires Loaded(w) && signals == w.signals && KeysFinal(w, p, redis, seen)
      requires Distinct(cancels) && forall x :: x in cancels <==> x in Losers(w, p)
      modifies this`scenarios, this`results, this`signals, this`events, this`points
      ensures scenarios.Keys == w.slices.Keys && forall x :: x in scenarios ==> SliceOf(x) == SliceAfter(w, p, x)
      ensures signals.Keys == w.signals.Keys
      ensures p.commits ==> forall g :: g in w.signals ==> signals[g] == SignalAfter(w, p, g)
      ensures !p.commits ==> signals == w.signals
    {
      AllWritten(w, p, seen, b, newly, activated, cancels, redis);
      if p.commits {
        WriteUnlessEmpty(p, b, cancels, w, seen, newly, activated);
      }
    }

    /** The second half of the cycle: sibling cancellation, then the batch. */
    method CancelAndCommit(p: Poll, b: Batch, newly: set<int>, activated: set<int>, ghost w: World,
                           ghost seen: map<int, Observation>)
      requires Lists(w, p.order) && RowsDone(w, p, |p.order|, seen, b, newly, activated)
      requires Loaded(w) && signals == w.signals && KeysFollow(w, redis, seen)
      modifies this`redis, this`scenarios, this`results, this`signals, this`events, this`points
      ensures scenarios.Keys == w.slices.Keys && forall x :: x in scenarios ==> SliceOf(x) == SliceAfter(w, p, x)
      ensures signals.Keys == w.signals.Keys
      ensures p.commits ==> forall g :: g in w.signals ==> signals[g] == SignalAfter(w, p, g)
      ensures !p.commits ==> signals == w.signals
    {
      LosersAreRows(w, p);
      forall j | 0 <= j < |p.order| ensures var r := scenarios[p.order[j]];
        (r.sc.signalId in newly && p.order[j] !in activated && r.status == Running && !r.active <==>
         p.order[j] in Losers(w, p))
      {
        SiblingTest(w, p, seen, b, newly, activated, j);
      }
      ghost var observed := redis;
      var cancels := CancelSiblings(p.order, newly, activated, w, Losers(w, p));
      LosersCleared(w, p, observed, redis, seen);
      Commit(p, b, cancels, w, seen, newly, activated);
    }

    /** One cycle. loads: the SELECT succeeds; p.order lists its rows; p.commits: the batch commits. */
    method EvaluateCycle(p: Poll, loads: bool)
      requires loads ==> Lists(State(), p.order)
      modifies this
      ensures State() == if loads then Cycle(old(State()), p) else old(State()).(cycle := old(cycle) + 1)
    {
      ghost var w := State();
      cycle := cycle + 1;
      if !loads {
        return;
      }
      var b, newly, activated;
      ghost var seen;
      b, newly, activated, seen := EvaluateRows(p, w);
      CancelAndCommit(p, b, newly, activated, w, seen);
      IsCycle(w, p, State());
    }

    // ----- startup recovery -----------------------------------------------------------------------

    /** Rebuild the keys of every entered scenario from the database; rows lists them.
        dbRead: the two SELECTs succeed. */
    method RecoverRedisState(rows: seq<int>, dbRead: bool)
      requires Distinct(rows)
      requires forall x :: x in rows <==>
        x in scenarios && scenarios[x].status == Running && scenarios[x].active && x in results
      modifies this`redis
      ensures forall x :: x in scenarios ==> SliceOf(x) == if dbRead then Recover(old(SliceOf(x))) else old(SliceOf(x))
    {
      if !dbRead {
        return;
      }
      var pipe := redis;
      for i := 0 to |rows|
        invariant forall x :: x in rows[..i] ==>
          KeysAt(pipe, x) == RecoverKeys(KeysAt(redis, x), results[x], For(points, x))
        invariant forall x :: x !in rows[..i] ==> KeysAt(pipe, x) == KeysAt(redis, x)
      {
        var x := rows[i];
        var sc, ps, k := results[x], For(points, x), KeysAt(redis, x);
        k := k.(entered := true, first := true);
        if Truthy(sc.entryPrice) {
          k := k.(entryPrice := sc.entryPrice);
        }
        if Truthy(sc.hitTp) {
          k := k.(bestTp := sc.hitTp);
        }
        if sc.hitTpIdx.Some? && sc.hitTpIdx.value != 0 {
          k := k.(bestTpIdx := sc.hitTpIdx);
        }
        if ps != [] {
          k := k.(min := Some(LowestPrice(ps)), max := Some(HighestPrice(ps)), lastHist := Some(LatestAt(ps)));
        } else if sc.enteredAt.Some? {
          k := k.(lastHist := sc.enteredAt);
        }
        pipe := pipe[x := k];
      }
      redis := pipe;
    }
  }
}
