/** At most one scenario of a signal ever enters: an invariant of every run, under any key
    loss, failed batch, restart or row order. */
module Exclusion {
  import opened Prelude
  import opened Domain
  import opened Machine
  import opened Audit

  predicate Siblings(w: World, x: int, y: int) {
    x in w.slices && y in w.slices && x != y && w.slices[x].sc.signalId == w.slices[y].sc.signalId
  }

  /** The committed log of x holds an entered event. */
  predicate HasEntered(w: World, x: int) {
    x in w.slices && Count(w.slices[x].log, IsEntered) > 0
  }

  ghost predicate AllSound(w: World) {
    forall x :: x in w.slices ==> Sound(w.slices[x]) && w.slices[x].sc.signalId in w.signals
  }

  ghost predicate Exclusive(w: World) {
    forall x, y :: Siblings(w, x, y) && HasEntered(w, x) ==> w.slices[y].status != Running && !HasEntered(w, y)
  }

  predicate IsActive(w: World, x: int) {
    x in w.slices && w.slices[x].active
  }

  /** signals.active holds exactly while the scenario named by active_scenarios_id is entered and running. */
  ghost predicate PointsAtActive(w: World, g: int)
    requires g in w.signals
  {
    var a := w.signals[g].activeScenario;
    && (a.Some? ==> a.value in w.slices && w.slices[a.value].sc.signalId == g)
    && (w.signals[g].active <==> a.Some? && IsActive(w, a.value))
  }

  ghost predicate Pointed(w: World) {
    && (forall g :: g in w.signals ==> PointsAtActive(w, g))
    && (forall x :: IsActive(w, x) && w.slices[x].sc.signalId in w.signals ==>
          w.signals[w.slices[x].sc.signalId].activeScenario == Some(x))
  }

  ghost predicate Consistent(w: World) {
    AllSound(w) && Exclusive(w) && Pointed(w)
  }

  /** A scenario enters exactly when it is its signal's winner. */
  lemma NewlyWins(w: World, p: Poll, x: int)
    requires AllSound(w) && Lists(w, p.order) && Picked(w, x)
    ensures var g := w.slices[x].sc.signalId;
            var m := Winners(w, p, p.order);
      Observe(w.slices[x], Get(p.candles, x), p.now, Skips(w, p, x)).newly <==> g in m && m[g] == x
    ensures w.slices[x].active ==> !Loses(w, p, x)
    ensures Loses(w, p, x) ==> Slow(w)
  {
    var s := w.slices[x];
    var m := Winners(w, p, p.order);
    ObservationLawful(s, Get(p.candles, x), p.now, Skips(w, p, x));
    StepEffect(s, Slow(w), Get(p.candles, x), p.now, true, false);
    if Candidate(w, x, p) { CandidateHasWinner(w, p, p.order, x); }
    if s.sc.signalId in m {
      WinnerIsCandidate(w, p, p.order, s.sc.signalId);
      var y := m[s.sc.signalId];
      StepEffect(w.slices[y], Slow(w), Get(p.candles, y), p.now, false, false);
    }
  }

  /** The committed effect of a cycle on any one scenario. */
  lemma CycleEffect(w: World, p: Poll, x: int)
    requires AllSound(w) && Lists(w, p.order) && x in w.slices && p.commits
    ensures var s := w.slices[x]; var s' := Cycle(w, p).slices[x];
            var m := Winners(w, p, p.order); var g := s.sc.signalId;
            var wins := g in m && m[g] == x;
      && s'.sc == s.sc
      && (wins ==> Picked(w, x))
      && Count(s'.log, IsEntered) == Count(s.log, IsEntered) + (if wins then 1 else 0)
      && (s'.active <==> (s.active || wins) && !ClosesActive(w, p, x))
      && (s.status != Running || Cancels(w, p, x) ==> s'.status != Running)
  {
    var s := w.slices[x];
    if s.sc.signalId in Winners(w, p, p.order) { WinnerIsCandidate(w, p, p.order, s.sc.signalId); }
    if Picked(w, x) {
      NewlyWins(w, p, x);
      StepEffect(s, Slow(w), Get(p.candles, x), p.now, Skips(w, p, x), Cancels(w, p, x));
    }
  }

  lemma CycleSound(w: World, p: Poll)
    requires AllSound(w) && Lists(w, p.order)
    ensures AllSound(Cycle(w, p))
  {
    forall x | x in w.slices ensures Sound(SliceAfter(w, p, x)) {
      StepSound(w.slices[x], Slow(w), Get(p.candles, x), p.now, Skips(w, p, x), Cancels(w, p, x), p.commits);
    }
  }

  lemma CycleExclusive(w: World, p: Poll)
    requires Consistent(w) && Lists(w, p.order) && p.commits
    ensures Exclusive(Cycle(w, p))
  {
    var w' := Cycle(w, p);
    forall x, y | Siblings(w', x, y) && HasEntered(w', x)
      ensures w'.slices[y].status != Running && !HasEntered(w', y)
    {
      CycleEffect(w, p, x);
      CycleEffect(w, p, y);
      assert Siblings(w, x, y) && Siblings(w, y, x);
      if !HasEntered(w, x) {
        assert Loses(w, p, y);
        if w.slices[y].status == Running {
          NewlyWins(w, p, x);
          StepEffect(w.slices[x], Slow(w), Get(p.candles, x), p.now, false, false);
          assert Slow(w);
          NewlyWins(w, p, y);
          assert Cancels(w, p, y);
        }
      }
    }
  }

  lemma SignalPointed(w: World, p: Poll, g: int)
    requires Consistent(w) && Lists(w, p.order) && p.commits && g in w.signals
    ensures PointsAtActive(Cycle(w, p), g)
  {
    var m := Winners(w, p, p.order);
    if g in m { WinnerIsCandidate(w, p, p.order, g); }
    var a := if g in m then Some(m[g]) else w.signals[g].activeScenario;
    assert Cycle(w, p).signals[g].activeScenario == a;
    if a.Some? { CycleEffect(w, p, a.value); }
  }

  lemma ActivePointed(w: World, p: Poll, x: int)
    requires Consistent(w) && Lists(w, p.order) && p.commits
    requires IsActive(Cycle(w, p), x) && w.slices[x].sc.signalId in w.signals
    ensures Cycle(w, p).signals[w.slices[x].sc.signalId].activeScenario == Some(x)
  {
    CycleEffect(w, p, x);
    if w.slices[x].active {
      assert IsActive(w, x);
      NewlyWins(w, p, x);
    }
  }

  lemma CyclePointed(w: World, p: Poll)
    requires Consistent(w) && Lists(w, p.order) && p.commits
    ensures Pointed(Cycle(w, p))
  {
    var w' := Cycle(w, p);
    forall g | g in w'.signals ensures PointsAtActive(w', g) {
      SignalPointed(w, p, g);
    }
    forall x | IsActive(w', x) && w'.slices[x].sc.signalId in w'.signals
      ensures w'.signals[w'.slices[x].sc.signalId].activeScenario == Some(x)
    {
      ActivePointed(w, p, x);
    }
  }

  lemma InsertConsistent(w: World, g: int, scs: map<int, Scenario>)
    requires Consistent(w) && Enabled(w, Insert(g, scs))
    ensures Consistent(Next(w, Insert(g, scs)))
  {
    var w' := Next(w, Insert(g, scs));
    forall x | x in w'.slices ensures Sound(w'.slices[x]) && w'.slices[x].sc.signalId in w'.signals {
      if x !in w.slices { FreshSound(scs[x]); }
    }
    forall x, y | Siblings(w', x, y) && HasEntered(w', x)
      ensures w'.slices[y].status != Running && !HasEntered(w', y)
    {
      assert x in w.slices && w.slices[x].sc.signalId in w.signals;
      assert Siblings(w, x, y) && HasEntered(w, x);
    }
  }

  /** The two states hold the same database; only Redis and the cycle counter may differ. */
  ghost predicate SameDatabase(w: World, w': World) {
    && w'.signals == w.signals
    && w'.slices.Keys == w.slices.Keys
    && forall x :: x in w.slices ==> w'.slices[x] == w.slices[x].(keys := w'.slices[x].keys)
  }

  lemma SameDatabaseConsistent(w: World, w': World)
    requires Consistent(w) && SameDatabase(w, w') && AllSound(w')
    ensures Consistent(w')
  {
    assert forall x, y :: Siblings(w', x, y) ==> Siblings(w, x, y);
    assert forall x :: HasEntered(w', x) <==> HasEntered(w, x);
    assert forall x :: IsActive(w', x) <==> IsActive(w, x);
  }

  lemma KeepsSlice(w: World, st: Step, x: int)
    requires AllSound(w) && Enabled(w, st) && x in w.slices
    requires st.LoadFails? || st.Lose? || st.Restart? || (st.Evaluation? && !st.poll.commits)
    ensures var s' := Next(w, st).slices[x]; s' == w.slices[x].(keys := s'.keys) && Sound(s')
  {
    NextSlice(w, st, x);
    var s := w.slices[x];
    assert Sound(s);
    match st {
      case Evaluation(p) =>
        StepSound(s, Slow(w), Get(p.candles, x), p.now, Skips(w, p, x), Cancels(w, p, x), p.commits);
      case Restart(kept, _) => RecoverSound(s.(keys := kept[x]));
      case _ =>
    }
  }

  /** Every step but an insert or a committed cycle leaves the database alone. */
  lemma KeepsDatabase(w: World, st: Step)
    requires AllSound(w) && Enabled(w, st)
    requires st.LoadFails? || st.Lose? || st.Restart? || (st.Evaluation? && !st.poll.commits)
    ensures SameDatabase(w, Next(w, st)) && AllSound(Next(w, st))
  {
    KeepsShape(w, st);
    forall x | x in w.slices
      ensures var s' := Next(w, st).slices[x]; s' == w.slices[x].(keys := s'.keys) && Sound(s')
    {
      KeepsSlice(w, st, x);
    }
  }

  lemma KeepsShape(w: World, st: Step)
    requires st.LoadFails? || st.Lose? || st.Restart? || (st.Evaluation? && !st.poll.commits)
    ensures Next(w, st).signals == w.signals
    ensures Next(w, st).slices.Keys == w.slices.Keys
  {
  }

  lemma NextConsistent(w: World, st: Step)
    requires Consistent(w) && Enabled(w, st)
    ensures Consistent(Next(w, st))
  {
    if st.Insert? {
      InsertConsistent(w, st.signal, st.scenarios);
    } else if st.Evaluation? && st.poll.commits {
      CycleSound(w, st.poll);
      CycleExclusive(w, st.poll);
      CyclePointed(w, st.poll);
    } else {
      KeepsDatabase(w, st);
      SameDatabaseConsistent(w, Next(w, st));
    }
  }

  /** Main result: the invariant holds in every state of every run from the empty machine. */
  lemma {:induction false} RunConsistent(steps: seq<Step>)
    requires Legal(EMPTY, steps)
    ensures Consistent(Exec(EMPTY, steps))
  {
    if steps != [] {
      RunConsistent(steps[..|steps| - 1]);
      NextConsistent(Exec(EMPTY, steps[..|steps| - 1]), steps[|steps| - 1]);
    }
  }

  /** Sibling exclusion, spelled out: two scenarios of one signal never both enter; once one has,
      the other is closed for good; and the signal row is active exactly while the scenario it names is. */
  lemma {:induction false} SiblingExclusion(steps: seq<Step>, x: int, y: int)
    requires Legal(EMPTY, steps)
    ensures var w := Exec(EMPTY, steps);
      && (Siblings(w, x, y) ==> !(HasEntered(w, x) && HasEntered(w, y)))
      && (Siblings(w, x, y) && HasEntered(w, x) ==> w.slices[y].status != Running && !w.slices[y].active)
      && (x in w.slices ==>
            var g := w.slices[x].sc.signalId;
            && g in w.signals
            && (w.slices[x].active <==> w.signals[g].active && w.signals[g].activeScenario == Some(x))
            && (w.slices[x].active ==> w.slices[x].status == Running))
      && (forall g :: g in w.signals ==> PointsAtActive(w, g))
  {
    RunConsistent(steps);
  }

  /** Terminal statuses are absorbing: nothing the machine does afterwards changes a closed
      scenario's database rows. */
  lemma {:induction false} TerminalAbsorbing(w: World, steps: seq<Step>, x: int)
    requires x in w.slices && w.slices[x].status != Running
    ensures x in Exec(w, steps).slices
    ensures Exec(w, steps).slices[x] == w.slices[x].(keys := Exec(w, steps).slices[x].keys)
  {
    if steps != [] {
      TerminalAbsorbing(w, steps[..|steps| - 1], x);
      NextSlice(Exec(w, steps[..|steps| - 1]), steps[|steps| - 1], x);
    }
  }
}
