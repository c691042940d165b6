/** The fixed-window limiter, and the sliding-window bound it really gives. */
module RateLimit {

  datatype Window = Window(count: int, resetAt: int, max: int, window: int)

  /** One request at time now: the new window state and the answer. */
  function Allowed(w: Window, now: int): (Window, bool) {
    var v := if now > w.resetAt then w.(count := 0, resetAt := now + w.window) else w;
    (v.(count := v.count + 1), v.count + 1 <= v.max)
  }

  class FixedWindow {
    var count: int
    var resetAt: int
    const max: int
    const window: int

    function State(): Window
      reads this
    {
      Window(count, resetAt, max, window)
    }

    constructor (max: int, window: int, now: int)
      ensures State() == Start(max, window, now)
    {
      this.max, this.window := max, window;
      count, resetAt := 0, now + window;
    }

    method Allow(now: int) returns (ok: bool)
      modifies this
      ensures (State(), ok) == Allowed(old(State()), now)
    {
      if now > resetAt {
        count := 0;
        resetAt := now + window;
      }
      count := count + 1;
      ok := count <= max;
    }
  }

  function Start(max: int, window: int, now: int): Window {
    Window(0, now + window, max, window)
  }

  // ----- serving a sequence of requests --------------------------------------------------

  /** A served request; epoch counts the resets up to and including it. */
  datatype Served = Served(at: int, epoch: nat, ok: bool)

  datatype Server = Server(state: Window, epoch: nat, log: seq<Served>)

  function ServeOne(s: Server, now: int): Server {
    var epoch := if now > s.state.resetAt then s.epoch + 1 else s.epoch;
    var answer := Allowed(s.state, now);
    Server(answer.0, epoch, s.log + [Served(now, epoch, answer.1)])
  }

  function Serve(w: Window, times: seq<int>): Server {
    if times == [] then Server(w, 0, []) else ServeOne(Serve(w, times[..|times| - 1]), times[|times| - 1])
  }

  /** Admitted requests in the closed interval [a, a + length]. */
  function Admitted(log: seq<Served>, a: int, length: int): nat {
    if log == [] then 0
    else
      var x := log[|log| - 1];
      Admitted(log[..|log| - 1], a, length) + if x.ok && a <= x.at <= a + length then 1 else 0
  }

  function AdmittedIn(log: seq<Served>, epoch: int): nat {
    if log == [] then 0
    else AdmittedIn(log[..|log| - 1], epoch) + if log[|log| - 1].ok && log[|log| - 1].epoch == epoch then 1 else 0
  }

  function Cap(w: Window): nat {
    if w.max > 0 then w.max else 0
  }

  ghost predicate NonDecreasing(times: seq<int>) {
    forall i, j :: 0 <= i <= j < |times| ==> times[i] <= times[j]
  }

  /** Epochs never go back, and two epochs further on is more than a window later. */
  ghost predicate Spread(log: seq<Served>, window: int) {
    forall i, j :: 0 <= i <= j < |log| ==>
      && log[i].at <= log[j].at && log[i].epoch <= log[j].epoch
      && (log[i].epoch + 2 <= log[j].epoch ==> log[j].at > log[i].at + window)
  }

  ghost predicate InEpochs(s: Server) {
    && (forall i :: 0 <= i < |s.log| ==> s.log[i].epoch <= s.epoch)
    && (forall i :: 0 <= i < |s.log| && s.log[i].epoch < s.epoch ==> s.log[i].at + s.state.window <= s.state.resetAt)
    && (s.epoch > 0 ==> s.log != [] && s.log[|s.log| - 1].epoch == s.epoch)
  }

  lemma EpochsStep(s: Server, now: int)
    requires InEpochs(s) && Spread(s.log, s.state.window)
    requires s.log != [] ==> s.log[|s.log| - 1].at <= now
    ensures InEpochs(ServeOne(s, now))
  {
    var t, n := ServeOne(s, now), |s.log|;
    forall i | 0 <= i < n ensures t.log[i] == s.log[i] && s.log[i].at <= now {
      assert s.log[i].at <= s.log[n - 1].at;
    }
  }

  lemma SpreadStep(s: Server, now: int)
    requires InEpochs(s) && Spread(s.log, s.state.window)
    requires s.log != [] ==> s.log[|s.log| - 1].at <= now
    ensures Spread(ServeOne(s, now).log, s.state.window)
  {
    var t, n := ServeOne(s, now), |s.log|;
    forall i | 0 <= i < n
      ensures s.log[i].at <= now && s.log[i].epoch <= t.epoch
      ensures s.log[i].epoch + 2 <= t.epoch ==> now > s.log[i].at + s.state.window
    {
      assert s.log[i].at <= s.log[n - 1].at;
    }
  }

  lemma {:induction false} ServeSpreads(w: Window, times: seq<int>)
    requires NonDecreasing(times)
    ensures var s := Serve(w, times);
      && |s.log| == |times| && (forall i :: 0 <= i < |times| ==> s.log[i].at == times[i])
      && s.state.max == w.max && s.state.window == w.window
      && InEpochs(s) && Spread(s.log, w.window)
  {
    if times != [] {
      var front, now := times[..|times| - 1], times[|times| - 1];
      ServeSpreads(w, front);
      if front != [] { assert front[|front| - 1] <= now; }
      EpochsStep(Serve(w, front), now);
      SpreadStep(Serve(w, front), now);
    }
  }

  /** An epoch admits at most max requests: the current one exactly as many as were counted. */
  lemma {:induction false} EpochAdmits(w: Window, times: seq<int>, e: int)
    requires w.count == 0
    ensures var s := Serve(w, times);
      && s.state.max == w.max && s.state.count >= 0
      && AdmittedIn(s.log, e) <= Cap(w)
      && (e == s.epoch ==> AdmittedIn(s.log, e) <= s.state.count)
      && (e > s.epoch ==> AdmittedIn(s.log, e) == 0)
      && (e == s.epoch && s.state.count <= Cap(w) ==> AdmittedIn(s.log, e) <= s.state.count)
  {
    if times != [] {
      EpochAdmits(w, times[..|times| - 1], e);
      var s := Serve(w, times[..|times| - 1]);
      var t := Serve(w, times);
      assert t.log[..|t.log| - 1] == s.log;
    }
  }

  /** Requests confined to two epochs are counted there. */
  lemma {:induction false} TwoEpochs(log: seq<Served>, a: int, length: int, e: int)
    requires forall x :: x in log && a <= x.at <= a + length ==> x.epoch == e || x.epoch == e + 1
    ensures Admitted(log, a, length) <= AdmittedIn(log, e) + AdmittedIn(log, e + 1)
  {
    if log != [] {
      TwoEpochs(log[..|log| - 1], a, length, e);
      assert log[|log| - 1] in log;
    }
  }

  lemma {:induction false} NoneAdmitted(log: seq<Served>, a: int, length: int)
    requires forall x :: x in log ==> !(a <= x.at <= a + length)
    ensures Admitted(log, a, length) == 0
  {
    if log != [] {
      assert log[|log| - 1] in log;
      NoneAdmitted(log[..|log| - 1], a, length);
    }
  }

  /** From its first request k on, the interval sees at most two epochs. */
  lemma ConfinedToTwo(log: seq<Served>, window: int, a: int, k: nat)
    requires Spread(log, window) && k < |log| && a <= log[k].at
    requires forall j :: 0 <= j < k ==> !(a <= log[j].at <= a + window)
    ensures forall x :: x in log && a <= x.at <= a + window ==> x.epoch == log[k].epoch || x.epoch == log[k].epoch + 1
  {
    forall x | x in log && a <= x.at <= a + window ensures x.epoch == log[k].epoch || x.epoch == log[k].epoch + 1 {
      var j :| 0 <= j < |log| && log[j] == x;
      assert k <= j;
    }
  }

  /** A spread log with a bound per epoch has twice that bound per window. */
  lemma TwoEpochBound(log: seq<Served>, window: int, a: int, cap: nat)
    requires Spread(log, window) && forall e: int :: AdmittedIn(log, e) <= cap
    ensures Admitted(log, a, window) <= 2 * cap
  {
    if i :| 0 <= i < |log| && a <= log[i].at <= a + window {
      var k := FirstIn(log, a, window, i);
      ConfinedToTwo(log, window, a, k);
      TwoEpochs(log, a, window, log[k].epoch);
    } else {
      NoneAdmitted(log, a, window);
    }
  }

  /** Main result: for requests in time order, every closed interval as long as the window contains at
      most 2 * max admitted requests. */
  lemma SlidingBound(w: Window, times: seq<int>, a: int)
    requires w.count == 0 && NonDecreasing(times)
    ensures Admitted(Serve(w, times).log, a, w.window) <= 2 * Cap(w)
  {
    ServeSpreads(w, times);
    forall e: int ensures AdmittedIn(Serve(w, times).log, e) <= Cap(w) {
      EpochAdmits(w, times, e);
    }
    TwoEpochBound(Serve(w, times).log, w.window, a, Cap(w));
  }

  /** Requests of one epoch, admitted or not. */
  function InEpoch(log: seq<Served>, epoch: int): nat {
    if log == [] then 0
    else InEpoch(log[..|log| - 1], epoch) + if log[|log| - 1].epoch == epoch then 1 else 0
  }

  /** The limiter turns nobody away early: a request is admitted exactly when fewer than max requests
      came before it in its epoch. */
  ghost predicate ServesFirst(log: seq<Served>, max: int) {
    forall i :: 0 <= i < |log| ==> (log[i].ok <==> InEpoch(log[..i], log[i].epoch) < max)
  }

  lemma {:induction false} NoneAhead(log: seq<Served>, epoch: int)
    requires forall i :: 0 <= i < |log| ==> log[i].epoch < epoch
    ensures InEpoch(log, epoch) == 0
  {
    if log != [] { NoneAhead(log[..|log| - 1], epoch); }
  }

  lemma ServesFirstExtend(log: seq<Served>, x: Served, max: int)
    requires ServesFirst(log, max) && (x.ok <==> InEpoch(log, x.epoch) < max)
    ensures ServesFirst(log + [x], max)
  {
    var log' := log + [x];
    forall i | 0 <= i < |log'| ensures log'[i].ok <==> InEpoch(log'[..i], log'[i].epoch) < max {
      assert log'[..i] == log[..i];
      if i == |log| { assert log[..i] == log; }
    }
  }

  lemma ServesFirstStep(s: Server, now: int)
    requires ServesFirst(s.log, s.state.max) && InEpochs(s) && s.state.count == InEpoch(s.log, s.epoch)
    ensures var t := ServeOne(s, now); ServesFirst(t.log, s.state.max) && t.state.count == InEpoch(t.log, t.epoch)
  {
    var t := ServeOne(s, now);
    var x := t.log[|s.log|];
    assert t.log == s.log + [x] && t.log[..|s.log|] == s.log;
    if now > s.state.resetAt { NoneAhead(s.log, s.epoch + 1); }
    ServesFirstExtend(s.log, x, s.state.max);
  }

  lemma {:induction false} AdmitsFirst(w: Window, times: seq<int>)
    requires w.count == 0 && NonDecreasing(times)
    ensures ServesFirst(Serve(w, times).log, w.max)
    ensures Serve(w, times).state.count == InEpoch(Serve(w, times).log, Serve(w, times).epoch)
  {
    if times != [] {
      var front := times[..|times| - 1];
      AdmitsFirst(w, front);
      ServeSpreads(w, front);
      ServesFirstStep(Serve(w, front), times[|times| - 1]);
    }
  }

  /** No epoch outlives its window: the first one ends at the limiter's own reset time, every later one
      a window after its first request. */
  ghost predicate Short(log: seq<Served>, window: int, firstReset: int) {
    forall j :: 0 <= j < |log| ==>
      && (log[j].epoch == 0 ==> log[j].at <= firstReset)
      && (log[j].epoch > 0 ==>
            forall i :: 0 <= i <= j && log[i].epoch == log[j].epoch ==> log[j].at <= log[i].at + window)
  }

  ghost predicate ResetsInTime(s: Server, firstReset: int) {
    if s.epoch == 0 then s.state.resetAt == firstReset
    else forall i :: 0 <= i < |s.log| && s.log[i].epoch == s.epoch ==> s.state.resetAt <= s.log[i].at + s.state.window
  }

  lemma {:induction false} EpochsAreShort(w: Window, times: seq<int>)
    requires NonDecreasing(times) && w.window >= 0
    ensures Short(Serve(w, times).log, w.window, w.resetAt) && ResetsInTime(Serve(w, times), w.resetAt)
  {
    if times != [] {
      var front := times[..|times| - 1];
      EpochsAreShort(w, front);
      ServeSpreads(w, front);
      var s, t := Serve(w, front), Serve(w, times);
      forall i | 0 <= i < |s.log| ensures t.log[i] == s.log[i] && s.log[i].epoch <= s.epoch {
      }
    }
  }

  /** The first request of the log inside the interval. */
  lemma {:induction false} FirstIn(log: seq<Served>, a: int, length: int, i: nat) returns (k: nat)
    requires i < |log| && a <= log[i].at <= a + length
    ensures k <= i && a <= log[k].at <= a + length
    ensures forall j :: 0 <= j < k ==> !(a <= log[j].at <= a + length)
  {
    if j :| 0 <= j < i && a <= log[j].at <= a + length {
      k := FirstIn(log, a, length, j);
    } else {
      k := i;
    }
  }

  // ----- the bound is reached ---------------------------------------------------------------------------

  function Copies(t: int, n: nat): seq<int> {
    seq(n, i => t)
  }

  function Granted(t: int, epoch: nat, n: nat): seq<Served> {
    seq(n, i => Served(t, epoch, true))
  }

  lemma {:induction false} FirstBurst(w: Window, t: int, n: nat)
    requires w.count == 0 && t <= w.resetAt && n <= w.max
    ensures Serve(w, Copies(t, n)) == Server(w.(count := n), 0, Granted(t, 0, n))
  {
    if n > 0 {
      FirstBurst(w, t, n - 1);
      assert Copies(t, n)[..n - 1] == Copies(t, n - 1);
      assert Granted(t, 0, n) == Granted(t, 0, n - 1) + [Served(t, 0, true)];
    }
  }

  lemma {:induction false} SecondBurst(w: Window, t: int, m: nat, n: nat)
    requires w.count == 0 && t == w.resetAt && m <= w.max && 0 < n <= w.max && w.window > 0
    ensures Serve(w, Copies(t, m) + Copies(t + 1, n)) ==
      Server(Window(n, t + 1 + w.window, w.max, w.window), 1, Granted(t, 0, m) + Granted(t + 1, 1, n))
  {
    var times := Copies(t, m) + Copies(t + 1, n);
    assert times[..|times| - 1] == Copies(t, m) + Copies(t + 1, n - 1);
    if n == 1 {
      FirstBurst(w, t, m);
      assert Copies(t, m) + Copies(t + 1, 0) == Copies(t, m);
      assert Granted(t + 1, 1, 1) == [Served(t + 1, 1, true)];
    } else {
      SecondBurst(w, t, m, n - 1);
      assert Granted(t, 0, m) + Granted(t + 1, 1, n) ==
        Granted(t, 0, m) + Granted(t + 1, 1, n - 1) + [Served(t + 1, 1, true)];
    }
  }

  lemma {:induction false} AllAdmitted(log: seq<Served>, a: int, length: int)
    requires forall i :: 0 <= i < |log| ==> log[i].ok && a <= log[i].at <= a + length
    ensures Admitted(log, a, length) == |log|
  {
    if log != [] { AllAdmitted(log[..|log| - 1], a, length); }
  }

  lemma BurstsOrdered(t: int, n: nat)
    ensures NonDecreasing(Copies(t, n) + Copies(t + 1, n))
  {
  }

  lemma GrantedAdmitted(t: int, n: nat, window: int)
    requires window > 0
    ensures Admitted(Granted(t, 0, n) + Granted(t + 1, 1, n), t + 1 - window, window) == 2 * n
  {
    var log := Granted(t, 0, n) + Granted(t + 1, 1, n);
    assert |log| == 2 * n;
    AllAdmitted(log, t + 1 - window, window);
  }

  /** The factor two is reached by every limiter with a positive window: max requests at its reset time and
      as many one tick later, all within one window length. */
  lemma {:induction false} BoundIsTight(max: nat, window: int, now: int)
    requires window > 0
    ensures var w := Start(max, window, now); var t := now + window;
            var times := Copies(t, max) + Copies(t + 1, max);
      NonDecreasing(times) && Admitted(Serve(w, times).log, t + 1 - window, window) == 2 * max == 2 * Cap(w)
  {
    var w, t := Start(max, window, now), now + window;
    BurstsOrdered(t, max);
    GrantedAdmitted(t, max, window);
    if max == 0 {
      assert Copies(t, 0) + Copies(t + 1, 0) == [] && Granted(t, 0, 0) + Granted(t + 1, 1, 0) == [];
    } else {
      SecondBurst(w, t, max, max);
    }
  }
}
