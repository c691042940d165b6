/** The tick buffer: the price streamer keeps one timestamp per price text in a Redis sorted
    set, trimmed at 60 s; the evaluator reads candles from it. High, low and close agree with
    the full tick log. */
module TickBuffer {
  import opened Prelude
  import opened Domain

  const KEEP_SECONDS := 60.0      // trimming window of the writer
  const KEY_TTL := 90.0           // expiry of both keys
  const TICK_WINDOW := 12.0       // what the evaluator looks back at

  /** A published price text and its time; also a member of the sorted set and its score. */
  datatype Tick = Tick(text: string, at: real)

  // ----- sorted-set operations ----------------------------------------------------------

  predicate LexLess(a: string, b: string) {
    if b == [] then false
    else if a == [] then true
    else a[0] < b[0] || (a[0] == b[0] && LexLess(a[1..], b[1..]))
  }

  /** a is a proper beginning of b, or smaller at the first difference. */
  ghost predicate LexBefore(a: string, b: string, i: nat) {
    i <= |a| && i < |b| && a[..i] == b[..i] && (i == |a| || a[i] < b[i])
  }

  lemma {:induction false} LexLessMeans(a: string, b: string)
    ensures LexLess(a, b) <==> exists i: nat :: LexBefore(a, b, i)
  {
    if a != [] && b != [] && a[0] == b[0] {
      LexLessMeans(a[1..], b[1..]);
      if i: nat :| LexBefore(a[1..], b[1..], i) {
        assert a[..i + 1] == [a[0]] + a[1..][..i] && b[..i + 1] == [b[0]] + b[1..][..i];
        assert LexBefore(a, b, i + 1);
      }
      if i: nat :| LexBefore(a, b, i) {
        assert a[1..][..i - 1] == a[..i][1..];
        assert b[1..][..i - 1] == b[..i][1..];
        assert LexBefore(a[1..], b[1..], i - 1);
      }
    } else if b != [] {
      assert a[..0] == b[..0];
      assert LexLess(a, b) ==> LexBefore(a, b, 0);
      if i: nat :| LexBefore(a, b, i) {
        if i > 0 { assert a[..i][0] == b[..i][0]; }
      }
    }
  }

  /** Sorted-set order: by score, then by member. */
  predicate Before(a: Tick, b: Tick) {
    a.at < b.at || (a.at == b.at && LexLess(a.text, b.text))
  }

  function Without(z: seq<Tick>, text: string): seq<Tick> {
    if z == [] then []
    else if z[|z| - 1].text == text then Without(z[..|z| - 1], text)
    else Without(z[..|z| - 1], text) + [z[|z| - 1]]
  }

  function Place(z: seq<Tick>, t: Tick): seq<Tick> {
    if z == [] || Before(z[|z| - 1], t) then z + [t] else Place(z[..|z| - 1], t) + [z[|z| - 1]]
  }

  /** ZADD: one score per member. */
  function Add(z: seq<Tick>, t: Tick): seq<Tick> {
    Place(Without(z, t.text), t)
  }

  /** The members with a score of at least from: ZRANGEBYSCORE from +inf. */
  function Since(z: seq<Tick>, from: real): seq<Tick> {
    if z == [] then []
    else if z[|z| - 1].at >= from then Since(z[..|z| - 1], from) + [z[|z| - 1]]
    else Since(z[..|z| - 1], from)
  }

  /** ZREMRANGEBYSCORE -inf cutoff. */
  function Trim(z: seq<Tick>, cutoff: real): seq<Tick> {
    if z == [] then []
    else if z[|z| - 1].at <= cutoff then Trim(z[..|z| - 1], cutoff)
    else Trim(z[..|z| - 1], cutoff) + [z[|z| - 1]]
  }

  // ----- candles ------------------------------------------------------------------------------

  function Highest(ps: seq<real>): (m: real)
    requires ps != []
    ensures m in ps && forall p :: p in ps ==> p <= m
  {
    assert ps == ps[..|ps| - 1] + [ps[|ps| - 1]];
    if |ps| == 1 then ps[0] else Max(Highest(ps[..|ps| - 1]), ps[|ps| - 1])
  }

  function Lowest(ps: seq<real>): (m: real)
    requires ps != []
    ensures m in ps && forall p :: p in ps ==> m <= p
  {
    assert ps == ps[..|ps| - 1] + [ps[|ps| - 1]];
    if |ps| == 1 then ps[0] else Min(Lowest(ps[..|ps| - 1]), ps[|ps| - 1])
  }

  function Values(z: seq<Tick>, parse: string -> real): (ps: seq<real>)
    ensures |ps| == |z| && forall i :: 0 <= i < |z| ==> ps[i] == parse(z[i].text)
  {
    seq(|z|, i requires 0 <= i < |z| => parse(z[i].text))
  }

  function CandleOf(z: seq<Tick>, parse: string -> real): Candle
    requires z != []
  {
    var ps := Values(z, parse);
    Candle(ps[0], Highest(ps), Lowest(ps), ps[|ps| - 1])
  }

  // ----- what the buffer is, given the full log --------------------------------------------------

  ghost predicate Increasing(log: seq<Tick>) {
    forall i, j :: 0 <= i < j < |log| ==> log[i].at < log[j].at
  }

  /** The last tick of every text, in time order. */
  function Compress(log: seq<Tick>): seq<Tick> {
    if log == [] then []
    else Without(Compress(log[..|log| - 1]), log[|log| - 1].text) + [log[|log| - 1]]
  }

  ghost predicate AllBefore(z: seq<Tick>, at: real) {
    forall t :: t in z ==> t.at < at
  }

  lemma {:induction false} WithoutSubset(z: seq<Tick>, text: string)
    ensures forall t :: t in Without(z, text) <==> t in z && t.text != text
  {
    if z != [] {
      WithoutSubset(z[..|z| - 1], text);
      assert z == z[..|z| - 1] + [z[|z| - 1]];
    }
  }

  lemma {:induction false} TrimSubset(z: seq<Tick>, cutoff: real)
    ensures forall t :: t in Trim(z, cutoff) <==> t in z && t.at > cutoff
  {
    if z != [] {
      TrimSubset(z[..|z| - 1], cutoff);
      assert z == z[..|z| - 1] + [z[|z| - 1]];
    }
  }

  lemma {:induction false} SinceSubset(z: seq<Tick>, from: real)
    ensures forall t :: t in Since(z, from) <==> t in z && t.at >= from
  {
    if z != [] {
      SinceSubset(z[..|z| - 1], from);
      assert z == z[..|z| - 1] + [z[|z| - 1]];
    }
  }

  lemma CompressLast(log: seq<Tick>)
    requires log != []
    ensures Compress(log) != [] && Compress(log)[|Compress(log)| - 1] == log[|log| - 1]
  {
  }

  /** Compression keeps ticks of the log only. */
  lemma {:induction false} CompressSubset(log: seq<Tick>)
    ensures forall t :: t in Compress(log) ==> t in log
  {
    if log != [] {
      CompressSubset(log[..|log| - 1]);
      WithoutSubset(Compress(log[..|log| - 1]), log[|log| - 1].text);
    }
  }

  /** Compression keeps every text. */
  lemma {:induction false} CompressCovers(log: seq<Tick>, t: Tick) returns (u: Tick)
    requires t in log
    ensures u in Compress(log) && u.text == t.text
  {
    var front, last := log[..|log| - 1], log[|log| - 1];
    if t.text == last.text {
      u := last;
    } else {
      assert log == front + [last];
      u := CompressCovers(front, t);
      WithoutSubset(Compress(front), last.text);
    }
  }

  lemma AddIsAppend(z: seq<Tick>, t: Tick)
    requires AllBefore(z, t.at)
    ensures Add(z, t) == Without(z, t.text) + [t]
  {
    WithoutSubset(z, t.text);
    var v := Without(z, t.text);
    if v != [] { assert v[|v| - 1] in v; }
  }

  lemma {:induction false} TrimAppend(z: seq<Tick>, t: Tick, cutoff: real)
    ensures Trim(z + [t], cutoff) == Trim(z, cutoff) + if t.at > cutoff then [t] else []
  {
    assert (z + [t])[..|z|] == z;
  }

  lemma {:induction false} TrimWithout(z: seq<Tick>, text: string, cutoff: real)
    ensures Trim(Without(z, text), cutoff) == Without(Trim(z, cutoff), text)
  {
    if z != [] {
      var front, last := z[..|z| - 1], z[|z| - 1];
      TrimWithout(front, text, cutoff);
      if last.text != text { TrimAppend(Without(front, text), last, cutoff); }
      if last.at > cutoff { WithoutAppend(Trim(front, cutoff), last, text); }
    }
  }

  lemma WithoutAppend(z: seq<Tick>, t: Tick, text: string)
    ensures Without(z + [t], text) == Without(z, text) + if t.text != text then [t] else []
  {
    assert (z + [t])[..|z|] == z;
  }

  lemma {:induction false} TrimTwice(z: seq<Tick>, a: real, b: real)
    requires a <= b
    ensures Trim(Trim(z, a), b) == Trim(z, b)
  {
    if z != [] {
      var front, last := z[..|z| - 1], z[|z| - 1];
      TrimTwice(front, a, b);
      if last.at > a { TrimAppend(Trim(front, a), last, b); }
    }
  }

  /** The compressed log with everything KEEP_SECONDS or more before now trimmed away. */
  function BufferAt(log: seq<Tick>, now: real): seq<Tick> {
    Trim(Compress(log), now - KEEP_SECONDS)
  }

  /** What the sorted set must hold after the log has been published. */
  function Buffered(log: seq<Tick>): seq<Tick> {
    if log == [] then [] else BufferAt(log, log[|log| - 1].at)
  }

  lemma BufferedIsOlder(log: seq<Tick>, t: Tick)
    requires Increasing(log + [t])
    ensures AllBefore(Buffered(log), t.at)
  {
    CompressSubset(log);
    if log != [] { TrimSubset(Compress(log), log[|log| - 1].at - KEEP_SECONDS); }
    forall u | u in Buffered(log) ensures u.at < t.at {
      var i :| 0 <= i < |log| && log[i] == u;
      assert (log + [t])[i].at < (log + [t])[|log|].at;
    }
  }

  lemma BufferedTrimmed(log: seq<Tick>, cutoff: real)
    requires log != [] ==> log[|log| - 1].at - KEEP_SECONDS <= cutoff
    ensures Trim(Buffered(log), cutoff) == Trim(Compress(log), cutoff)
  {
    if log != [] { TrimTwice(Compress(log), log[|log| - 1].at - KEEP_SECONDS, cutoff); }
  }

  /** ZADD, then ZREMRANGEBYSCORE. */
  function Published(z: seq<Tick>, t: Tick): seq<Tick> {
    Trim(Add(z, t), t.at - KEEP_SECONDS)
  }

  /** Replacing a member and trimming sees only what the trim leaves. */
  lemma ReplaceTrimmed(z: seq<Tick>, y: seq<Tick>, t: Tick, cutoff: real)
    requires Trim(z, cutoff) == Trim(y, cutoff)
    ensures Trim(Without(z, t.text) + [t], cutoff) == Trim(Without(y, t.text) + [t], cutoff)
  {
    TrimAppend(Without(z, t.text), t, cutoff);
    TrimAppend(Without(y, t.text), t, cutoff);
    TrimWithout(z, t.text, cutoff);
    TrimWithout(y, t.text, cutoff);
  }

  lemma CompressAppend(log: seq<Tick>, t: Tick)
    ensures Compress(log + [t]) == Without(Compress(log), t.text) + [t]
  {
    assert (log + [t])[..|log|] == log;
  }

  lemma PublishedIsAppend(log: seq<Tick>, t: Tick)
    requires Increasing(log + [t])
    ensures Published(Buffered(log), t) == Trim(Without(Buffered(log), t.text) + [t], t.at - KEEP_SECONDS)
  {
    BufferedIsOlder(log, t);
    AddIsAppend(Buffered(log), t);
  }

  lemma LastIsOlder(log: seq<Tick>, t: Tick)
    requires Increasing(log + [t]) && log != []
    ensures log[|log| - 1].at < t.at
  {
    assert (log + [t])[|log| - 1].at < (log + [t])[|log|].at;
  }

  lemma CompressedAppendTrimmed(log: seq<Tick>, t: Tick)
    ensures Trim(Without(Compress(log), t.text) + [t], t.at - KEEP_SECONDS) == BufferAt(log + [t], t.at)
  {
    CompressAppend(log, t);
  }

  lemma BufferReplaced(log: seq<Tick>, t: Tick)
    requires Increasing(log + [t])
    ensures var cutoff := t.at - KEEP_SECONDS;
      Trim(Without(Buffered(log), t.text) + [t], cutoff) == Trim(Without(Compress(log), t.text) + [t], cutoff)
  {
    if log != [] { LastIsOlder(log, t); }
    BufferedTrimmed(log, t.at - KEEP_SECONDS);
    ReplaceTrimmed(Buffered(log), Compress(log), t, t.at - KEEP_SECONDS);
  }

  lemma BufferedAppend(log: seq<Tick>, t: Tick)
    ensures Buffered(log + [t]) == BufferAt(log + [t], t.at)
  {
    assert (log + [t])[|log + [t]| - 1] == t;
  }

  /** Publishing one more tick takes the buffer of the log to the buffer of the longer log. */
  lemma PublishStep(log: seq<Tick>, t: Tick)
    requires Increasing(log + [t])
    ensures Published(Buffered(log), t) == Buffered(log + [t])
  {
    PublishedIsAppend(log, t);
    BufferReplaced(log, t);
    CompressedAppendTrimmed(log, t);
    BufferedAppend(log, t);
  }

  // ----- the window the evaluator reads -----------------------------------------------------------

  lemma SinceAppend(z: seq<Tick>, t: Tick, from: real)
    ensures Since(z + [t], from) == Since(z, from) + if t.at >= from then [t] else []
  {
    assert (z + [t])[..|z|] == z;
  }

  lemma {:induction false} SinceTrim(z: seq<Tick>, cutoff: real, from: real)
    requires cutoff < from
    ensures Since(Trim(z, cutoff), from) == Since(z, from)
  {
    if z != [] {
      var front, last := z[..|z| - 1], z[|z| - 1];
      SinceTrim(front, cutoff, from);
      if last.at > cutoff { SinceAppend(Trim(front, cutoff), last, from); }
    }
  }

  lemma {:induction false} SinceWithout(z: seq<Tick>, text: string, from: real)
    ensures Since(Without(z, text), from) == Without(Since(z, from), text)
  {
    if z != [] {
      var front, last := z[..|z| - 1], z[|z| - 1];
      SinceWithout(front, text, from);
      if last.text != text { SinceAppend(Without(front, text), last, from); }
      if last.at >= from { WithoutAppend(Since(front, from), last, text); }
    }
  }

  lemma {:induction false} NoneSince(z: seq<Tick>, from: real)
    requires AllBefore(z, from)
    ensures Since(z, from) == []
  {
    if z != [] {
      assert z[|z| - 1] in z;
      NoneSince(z[..|z| - 1], from);
    }
  }

  /** Windowing and compressing commute. */
  lemma {:induction false} WindowOfCompressed(log: seq<Tick>, from: real)
    requires Increasing(log)
    ensures Since(Compress(log), from) == Compress(Since(log, from))
  {
    if log != [] {
      var front, last := log[..|log| - 1], log[|log| - 1];
      WindowOfCompressed(front, from);
      SinceAppend(Without(Compress(front), last.text), last, from);
      SinceWithout(Compress(front), last.text, from);
      if last.at >= from {
        assert (Since(front, from) + [last])[..|Since(front, from)|] == Since(front, from);
      } else {
        forall t | t in front ensures t.at < from {
          var i :| 0 <= i < |front| && front[i] == t;
          assert log[i].at < log[|log| - 1].at;
        }
        NoneSince(front, from);
      }
    }
  }

  lemma {:induction false} NoneLeft(z: seq<Tick>, cutoff: real)
    requires forall t :: t in z ==> t.at <= cutoff
    ensures Trim(z, cutoff) == []
  {
    if z != [] {
      assert z[|z| - 1] in z;
      NoneLeft(z[..|z| - 1], cutoff);
    }
  }

  /** Trimming and compressing commute too. */
  lemma {:induction false} TrimOfCompressed(log: seq<Tick>, cutoff: real)
    requires Increasing(log)
    ensures Trim(Compress(log), cutoff) == Compress(Trim(log, cutoff))
  {
    if log != [] {
      var front, last := log[..|log| - 1], log[|log| - 1];
      TrimOfCompressed(front, cutoff);
      TrimAppend(Without(Compress(front), last.text), last, cutoff);
      TrimWithout(Compress(front), last.text, cutoff);
      if last.at > cutoff {
        CompressAppend(Trim(front, cutoff), last);
      } else {
        forall t | t in front ensures t.at <= cutoff {
          var i :| 0 <= i < |front| && front[i] == t;
          assert log[i].at < log[|log| - 1].at;
        }
        NoneLeft(front, cutoff);
      }
    }
  }

  lemma {:induction false} TrimIncreasing(log: seq<Tick>, cutoff: real)
    requires Increasing(log)
    ensures Increasing(Trim(log, cutoff))
  {
    if log != [] {
      var front, last := log[..|log| - 1], log[|log| - 1];
      TrimIncreasing(front, cutoff);
      TrimSubset(front, cutoff);
      forall i | 0 <= i < |Trim(front, cutoff)| ensures Trim(front, cutoff)[i].at < last.at {
        assert Trim(front, cutoff)[i] in front;
      }
    }
  }

  /** The ticks of the log that the writer's last trim has left. */
  function Kept(log: seq<Tick>): seq<Tick> {
    if log == [] then [] else Trim(log, log[|log| - 1].at - KEEP_SECONDS)
  }

  /** The ticks a reader at time now can see: of the kept ones those of its window. */
  function Visible(log: seq<Tick>, now: real): seq<Tick> {
    Since(Kept(log), now - TICK_WINDOW)
  }

  /** A tick is visible if it is at most 12 seconds old for the reader and was less than 60 seconds old at the
      last publication. */
  lemma VisibleTicks(log: seq<Tick>, now: real)
    ensures forall t :: t in Visible(log, now) <==>
      t in log && now - t.at <= 12.0 && log[|log| - 1].at - t.at < 60.0
  {
    SinceSubset(Kept(log), now - TICK_WINDOW);
    if log != [] { TrimSubset(log, log[|log| - 1].at - KEEP_SECONDS); }
  }

  /** Unless the reader's clock lags the writer's by 48 s or more, that is the whole window. */
  lemma VisibleIsWindow(log: seq<Tick>, now: real)
    requires log != [] ==> log[|log| - 1].at - KEEP_SECONDS < now - TICK_WINDOW
    ensures Visible(log, now) == Since(log, now - TICK_WINDOW)
  {
    if log != [] { SinceTrim(log, log[|log| - 1].at - KEEP_SECONDS, now - TICK_WINDOW); }
  }

  /** What the reader gets from the buffer is the compression of what it can see. */
  lemma BufferShowsVisible(log: seq<Tick>, now: real)
    requires Increasing(log)
    ensures Since(Buffered(log), now - TICK_WINDOW) == Compress(Visible(log, now))
  {
    if log != [] {
      var cutoff := log[|log| - 1].at - KEEP_SECONDS;
      TrimOfCompressed(log, cutoff);
      TrimIncreasing(log, cutoff);
      WindowOfCompressed(Kept(log), now - TICK_WINDOW);
    }
  }

  lemma SameExtremes(ps: seq<real>, qs: seq<real>)
    requires ps != [] && qs != [] && (forall p :: p in ps ==> p in qs) && (forall q :: q in qs ==> q in ps)
    ensures Highest(ps) == Highest(qs) && Lowest(ps) == Lowest(qs)
  {
  }

  /** A compressed window has the high, low and close of the full one. */
  lemma CompressedCandle(w: seq<Tick>, parse: string -> real)
    requires w != []
    ensures Compress(w) != []
    ensures var a, b := CandleOf(Compress(w), parse), CandleOf(w, parse);
      a.high == b.high && a.low == b.low && a.close == b.close
  {
    CompressSubset(w);
    CompressLast(w);
    var z := Compress(w);
    var ps, qs := Values(z, parse), Values(w, parse);
    forall p | p in ps ensures p in qs {
      var i :| 0 <= i < |ps| && ps[i] == p;
      assert z[i] in w;
      var j :| 0 <= j < |w| && w[j] == z[i];
      assert qs[j] == p;
    }
    forall q | q in qs ensures q in ps {
      var j :| 0 <= j < |qs| && qs[j] == q;
      var u := CompressCovers(w, w[j]);
      var i :| 0 <= i < |z| && z[i] == u;
      assert ps[i] == q;
    }
    SameExtremes(ps, qs);
  }

  /** A reader that sees a tick reads before the keys expire. */
  lemma VisibleIsFresh(log: seq<Tick>, now: real)
    requires Increasing(log) && Visible(log, now) != []
    ensures log != [] && now < log[|log| - 1].at + KEY_TTL
  {
    SinceSubset(Kept(log), now - TICK_WINDOW);
    var t := Visible(log, now)[0];
    assert t in Kept(log);
    TrimSubset(log, log[|log| - 1].at - KEEP_SECONDS);
    var i :| 0 <= i < |log| && log[i] == t;
  }

  /** The candle of what the buffer shows, against that of what is visible. */
  lemma CandleSeen(log: seq<Tick>, now: real, parse: string -> real)
    requires Increasing(log)
    ensures var w, z := Visible(log, now), Since(Buffered(log), now - TICK_WINDOW);
      && (z == [] <==> w == [])
      && (w != [] ==>
            && log != [] && now < log[|log| - 1].at + KEY_TTL
            && var a, b := CandleOf(z, parse), CandleOf(w, parse);
            && a.high == b.high && a.low == b.low && a.close == b.close
            && z == Compress(w))
  {
    BufferShowsVisible(log, now);
    if Visible(log, now) != [] {
      VisibleIsFresh(log, now);
      CompressedCandle(Visible(log, now), parse);
    }
  }

  /** What a candle says of the ticks it was made from: high and low are attained and bound every price, and
      the close is the last one. */
  ghost predicate Summarises(c: Candle, w: seq<Tick>, parse: string -> real) {
    && w != []
    && (forall t :: t in w ==> c.low <= parse(t.text) <= c.high)
    && (exists t :: t in w && parse(t.text) == c.high)
    && (exists t :: t in w && parse(t.text) == c.low)
    && c.close == parse(w[|w| - 1].text)
  }

  lemma CandleSummarises(w: seq<Tick>, parse: string -> real)
    requires w != []
    ensures Summarises(CandleOf(w, parse), w, parse)
  {
    var c, ps := CandleOf(w, parse), Values(w, parse);
    forall t | t in w ensures c.low <= parse(t.text) <= c.high {
      var i :| 0 <= i < |w| && w[i] == t;
      assert ps[i] in ps;
    }
    var i :| 0 <= i < |ps| && ps[i] == c.high;
    var j :| 0 <= j < |ps| && ps[j] == c.low;
    assert w[i] in w && w[j] in w;
  }

  // ----- the keys in place --------------------------------------------------------------------------

  class PriceKeys {
    const parse: string -> real           // Python's float() on price texts
    var last: Option<Tick>                // {sym}usdt and the time it was set
    var ticks: seq<Tick>                  // prices:{sym}:ticks
    ghost var log: seq<Tick>              // everything ever published

    ghost predicate Valid()
      reads this
    {
      && Increasing(log) && ticks == Buffered(log)
      && last == if log == [] then None else Some(log[|log| - 1])
    }

    constructor (parse: string -> real)
      ensures Valid() && log == [] && this.parse == parse
    {
      this.parse := parse;
      last, ticks, log := None, [], [];
    }

    /** Publish a price text at time now, later than every earlier one. */
    method Publish(text: string, now: real)
      requires Valid() && Increasing(log + [Tick(text, now)])
      modifies this
      ensures Valid() && log == old(log) + [Tick(text, now)]
    {
      var t := Tick(text, now);
      PublishStep(log, t);
      last := Some(t);
      ticks := Published(ticks, t);
      log := log + [t];
    }

    /** A key set at t is gone KEY_TTL seconds later. */
    predicate Alive(now: real)
      reads this
    {
      last.Some? && now < last.value.at + KEY_TTL
    }

    /** The evaluator's candle at time now: the tick window, else the last price, else none. Over visible ticks
        its high and low bound every price published and are attained, and its close is the last one. */
    method ReadCandle(now: real) returns (c: Option<Candle>)
      requires Valid()
      ensures c.Some? ==> Shaped(c.value)
      ensures c.None? <==> Visible(log, now) == [] && (log == [] || now - log[|log| - 1].at >= 90.0)
      ensures Visible(log, now) != [] ==> c.Some? && Summarises(c.value, Visible(log, now), parse)
      ensures var w := Visible(log, now);
        if w != [] then
          c.Some? && c.value.high == CandleOf(w, parse).high && c.value.low == CandleOf(w, parse).low
          && c.value.close == CandleOf(w, parse).close && c.value.open == CandleOf(Compress(w), parse).open
        else if log != [] && now < log[|log| - 1].at + KEY_TTL then
          c == Some(var p := parse(log[|log| - 1].text); Candle(p, p, p, p))
        else c.None?
    {
      CandleSeen(log, now, parse);
      if Visible(log, now) != [] { CandleSummarises(Visible(log, now), parse); }
      var z := if Alive(now) then Since(ticks, now - TICK_WINDOW) else [];
      if z != [] {
        return Some(CandleOf(z, parse));
      }
      if Alive(now) {
        var p := parse(last.value.text);
        return Some(Candle(p, p, p, p));
      }
      return None;
    }
  }

  // ----- the open is not preserved --------------------------------------------------------------------

  /** The text of the i-th tick is published again later. */
  predicate Repeats(w: seq<Tick>, i: nat)
    requires i < |w|
  {
    exists j :: i < j < |w| && w[j].text == w[i].text
  }

  /** The ticks whose text is not published again. */
  function Unrepeated(w: seq<Tick>): seq<Tick> {
    if w == [] then []
    else if Repeats(w, 0) then Unrepeated(w[1..])
    else [w[0]] + Unrepeated(w[1..])
  }

  lemma {:induction false} WithoutCons(a: Tick, z: seq<Tick>, text: string)
    ensures Without([a] + z, text) == (if a.text == text then [] else [a]) + Without(z, text)
  {
    if z == [] {
      assert [a] + z == [] + [a];
      WithoutAppend([], a, text);
    } else {
      WithoutCons(a, z[..|z| - 1], text);
      assert [a] + z == ([a] + z[..|z| - 1]) + [z[|z| - 1]];
      WithoutAppend([a] + z[..|z| - 1], z[|z| - 1], text);
    }
  }

  lemma RepeatsAppend(w: seq<Tick>, t: Tick)
    requires w != []
    ensures Repeats(w + [t], 0) <==> Repeats(w, 0) || w[0].text == t.text
  {
    var v := w + [t];
    if w[0].text == t.text { assert v[|w|].text == v[0].text; }
    if Repeats(w, 0) {
      var j :| 0 < j < |w| && w[j].text == w[0].text;
      assert v[j].text == v[0].text;
    }
  }

  lemma UnrepeatedUnfold(w: seq<Tick>)
    requires w != []
    ensures Unrepeated(w) == (if Repeats(w, 0) then [] else [w[0]]) + Unrepeated(w[1..])
  {
  }

  lemma {:induction false} UnrepeatedAppend(w: seq<Tick>, t: Tick)
    ensures Unrepeated(w + [t]) == Without(Unrepeated(w), t.text) + [t]
  {
    var v := w + [t];
    UnrepeatedUnfold(v);
    if w == [] {
      assert v == [t] && v[1..] == [];
    } else {
      assert v[1..] == w[1..] + [t] && v[0] == w[0];
      UnrepeatedAppend(w[1..], t);
      RepeatsAppend(w, t);
      UnrepeatedUnfold(w);
      WithoutCons(w[0], Unrepeated(w[1..]), t.text);
    }
  }

  lemma {:induction false} CompressIsUnrepeated(w: seq<Tick>)
    ensures Compress(w) == Unrepeated(w)
  {
    if w != [] {
      var front, last := w[..|w| - 1], w[|w| - 1];
      assert w == front + [last];
      CompressIsUnrepeated(front);
      UnrepeatedAppend(front, last);
    }
  }

  /** The buffer's open is the price of the first tick of the window that is not published again in it,
      so it is the true open exactly when that price is the price of the first tick. */
  lemma {:induction false} OpenOfBuffer(w: seq<Tick>, parse: string -> real)
    requires w != []
    ensures Compress(w) == Unrepeated(w) != []
    ensures CandleOf(Compress(w), parse).open == CandleOf(w, parse).open <==>
      parse(Unrepeated(w)[0].text) == parse(w[0].text)
    ensures !Repeats(w, 0) ==> CandleOf(Compress(w), parse).open == CandleOf(w, parse).open
  {
    CompressLast(w);
    CompressIsUnrepeated(w);
  }

  lemma TwoCompress(a: Tick, b: Tick)
    requires a.text != b.text
    ensures Compress([a, b]) == [a, b]
  {
    CompressAppend([], a);
    CompressAppend([a], b);
    WithoutCons(a, [], b.text);
    assert [] + [a] == [a] && [a] + [b] == [a, b];
  }

  /** A price that comes back moves behind the one that came between. */
  lemma ReturnCompresses(a: Tick, b: Tick, c: Tick)
    requires a.text == c.text != b.text
    ensures Compress([a, b, c]) == [b, c]
  {
    TwoCompress(a, b);
    assert [a, b] + [c] == [a, b, c] && [a] + [b] == [a, b] && [b] + [c] == [b, c];
    CompressAppend([a, b], c);
    WithoutCons(a, [b], c.text);
    WithoutCons(b, [], c.text);
    assert [b] + [] == [b];
  }

  /** A price that comes back within the window makes the buffer's open wrong. */
  lemma OpenCanDiffer(parse: string -> real, one: string, other: string)
    requires parse(one) != parse(other)
    ensures var w := [Tick(one, 0.0), Tick(other, 1.0), Tick(one, 2.0)];
      Increasing(w) && Compress(w) != [] && CandleOf(Compress(w), parse).open != CandleOf(w, parse).open
  {
    ReturnCompresses(Tick(one, 0.0), Tick(other, 1.0), Tick(one, 2.0));
  }
}
