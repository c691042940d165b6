/** Python's round(x, 4) on exact reals: to the nearest multiple of 0.0001, ties to even. */
module Rounding {
  function RoundHalfEven(y: real): (r: int)
    ensures -0.5 <= r as real - y <= 0.5
  {
    var f := y.Floor;
    var d := y - f as real;
    if d < 0.5 then f else if d > 0.5 then f + 1 else if f % 2 == 0 then f else f + 1
  }

  function Round4(x: real): (r: real)
    ensures -0.00005 <= r - x <= 0.00005
  {
    RoundHalfEven(x * 10000.0) as real / 10000.0
  }

  /** The integer n is nearest to y, and even if y lies halfway between two. */
  predicate NearestEven(n: int, y: real) {
    -0.5 <= n as real - y <= 0.5 && (n as real - y == 0.5 || n as real - y == -0.5 ==> n % 2 == 0)
  }

  lemma NearestEvenIsUnique(n: int, y: real)
    ensures NearestEven(n, y) <==> n == RoundHalfEven(y)
  {
  }

  /** Exactly one multiple of 0.0001 is nearest to x with ties going to the even one, and Round4 is it. */
  lemma Round4IsNearest(x: real, n: int)
    ensures NearestEven(n, x * 10000.0) <==> Round4(x) == n as real / 10000.0
  {
    NearestEvenIsUnique(n, x * 10000.0);
    var m := RoundHalfEven(x * 10000.0);
    if m as real / 10000.0 == n as real / 10000.0 { assert m as real == n as real; }
  }

  /** Rounding keeps order and fixes zero, so it can blunt a strict sign but never flip it. */
  lemma Round4Monotone(x: real, y: real)
    requires x <= y
    ensures Round4(x) <= Round4(y)
    ensures Round4(0.0) == 0.0
  {
    var a, b := x * 10000.0, y * 10000.0;
    assert a <= b;
    if a.Floor == b.Floor {
    } else {
      assert a.Floor + 1 <= b.Floor;
    }
    assert RoundHalfEven(a) <= RoundHalfEven(b);
    assert (0.0 * 10000.0) == 0.0;
  }
}
