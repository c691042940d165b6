/** Small shared vocabulary: optional values, real minima and maxima, and the
    rows of a table that belong to one key. */
module Prelude {
  datatype Option<+T> = None | Some(value: T)

  function Min(a: real, b: real): real {
    if a <= b then a else b
  }

  function Max(a: real, b: real): real {
    if a >= b then a else b
  }

  /** SQL's COALESCE on two arguments. */
  function Coalesce<T>(a: Option<T>, b: Option<T>): Option<T> {
    if a.Some? then a else b
  }

  /** Python's truth value of an optional number: present and not zero. */
  predicate Truthy(o: Option<real>) {
    o.Some? && o.value != 0.0
  }

  function Get<T>(m: map<int, T>, x: int): Option<T> {
    if x in m then Some(m[x]) else None
  }

  function ToSeq<T>(o: Option<T>): seq<T> {
    if o.Some? then [o.value] else []
  }

  /** The values stored under key x, in table order. */
  function For<T>(rows: seq<(int, T)>, x: int): seq<T> {
    if rows == [] then []
    else
      var last := rows[|rows| - 1];
      var front := For(rows[..|rows| - 1], x);
      if last.0 == x then front + [last.1] else front
  }

  lemma ForAppend<T>(rows: seq<(int, T)>, row: (int, T), x: int)
    ensures For(rows + [row], x) == if row.0 == x then For(rows, x) + [row.1] else For(rows, x)
  {
    assert (rows + [row])[..|rows|] == rows;
  }

  lemma {:induction false} ForConcat<T>(a: seq<(int, T)>, b: seq<(int, T)>, x: int)
    ensures For(a + b, x) == For(a, x) + For(b, x)
  {
    if b == [] {
      assert a + b == a;
    } else {
      ForConcat(a, b[..|b| - 1], x);
      assert a + b == (a + b[..|b| - 1]) + [b[|b| - 1]];
      ForAppend(a + b[..|b| - 1], b[|b| - 1], x);
    }
  }

  /** Tagging every value with the key x and selecting y gives all of them or none. */
  lemma {:induction false} ForTagged<T>(s: seq<T>, rows: seq<(int, T)>, x: int, y: int)
    requires |rows| == |s| && forall i :: 0 <= i < |s| ==> rows[i] == (x, s[i])
    ensures For(rows, y) == if x == y then s else []
  {
    if s != [] {
      ForTagged(s[..|s| - 1], rows[..|s| - 1], x, y);
    }
  }
}
