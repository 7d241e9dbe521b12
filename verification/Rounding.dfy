/** Rounding to a number of decimal places, ties away from zero, as the decimal library does. */
module Rounding {
  import opened Basics

  function Nearest(y: real, scale: real): real
    requires scale > 0.0
  {
    (y * scale + 0.5).Floor as real / scale
  }

  /** Nearest multiple of `1 / scale`. */
  function RoundTo(x: real, scale: real): real
    requires scale > 0.0
  {
    if x >= 0.0 then Nearest(x, scale) else -Nearest(-x, scale)
  }

  predicate OnGrid(x: real, scale: real) { (x * scale).Floor as real == x * scale }

  lemma Divide(n: real, x: real, scale: real, slack: real)
    requires scale > 0.0 && x * scale - slack <= n <= x * scale + slack
    ensures x - slack / scale <= n / scale <= x + slack / scale
  {
    var q, s := n / scale, slack / scale;
    assert q * scale == n && s * scale == slack;
    assert (x - s) * scale <= q * scale <= (x + s) * scale;
  }

  lemma FloorOfInteger(t: real, n: int)
    requires t == n as real
    ensures t.Floor == n && (t + 0.5).Floor == n
  {
  }

  lemma NearestError(y: real, scale: real)
    requires scale > 0.0
    ensures y - 0.5 / scale <= Nearest(y, scale) <= y + 0.5 / scale
  {
    Divide((y * scale + 0.5).Floor as real, y, scale, 0.5);
  }

  lemma NearestOnGrid(y: real, scale: real, n: int)
    requires scale > 0.0 && y * scale == n as real
    ensures Nearest(y, scale) == y
  {
    var t := y * scale;
    FloorOfInteger(t, n);
    assert t / scale == y;
  }

  /** Rounding moves a value by at most half a unit of the last place kept. */
  lemma RoundingError(x: real, scale: real)
    requires scale > 0.0
    ensures Abs(RoundTo(x, scale) - x) <= 0.5 / scale
  {
    NearestError(if x >= 0.0 then x else -x, scale);
  }

  /** Values that already have that many places are kept. */
  lemma RoundingKeepsGrid(x: real, scale: real)
    requires scale > 0.0 && OnGrid(x, scale)
    ensures RoundTo(x, scale) == x
  {
    var n := (x * scale).Floor;
    if x >= 0.0 {
      NearestOnGrid(x, scale, n);
    } else {
      var y := -x;
      assert y * scale == -(x * scale);
      NearestOnGrid(y, scale, -n);
    }
  }

  lemma GridDifference(x: real, y: real, scale: real)
    requires OnGrid(x, scale) && OnGrid(y, scale)
    ensures OnGrid(x - y, scale)
  {
    var m, n := (x * scale).Floor, (y * scale).Floor;
    var d := (x - y) * scale;
    assert d == x * scale - y * scale == (m - n) as real;
    FloorOfInteger(d, m - n);
  }
}
