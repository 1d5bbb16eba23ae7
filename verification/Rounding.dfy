/**
  Python's `round(x, n)` over exact reals: nearest multiple of 10^-n, ties to the even multiple.
 */
module Rounding {

  function RoundHalfEven(y: real): (r: int)
    ensures y - 0.5 <= r as real <= y + 0.5
    ensures (r as real == y - 0.5 || r as real == y + 0.5) ==> r % 2 == 0
  {
    var f := y.Floor;
    var d := y - f as real;
    if d < 0.5 then f else if d > 0.5 then f + 1 else if f % 2 == 0 then f else f + 1
  }

  /** `scale` is 10^n: the result is a multiple of 1/scale no further than half a step away. */
  function RoundTo(x: real, scale: real): (r: real)
    requires scale > 0.0
    ensures x - 0.5 / scale <= r <= x + 0.5 / scale
  {
    var k := RoundHalfEven(x * scale);
    DivideBounds(k as real, x, scale);
    k as real / scale
  }

  /** The result is the nearest multiple of the step, and of two equally near ones the even. */
  lemma RoundIsNearest(x: real, scale: real)
    requires scale > 0.0
    ensures var k := RoundHalfEven(x * scale);
            && RoundTo(x, scale) * scale == k as real
            && -0.5 <= k as real - x * scale <= 0.5
            && (k as real - x * scale == 0.5 || x * scale - k as real == 0.5 ==> k % 2 == 0)
  {
    var k, y := RoundHalfEven(x * scale), x * scale;
    assert RoundTo(x, scale) == k as real / scale;
    hide RoundTo, RoundHalfEven;
    Multiplied(k as real, scale);
  }

  lemma Multiplied(k: real, scale: real)
    requires scale > 0.0
    ensures k / scale * scale == k
  {
  }

  lemma DivideBounds(k: real, x: real, scale: real)
    requires scale > 0.0
    requires x * scale - 0.5 <= k <= x * scale + 0.5
    ensures x - 0.5 / scale <= k / scale <= x + 0.5 / scale
  {
    assert x - 0.5 / scale == (x * scale - 0.5) / scale;
    assert x + 0.5 / scale == (x * scale + 0.5) / scale;
    DivideMonotone(x * scale - 0.5, k, scale);
    DivideMonotone(k, x * scale + 0.5, scale);
  }

  lemma DivideMonotone(a: real, b: real, c: real)
    requires c > 0.0 && a <= b
    ensures a / c <= b / c
  {
    assert (b - a) / c >= 0.0;
    assert b / c - a / c == (b - a) / c;
  }

  lemma RoundHalfEvenMonotone(x: real, y: real)
    requires x <= y
    ensures RoundHalfEven(x) <= RoundHalfEven(y)
  {
    if x.Floor < y.Floor {
      assert x.Floor + 1 <= y.Floor;
    }
  }

  lemma RoundMonotone(x: real, y: real, scale: real)
    requires scale > 0.0 && x <= y
    ensures RoundTo(x, scale) <= RoundTo(y, scale)
  {
    assert x * scale <= y * scale;
    RoundHalfEvenMonotone(x * scale, y * scale);
    DivideMonotone(RoundHalfEven(x * scale) as real, RoundHalfEven(y * scale) as real, scale);
  }

  lemma CancelScale(x: real, scale: real)
    requires scale > 0.0
    ensures x * scale / scale == x
  {
  }

  /** A value already on the grid is left alone. */
  lemma RoundFixes(k: int, x: real, scale: real)
    requires scale > 0.0 && x * scale == k as real
    ensures RoundTo(x, scale) == x
  {
    var y := x * scale;
    assert y.Floor == k;
    assert RoundHalfEven(y) == k;
    assert k as real / scale == y / scale;
    CancelScale(x, scale);
  }
}
