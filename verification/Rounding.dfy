/**
 Python's round() to a fixed number of decimals, over exact reals: to the nearest multiple of
 1/scale, ties to the even one.
 */
module Rounding {
  import opened Arithmetic

  function HalfEven(x: real): int
  {
    var f := x.Floor;
    var rest := x - f as real;
    if rest < 0.5 then f
    else if rest > 0.5 then f + 1
    else if f % 2 == 0 then f else f + 1
  }

  function Times(x: real, scale: int): real
  {
    x * scale as real
  }

  function Over(n: int, scale: int): real
    requires scale > 0
  {
    n as real / scale as real
  }

  function Round(x: real, scale: int): real
    requires scale > 0
  {
    Over(HalfEven(Times(x, scale)), scale)
  }

  lemma HalfEvenMonotone(x: real, y: real)
    requires x <= y
    ensures HalfEven(x) <= HalfEven(y)
  {
    if x.Floor < y.Floor {
      assert HalfEven(x) <= x.Floor + 1 <= y.Floor <= HalfEven(y);
    }
  }

  lemma OverTimes(n: int, scale: int)
    requires scale > 0
    ensures Times(Over(n, scale), scale) == n as real
  {
  }

  lemma TimesMonotone(x: real, y: real, scale: int)
    requires scale > 0 && x <= y
    ensures Times(x, scale) <= Times(y, scale)
  {
    ProductMonotone(x, y, scale as real);
  }

  lemma OverMonotone(m: int, n: int, scale: int)
    requires scale > 0 && m <= n
    ensures Over(m, scale) <= Over(n, scale)
  {
  }

  /** Rounding never reverses an order. */
  lemma RoundMonotone(x: real, y: real, scale: int)
    requires scale > 0 && x <= y
    ensures Round(x, scale) <= Round(y, scale)
  {
    hide Times, Over, HalfEven;
    TimesMonotone(x, y, scale);
    HalfEvenMonotone(Times(x, scale), Times(y, scale));
    OverMonotone(HalfEven(Times(x, scale)), HalfEven(Times(y, scale)), scale);
  }

  /** A value that is already a multiple of 1/scale is left alone. */
  lemma RoundExact(n: int, scale: int)
    requires scale > 0
    ensures Round(Over(n, scale), scale) == Over(n, scale)
  {
    hide Times;
    OverTimes(n, scale);
  }

  lemma RoundWhole(n: int, scale: int)
    requires scale > 0
    ensures Round(n as real, scale) == n as real
  {
    assert n as real == Over(n * scale, scale);
    RoundExact(n * scale, scale);
  }

  /** Rounding moves a value by at most half a unit of the last place. */
  lemma RoundNear(x: real, scale: int)
    requires scale > 0
    ensures -0.5 <= (Round(x, scale) - x) * scale as real <= 0.5
  {
    var n := HalfEven(Times(x, scale));
    OverTimes(n, scale);
    assert -0.5 <= n as real - Times(x, scale) <= 0.5;
    hide HalfEven;
    assert (Over(n, scale) - x) * scale as real == Times(Over(n, scale), scale) - Times(x, scale);
  }


  /** Half-way between two neighbours the even one is taken. */
  lemma RoundTies(x: real, n: int, scale: int)
    requires scale > 0 && x * scale as real == n as real + 0.5
    ensures Round(x, scale) == (if n % 2 == 0 then n else n + 1) as real / scale as real
  {
    assert Times(x, scale).Floor == n;
  }
}
