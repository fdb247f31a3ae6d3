/**
 The interpolation formulas of aoo/src/resampler.cpp, over `real`: the linear one reproduces every
 polynomial of degree at most one, the cubic one every polynomial of degree at most three.
 */
module Interpolation {
  /** Four-point interpolation between b and c. */
  function CubicAt(a: real, b: real, c: real, d: real, fract: real): real {
    var cminusb := c - b;
    b + fract * (cminusb - 1.0 / 6.0 * (1.0 - fract) * ((d - a - 3.0 * cminusb) * fract + (d + a * 2.0 - b * 3.0)))
  }

  function LinearAt(a: real, b: real, fract: real): real {
    a + (b - a) * fract
  }

  /** c0 + c1 x + c2 x^2 + c3 x^3 */
  datatype Poly = Poly(c0: real, c1: real, c2: real, c3: real)

  function Value(p: Poly, x: real): real { p.c0 + p.c1 * x + p.c2 * (x * x) + p.c3 * (x * x * x) }

  /** On the taps both formulas give the taps. */
  lemma TapsAreKept(a: real, b: real, c: real, d: real)
    ensures LinearAt(a, b, 0.0) == a && LinearAt(a, b, 1.0) == b
    ensures CubicAt(a, b, c, d, -1.0) == a && CubicAt(a, b, c, d, 0.0) == b
    ensures CubicAt(a, b, c, d, 1.0) == c && CubicAt(a, b, c, d, 2.0) == d
  {
  }

  /** The polynomial as seen from x. */
  function Shifted(p: Poly, x: real): Poly {
    Poly(Value(p, x), p.c1 + 2.0 * (p.c2 * x) + 3.0 * (p.c3 * (x * x)), p.c2 + 3.0 * (p.c3 * x), p.c3)
  }

  lemma ShiftedIs(p: Poly, x: real, y: real)
    ensures Value(Shifted(p, x), y) == Value(p, x + y)
  {
    var q := x + y;
    assert q * q == x * x + 2.0 * (x * y) + y * y;
    Cube(x, y);
    Factor(p.c3, x * x * x, 3.0, x * x * y, 3.0, x * (y * y), y * y * y);
    Factor(p.c2, x * x, 2.0, x * y, 0.0, 0.0, y * y);
    assert p.c1 * q == p.c1 * x + p.c1 * y;
    assert (2.0 * (p.c2 * x)) * y == 2.0 * (p.c2 * (x * y));
    assert (3.0 * (p.c3 * (x * x))) * y == 3.0 * (p.c3 * (x * x * y));
    assert (3.0 * (p.c3 * x)) * (y * y) == 3.0 * (p.c3 * (x * (y * y)));
    assert (p.c1 + 2.0 * (p.c2 * x) + 3.0 * (p.c3 * (x * x))) * y
        == p.c1 * y + (2.0 * (p.c2 * x)) * y + (3.0 * (p.c3 * (x * x))) * y;
  }

  lemma Cube(x: real, y: real)
    ensures var q := x + y; q * q * q == x * x * x + 3.0 * (x * x * y) + 3.0 * (x * (y * y)) + y * y * y
  {
    var q := x + y;
    var a, b, c := x * x, 2.0 * (x * y), y * y;
    assert q * q == a + b + c;
    assert (a + b + c) * q == a * x + b * x + c * x + a * y + b * y + c * y;
    assert b * x == 2.0 * (x * x * y) && b * y == 2.0 * (x * (y * y)) && c * x == x * (y * y);
  }

  lemma Factor(k: real, a: real, m: real, b: real, n: real, c: real, d: real)
    ensures k * (a + m * b + n * c + d) == k * a + m * (k * b) + n * (k * c) + k * d
  {
    assert k * (m * b) == m * (k * b) && k * (n * c) == n * (k * c);
  }

  /** Two taps of a line. */
  lemma LinearReproduces(p: Poly, x: real, fract: real)
    requires p.c2 == 0.0 && p.c3 == 0.0
    ensures LinearAt(Value(p, x), Value(p, x + 1.0), fract) == Value(p, x + fract)
  {
    assert p.c1 * (x + 1.0) == p.c1 * x + p.c1;
    assert p.c1 * (x + fract) == p.c1 * x + p.c1 * fract;
  }

  /** Four taps of a polynomial of degree three. */
  lemma CubicReproduces(p: Poly, x: real, fract: real)
    ensures CubicAt(Value(p, x - 1.0), Value(p, x), Value(p, x + 1.0), Value(p, x + 2.0), fract) == Value(p, x + fract)
  {
    var q := Shifted(p, x);
    ShiftedIs(p, x, -1.0);
    ShiftedIs(p, x, 0.0);
    ShiftedIs(p, x, 1.0);
    ShiftedIs(p, x, 2.0);
    ShiftedIs(p, x, fract);
    hide Shifted;
    CubicAround(q, fract);
    hide Value, CubicAt;
    assert x + -1.0 == x - 1.0 && x + 0.0 == x;
  }

  /** The same around zero. */
  lemma CubicAround(q: Poly, fract: real)
    ensures CubicAt(Value(q, -1.0), Value(q, 0.0), Value(q, 1.0), Value(q, 2.0), fract) == Value(q, fract)
  {
    var a, b, c, d := Value(q, -1.0), Value(q, 0.0), Value(q, 1.0), Value(q, 2.0);
    assert b == q.c0 && c == q.c0 + q.c1 + q.c2 + q.c3 && a == q.c0 - q.c1 + q.c2 - q.c3;
    assert d == q.c0 + 2.0 * q.c1 + 4.0 * q.c2 + 8.0 * q.c3;
    assert d - a - 3.0 * (c - b) == 6.0 * q.c3;
    assert d + a * 2.0 - b * 3.0 == 6.0 * (q.c2 + q.c3);
    CubicForm(q.c1, q.c2, q.c3, fract);
  }

  lemma CubicForm(c1: real, c2: real, c3: real, f: real)
    ensures f * (c1 + c2 + c3 - 1.0 / 6.0 * (1.0 - f) * (6.0 * c3 * f + 6.0 * (c2 + c3))) == c1 * f + c2 * (f * f) + c3 * (f * f * f)
  {
    var g := c3 * f;
    var u := g + c2 + c3;
    assert 6.0 * c3 * f + 6.0 * (c2 + c3) == 6.0 * u;
    assert 1.0 / 6.0 * (1.0 - f) * (6.0 * u) == (1.0 - f) * u;
    assert (1.0 - f) * u == u - f * u;
    assert f * u == f * g + f * c2 + f * c3;
    assert f * g == c3 * (f * f);
    assert c1 + c2 + c3 - (1.0 - f) * u == c1 + c2 * f + c3 * (f * f);
    assert f * (c1 + c2 * f + c3 * (f * f)) == c1 * f + c2 * (f * f) + c3 * (f * f * f);
  }
}
