/**
 Products and quotients of reals. Nonlinear arithmetic is kept inside the lemmas of this
 module; proofs elsewhere hide the two definitions and use the lemmas.
 */
module RealFacts {

  function Times(a: real, b: real): real {
    a * b
  }

  function Over(a: real, n: real): real
    requires n != 0.0
  {
    a / n
  }

  /** Linear interpolation from `a` to `b`. */
  function Mix(a: real, b: real, f: real): real {
    a + Times(b - a, f)
  }

  lemma Commute(a: real, b: real)
    ensures Times(a, b) == Times(b, a)
  {
  }

  lemma Associate(a: real, b: real, c: real)
    ensures Times(a, Times(b, c)) == Times(Times(a, b), c)
  {
  }

  lemma Distribute(k: real, a: real, b: real)
    ensures Times(k, a + b) == Times(k, a) + Times(k, b)
    ensures Times(k, a - b) == Times(k, a) - Times(k, b)
  {
  }

  lemma Units(a: real)
    ensures Times(1.0, a) == a && Times(a, 1.0) == a && Times(0.0, a) == 0.0 && Times(a, 0.0) == 0.0
  {
  }

  lemma PositiveProduct(a: real, b: real)
    requires a > 0.0 && b > 0.0
    ensures Times(a, b) > 0.0
  {
  }

  lemma OverTimes(a: real, n: real)
    requires n != 0.0
    ensures Times(n, Over(a, n)) == a
  {
  }

  lemma NegateBoth(a: real)
    ensures Times(-a, -a) == Times(a, a)
  {
  }

  lemma ScaleStrict(d: real, f: real, g: real)
    requires d > 0.0 && f < g
    ensures Times(d, f) < Times(d, g)
  {
    hide Times;
    PositiveProduct(d, g - f);
    Distribute(d, g, f);
  }

  lemma ScaleMonotone(d: real, f: real, g: real)
    requires d >= 0.0 && f <= g
    ensures Times(d, f) <= Times(d, g)
  {
    hide Times;
    if d > 0.0 && f < g { ScaleStrict(d, f, g); }
    if d == 0.0 { Units(f); Units(g); }
  }

  lemma CancelTimes(n: real, x: real, y: real)
    requires n > 0.0 && Times(n, x) == Times(n, y)
    ensures x == y
  {
    hide Times;
    if x < y { ScaleStrict(n, x, y); }
    if y < x { ScaleStrict(n, y, x); }
  }

  /** A quotient is determined by the product it undoes. */
  lemma OverUnique(a: real, n: real, x: real)
    requires n > 0.0 && Times(n, x) == a
    ensures Over(a, n) == x
  {
    hide Times, Over;
    OverTimes(a, n);
    CancelTimes(n, Over(a, n), x);
  }

  lemma OverMonotone(a: real, b: real, n: real)
    requires n > 0.0 && a <= b
    ensures Over(a, n) <= Over(b, n)
  {
    hide Times, Over;
    OverTimes(a, n);
    OverTimes(b, n);
    if Over(b, n) < Over(a, n) { ScaleStrict(n, Over(b, n), Over(a, n)); }
  }

  lemma OverSign(a: real, n: real)
    requires n > 0.0
    ensures Over(a, n) == 0.0 <==> a == 0.0
    ensures Over(a, n) > 0.0 <==> a > 0.0
  {
    hide Times, Over;
    OverTimes(a, n);
    Units(n);
    if Over(a, n) > 0.0 { ScaleStrict(n, 0.0, Over(a, n)); }
    if Over(a, n) < 0.0 { ScaleStrict(n, Over(a, n), 0.0); }
  }

  lemma MixBetween(a: real, b: real, f: real)
    requires a <= b && 0.0 <= f <= 1.0
    ensures a <= Mix(a, b, f) <= b
  {
    hide Times;
    Units(b - a);
    ScaleMonotone(b - a, 0.0, f);
    ScaleMonotone(b - a, f, 1.0);
  }

  lemma MixMonotone(a: real, b: real, c: real, d: real, f: real)
    requires a <= c && b <= d && 0.0 <= f <= 1.0
    ensures Mix(a, b, f) <= Mix(c, d, f)
  {
    hide Times;
    MixAsSum(a, b, f);
    MixAsSum(c, d, f);
    ScaleMonotone(f, b, d);
    ScaleMonotone(1.0 - f, a, c);
  }

  lemma MixAsSum(a: real, b: real, f: real)
    ensures Mix(a, b, f) == Times(1.0 - f, a) + Times(f, b)
  {
  }

  lemma SquareSign(a: real)
    ensures Times(a, a) >= 0.0
    ensures Times(a, a) == 0.0 <==> a == 0.0
  {
    hide Times;
    Units(a);
    NegateBoth(a);
    if a > 0.0 { PositiveProduct(a, a); }
    if a < 0.0 { PositiveProduct(-a, -a); }
  }

  lemma SquareMonotone(a: real, b: real)
    requires 0.0 <= a < b
    ensures Times(a, a) < Times(b, b)
  {
    hide Times;
    Commute(a, b);
    ScaleMonotone(a, a, b);
    ScaleStrict(b, a, b);
  }

  lemma SqrtUnique(a: real, b: real)
    requires a >= 0.0 && b >= 0.0 && Times(a, a) == Times(b, b)
    ensures a == b
  {
    hide Times;
    if a < b { SquareMonotone(a, b); }
    if b < a { SquareMonotone(b, a); }
  }

  lemma SquareOfProduct(a: real, b: real)
    ensures Times(Times(a, b), Times(a, b)) == Times(Times(a, a), Times(b, b))
  {
  }

  lemma SquareOfSum(s: real, x: real)
    ensures Times(s + x, s + x) == Times(s, s) + 2.0 * Times(s, x) + Times(x, x)
    ensures Times(s - x, s - x) == Times(s, s) - 2.0 * Times(s, x) + Times(x, x)
  {
  }

  /** Both terms of a fraction may be scaled. */
  lemma CancelFactor(c: real, a: real, b: real)
    requires c > 0.0 && b > 0.0
    ensures Times(c, b) > 0.0 && Over(Times(c, a), Times(c, b)) == Over(a, b)
  {
    hide Times, Over;
    PositiveProduct(c, b);
    OverTimes(a, b);
    Associate(c, b, Over(a, b));
    OverUnique(Times(c, a), Times(c, b), Over(a, b));
  }

  lemma OverScale(c: real, a: real, n: real)
    requires n > 0.0
    ensures Over(Times(c, a), n) == Times(c, Over(a, n))
  {
    hide Times, Over;
    OverTimes(a, n);
    Associate(n, c, Over(a, n));
    Associate(c, n, Over(a, n));
    Commute(n, c);
    OverUnique(Times(c, a), n, Times(c, Over(a, n)));
  }
}
