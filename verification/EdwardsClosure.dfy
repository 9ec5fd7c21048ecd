/** The sum of two points on the curve is on the curve. */
module EdwardsClosure {
  import opened Wrappers
  import opened NumberTheory
  import opened SquareRoots
  import opened Edwards
  import opened EdwardsDenominators

  lemma CrossMatchesCode(c: Curve, a: Point, b: Point)
    requires c.p > 2
    ensures var den := (c.d * a.x * b.x * a.y * b.y) % c.p; Z(den - Cross(c.d, a, b), c.p)
  {
    MulSwap(a.x, b.x, a.y, b.y);
    assert (a.x * b.x) * (a.y * b.y) == (a.x * a.y) * (b.x * b.y);
    var t := c.d * a.x * b.x * a.y * b.y;
    assert t == c.d * ((a.x * b.x) * (a.y * b.y));
    assert Cross(c.d, a, b) == c.d * ((a.x * a.y) * (b.x * b.y));
    ZMod(t, c.p);
  }

  // (n * Inv(v')) % p times v is n, when v' = v mod p.
  lemma Quotient(c: Curve, n: int, v: int, v': int)
    requires c.p > 2 && Prime(c.p) && !Z(v, c.p) && Z(v' - v, c.p)
    ensures Z(((n * Inv(c, v')) % c.p) * v - n, c.p)
  {
    if Z(v', c.p) { ZAdd(v', v' - v, c.p); }
    InverseZ(c, v');
    var t := Inv(c, v');
    var r := (n * t) % c.p;
    ZMod(n * t, c.p);
    ZComb(v, r - n * t, n, v' * t - 1, c.p);
    ZMul(n * t, v' - v, c.p);
    ZAdd(v * (r - n * t) + n * (v' * t - 1), (n * t) * (v' - v), c.p);
    QuotientRing(n, v, v', t, r);
  }

  lemma QuotientRing(n: int, v: int, v': int, t: int, r: int)
    ensures v * (r - n * t) + n * (v' * t - 1) - (n * t) * (v' - v) == r * v - n
  {}

  // The sum satisfies the two defining equations of the addition law.
  lemma AddEquations(c: Curve, a: Point, b: Point)
    requires Complete(c) && OnCurve(c, a) && OnCurve(c, b)
    ensures var e := Cross(c.d, a, b); var r := Add(c, a, b);
      && Reduced(c, r)
      && Z(r.x * (1 + e) - (a.x * b.y + b.x * a.y), c.p)
      && Z(r.y * (1 - e) - (a.y * b.y + a.x * b.x), c.p)
  {
    ModulusAtLeastFive(c);
    DenominatorsNonZero(c, a, b);
    CrossMatchesCode(c, a, b);
    var e := Cross(c.d, a, b);
    var den := (c.d * a.x * b.x * a.y * b.y) % c.p;
    Quotient(c, a.x * b.y + b.x * a.y, 1 + e, 1 + den);
    ZMul(-1, den - e, c.p);
    assert -1 * (den - e) == (1 - den) - (1 - e);
    Quotient(c, a.y * b.y + a.x * b.x, 1 - e, 1 - den);
  }

  lemma Distribute(a: int, b: int, u: int, v: int)
    ensures (a + b) * (u + v) == a * u + a * v + b * u + b * v
    ensures (a - b) * (u - v) == a * u - a * v - b * u + b * v
  {}

  lemma SumRing(x1: int, y1: int, x2: int, y2: int)
    ensures var X, Y := x1 * y2 + x2 * y1, y1 * y2 + x1 * x2;
      && Y * Y - X * X == (y1 * y1 - x1 * x1) * (y2 * y2 - x2 * x2)
      && X * X + Y * Y == (x1 * x1 + y1 * y1) * (x2 * x2 + y2 * y2) + 4 * ((x1 * y1) * (x2 * y2))
  {
    SquareRing(x1, y2, x2, y1);
    SquareRing(y1, y2, x1, x2);
    MulSwap(x2, x1, y2, y1);
    MulSwap(x1, y1, x2, y2);
    MulSwap(x1, y1, y2, x2);
    Distribute(y1 * y1, x1 * x1, y2 * y2, x2 * x2);
    Distribute(x1 * x1, y1 * y1, x2 * x2, y2 * y2);
  }

  lemma SumProduct(x1: int, y1: int, x2: int, y2: int)
    ensures (x1 * y2 + x2 * y1) * (y1 * y2 + x1 * x2)
         == (x1 * y1) * (x2 * x2 + y2 * y2) + (x2 * y2) * (x1 * x1 + y1 * y1)
  {
    Distribute(x1 * y2, x2 * y1, y1 * y2, x1 * x2);
    MulSwap(x1, y2, y1, y2);
    MulSwap(x1, y2, x1, x2);
    MulSwap(x2, y1, y2, y1);
    MulSwap(x2, y1, x2, x1);
    Distribute(x1 * y1, 0, x2 * x2, y2 * y2);
    Distribute(x2 * y2, 0, x1 * x1, y1 * y1);
  }

  lemma SumOfSquares(x: int, y: int)
    ensures var s, r, n := x * x + y * y, y * y - x * x, x * y; s * s == r * r + 4 * (n * n)
  {
    MulSwap(x, y, x, y);
    assert (x * x) * (y * y) == (x * y) * (x * y);
  }

  lemma Distribute3(d: int, u: int, v: int, w: int)
    ensures d * (u + v + w) == d * u + d * v + d * w
  {}

  lemma ProductSquare(d: int, n1: int, n2: int, s1: int, s2: int)
    ensures d * ((n1 * s2 + n2 * s1) * (n1 * s2 + n2 * s1))
         == (d * (n1 * n1)) * (s2 * s2) + (d * (n2 * n2)) * (s1 * s1) + (2 * (d * n1 * n2)) * (s1 * s2)
  {
    SquareRing(n1, s2, n2, s1);
    Distribute3(d, (n1 * n1) * (s2 * s2), (2 * (n2 * n1)) * (s2 * s1), (n2 * n2) * (s1 * s1));
    MulAssoc(d, n1 * n1, s2 * s2);
    MulAssoc(d, n2 * n2, s1 * s1);
    MulAssoc(d, 2 * (n2 * n1), s2 * s1);
    assert d * (2 * (n2 * n1)) == 2 * (d * n1 * n2);
  }

  ghost function ClosureGap(d: int, e: int, X: int, Y: int): int {
    (Y * Y) * ((1 + e) * (1 + e)) - (X * X) * ((1 - e) * (1 - e))
    - ((1 + e) * (1 - e)) * ((1 + e) * (1 - e)) - d * ((X * Y) * (X * Y))
  }

  lemma GapExpand(d: int, e: int, X: int, Y: int)
    ensures ClosureGap(d, e, X, Y)
         == (1 + e * e) * (Y * Y - X * X) + (2 * e) * (X * X + Y * Y) - (1 - e * e) * (1 - e * e) - d * ((X * Y) * (X * Y))
  {
    var g, h := X * X, Y * Y;
    assert (1 + e) * (1 + e) == 1 + 2 * e + e * e && (1 - e) * (1 - e) == 1 - 2 * e + e * e && (1 + e) * (1 - e) == 1 - e * e;
    GapExpand2(e, g, h);
  }

  lemma GapExpand2(e: int, g: int, h: int)
    ensures h * (1 + 2 * e + e * e) - g * (1 - 2 * e + e * e) == (1 + e * e) * (h - g) + (2 * e) * (g + h)
  {}

  lemma GapRing(c1: int, c2: int, m1: int, m2: int)
    ensures var r1, r2, t := c1 + 1 + m1, c2 + 1 + m2, m1 * m2;
      (1 + t) * (r1 * r2) - (1 - t) * (1 - t) - m1 * (r2 * r2) - m2 * (r1 * r1)
      == ((1 + t) * r2 - m2 * (r1 + 1 + m1)) * c1 + ((1 + t) * (1 + m1) - m1 * (r2 + 1 + m2)) * c2
  {
    var r1, r2, t := c1 + 1 + m1, c2 + 1 + m2, m1 * m2;
    var k1, k2 := 1 + m1, 1 + m2;
    ProductAround(c1, k1, c2, k2);
    ProductAround(c1, k1, c1, k1);
    ProductAround(c2, k2, c2, k2);
    GapBase(m1, m2);
    Distribute3(1 + t, c1 * r2 + k1 * c2, k1 * k2, 0);
    Distribute3(m1, c2 * r2 + k2 * c2, k2 * k2, 0);
    Distribute3(m2, c1 * r1 + k1 * c1, k1 * k1, 0);
    GapSplit(1 + t, m1, m2, c1, c2, r1, r2, k1, k2);
  }

  lemma ProductAround(c1: int, k1: int, c2: int, k2: int)
    ensures (c1 + k1) * (c2 + k2) == (c1 * (c2 + k2) + k1 * c2) + k1 * k2
  {}

  lemma GapBase(m1: int, m2: int)
    ensures var t := m1 * m2; (1 + t) * ((1 + m1) * (1 + m2)) == (1 - t) * (1 - t) + m1 * ((1 + m2) * (1 + m2)) + m2 * ((1 + m1) * (1 + m1))
  {
    var t := m1 * m2;
    assert (1 + m1) * (1 + m2) == 1 + m1 + m2 + t;
    assert m1 * ((1 + m2) * (1 + m2)) == m1 + 2 * t + t * m2;
    assert m2 * ((1 + m1) * (1 + m1)) == m2 + 2 * t + t * m1;
  }

  lemma GapSplit(t1: int, m1: int, m2: int, c1: int, c2: int, r1: int, r2: int, k1: int, k2: int)
    ensures t1 * (c1 * r2 + k1 * c2) - m1 * (c2 * r2 + k2 * c2) - m2 * (c1 * r1 + k1 * c1)
         == (t1 * r2 - m2 * (r1 + k1)) * c1 + (t1 * k1 - m1 * (r2 + k2)) * c2
  {}

  // The closure identity: the gap is a combination of the two curve equations.
  lemma GapVanishes(c: Curve, a: Point, b: Point)
    requires c.p > 2 && OnCurve(c, a) && OnCurve(c, b)
    ensures Z(ClosureGap(c.d, Cross(c.d, a, b), a.x * b.y + b.x * a.y, a.y * b.y + a.x * b.x), c.p)
  {
    var d, n1, n2 := c.d, a.x * a.y, b.x * b.y;
    var X, Y := a.x * b.y + b.x * a.y, a.y * b.y + a.x * b.x;
    var s1, s2 := a.x * a.x + a.y * a.y, b.x * b.x + b.y * b.y;
    var e, m1, m2 := d * n1 * n2, d * (n1 * n1), d * (n2 * n2);
    var c1, c2 := Residue(d, a), Residue(d, b);
    var r1, r2 := c1 + 1 + m1, c2 + 1 + m2;
    GapExpand(d, e, X, Y);
    SumRing(a.x, a.y, b.x, b.y);
    SumProduct(a.x, a.y, b.x, b.y);
    SumOfSquares(a.x, a.y);
    SumOfSquares(b.x, b.y);
    ProductSquare(d, n1, n2, s1, s2);
    CrossSquares(d, n1, n2);
    GapRing(c1, c2, m1, m2);
    GapCollect(e, m1, m2, n1, n2, s1, s2, r1, r2);
    ZComb((1 + m1 * m2) * r2 - m2 * (r1 + 1 + m1), c1, (1 + m1 * m2) * (1 + m1) - m1 * (r2 + 1 + m2), c2, c.p);
  }

  lemma GapCollect(e: int, m1: int, m2: int, n1: int, n2: int, s1: int, s2: int, r1: int, r2: int)
    requires m1 * (n2 * n2) == e * (n1 * n2) && m2 * (n1 * n1) == e * (n1 * n2)
    requires s1 * s1 == r1 * r1 + 4 * (n1 * n1) && s2 * s2 == r2 * r2 + 4 * (n2 * n2)
    ensures (2 * e) * (s1 * s2 + 4 * (n1 * n2)) - (m1 * (s2 * s2) + m2 * (s1 * s1) + (2 * e) * (s1 * s2))
         == -(m1 * (r2 * r2)) - m2 * (r1 * r1)
  {
    assert m1 * (s2 * s2) == m1 * (r2 * r2) + 4 * (m1 * (n2 * n2));
    assert m2 * (s1 * s1) == m2 * (r1 * r1) + 4 * (m2 * (n1 * n1));
  }

  lemma ScaleOne(v: int, g: int, h: int, k: int)
    requires k == h * g
    ensures (v * g) * h == k * v
  {}

  lemma Scale4(k: int, u: int, v: int, w: int)
    ensures k * (u - v - 1 - w) == k * u - k * v - k - k * w
  {}

  lemma GapScale(d: int, e: int, x: int, y: int)
    ensures ClosureGap(d, e, x * (1 + e), y * (1 - e))
         == (((1 + e) * (1 - e)) * ((1 + e) * (1 - e))) * Residue(d, Point(x, y))
  {
    var g, h := 1 + e, 1 - e;
    var k := (g * h) * (g * h);
    MulSwap(x, g, x, g);
    MulSwap(y, h, y, h);
    MulSwap(g, h, g, h);
    MulSwap(x, g, y, h);
    MulSwap(x * y, g * h, x * y, g * h);
    var n := x * y;
    ScaleOne(y * y, h * h, g * g, k);
    ScaleOne(x * x, g * g, h * h, k);
    MulAssoc(d, n * n, k);
    Scale4(k, y * y, x * x, d * (n * n));
  }

  lemma GapCong(c: Curve, e: int, X: int, Y: int, X': int, Y': int)
    requires c.p > 2 && Z(X - X', c.p) && Z(Y - Y', c.p)
    ensures Z(ClosureGap(c.d, e, X, Y) - ClosureGap(c.d, e, X', Y'), c.p)
  {
    SquareCong(X, X', c.p);
    SquareCong(Y, Y', c.p);
    var g, h := (1 + e) * (1 + e), (1 - e) * (1 - e);
    ZComb(g, Y * Y - Y' * Y', h, X * X - X' * X', c.p);
    ZComb(Y, X - X', X', Y - Y', c.p);
    assert Y * (X - X') + X' * (Y - Y') == X * Y - X' * Y';
    SquareCong(X * Y, X' * Y', c.p);
    var n, n' := (X * Y) * (X * Y), (X' * Y') * (X' * Y');
    ZMul(c.d, n - n', c.p);
    ZAdd(g * (Y * Y - Y' * Y') - h * (X * X - X' * X'), c.d * (n - n'), c.p);
    GapCongRing(g, h, Y * Y, Y' * Y', X * X, X' * X', c.d, n, n');
  }

  lemma GapCongRing(g: int, h: int, y: int, y': int, x: int, x': int, d: int, n: int, n': int)
    ensures g * (y - y') - h * (x - x') - d * (n - n') == (y * g - x * h - d * n) - (y' * g - x' * h - d * n')
  {}

  // The addition formula maps curve points to reduced curve points.
  lemma AddClosed(c: Curve, a: Point, b: Point)
    requires Complete(c) && OnCurve(c, a) && OnCurve(c, b)
    ensures OnCurve(c, Add(c, a, b)) && Reduced(c, Add(c, a, b))
  {
    ModulusAtLeastFive(c);
    var e, r := Cross(c.d, a, b), Add(c, a, b);
    var X, Y := a.x * b.y + b.x * a.y, a.y * b.y + a.x * b.x;
    AddEquations(c, a, b);
    GapVanishes(c, a, b);
    GapCong(c, e, r.x * (1 + e), r.y * (1 - e), X, Y);
    ZAdd(ClosureGap(c.d, e, r.x * (1 + e), r.y * (1 - e)) - ClosureGap(c.d, e, X, Y), ClosureGap(c.d, e, X, Y), c.p);
    GapScale(c.d, e, r.x, r.y);
    DenominatorsNonZero(c, a, b);
    var gh := (1 + e) * (1 - e);
    Euclid(gh * gh, Residue(c.d, r), c.p);
    if Z(gh * gh, c.p) {
      Euclid(gh, gh, c.p);
      Euclid(1 + e, 1 - e, c.p);
    }
  }

  // ------------------------------------------------- unit and commutativity

  lemma AddCommutes(c: Curve, a: Point, b: Point)
    requires c.p > 2
    ensures Add(c, a, b) == Add(c, b, a)
  {
    assert c.d * a.x * b.x * a.y * b.y == c.d * b.x * a.x * b.y * a.y;
  }

  lemma IdentityOnCurve(c: Curve)
    requires c.p > 2
    ensures OnCurve(c, IDENTITY) && Reduced(c, IDENTITY)
  {
    assert Residue(c.d, IDENTITY) == 0;
  }

  lemma {:induction false} PowOne(n: nat)
    ensures Pow(1, n) == 1
  {
    if n > 0 { PowOne(n - 1); }
  }

  lemma AddIdentity(c: Curve, a: Point)
    requires c.p > 2 && Reduced(c, a)
    ensures Add(c, IDENTITY, a) == a && Add(c, a, IDENTITY) == a
  {
    assert c.d * 0 * a.x * 1 * a.y == 0;
    PowOne(c.p - 2);
    ModBasics(1, c.p);
    ModBasics(0, c.p);
    ModBasics(a.x, c.p);
    ModBasics(a.y, c.p);
    assert Inv(c, 1) == 1;
    AddCommutes(c, a, IDENTITY);
  }
}
