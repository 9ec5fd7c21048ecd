/** The addition of two points on the curve never divides by zero. */
module EdwardsDenominators {
  import opened Wrappers
  import opened NumberTheory
  import opened SquareRoots
  import opened Edwards

  lemma RatioRing(v: int, w: int, d: int, t: int)
    ensures (v * t) * (v * t) - d == (t * t) * (v * v - d * (w * w)) + (d * (w * t + 1)) * (w * t - 1)
  {
    assert (t * t) * (v * v - d * (w * w)) == (t * t) * (v * v) - d * ((w * t) * (w * t));
    assert (d * (w * t + 1)) * (w * t - 1) == d * ((w * t) * (w * t)) - d;
  }

  // If d has no square root, v*v = d*w*w only holds for w = 0.
  lemma NonSquareRatio(c: Curve, v: int, w: int)
    requires Complete(c) && Z(v * v - c.d * (w * w), c.p)
    ensures Z(w, c.p)
  {
    ModulusAtLeastFive(c);
    if !Z(w, c.p) {
      var t := Inv(c, w);
      InverseZ(c, w);
      RatioRing(v, w, c.d, t);
      ZComb(t * t, v * v - c.d * (w * w), c.d * (w * t + 1), w * t - 1, c.p);
      assert IsRoot(v * t, c.d, c.p);
    }
  }

  ghost function Cross(d: int, a: Point, b: Point): int {
    d * (a.x * a.y) * (b.x * b.y)
  }

  lemma CrossSquares(d: int, n1: int, n2: int)
    ensures var e := d * n1 * n2; var m1, m2 := d * (n1 * n1), d * (n2 * n2);
      e * e == m1 * m2 && m1 * (n2 * n2) == e * (n1 * n2) && m2 * (n1 * n1) == e * (n1 * n2)
  {
    var e := d * n1 * n2;
    assert e * (n1 * n2) == (d * (n1 * n1)) * (n2 * n2);
    assert e * e == e * (n1 * n2) * d;
  }

  lemma LeftSquare(d: int, a: Point, i: int, s: int)
    requires s * s == 1
    ensures (i * a.x + s * a.y) * (i * a.x + s * a.y)
         == Residue(d, a) + (a.x * a.x) * (i * i + 1)
            + 1 + d * ((a.x * a.y) * (a.x * a.y)) + (2 * (s * i)) * (a.x * a.y)
  {
    SquareRing(i, a.x, s, a.y);
  }

  lemma SquareRing(i: int, x: int, s: int, y: int)
    ensures (i * x + s * y) * (i * x + s * y) == (i * i) * (x * x) + (2 * (s * i)) * (x * y) + (s * s) * (y * y)
  {}

  // With m = a.x * a.y and w = m * (i * b.x + u * b.y), d * w * w has the same shape as the
  // square above once Cross(d, a, b) is s.
  lemma RightSquare(d: int, m: int, b: Point, i: int, s: int, u: int)
    requires s * s == 1 && u * u == 1
    ensures var w := m * (i * b.x + u * b.y); var e := d * m * (b.x * b.y); var k := d * (m * m);
      d * (w * w) == 1 + k + (2 * ((u * s) * i)) * m
        + k * (Residue(d, b) + (b.x * b.x) * (i * i + 1))
        + (e + s + 2 * (u * i) * m) * (e - s)
  {
    var v := i * b.x + u * b.y;
    var w, q := m * v, v * v;
    LeftSquare(d, b, i, u);
    MulSwap(m, v, m, v);
    assert w * w == (m * m) * q;
    RightRing(d, m, Residue(d, b) + (b.x * b.x) * (i * i + 1), b.x * b.y, u * i, q);
    RightRing2(d * m * (b.x * b.y), s, u, i, m);
  }

  lemma RightRing(d: int, m: int, r: int, n: int, ui: int, q: int)
    requires q == r + 1 + d * (n * n) + (2 * ui) * n
    ensures var e, k := d * m * n, d * (m * m); d * ((m * m) * q) == k * r + k + e * e + (2 * ui * m) * e
  {
    var k := d * (m * m);
    MulAssoc(d, m * m, q);
    Sum4(k, r, d * (n * n), (2 * ui) * n);
    CrossSquares(d, m, n);
    MulAssoc(k, d, n * n);
    MulSwap(k, 2 * ui, 1, n);
    CrossTimes(d, m, n, ui);
  }

  lemma Sum4(k: int, r: int, u: int, v: int)
    ensures k * (r + 1 + u + v) == k * r + k + k * u + k * v
  {}

  lemma CrossTimes(d: int, m: int, n: int, ui: int)
    ensures (d * (m * m)) * ((2 * ui) * n) == (2 * ui * m) * (d * m * n)
  {
    MulSwap(d * m, m, n, 2 * ui);
    MulSwap(2 * ui, m, d * m, n);
  }

  lemma RightRing2(e: int, s: int, u: int, i: int, m: int)
    requires s * s == 1
    ensures e * e + (2 * (u * i) * m) * e
         == 1 + (2 * ((u * s) * i)) * m + (e + s + 2 * (u * i) * m) * (e - s)
  {
    var k := 2 * (u * i) * m;
    assert (e + s + k) * (e - s) == e * e - s * s + k * e - k * s;
    assert k * s == (2 * ((u * s) * i)) * m;
  }

  // The two squares agree mod p, so one of the factors of w vanishes.
  lemma CrossIsNotASign(c: Curve, a: Point, b: Point, s: int, u: int)
    requires Complete(c) && OnCurve(c, a) && OnCurve(c, b)
    requires (s == 1 || s == -1) && (u == 1 || u == -1)
    requires Z(Cross(c.d, a, b) - s, c.p)
    ensures Z((a.x * a.y) * (PowMod(2, (c.p - 1) / 4, c.p) * b.x + u * b.y), c.p)
  {
    ModulusAtLeastFive(c);
    var i := PowMod(2, (c.p - 1) / 4, c.p);
    RootOfMinusOne(c.p);
    var m := a.x * a.y;
    var v := i * a.x + (u * s) * a.y;
    var w := m * (i * b.x + u * b.y);
    LeftSquare(c.d, a, i, u * s);
    RightSquare(c.d, m, b, i, s, u);
    var e, k := Cross(c.d, a, b), c.d * (m * m);
    var ra := Residue(c.d, a) + (a.x * a.x) * (i * i + 1);
    var rb := Residue(c.d, b) + (b.x * b.x) * (i * i + 1);
    ZComb(1, Residue(c.d, a), a.x * a.x, i * i + 1, c.p);
    ZComb(1, Residue(c.d, b), b.x * b.x, i * i + 1, c.p);
    ZMul(k, rb, c.p);
    ZMul(e + s + 2 * (u * i) * m, e - s, c.p);
    ZAdd(ra, k * rb, c.p);
    ZAdd(ra - k * rb, (e + s + 2 * (u * i) * m) * (e - s), c.p);
    assert v * v - c.d * (w * w) == ra - k * rb - (e + s + 2 * (u * i) * m) * (e - s);
    NonSquareRatio(c, v, w);
  }

  lemma CrossNotZero(c: Curve, a: Point, b: Point, s: int)
    requires Complete(c) && (s == 1 || s == -1) && Z(Cross(c.d, a, b) - s, c.p)
    ensures !Z(a.x * a.y, c.p) && !Z(b.x * b.y, c.p)
  {
    ModulusAtLeastFive(c);
    var e := Cross(c.d, a, b);
    if Z(a.x * a.y, c.p) { ZMul(c.d, a.x * a.y, c.p); ZMul(b.x * b.y, c.d * (a.x * a.y), c.p); }
    if Z(b.x * b.y, c.p) { ZMul(c.d * (a.x * a.y), b.x * b.y, c.p); }
    if Z(e, c.p) { ZAdd(e, e - s, c.p); ZSmall(s, c.p); }
  }

  lemma CrossNeverASign(c: Curve, a: Point, b: Point, s: int)
    requires Complete(c) && OnCurve(c, a) && OnCurve(c, b) && (s == 1 || s == -1)
    ensures !Z(Cross(c.d, a, b) - s, c.p)
  {
    ModulusAtLeastFive(c);
    if Z(Cross(c.d, a, b) - s, c.p) {
      var i := PowMod(2, (c.p - 1) / 4, c.p);
      CrossNotZero(c, a, b, s);
      CrossIsNotASign(c, a, b, s, 1);
      CrossIsNotASign(c, a, b, s, -1);
      Euclid(a.x * a.y, i * b.x + b.y, c.p);
      Euclid(a.x * a.y, i * b.x - b.y, c.p);
      ZAdd(i * b.x + b.y, i * b.x - b.y, c.p);
      assert (i * b.x + b.y) - (i * b.x - b.y) == 2 * b.y;
      Euclid(2, b.y, c.p);
      if Z(2, c.p) { ZSmall(2, c.p); }
      ZMul(b.x, b.y, c.p);
    }
  }

  lemma DenominatorsNonZero(c: Curve, a: Point, b: Point)
    requires Complete(c) && OnCurve(c, a) && OnCurve(c, b)
    ensures !Z(1 + Cross(c.d, a, b), c.p) && !Z(1 - Cross(c.d, a, b), c.p)
  {
    ModulusAtLeastFive(c);
    var e := Cross(c.d, a, b);
    CrossNeverASign(c, a, b, -1);
    CrossNeverASign(c, a, b, 1);
    if Z(1 - e, c.p) { ZMultiple(0, c.p); ZAdd(0, 1 - e, c.p); }
  }
}
