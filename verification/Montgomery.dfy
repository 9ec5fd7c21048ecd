/** x-only arithmetic on the Montgomery curve v^2 = u^3 + 486662 u^2 + u, modulo p, with
    projective coordinates (x : z). */
module Montgomery {
  import opened NumberTheory

  datatype XZ = XZ(x: int, z: int)

  // The textbook doubling of (x : z) ...
  function Double(p: int, a: XZ): XZ
    requires p > 0
  {
    XZ(((a.x * a.x - a.z * a.z) * (a.x * a.x - a.z * a.z)) % p,
       (4 * (a.x * a.z) * (a.x * a.x + 486662 * (a.x * a.z) + a.z * a.z)) % p)
  }

  // ... and the textbook sum of two points whose difference has affine coordinate d.
  function DiffAdd(p: int, d: int, a: XZ, b: XZ): XZ
    requires p > 0
  {
    XZ((4 * ((a.x * b.x - a.z * b.z) * (a.x * b.x - a.z * b.z))) % p,
       (4 * d * ((b.x * a.z - b.z * a.x) * (b.x * a.z - b.z * a.x))) % p)
  }

  // --------------------------------------------------------- congruences

  lemma CongMul(u: int, u': int, v: int, v': int, p: int)
    requires p > 0 && Z(u - u', p) && Z(v - v', p)
    ensures Z(u * v - u' * v', p)
  {
    CongMulRight(u, v, v', p);
    CongMulRight(v', u, u', p);
    ZAdd(u * v - u * v', v' * u - v' * u', p);
    MulCommutes(u, v');
    MulCommutes(u', v');
  }

  lemma CongMulRight(c: int, u: int, v: int, p: int)
    requires p > 0 && Z(u - v, p)
    ensures Z(c * u - c * v, p)
  {
    ZMul(c, u - v, p);
    assert c * (u - v) == c * u - c * v;
  }

  lemma CongReduced(u: int, v: int, p: int)
    requires p > 0 && Z(u - v, p)
    ensures Z(u % p - v, p)
  {
    ZMod(u, p);
    ZAdd(u % p - u, u - v, p);
  }

  // u = v mod p gives the same reduced value, which is congruent to v.
  lemma CongEq(u: int, v: int, p: int)
    requires p > 0 && Z(u - v, p)
    ensures u % p == v % p
  {
    ZIffEq(u, v, p);
  }

  // ------------------------------------------------ projective equality

  ghost predicate Scaled(p: int, k: int, a: XZ, b: XZ)
    requires p > 0
  {
    !Z(k, p) && Z(b.x - k * a.x, p) && Z(b.z - k * a.z, p)
  }

  ghost predicate Same(p: int, a: XZ, b: XZ)
    requires p > 0
  {
    exists k: int :: Scaled(p, k, a, b)
  }

  lemma ScaledSquare(p: int, k: int, u: int, v: int)
    requires p > 0 && Z(v - k * u, p)
    ensures Z(v * v - (k * k) * (u * u), p)
  {
    CongMul(v, k * u, v, k * u, p);
    MulSwap(k, u, k, u);
  }

  lemma ScaledProduct(p: int, k: int, u: int, u': int, m: int, v: int, v': int)
    requires p > 0 && Z(u' - k * u, p) && Z(v' - m * v, p)
    ensures Z(u' * v' - (k * m) * (u * v), p)
  {
    CongMul(u', k * u, v', m * v, p);
    MulSwap(k, u, m, v);
  }

  lemma ScaledDifference(p: int, k: int, u: int, u': int, v: int, v': int)
    requires p > 0 && Z(u' - k * u, p) && Z(v' - k * v, p)
    ensures Z((u' - v') - k * (u - v), p) && Z((u' + v') - k * (u + v), p)
  {
    ZAdd(u' - k * u, v' - k * v, p);
    assert k * (u - v) == k * u - k * v && k * (u + v) == k * u + k * v;
  }

  lemma ScaledTimes(p: int, k: int, c: int, u: int, u': int)
    requires p > 0 && Z(u' - k * u, p)
    ensures Z(c * u' - k * (c * u), p)
  {
    ZMul(c, u' - k * u, p);
    assert c * (u' - k * u) == c * u' - k * (c * u);
  }

  lemma ScaledReduced(p: int, k: int, u: int, u': int)
    requires p > 0 && Z(u' - k * u, p)
    ensures Z(u' % p - k * (u % p), p)
  {
    ZMod(u', p);
    ZMod(u, p);
    ZMul(k, u % p - u, p);
    ZAdd(u' - k * u, u' % p - u', p);
    ZAdd(u' - k * u + (u' % p - u'), k * (u % p - u), p);
    assert k * (u % p - u) == k * (u % p) - k * u;
  }

  // Doubling scaled coordinates scales the double.
  lemma DoubleScaled(p: int, k: int, a: XZ, b: XZ)
    requires Prime(p) && Scaled(p, k, a, b)
    ensures Scaled(p, (k * k) * (k * k), Double(p, a), Double(p, b))
  {
    var k2 := k * k;
    ScaledSquare(p, k, a.x, b.x);
    ScaledSquare(p, k, a.z, b.z);
    ScaledProduct(p, k, a.x, b.x, k, a.z, b.z);
    ScaledDifference(p, k2, a.x * a.x, b.x * b.x, a.z * a.z, b.z * b.z);
    ScaledSquare(p, k2, a.x * a.x - a.z * a.z, b.x * b.x - b.z * b.z);
    ScaledReduced(p, k2 * k2, (a.x * a.x - a.z * a.z) * (a.x * a.x - a.z * a.z), (b.x * b.x - b.z * b.z) * (b.x * b.x - b.z * b.z));
    ScaledTimes(p, k2, 486662, a.x * a.z, b.x * b.z);
    ScaledTimes(p, k2, 4, a.x * a.z, b.x * b.z);
    ScaledDifference(p, k2, a.x * a.x, b.x * b.x, 486662 * (a.x * a.z), 486662 * (b.x * b.z));
    ScaledDifference(p, k2, a.x * a.x + 486662 * (a.x * a.z), b.x * b.x + 486662 * (b.x * b.z), a.z * a.z, b.z * b.z);
    ScaledProduct(p, k2, 4 * (a.x * a.z), 4 * (b.x * b.z), k2,
                  a.x * a.x + 486662 * (a.x * a.z) + a.z * a.z, b.x * b.x + 486662 * (b.x * b.z) + b.z * b.z);
    ScaledReduced(p, k2 * k2, 4 * (a.x * a.z) * (a.x * a.x + 486662 * (a.x * a.z) + a.z * a.z),
                  4 * (b.x * b.z) * (b.x * b.x + 486662 * (b.x * b.z) + b.z * b.z));
    SquareNotZero(k, p);
    SquareNotZero(k2, p);
  }

  lemma SquareNotZero(k: int, p: int)
    requires Prime(p) && !Z(k, p)
    ensures !Z(k * k, p)
  {
    if Z(k * k, p) { Euclid(k, k, p); }
  }

  // Adding scaled points scales the sum.
  lemma DiffAddScaled(p: int, d: int, k: int, a: XZ, a': XZ, m: int, b: XZ, b': XZ)
    requires Prime(p) && Scaled(p, k, a, a') && Scaled(p, m, b, b')
    ensures Scaled(p, (k * m) * (k * m), DiffAdd(p, d, a, b), DiffAdd(p, d, a', b'))
  {
    var km := k * m;
    ScaledProduct(p, k, a.x, a'.x, m, b.x, b'.x);
    ScaledProduct(p, k, a.z, a'.z, m, b.z, b'.z);
    ScaledDifference(p, km, a.x * b.x, a'.x * b'.x, a.z * b.z, a'.z * b'.z);
    var s, s' := a.x * b.x - a.z * b.z, a'.x * b'.x - a'.z * b'.z;
    ScaledSquare(p, km, s, s');
    ScaledTimes(p, km * km, 4, s * s, s' * s');
    ScaledReduced(p, km * km, 4 * (s * s), 4 * (s' * s'));
    ScaledProduct(p, m, b.x, b'.x, k, a.z, a'.z);
    ScaledProduct(p, m, b.z, b'.z, k, a.x, a'.x);
    MulCommutes(m, k);
    ScaledDifference(p, km, b.x * a.z, b'.x * a'.z, b.z * a.x, b'.z * a'.x);
    var t, t' := b.x * a.z - b.z * a.x, b'.x * a'.z - b'.z * a'.x;
    ScaledSquare(p, km, t, t');
    ScaledTimes(p, km * km, 4 * d, t * t, t' * t');
    ScaledReduced(p, km * km, 4 * d * (t * t), 4 * d * (t' * t'));
    if Z(km, p) { Euclid(k, m, p); }
    SquareNotZero(km, p);
  }

  // The sum does not depend on the order of its operands.
  lemma DiffAddSymmetric(p: int, d: int, a: XZ, b: XZ)
    requires p > 0
    ensures DiffAdd(p, d, a, b) == DiffAdd(p, d, b, a)
  {
    assert a.x * b.x - a.z * b.z == b.x * a.x - b.z * a.z;
    var t := b.x * a.z - b.z * a.x;
    assert a.x * b.z - a.z * b.x == -t;
    NegSquare(t);
  }

  lemma NegSquare(t: int)
    ensures (-t) * (-t) == t * t
  {}

  lemma ScaledChain(p: int, k: int, a: int, b: int, m: int, c: int)
    requires p > 0 && Z(b - k * a, p) && Z(c - m * b, p)
    ensures Z(c - (m * k) * a, p)
  {
    ZMul(m, b - k * a, p);
    ZAdd(c - m * b, m * (b - k * a), p);
    assert m * (b - k * a) == m * b - (m * k) * a;
  }

  lemma SameTransitive(p: int, a: XZ, b: XZ, c: XZ)
    requires Prime(p) && Same(p, a, b) && Same(p, b, c)
    ensures Same(p, a, c)
  {
    var k :| Scaled(p, k, a, b);
    var m :| Scaled(p, m, b, c);
    ScaledChain(p, k, a.x, b.x, m, c.x);
    ScaledChain(p, k, a.z, b.z, m, c.z);
    if Z(m * k, p) { Euclid(m, k, p); }
    assert Scaled(p, m * k, a, c);
  }

  lemma DoubleSame(p: int, a: XZ, b: XZ)
    requires Prime(p) && Same(p, a, b)
    ensures Same(p, Double(p, a), Double(p, b))
  {
    var k :| Scaled(p, k, a, b);
    DoubleScaled(p, k, a, b);
  }

  lemma DiffAddSame(p: int, d: int, a: XZ, a': XZ, b: XZ, b': XZ)
    requires Prime(p) && Same(p, a, a') && Same(p, b, b')
    ensures Same(p, DiffAdd(p, d, a, b), DiffAdd(p, d, a', b'))
  {
    var k :| Scaled(p, k, a, a');
    var m :| Scaled(p, m, b, b');
    DiffAddScaled(p, d, k, a, a', m, b, b');
  }

  // ---------------------------------------------------- affine coordinates

  // x * z^(p-2) mod p, which x25519 returns
  function Affine(p: int, a: XZ): (r: int)
    requires p > 2
    ensures 0 <= r < p
  {
    (a.x * PowMod(a.z, p - 2, p)) % p
  }

  // The affine coordinate is x / z, and 0 for z = 0.
  lemma AffineIsQuotient(p: int, a: XZ)
    requires Prime(p) && p > 2
    ensures !Z(a.z, p) ==> Z(Affine(p, a) * a.z - a.x, p)
    ensures Z(a.z, p) ==> Affine(p, a) == 0
  {
    var i := PowMod(a.z, p - 2, p);
    InverseByPower(a.z, p);
    if !Z(a.z, p) {
      ModBasics(1, p);
      ZIffEq(a.z * i, 1, p);
      ZMod(a.x * i, p);
      var r := (a.x * i) % p;
      ZComb(a.z, r - a.x * i, a.x, a.z * i - 1, p);
      assert a.z * (r - a.x * i) + a.x * (a.z * i - 1) == r * a.z - a.x;
    } else {
      assert a.x * 0 == 0;
      ModBasics(0, p);
    }
  }

  lemma CrossEqual(p: int, k: int, r: int, a: XZ, s: int, b: XZ)
    requires Prime(p) && Scaled(p, k, a, b) && !Z(a.z, p)
    requires Z(r * a.z - a.x, p) && Z(s * b.z - b.x, p)
    ensures Z(r - s, p)
  {
    // k * a.z * (r - s) = k*(r*a.z - a.x) - (s*b.z - b.x) + s*(b.z - k*a.z) - (b.x - k*a.x)
    ZComb(k, r * a.z - a.x, 1, s * b.z - b.x, p);
    ZComb(s, b.z - k * a.z, 1, b.x - k * a.x, p);
    ZAdd(k * (r * a.z - a.x) - 1 * (s * b.z - b.x), s * (b.z - k * a.z) - 1 * (b.x - k * a.x), p);
    CrossRing(k, r, s, a.x, a.z, b.x, b.z);
    Euclid(k * a.z, r - s, p);
    if Z(k * a.z, p) { Euclid(k, a.z, p); }
  }

  lemma CrossRing(k: int, r: int, s: int, x: int, z: int, x': int, z': int)
    ensures (k * (r * z - x) - 1 * (s * z' - x')) + (s * (z' - k * z) - 1 * (x' - k * x)) == (k * z) * (r - s)
  {}

  lemma ScaledZero(p: int, k: int, a: XZ, b: XZ)
    requires Prime(p) && Scaled(p, k, a, b)
    ensures Z(a.z, p) <==> Z(b.z, p)
    ensures Z(a.x, p) <==> Z(b.x, p)
  {
    ScaledZeroOne(p, k, a.z, b.z);
    ScaledZeroOne(p, k, a.x, b.x);
  }

  lemma ScaledZeroOne(p: int, k: int, a: int, b: int)
    requires Prime(p) && !Z(k, p) && Z(b - k * a, p)
    ensures Z(a, p) <==> Z(b, p)
  {
    if Z(a, p) {
      ZMul(k, a, p);
      ZAdd(b - k * a, k * a, p);
    }
    if Z(b, p) {
      ZAdd(b, b - k * a, p);
      Euclid(k, a, p);
    }
  }

  // The affine coordinate does not see the scaling.
  lemma AffineSame(p: int, a: XZ, b: XZ)
    requires Prime(p) && p > 2 && Same(p, a, b)
    ensures Affine(p, a) == Affine(p, b)
    ensures Z(a.z, p) <==> Z(b.z, p)
    ensures Z(a.x, p) <==> Z(b.x, p)
  {
    var k :| Scaled(p, k, a, b);
    ScaledZero(p, k, a, b);
    AffineIsQuotient(p, a);
    AffineIsQuotient(p, b);
    if !Z(a.z, p) {
      CrossEqual(p, k, Affine(p, a), a, Affine(p, b), b);
      ZSmall(Affine(p, a) - Affine(p, b), p);
    }
  }

  // A point with z /= 0 is its affine coordinate over 1.
  lemma SameAsAffine(p: int, a: XZ)
    requires Prime(p) && p > 2 && !Z(a.z, p)
    ensures Same(p, XZ(Affine(p, a), 1), a)
  {
    AffineIsQuotient(p, a);
    var r := Affine(p, a);
    ZMultiple(0, p);
    ZAdd(0, r * a.z - a.x, p);
    assert a.x - a.z * r == 0 - (r * a.z - a.x);
    assert a.z - a.z * 1 == 0;
    assert Scaled(p, a.z, XZ(r, 1), a);
  }
}
