/** Recovering the x coordinate of a point from y and the parity of x. */
module EdwardsRecovery {
  import opened Wrappers
  import opened NumberTheory
  import opened SquareRoots
  import opened Edwards
  import opened EdwardsDenominators
  import opened EdwardsClosure

  // The value x*x must have on the curve, given y.
  function XSquared(c: Curve, y: int): int
    requires c.p > 2
  {
    ((y * y - 1) * Inv(c, c.d * y * y + 1)) % c.p
  }

  lemma DenominatorOfY(c: Curve, y: int)
    requires Complete(c)
    ensures !Z(c.d * y * y + 1, c.p)
  {
    ModulusAtLeastFive(c);
    assert c.d * y * y == c.d * (y * y);
    if Z(c.d * (y * y) + 1, c.p) {
      var i := PowMod(2, (c.p - 1) / 4, c.p);
      RootOfMinusOne(c.p);
      ZAdd(i * i + 1, c.d * (y * y) + 1, c.p);
      NonSquareRatio(c, i, y);
      ZMul(c.d * y, y, c.p);
      ZAdd(c.d * (y * y) + 1, (c.d * y) * y, c.p);
      ZSmall(1, c.p);
    }
  }

  // The square is 0 exactly when its numerator is.
  lemma XSquaredZero(c: Curve, y: int)
    requires Complete(c) && c.p > 2
    ensures XSquared(c, y) == 0 <==> (y * y - 1) % c.p == 0
  {
    var v, g, n := XSquared(c, y), c.d * y * y + 1, y * y - 1;
    DenominatorOfY(c, y);
    Quotient(c, n, g, g);
    ZMod(n, c.p);
    if v == 0 {
      ZMultiple(0, c.p);
      ZAdd(0, v * g - n, c.p);
    }
    if n % c.p == 0 {
      ZMul(Inv(c, g), n, c.p);
    }
  }

  lemma OnCurveRing(d: int, x: int, y: int, v: int)
    ensures (v * (d * y * y + 1) - (y * y - 1)) + (x * x - v) * (d * y * y + 1) == -Residue(d, Point(x, y))
  {
    MulSwap(x, y, x, y);
    var g := d * y * y + 1;
    assert v * g + (x * x - v) * g == (x * x) * g;
    assert (x * x) * g == d * ((x * y) * (x * y)) + x * x by {
      assert (x * x) * (d * y * y) == d * ((x * x) * (y * y));
    }
  }

  lemma OnCurveIffSquare(c: Curve, x: int, y: int)
    requires Complete(c) && c.p > 2
    ensures OnCurve(c, Point(x, y)) <==> Z(x * x - XSquared(c, y), c.p)
  {
    var v, g := XSquared(c, y), c.d * y * y + 1;
    var t := v * g - (y * y - 1);
    var u := (x * x - v) * g;
    var r := Residue(c.d, Point(x, y));
    DenominatorOfY(c, y);
    ZMultiple(0, c.p);
    Quotient(c, y * y - 1, g, g);
    OnCurveRing(c.d, x, y, v);
    if Z(x * x - v, c.p) {
      ZMul(g, x * x - v, c.p);
      ZAdd(t, u, c.p);
      ZAdd(0, -r, c.p);
    }
    if Z(r, c.p) {
      ZAdd(t, r, c.p);
      assert u == -(t + r);
      ZAdd(0, t + r, c.p);
      Euclid(x * x - v, g, c.p);
    }
  }

  // The x of given parity that goes with y, where i is a square root of -1.
  function RecoverX(c: Curve, i: int, y: int, sign: int): Option<int>
    requires c.p > 5
  {
    match SquareRoot(XSquared(c, y), i, c.p)
    case None => None
    case Some(x) => Some(WithParity(c.p, x, sign))
  }

  lemma NegatedSquare(r: int, v: int, p: int)
    requires p > 0 && Z(r * r - v, p)
    ensures Z((p - r) * (p - r) - v, p)
  {
    ZMultiple(p - 2 * r, p);
    ZAdd(r * r - v, (p - 2 * r) * p, p);
    assert (p - r) * (p - r) == r * r + (p - 2 * r) * p;
  }

  lemma BothRootsOnCurve(c: Curve, r: int, y: int)
    requires Complete(c) && c.p > 5 && Z(r * r - XSquared(c, y), c.p)
    ensures OnCurve(c, Point(r, y)) && OnCurve(c, Point(c.p - r, y))
  {
    NegatedSquare(r, XSquared(c, y), c.p);
    OnCurveIffSquare(c, r, y);
    OnCurveIffSquare(c, c.p - r, y);
  }

  // The one of x and p - x with the given parity.
  function WithParity(p: int, x: int, sign: int): int {
    if x % 2 != sign then p - x else x
  }

  lemma WithParityRight(p: int, x: int, sign: int)
    requires p % 2 == 1 && 0 <= x < p
    ensures var r := WithParity(p, x, sign);
      0 <= r <= p && (r == x || r == p - x) && (0 <= sign < 2 ==> r % 2 == sign)
      && (0 <= sign < 2 ==> (r == p <==> x == 0 && sign == 1))
  {
  }

  lemma OddModulus(c: Curve)
    requires c.p % 8 == 5
    ensures c.p % 2 == 1
  {
    var q := c.p / 8;
    assert c.p == 8 * q + 5;
    DivModUnique(c.p, 2, 4 * q + 2, 1);
  }

  lemma RecoverXSound(c: Curve, i: int, y: int, sign: int)
    requires Complete(c) && c.p > 5 && Z(i * i + 1, c.p)
    ensures var r := RecoverX(c, i, y, sign); r.Some? ==>
      OnCurve(c, Point(r.value, y)) && 0 <= r.value <= c.p && (0 <= sign < 2 ==> r.value % 2 == sign)
  {
    var v := XSquared(c, y);
    var r := SquareRoot(v, i, c.p);
    if r.Some? {
      SquareRootSound(v, i, c.p);
      BothRootsOnCurve(c, r.value, y);
      OddModulus(c);
      WithParityRight(c.p, r.value, sign);
    }
  }

  lemma RecoverXFinds(c: Curve, i: int, x: int, y: int, sign: int)
    requires Complete(c) && c.p > 5 && Z(i * i + 1, c.p) && OnCurve(c, Point(x, y))
    ensures RecoverX(c, i, y, sign).Some?
  {
    var v := XSquared(c, y);
    OnCurveIffSquare(c, x, y);
    SquareRootFinds(v, i, c.p, x);
  }

  // Two square roots in 0..p of the same parity are equal when the first is below p.
  lemma SameParityRoot(x: int, r: int, v: int, p: int)
    requires Prime(p) && p % 2 == 1 && 0 <= x < p && 0 <= r <= p && x % 2 == r % 2
    requires Z(x * x - v, p) && Z(r * r - v, p)
    ensures x == r
  {
    ZAdd(r * r - v, x * x - v, p);
    RootsDifferBySign(r, x, p);
    SameParity(x, r, p);
  }

  lemma SameParity(x: int, r: int, p: int)
    requires p > 0 && p % 2 == 1 && 0 <= x < p && 0 <= r <= p && x % 2 == r % 2
    requires Z(r - x, p) || Z(r + x, p)
    ensures x == r
  {
    ZMultiple(1, p);
    if Z(r - x, p) {
      if r == p {
        ZAdd(p, p - x, p);
        ZSmall(x, p);
      } else {
        ZSmall(r - x, p);
      }
    } else {
      // r + x is even, so it is not p
      ZAdd(r + x, p, p);
      ZSmall(r + x - p, p);
      EvenIsNotOdd(r, x, p);
    }
  }

  lemma EvenIsNotOdd(r: int, x: int, p: int)
    requires p % 2 == 1 && x % 2 == r % 2
    ensures r + x != p
  {}

  // The x of a reduced curve point is what its y and its parity give back.
  lemma RecoverXUnique(c: Curve, i: int, a: Point)
    requires Complete(c) && c.p > 5 && Z(i * i + 1, c.p) && OnCurve(c, a) && Reduced(c, a)
    ensures RecoverX(c, i, a.y, a.x % 2) == Some(a.x)
  {
    RecoverXFinds(c, i, a.x, a.y, a.x % 2);
    RecoverXSound(c, i, a.y, a.x % 2);
    SameXFromParity(c, a.x, RecoverX(c, i, a.y, a.x % 2).value, a.y);
  }

  lemma SameXFromParity(c: Curve, x: int, r: int, y: int)
    requires Complete(c) && c.p > 5 && OnCurve(c, Point(x, y)) && OnCurve(c, Point(r, y))
    requires 0 <= x < c.p && 0 <= r <= c.p && x % 2 == r % 2
    ensures x == r
  {
    OnCurveIffSquare(c, x, y);
    OnCurveIffSquare(c, r, y);
    OddModulus(c);
    SameParityRoot(x, r, XSquared(c, y), c.p);
  }

  // The recovered x is p, hence not reduced, exactly for the odd root of zero.
  lemma RecoverXReduced(c: Curve, i: int, y: int, sign: int)
    requires Complete(c) && c.p > 5 && Z(i * i + 1, c.p) && 0 <= sign < 2
    requires RecoverX(c, i, y, sign).Some?
    ensures RecoverX(c, i, y, sign).value == c.p <==> (y * y - 1) % c.p == 0 && sign == 1
  {
    var v := XSquared(c, y);
    var r := SquareRoot(v, i, c.p).value;
    SquareRootSound(v, i, c.p);
    OddModulus(c);
    WithParityRight(c.p, r, sign);
    RootOfZero(v, r, c.p);
    XSquaredZero(c, y);
  }

  lemma RootOfZero(v: int, r: int, p: int)
    requires Prime(p) && 0 <= v < p && 0 <= r < p && Z(r * r - v, p)
    ensures r == 0 <==> v == 0
  {
    if v == 0 {
      Euclid(r, r, p);
      ZSmall(r, p);
    } else if r == 0 {
      ZMultiple(0, p);
      ZAdd(0, r * r - v, p);
      ZSmall(v, p);
    }
  }
}
