/** Arithmetic modulo a prime: what the field code of the crypto package rests on.

    Congruences are stated as divisibility, `Z(e, p)`: "p divides e".  An equation
    in the field is proved by writing the difference of its sides as an integer
    combination of differences already known to be divisible by p. */
module NumberTheory {

  ghost predicate Z(e: int, p: int)
    requires p > 0
  {
    e % p == 0
  }

  ghost predicate Prime(p: int) {
    p > 1 && forall d {:trigger Z(p, d)} :: 1 < d < p ==> !Z(p, d)
  }

  // Python's `b ** e` for a non-negative exponent.
  function Pow(b: int, e: nat): int {
    if e == 0 then 1 else b * Pow(b, e - 1)
  }

  // Python's three-argument `pow(b, e, m)`.
  function PowMod(b: int, e: nat, m: int): (r: int)
    requires m > 0
    ensures 0 <= r < m
  {
    Pow(b, e) % m
  }

  // ---------------------------------------------------------------- division

  lemma DivModUnique(a: int, m: int, q: int, r: int)
    requires m > 0 && a == m * q + r && 0 <= r < m
    ensures a / m == q && a % m == r
  {
    var q', r' := a / m, a % m;
    assert m * (q - q') == r' - r;
    if q - q' >= 1 {
      MulMono(m, 1, q - q');
    } else if q - q' <= -1 {
      MulMono(m, q - q', -1);
    }
  }

  lemma MulMono(m: int, x: int, y: int)
    requires m >= 0 && x <= y
    ensures m * x <= m * y
  {}

  lemma ZMultiple(k: int, p: int)
    requires p > 0
    ensures Z(k * p, p) && Z(p * k, p)
  {
    DivModUnique(k * p, p, k, 0);
  }

  lemma ZAdd(a: int, b: int, p: int)
    requires p > 0 && Z(a, p) && Z(b, p)
    ensures Z(a + b, p) && Z(a - b, p)
  {
    var x, y := a / p, b / p;
    assert a + b == (x + y) * p && a - b == (x - y) * p;
    ZMultiple(x + y, p);
    ZMultiple(x - y, p);
  }

  lemma ZMul(c: int, e: int, p: int)
    requires p > 0 && Z(e, p)
    ensures Z(c * e, p) && Z(e * c, p)
  {
    var x := e / p;
    assert c * e == c * (p * x) == (c * x) * p;
    ZMultiple(c * x, p);
  }

  // A combination of two multiples of p.
  lemma ZComb(c: int, a: int, d: int, b: int, p: int)
    requires p > 0 && Z(a, p) && Z(b, p)
    ensures Z(c * a + d * b, p) && Z(c * a - d * b, p)
  {
    ZMul(c, a, p);
    ZMul(d, b, p);
    ZAdd(c * a, d * b, p);
  }

  lemma ZMod(a: int, p: int)
    requires p > 0
    ensures Z(a - a % p, p) && Z(a % p - a, p)
  {
    assert a - a % p == (a / p) * p;
    ZMultiple(a / p, p);
    ZMultiple(-(a / p), p);
    assert a % p - a == -(a / p) * p;
  }

  lemma ZIffEq(a: int, b: int, p: int)
    requires p > 0
    ensures Z(a - b, p) <==> a % p == b % p
  {
    if a % p == b % p {
      assert a - b == (a / p - b / p) * p;
      ZMultiple(a / p - b / p, p);
    } else if Z(a - b, p) {
      var k := (a - b) / p;
      assert a == p * (k + b / p) + b % p;
      DivModUnique(a, p, k + b / p, b % p);
    }
  }

  lemma ZSmall(e: int, p: int)
    requires p > 0 && Z(e, p) && -p < e < p
    ensures e == 0
  {
    var k := e / p;
    assert e == p * k;
    if k >= 1 { MulMono(p, 1, k); } else if k <= -1 { MulMono(p, k, -1); }
  }

  lemma ModBasics(a: int, p: int)
    requires p > 0 && 0 <= a < p
    ensures a % p == a
  {
    DivModUnique(a, p, 0, a);
  }

  // Reducing the operands first does not change a reduced product or sum.
  lemma MulModReduce(a: int, b: int, p: int)
    requires p > 0
    ensures (a * b) % p == ((a % p) * (b % p)) % p
    ensures (a * b) % p == ((a % p) * b) % p
    ensures (a * b) % p == (a * (b % p)) % p
  {
    MulModOne(a, b, p);
    MulModOne(b, a, p);
    MulCommutes(a, b);
    MulCommutes(a, b % p);
    MulModOne(b, a % p, p);
    MulCommutes(b, a % p);
    MulCommutes(b % p, a % p);
  }

  lemma MulCommutes(a: int, b: int)
    ensures a * b == b * a
  {}

  lemma MulModOne(a: int, b: int, p: int)
    requires p > 0
    ensures (a * b) % p == ((a % p) * b) % p
  {
    ZMod(a, p);
    ZMul(b, a - a % p, p);
    MulMinus(b, a, a % p);
    ZIffEq(a * b, (a % p) * b, p);
  }

  lemma MulMinus(b: int, x: int, y: int)
    ensures b * (x - y) == x * b - y * b
  {}

  lemma AddModReduce(a: int, b: int, p: int)
    requires p > 0
    ensures (a + b) % p == ((a % p) + (b % p)) % p
    ensures (a - b) % p == ((a % p) - (b % p)) % p
  {
    ZMod(a, p);
    ZMod(b, p);
    ZAdd(a - a % p, b - b % p, p);
    assert (a - a % p) + (b - b % p) == (a + b) - ((a % p) + (b % p));
    assert (a - a % p) - (b - b % p) == (a - b) - ((a % p) - (b % p));
    ZIffEq(a + b, (a % p) + (b % p), p);
    ZIffEq(a - b, (a % p) - (b % p), p);
  }

  // ------------------------------------------------------------------ powers

  lemma {:induction false} PowAdd(b: int, m: nat, n: nat)
    ensures Pow(b, m + n) == Pow(b, m) * Pow(b, n)
  {
    if m > 0 {
      PowAdd(b, m - 1, n);
      assert Pow(b, m + n) == b * (Pow(b, m - 1) * Pow(b, n));
    }
  }

  lemma MulSwap(a: int, b: int, x: int, y: int)
    ensures (a * b) * (x * y) == (a * x) * (b * y)
  {}

  lemma {:induction false} PowMulBase(a: int, b: int, n: nat)
    ensures Pow(a * b, n) == Pow(a, n) * Pow(b, n)
  {
    if n > 0 {
      PowMulBase(a, b, n - 1);
      MulSwap(a, b, Pow(a, n - 1), Pow(b, n - 1));
    }
  }

  lemma {:induction false} PowPow(b: int, m: nat, n: nat)
    ensures 0 <= m * n
    ensures Pow(Pow(b, m), n) == Pow(b, m * n)
  {
    if n > 0 {
      PowPow(b, m, n - 1);
      assert m * n == m + m * (n - 1);
      PowAdd(b, m, m * (n - 1));
    } else {
      assert m * n == 0;
    }
  }

  lemma {:induction false} PowPos(b: int, n: nat)
    requires b > 0
    ensures Pow(b, n) > 0
  {
    if n > 0 {
      PowPos(b, n - 1);
      assert b * Pow(b, n - 1) > 0;
    }
  }

  lemma ProductDifference(a: int, x: int, b: int, y: int)
    ensures a * (x - y) + y * (a - b) == a * x - b * y
  {}

  lemma {:induction false} PowCong(a: int, b: int, n: nat, p: int)
    requires p > 0 && Z(a - b, p)
    ensures Z(Pow(a, n) - Pow(b, n), p)
  {
    if n == 0 {
      ZMultiple(0, p);
    } else {
      PowCong(a, b, n - 1, p);
      var x, y := Pow(a, n - 1), Pow(b, n - 1);
      ZComb(a, x - y, y, a - b, p);
      ProductDifference(a, x, b, y);
    }
  }

  // ------------------------------------------------------- primes and fields

  lemma RemainderTimes(p: int, a: int, q: int, r: int, b: int)
    requires p == a * q + r
    ensures b * p - q * (a * b) == r * b
  {}

  // Euclid's lemma, by descent on a.
  lemma {:induction false} Euclid(a: int, b: int, p: int)
    requires Prime(p) && Z(a * b, p)
    ensures Z(a, p) || Z(b, p)
    decreases if a < 0 || a >= p then p else a
  {
    if a < 0 || a >= p {
      var r := a % p;
      ZMod(a, p);
      ZMul(b, a - r, p);
      MulMinus(b, a, r);
      ZAdd(a * b, b * (a - r), p);
      Euclid(r, b, p);
      if Z(r, p) { ZAdd(a - r, r, p); }
    } else if a == 0 {
      ZMultiple(0, p);
    } else if a == 1 {
    } else {
      var q, r := p / a, p % a;
      assert !Z(p, a);
      ZMultiple(b, p);
      ZMul(q, a * b, p);
      ZAdd(b * p, q * (a * b), p);
      RemainderTimes(p, a, q, r, b);
      Euclid(r, b, p);
      if Z(r, p) { ZSmall(r, p); }
    }
  }

  // Binomial coefficients by Pascal's rule.
  ghost function Binom(n: nat, k: nat): nat {
    if k == 0 then 1 else if n == 0 then 0 else Binom(n - 1, k - 1) + Binom(n - 1, k)
  }

  lemma {:induction false} BinomOver(n: nat, k: nat)
    requires k > n
    ensures Binom(n, k) == 0
  {
    if n > 0 {
      BinomOver(n - 1, k - 1);
      BinomOver(n - 1, k);
    }
  }

  lemma {:induction false} BinomDiag(n: nat)
    ensures Binom(n, n) == 1
  {
    if n > 0 {
      BinomDiag(n - 1);
      BinomOver(n - 1, n);
    }
  }

  // With x = u + v (Pascal), the two induction hypotheses add up.
  lemma AbsorbStep(n: int, k: int, u: int, v: int, y: int)
    requires (k - 1) * (u + v) == (n - 1) * u && k * y == (n - 1) * v
    ensures k * ((u + v) + y) == n * (u + v)
  {
    assert k * ((u + v) + y) == (k - 1) * (u + v) + (u + v) + k * y;
    assert (n - 1) * u + (n - 1) * v == n * (u + v) - (u + v);
  }

  lemma {:induction false} BinomAbsorb(n: nat, k: nat)
    requires n > 0 && k > 0
    ensures k * Binom(n, k) == n * Binom(n - 1, k - 1)
  {
    var x, y := Binom(n - 1, k - 1), Binom(n - 1, k);
    assert Binom(n, k) == x + y;
    if n == 1 {
      BinomOver(0, k);
      if k > 1 { BinomOver(0, k - 1); }
    } else if k == 1 {
      BinomAbsorb(n - 1, 1);
    } else {
      BinomAbsorb(n - 1, k - 1);
      BinomAbsorb(n - 1, k);
      var u, v := Binom(n - 2, k - 2), Binom(n - 2, k - 1);
      assert x == u + v;
      AbsorbStep(n, k, u, v, y);
    }
  }

  // The first j + 1 terms of the expansion of (a + 1) ** n.
  ghost function BinomSum(a: int, n: nat, j: nat): int {
    Binom(n, j) * Pow(a, j) + if j == 0 then 0 else BinomSum(a, n, j - 1)
  }

  lemma SumStepRing(a: int, t: int, c: int, d: int, s: int)
    ensures (c + d) * (a * t) == d * (a * t) + a * (c * t)
    ensures a * (c * t + s) == a * (c * t) + a * s
  {}

  lemma {:induction false} BinomSumStep(a: int, n: nat, j: nat)
    ensures BinomSum(a, n + 1, j) == BinomSum(a, n, j) + if j == 0 then 0 else a * BinomSum(a, n, j - 1)
  {
    if j > 0 {
      BinomSumStep(a, n, j - 1);
      var t := Pow(a, j - 1);
      assert Pow(a, j) == a * t;
      assert Binom(n + 1, j) == Binom(n, j - 1) + Binom(n, j);
      var s := if j == 1 then 0 else BinomSum(a, n, j - 2);
      assert BinomSum(a, n, j - 1) == Binom(n, j - 1) * t + s;
      SumStepRing(a, t, Binom(n, j - 1), Binom(n, j), s);
    }
  }

  lemma Factor(a: int, s: int)
    ensures s + a * s == (a + 1) * s
  {}

  lemma {:induction false} BinomialTheorem(a: int, n: nat)
    ensures BinomSum(a, n, n) == Pow(a + 1, n)
  {
    if n > 0 {
      BinomialTheorem(a, n - 1);
      BinomSumStep(a, n - 1, n);
      BinomOver(n - 1, n);
      assert BinomSum(a, n - 1, n) == BinomSum(a, n - 1, n - 1);
      Factor(a, BinomSum(a, n - 1, n - 1));
    }
  }

  // Below the last term, only the first term of the expansion survives mod p.
  lemma {:induction false} BinomSumMod(a: int, p: int, j: nat)
    requires Prime(p) && j < p
    ensures Z(BinomSum(a, p, j) - 1, p)
  {
    if j == 0 {
      ZMultiple(0, p);
    } else {
      BinomSumMod(a, p, j - 1);
      BinomAbsorb(p, j);
      ZMultiple(Binom(p - 1, j - 1), p);
      Euclid(j, Binom(p, j), p);
      if Z(j, p) { ZSmall(j, p); }
      ZMul(Pow(a, j), Binom(p, j), p);
      ZAdd(Binom(p, j) * Pow(a, j), BinomSum(a, p, j - 1) - 1, p);
    }
  }

  lemma BinomialMod(a: int, p: int)
    requires Prime(p)
    ensures Z(Pow(a + 1, p) - Pow(a, p) - 1, p)
  {
    BinomialTheorem(a, p);
    BinomSumMod(a, p, p - 1);
    BinomDiag(p);
    var s := BinomSum(a, p, p - 1);
    assert BinomSum(a, p, p) == 1 * Pow(a, p) + s;
  }

  lemma {:induction false} FermatNat(a: nat, p: int)
    requires Prime(p)
    ensures Z(Pow(a, p) - a, p)
  {
    if a == 0 {
      assert Pow(0, p) == 0;
      ZMultiple(0, p);
    } else {
      FermatNat(a - 1, p);
      BinomialMod(a - 1, p);
      ZAdd(Pow(a, p) - Pow(a - 1, p) - 1, Pow(a - 1, p) - (a - 1), p);
    }
  }

  // Fermat's little theorem.
  lemma Fermat(a: int, p: int)
    requires Prime(p) && !Z(a, p)
    ensures Z(Pow(a, p - 1) - 1, p)
  {
    var r := a % p;
    ZMod(a, p);
    FermatNat(r, p);
    PowCong(a, r, p, p);
    ZAdd(Pow(a, p) - Pow(r, p), Pow(r, p) - r, p);
    ZAdd(Pow(a, p) - r, a - r, p);
    assert Pow(a, p) - a == a * (Pow(a, p - 1) - 1);
    Euclid(a, Pow(a, p - 1) - 1, p);
  }

  // `pow(x, p - 2, p)` is the inverse of every non-zero residue, and 0 for the zero residue.
  lemma InverseByPower(x: int, p: int)
    requires Prime(p)
    ensures !Z(x, p) ==> (x * PowMod(x, p - 2, p)) % p == 1
    ensures Z(x, p) && p > 2 ==> PowMod(x, p - 2, p) == 0
  {
    var y := Pow(x, p - 2);
    if !Z(x, p) {
      Fermat(x, p);
      assert x * y == Pow(x, p - 1);
      ZIffEq(x * y, 1, p);
      ModBasics(1, p);
      MulModReduce(x, y, p);
    } else if p > 2 {
      ZMul(Pow(x, p - 3), x, p);
    }
  }
}
