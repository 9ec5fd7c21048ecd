/** Square roots modulo a prime p with p % 8 == 5, as Ed25519 point decoding needs them:
    2 has no square root, hence 2^((p-1)/4) is a square root of -1, and
    v^((p+3)/8) is a square root of v up to that factor whenever v is a square. */
module SquareRoots {
  import opened Wrappers
  import opened NumberTheory

  ghost function Factorial(n: nat): int {
    if n == 0 then 1 else n * Factorial(n - 1)
  }

  // 2 * 4 * ... * 2n
  ghost function Evens(n: nat): int {
    if n == 0 then 1 else (2 * n) * Evens(n - 1)
  }

  // 1 * 3 * ... * (2n - 1)
  ghost function Odds(n: nat): int {
    if n == 0 then 1 else (2 * n - 1) * Odds(n - 1)
  }

  // (p - 1) * (p - 3) * ... * (p - (2n - 1))
  ghost function Reflected(p: int, n: nat): int {
    if n == 0 then 1 else (p - (2 * n - 1)) * Reflected(p, n - 1)
  }

  lemma {:induction false} EvensArePowerTimesFactorial(n: nat)
    ensures Evens(n) == Pow(2, n) * Factorial(n)
  {
    if n > 0 {
      EvensArePowerTimesFactorial(n - 1);
      MulSwap(2, n, Pow(2, n - 1), Factorial(n - 1));
    }
  }

  lemma {:induction false} FactorialSplits(n: nat)
    ensures Factorial(2 * n) == Evens(n) * Odds(n)
  {
    if n > 0 {
      FactorialSplits(n - 1);
      assert Factorial(2 * n) == (2 * n) * ((2 * n - 1) * Factorial(2 * n - 2));
      MulSwap(2 * n, 2 * n - 1, Evens(n - 1), Odds(n - 1));
      MulAssoc(2 * n, 2 * n - 1, Factorial(2 * n - 2));
    }
  }

  lemma MulAssoc(a: int, b: int, c: int)
    ensures a * (b * c) == (a * b) * c == b * (a * c)
  {}

  // The upper half of the even numbers below 4n + 1, counted down from the top.
  lemma {:induction false} EvensReflect(n: nat, j: nat)
    requires j <= n
    ensures Evens(2 * n) == Evens(2 * n - j) * Reflected(4 * n + 1, j)
  {
    if j > 0 {
      EvensReflect(n, j - 1);
      var k := 2 * n - j + 1;
      var r := Reflected(4 * n + 1, j - 1);
      assert Evens(k) == (2 * k) * Evens(k - 1);
      assert Reflected(4 * n + 1, j) == (2 * k) * r;
      MulAssoc(2 * k, Evens(k - 1), r);
      MulAssoc(Evens(k - 1), 2 * k, r);
    }
  }

  // (-1) * (-3) * ... * -(2n - 1)
  ghost function NegatedOdds(n: nat): int {
    if n == 0 then 1 else -(2 * n - 1) * NegatedOdds(n - 1)
  }

  lemma {:induction false} NegatedOddsSign(n: nat)
    ensures NegatedOdds(n) == if n % 2 == 0 then Odds(n) else -Odds(n)
  {
    if n > 0 {
      NegatedOddsSign(n - 1);
      NegRing(2 * n - 1, Odds(n - 1));
    }
  }

  lemma NegRing(c: int, o: int)
    ensures -c * o == -(c * o) && -c * -o == c * o
  {}

  lemma ReflectRing(p: int, c: int, r: int, o: int)
    ensures r * p - c * (r - o) == (p - c) * r - (-c) * o
  {}

  lemma {:induction false} ReflectedMod(p: int, n: nat)
    requires p > 0
    ensures Z(Reflected(p, n) - NegatedOdds(n), p)
  {
    if n == 0 {
      ZMultiple(0, p);
    } else {
      ReflectedMod(p, n - 1);
      var c, r, o := 2 * n - 1, Reflected(p, n - 1), NegatedOdds(n - 1);
      ZMultiple(1, p);
      ZComb(r, p, c, r - o, p);
      ReflectRing(p, c, r, o);
    }
  }

  lemma {:induction false} FactorialNotZero(n: nat, p: int)
    requires Prime(p) && n < p
    ensures !Z(Factorial(n), p)
  {
    if n == 0 {
      if Z(1, p) { ZSmall(1, p); }
    } else {
      FactorialNotZero(n - 1, p);
      if Z(Factorial(n), p) {
        Euclid(n, Factorial(n - 1), p);
        ZSmall(n, p);
      }
    }
  }

  lemma GaussRing(e: int, r: int, o: int, t: int, f: int)
    requires e * r == t * f && e * o == f
    ensures e * (r + o) == (t + 1) * f
  {}

  lemma OddQuarter(p: int) returns (n: nat)
    requires p > 0 && p % 8 == 5
    ensures p == 4 * n + 1 && n % 2 == 1 && (p - 1) / 2 == 2 * n
  {
    n := (p - 1) / 4;
  }

  // Gauss's argument for 2: comparing 2*4*...*(p-1) with ((p-1)/2)! gives 2^((p-1)/2) = -1.
  lemma TwoIsNotASquare(p: int)
    requires Prime(p) && p % 8 == 5
    ensures Z(Pow(2, (p - 1) / 2) + 1, p)
  {
    var n := OddQuarter(p);
    EvensReflect(n, n);
    ReflectedMod(p, n);
    NegatedOddsSign(n);
    FactorialSplits(n);
    EvensArePowerTimesFactorial(2 * n);
    var e, o, f, t := Evens(n), Odds(n), Factorial(2 * n), Pow(2, 2 * n);
    var r := Reflected(p, n);
    ZMul(e, r + o, p);
    assert 2 * n - n == n;
    GaussRing(e, r, o, t, f);
    Euclid(t + 1, f, p);
    FactorialNotZero(2 * n, p);
  }

  // I = 2^((p-1)/4) squares to -1.
  lemma RootOfMinusOne(p: int)
    requires Prime(p) && p % 8 == 5
    ensures var i := PowMod(2, (p - 1) / 4, p); Z(i * i + 1, p)
  {
    var n := (p - 1) / 4;
    var t := Pow(2, n);
    TwoIsNotASquare(p);
    PowAdd(2, n, n);
    assert n + n == (p - 1) / 2;
    MulModReduce(t, t, p);
    ZIffEq(t * t, (t % p) * (t % p), p);
    ZAdd(t * t + 1, t * t - (t % p) * (t % p), p);
  }

  // A square root is determined up to sign.
  lemma RootsDifferBySign(x: int, w: int, p: int)
    requires Prime(p) && Z(x * x - w * w, p)
    ensures Z(x - w, p) || Z(x + w, p)
  {
    assert x * x - w * w == (x - w) * (x + w);
    Euclid(x - w, x + w, p);
  }

  // If v is the square of w, then v^((p-1)/4) is w^((p-1)/2) mod p, which squares to 1.
  lemma QuarterPowerIsASign(v: int, w: int, k: nat, p: int)
    requires Prime(p) && p == 8 * k + 5 && Z(w * w - v, p) && !Z(w, p)
    ensures var e := Pow(v, 2 * k + 1); Z(e - 1, p) || Z(e + 1, p)
  {
    var e, f := Pow(v, 2 * k + 1), Pow(w, 4 * k + 2);
    PowCong(w * w, v, 2 * k + 1, p);
    PowTwo(w);
    PowPow(w, 2, 2 * k + 1);
    PowAdd(w, 4 * k + 2, 4 * k + 2);
    Fermat(w, p);
    SquareCong(f, e, p);
    ZAdd(f * f - 1, f * f - e * e, p);
    RootsDifferBySign(e, 1, p);
  }

  lemma PowTwo(w: int)
    ensures Pow(w, 2) == w * w
  {
    assert Pow(w, 1) == w * Pow(w, 0);
  }

  lemma SquareCong(u: int, v: int, p: int)
    requires p > 0 && Z(u - v, p)
    ensures Z(u * u - v * v, p)
  {
    ZMul(u + v, u - v, p);
    assert (u + v) * (u - v) == u * u - v * v;
  }

  lemma {:induction false} PowOfZero(v: int, n: nat, p: int)
    requires p > 0 && n > 0 && Z(v, p)
    ensures Z(Pow(v, n), p)
  {
    ZMul(Pow(v, n - 1), v, p);
  }

  // v^((p+3)/8) squares to v or to -v when v is a square.
  lemma CandidateRoot(v: int, w: int, p: int)
    requires Prime(p) && p % 8 == 5 && Z(w * w - v, p)
    ensures var x := Pow(v, (p + 3) / 8); Z(x * x - v, p) || Z(x * x + v, p)
  {
    var k := (p - 5) / 8;
    assert p == 8 * k + 5;
    CandidateSquare(v, w, k, p);
    assert (p + 3) / 8 == k + 1;
  }

  lemma CandidateSquare(v: int, w: int, k: nat, p: int)
    requires Prime(p) && p == 8 * k + 5 && Z(w * w - v, p)
    ensures var x := Pow(v, k + 1); Z(x * x - v, p) || Z(x * x + v, p)
  {
    var x, e := Pow(v, k + 1), Pow(v, 2 * k + 1);
    if Z(w, p) {
      ZMul(w, w, p);
      ZAdd(w * w, w * w - v, p);
      PowOfZero(v, k + 1, p);
      ZMul(x, x, p);
      ZAdd(x * x, v, p);
    } else {
      QuarterPowerIsASign(v, w, k, p);
      PowAdd(v, k + 1, k + 1);
      assert x * x == v * e;
      if Z(e - 1, p) { ZMul(v, e - 1, p); } else { ZMul(v, e + 1, p); }
      Distribute1(v, e);
    }
  }

  lemma Distribute1(v: int, e: int)
    ensures v * (e - 1) == v * e - v && v * (e + 1) == v * e + v
  {}

  // The candidate root, multiplied by i (a root of -1) when it misses, and checked.
  function SquareRoot(v: int, i: int, p: int): (r: Option<int>)
    requires p > 5
    ensures r.Some? ==> 0 <= r.value < p
  {
    var x0 := PowMod(v, (p + 3) / 8, p);
    var x := if (x0 * x0 - v) % p != 0 then (x0 * i) % p else x0;
    if (x * x - v) % p != 0 then None else Some(x)
  }

  lemma SquareRootSound(v: int, i: int, p: int)
    requires p > 5
    ensures var r := SquareRoot(v, i, p); r.Some? ==> Z(r.value * r.value - v, p)
  {
  }

  // A root is found whenever there is one.
  lemma SquareRootFinds(v: int, i: int, p: int, w: int)
    requires Prime(p) && p > 5 && p % 8 == 5 && Z(i * i + 1, p) && Z(w * w - v, p)
    ensures SquareRoot(v, i, p).Some?
  {
    var x0 := PowMod(v, (p + 3) / 8, p);
    CandidateRoot(v, w, p);
    var y := Pow(v, (p + 3) / 8);
    ReducedSquare(y, v, p);
    ReducedSquare(y, -v, p);
    if !Z(x0 * x0 - v, p) {
      RotatedSquare(x0, i, v, p);
      ReducedSquare(x0 * i, v, p);
    }
  }

  lemma ReducedSquare(y: int, v: int, p: int)
    requires p > 0
    ensures Z((y % p) * (y % p) - v, p) <==> Z(y * y - v, p)
  {
    MulModReduce(y, y, p);
    ZIffEq((y % p) * (y % p), v, p);
    ZIffEq(y * y, v, p);
  }

  lemma RotatedSquare(x: int, i: int, v: int, p: int)
    requires p > 0 && Z(i * i + 1, p) && Z(x * x + v, p)
    ensures Z((x * i) * (x * i) - v, p)
  {
    ZComb(x * x, i * i + 1, 1, x * x + v, p);
    MulSwap(x, i, x, i);
    assert (x * x) * (i * i + 1) - 1 * (x * x + v) == (x * x) * (i * i) - v;
  }
}
