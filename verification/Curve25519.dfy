/** X25519 as in curve25519.py: clamping, and the Montgomery ladder with deferred swaps.
    The prime is a parameter p; Prime25519 at the end is the program's P. */
module Curve25519 {
  import opened Wrappers
  import opened NumberTheory
  import opened Bits
  import opened Montgomery
  import opened Bytes32

  const A24: int := 121665
  const P: int := 57896044618658097711785492504343953926634992332820282019728792003956564819949

  // ------------------------------------------------------------- clamping

  function Clamped(s: bytes): (r: bytes)
    requires |s| == 32
    ensures |r| == 32
  {
    s[0 := AndByte(s[0], 248)][31 := OrByte(AndByte(s[31], 127), 64)]
  }

  method ClampScalar(scalar: bytes) returns (result: Option<bytes>)
    ensures result == if |scalar| == 32 then Some(Clamped(scalar)) else None
  {
    if |scalar| != 32 {
      return None;
    }
    var k := new byte[32](i requires 0 <= i < 32 => scalar[i]);
    assert k[..] == scalar;
    k[0] := AndByte(k[0], 248);
    k[31] := AndByte(k[31], 127);
    k[31] := OrByte(k[31], 64);
    assert k[..] == Clamped(scalar);
    return Some(k[..]);
  }

  lemma ClampTop(b: byte)
    ensures OrByte(AndByte(b, 127), 64) == b % 64 + 64
  {
    And127(b);
    var c := b % 128;
    OrWith64(c);
    SixBits(b, c);
  }

  lemma SixBits(b: nat, c: nat)
    requires b < 256 && c == b % 128
    ensures b % 64 == if c < 64 then c else c - 64
  {}

  lemma And127(b: byte)
    ensures And(b, 127) == b % 128
  {
    Pow2Small();
    AndLowMask(b, 7);
  }

  lemma OrWith64(b: nat)
    requires b < 128
    ensures Or(b, 64) == if b < 64 then b + 64 else b
  {
    if b < 64 { OrClear64(b); } else { OrSet64(b - 64); }
  }

  lemma OrClear64(lo: nat)
    requires lo < 64
    ensures Or(lo, 64) == lo + 64
  {
    Pow2Small();
    OrDisjoint(1, lo, 6);
  }

  lemma OrSet64(lo: nat)
    requires lo < 64
    ensures Or(64 + lo, 64) == 64 + lo
  {
    Pow2Small();
    OrIdempotent(1, lo, 6);
  }

  lemma {:induction false} OrIdempotent(hi: nat, lo: nat, k: nat)
    requires lo < Pow2(k)
    ensures Or(hi * Pow2(k) + lo, hi * Pow2(k)) == hi * Pow2(k) + lo
  {
    if k == 0 {
      OrSelf(hi);
      assert hi * 1 == hi;
    } else {
      OrIdempotent(hi, lo / 2, k - 1);
      DoubleTerm(hi, Pow2(k - 1));
      var m := hi * Pow2(k - 1);
      assert (2 * m + lo) / 2 == m + lo / 2 && (2 * m) / 2 == m && (2 * m) % 2 == 0;
    }
  }

  lemma {:induction false} OrSelf(a: nat)
    ensures Or(a, a) == a
  {
    if a > 0 { OrSelf(a / 2); }
  }

  // A clamped scalar is a multiple of 8 from 2^254 up to 2^255, so the ladder's 255
  // iterations see all of it.
  lemma ClampedRange(s: bytes)
    requires |s| == 32
    ensures 64 * TWO_248 <= LE(Clamped(s)) < TWO_255 && LE(Clamped(s)) % 8 == 0
  {
    var r := Clamped(s);
    ClampedEnds(s);
    TopByteRange(r);
    FirstByte(r);
  }

  lemma ClampedEnds(s: bytes)
    requires |s| == 32
    ensures Clamped(s)[0] % 8 == 0 && 64 <= Clamped(s)[31] < 128
  {
    And248(s[0]);
    ClampTop(s[31]);
    assert Clamped(s)[0] == 8 * (s[0] / 8) && Clamped(s)[31] == s[31] % 64 + 64;
  }

  // The number that the ladder runs over: the low three bits of the scalar cleared, and everything
  // from bit 254 up replaced by that bit.
  lemma ClampedValue(s: bytes)
    requires |s| == 32
    ensures LE(Clamped(s)) == 64 * TWO_248 + 8 * (LE(s) / 8 % TWO_251)
  {
    And248(s[0]);
    ClampTop(s[31]);
    assert Clamped(s) == s[0 := 8 * (s[0] / 8)][31 := s[31] % 64 + 64];
    ClampedIs(s, Clamped(s));
  }

  // --------------------------------------------------------------- ladder

  datatype Ladder = Ladder(x2: int, z2: int, x3: int, z3: int) {
    function Low(): XZ { XZ(x2, z2) }
    function High(): XZ { XZ(x3, z3) }
    function Swapped(): Ladder { Ladder(x3, z3, x2, z2) }
  }

  // The arithmetic of one ladder iteration, in the program's order.
  function Step(p: int, x1: int, s: Ladder): Ladder
    requires p > 0
  {
    var a := (s.x2 + s.z2) % p;
    var aa := (a * a) % p;
    var b := (s.x2 - s.z2) % p;
    var bb := (b * b) % p;
    var e := (aa - bb) % p;
    var c := (s.x3 + s.z3) % p;
    var d := (s.x3 - s.z3) % p;
    var da := (d * a) % p;
    var cb := (c * b) % p;
    Ladder((aa * bb) % p,
           (e * (aa + A24 * e)) % p,
           ((da + cb) * (da + cb)) % p,
           (x1 * ((da - cb) * (da - cb))) % p)
  }

  lemma DoubleXRing(x: int, z: int)
    ensures ((x + z) * (x + z)) * ((x - z) * (x - z)) == (x * x - z * z) * (x * x - z * z)
    ensures (x + z) * (x + z) - (x - z) * (x - z) == 4 * (x * z)
    ensures (x + z) * (x + z) + 121665 * (4 * (x * z)) == x * x + 486662 * (x * z) + z * z
  {
    MulSwap(x + z, x + z, x - z, x - z);
    assert (x + z) * (x - z) == x * x - z * z;
    assert (x + z) * (x + z) == x * x + 2 * (x * z) + z * z;
    assert (x - z) * (x - z) == x * x - 2 * (x * z) + z * z;
  }

  // The first half of a step doubles the low point.
  lemma StepDoubles(p: int, x1: int, s: Ladder)
    requires p > 0
    ensures Step(p, x1, s).Low() == Double(p, s.Low())
  {
    var x, z := s.x2, s.z2;
    var a, b := (x + z) % p, (x - z) % p;
    var aa, bb := (a * a) % p, (b * b) % p;
    ZMod(x + z, p);
    ZMod(x - z, p);
    CongMul(a, x + z, a, x + z, p);
    CongMul(b, x - z, b, x - z, p);
    CongReduced(a * a, (x + z) * (x + z), p);
    CongReduced(b * b, (x - z) * (x - z), p);
    var u, v := (x + z) * (x + z), (x - z) * (x - z);
    DoubleXRing(x, z);
    CongMul(aa, u, bb, v, p);
    CongEq(aa * bb, u * v, p);
    var e := (aa - bb) % p;
    ZAdd(aa - u, bb - v, p);
    CongReduced(aa - bb, u - v, p);
    ZMul(A24, e - (u - v), p);
    ZAdd(aa - u, A24 * (e - (u - v)), p);
    assert (aa - u) + A24 * (e - (u - v)) == (aa + A24 * e) - (u + A24 * (u - v));
    CongMul(e, u - v, aa + A24 * e, u + A24 * (u - v), p);
    CongEq(e * (aa + A24 * e), (u - v) * (u + A24 * (u - v)), p);
  }

  lemma AddRing(x2: int, z2: int, x3: int, z3: int)
    ensures (x3 - z3) * (x2 + z2) + (x3 + z3) * (x2 - z2) == 2 * (x2 * x3 - z2 * z3)
    ensures (x3 - z3) * (x2 + z2) - (x3 + z3) * (x2 - z2) == 2 * (x3 * z2 - z3 * x2)
  {}

  lemma FourSquares(t: int, d: int)
    ensures (2 * t) * (2 * t) == 4 * (t * t)
    ensures d * ((2 * t) * (2 * t)) == 4 * d * (t * t)
  {
    assert d * (4 * (t * t)) == 4 * d * (t * t);
  }

  // The second half adds the two points, whose difference has coordinate x1.
  lemma StepAdds(p: int, x1: int, s: Ladder)
    requires p > 0
    ensures Step(p, x1, s).High() == DiffAdd(p, x1, s.Low(), s.High())
  {
    var a, b := (s.x2 + s.z2) % p, (s.x2 - s.z2) % p;
    var c, d := (s.x3 + s.z3) % p, (s.x3 - s.z3) % p;
    ZMod(s.x2 + s.z2, p);
    ZMod(s.x2 - s.z2, p);
    ZMod(s.x3 + s.z3, p);
    ZMod(s.x3 - s.z3, p);
    var da', cb' := (s.x3 - s.z3) * (s.x2 + s.z2), (s.x3 + s.z3) * (s.x2 - s.z2);
    CongMul(d, s.x3 - s.z3, a, s.x2 + s.z2, p);
    CongMul(c, s.x3 + s.z3, b, s.x2 - s.z2, p);
    CongReduced(d * a, da', p);
    CongReduced(c * b, cb', p);
    var da, cb := (d * a) % p, (c * b) % p;
    AddRing(s.x2, s.z2, s.x3, s.z3);
    var t, u := s.x2 * s.x3 - s.z2 * s.z3, s.x3 * s.z2 - s.z3 * s.x2;
    ZAdd(da - da', cb - cb', p);
    assert (da - da') + (cb - cb') == (da + cb) - 2 * t && (da - da') - (cb - cb') == (da - cb) - 2 * u;
    CongMul(da + cb, 2 * t, da + cb, 2 * t, p);
    CongMul(da - cb, 2 * u, da - cb, 2 * u, p);
    FourSquares(t, x1);
    FourSquares(u, x1);
    CongEq((da + cb) * (da + cb), 4 * (t * t), p);
    ZMul(x1, (da - cb) * (da - cb) - (2 * u) * (2 * u), p);
    MulMinus(x1, (da - cb) * (da - cb), (2 * u) * (2 * u));
    CongEq(x1 * ((da - cb) * (da - cb)), 4 * x1 * (u * u), p);
  }

  // The plain ladder over the bits of k from position t up: the low point holds the
  // multiple k >> t and the high point the next multiple.
  function PlainLadder(p: int, x1: int, k: nat, t: nat): Ladder
    requires p > 0 && t <= 255
    decreases 255 - t
  {
    if t == 255 then Ladder(1, 0, x1, 1)
    else
      Advance(p, x1, PlainLadder(p, x1, k, t + 1), Bit(k, t))
  }

  // From the m-th and the next multiple to the (2m + bit)-th and its next.
  function Advance(p: int, x1: int, s: Ladder, bit: nat): Ladder
    requires p > 0
  {
    var sum := DiffAdd(p, x1, s.Low(), s.High());
    if bit == 0 then Both(Double(p, s.Low()), sum) else Both(sum, Double(p, s.High()))
  }

  function Both(low: XZ, high: XZ): Ladder {
    Ladder(low.x, low.z, high.x, high.z)
  }

  function Bit(k: nat, t: nat): (r: nat)
    ensures r < 2
  {
    Shr(k, t) % 2
  }

  function Undeferred(s: Ladder, swap: nat): Ladder {
    if swap == 0 then s else s.Swapped()
  }

  // One iteration with the deferred swap does what the plain ladder does.
  lemma DeferredStep(p: int, x1: int, k: nat, t: nat, s: Ladder, swap: nat)
    requires p > 0 && t < 255 && swap < 2
    requires Undeferred(s, swap) == PlainLadder(p, x1, k, t + 1)
    ensures var kt := Bit(k, t);
      Undeferred(Step(p, x1, Undeferred(s, Xor(swap, kt))), kt) == PlainLadder(p, x1, k, t)
  {
    var kt := Bit(k, t);
    var s' := Undeferred(s, Xor(swap, kt));
    assert Xor(0, 0) == 0 && Xor(0, 1) == 1 && Xor(1, 0) == 1 && Xor(1, 1) == 0;
    assert s' == Undeferred(PlainLadder(p, x1, k, t + 1), kt);
    StepDoubles(p, x1, s');
    StepAdds(p, x1, s');
    DiffAddSymmetric(p, x1, s'.Low(), s'.High());
  }

  function Shared(p: int, scalar: bytes, u: bytes): Option<bytes>
    requires p > 2
  {
    if |u| != 32 || |scalar| != 32 then None
    else Some(ToLE(Affine(p, PlainLadder(p, LE(u) % p, LE(Clamped(scalar)), 0).Low()), 32))
  }

  // The body of the loop after its conditional swap.
  method LadderStep(p: int, x1: int, x2: int, z2: int, x3: int, z3: int)
      returns (nx2: int, nz2: int, nx3: int, nz3: int)
    requires p > 0
    ensures Ladder(nx2, nz2, nx3, nz3) == Step(p, x1, Ladder(x2, z2, x3, z3))
  {
    var a := (x2 + z2) % p;
    var aa := (a * a) % p;
    var b := (x2 - z2) % p;
    var bb := (b * b) % p;
    var e := (aa - bb) % p;
    var c := (x3 + z3) % p;
    var d := (x3 - z3) % p;
    var da := (d * a) % p;
    var cb := (c * b) % p;
    nx3 := ((da + cb) * (da + cb)) % p;
    nz3 := (x1 * ((da - cb) * (da - cb))) % p;
    nx2 := (aa * bb) % p;
    nz2 := (e * (aa + A24 * e)) % p;
  }

  // The deferred-swap loop of x25519 computes the plain ladder.
  method X25519(p: int, scalar: bytes, u: bytes) returns (result: Option<bytes>)
    requires p > 2
    ensures result == Shared(p, scalar, u)
  {
    if |u| != 32 {
      return None;
    }
    var clamped := ClampScalar(scalar);
    if clamped.None? {
      return None;
    }
    var k := LE(clamped.value);
    var x1 := LE(u) % p;
    var x2, z2 := 1, 0;
    var x3, z3 := x1, 1;
    var swap := 0;
    for t := 255 downto 0
      invariant 0 <= swap < 2
      invariant Undeferred(Ladder(x2, z2, x3, z3), swap) == PlainLadder(p, x1, k, t)
    {
      DeferredStep(p, x1, k, t, Ladder(x2, z2, x3, z3), swap);
      var kt := And(Shr(k, t), 1);
      LowBitOf(Shr(k, t));
      swap := Xor(swap, kt);
      if swap != 0 {
        x2, x3 := x3, x2;
        z2, z3 := z3, z2;
      }
      swap := kt;
      x2, z2, x3, z3 := LadderStep(p, x1, x2, z2, x3, z3);
    }
    if swap != 0 {
      x2, x3 := x3, x2;
      z2, z3 := z3, z2;
    }
    var out := (x2 * PowMod(z2, p - 2, p)) % p;
    return Some(ToLE(out, 32));
  }

  lemma LowBitOf(s: nat)
    ensures And(s, 1) == s % 2
  {
    Pow2Small();
    AndLowMask(s, 1);
  }

  // The code reduces u modulo P without clearing its top bit first, which section 5 of
  // RFC 7748 asks for: the two agree exactly when that bit is clear.
  lemma TopBitMatters(u: bytes)
    requires |u| == 32
    ensures LE(u) % P == (LE(u) % TWO_255) % P <==> u[31] < 128
  {
    SplitTop(u);
    LowBytesBound(u);
    TopBitOfSum(LE(u), LE(u[..31]), u[31]);
  }

  lemma TopBitOfSum(n: nat, lo: nat, top: nat)
    requires lo < TWO_248 && top < 256 && n == lo + TWO_248 * top
    ensures n % P == (n % TWO_255) % P <==> top < 128
  {
  }

  // ------------------------------------------- multiples of one curve point

  // q(n) is the x-coordinate, as (x : z), of n times some point with affine coordinate u:
  // the laws of x-only arithmetic that hold on the curve and on its twist.
  ghost predicate Multiples(p: int, u: int, q: nat -> XZ)
    requires p > 2
  {
    && Same(p, XZ(1, 0), q(0))
    && Same(p, XZ(u, 1), q(1))
    && (forall n: nat :: DoublesAt(p, q, n))
    && (forall m: nat, n: nat :: AddsAt(p, q, m, n))
    && (forall m: nat, n: nat :: RepeatsAt(p, q, m, n))
  }

  ghost predicate DoublesAt(p: int, q: nat -> XZ, n: nat)
    requires p > 2
  {
    Same(p, Double(p, q(n)), q(2 * n))
  }

  // The sum of the m-th and n-th multiples, when their difference is a proper point.
  ghost predicate AddsAt(p: int, q: nat -> XZ, m: nat, n: nat)
    requires p > 2
  {
    m <= n && Finite(p, q(n - m)) ==>
      Same(p, DiffAdd(p, Affine(p, q(n - m)), q(m), q(n)), q(m + n))
  }

  // Once the n-th multiple is the point at infinity, the multiples repeat.
  ghost predicate RepeatsAt(p: int, q: nat -> XZ, m: nat, n: nat)
    requires p > 2
  {
    Z(q(n).z, p) ==> Same(p, q(m), q(m + n))
  }

  // Neither the point at infinity nor (0, 0).
  ghost predicate Finite(p: int, a: XZ)
    requires p > 0
  {
    !Z(a.x, p) && !Z(a.z, p)
  }

  // Points equal to the m-th and the next multiple: their sum and their doubles.
  lemma SumIsMultiple(p: int, u: int, q: nat -> XZ, m: nat, low: XZ, high: XZ)
    requires Prime(p) && p > 2 && 0 < u < p && Multiples(p, u, q)
    requires Same(p, low, q(m)) && Same(p, high, q(m + 1))
    ensures Same(p, DiffAdd(p, u, low, high), q(2 * m + 1))
  {
    FirstIsFinite(p, u, q);
    assert AddsAt(p, q, m, m + 1);
    assert m + 1 - m == 1 && m + (m + 1) == 2 * m + 1;
    DiffAddSame(p, u, low, q(m), high, q(m + 1));
    SameTransitive(p, DiffAdd(p, u, low, high), DiffAdd(p, u, q(m), q(m + 1)), q(2 * m + 1));
  }

  lemma DoubleIsMultiple(p: int, u: int, q: nat -> XZ, m: nat, a: XZ)
    requires Prime(p) && p > 2 && Multiples(p, u, q) && Same(p, a, q(m))
    ensures Same(p, Double(p, a), q(2 * m))
  {
    DoubleSame(p, a, q(m));
    assert DoublesAt(p, q, m);
    SameTransitive(p, Double(p, a), Double(p, q(m)), q(2 * m));
  }

  ghost predicate Holds(p: int, q: nat -> XZ, s: Ladder, m: nat)
    requires p > 0
  {
    Same(p, s.Low(), q(m)) && Same(p, s.High(), q(m + 1))
  }

  lemma AdvanceHolds(p: int, u: int, q: nat -> XZ, s: Ladder, m: nat, bit: nat)
    requires Prime(p) && p > 2 && 0 < u < p && Multiples(p, u, q) && bit < 2
    requires Holds(p, q, s, m)
    ensures Holds(p, q, Advance(p, u, s, bit), 2 * m + bit)
  {
    SumIsMultiple(p, u, q, m, s.Low(), s.High());
    if bit == 0 {
      DoubleIsMultiple(p, u, q, m, s.Low());
    } else {
      DoubleIsMultiple(p, u, q, m + 1, s.High());
    }
  }

  lemma StartHolds(p: int, u: int, q: nat -> XZ)
    requires p > 2 && Multiples(p, u, q)
    ensures Holds(p, q, Ladder(1, 0, u, 1), 0)
  {
  }

  // The ladder state at bit t: the multiples k >> t and (k >> t) + 1.
  lemma {:induction false} LadderHoldsMultiples(p: int, u: int, q: nat -> XZ, k: nat, t: nat)
    requires Prime(p) && p > 2 && 0 < u < p && Multiples(p, u, q) && t <= 255 && k < Pow2(255)
    ensures Holds(p, q, PlainLadder(p, u, k, t), Shr(k, t))
    decreases 255 - t
  {
    if t == 255 {
      DivModUnique(k, Pow2(255), 0, k);
      StartHolds(p, u, q);
    } else {
      LadderHoldsMultiples(p, u, q, k, t + 1);
      ShrStep(k, t);
      AdvanceHolds(p, u, q, PlainLadder(p, u, k, t + 1), Shr(k, t + 1), Bit(k, t));
    }
  }

  lemma ShrStep(k: nat, t: nat)
    ensures Shr(k, t) == 2 * Shr(k, t + 1) + Bit(k, t)
  {
    var m := Pow2(t);
    var a, r := QuotientAndRest(k, m);
    HalfQuotient(k, m, a, a / 2, a % 2, r);
  }

  lemma QuotientAndRest(k: nat, m: nat) returns (a: nat, r: nat)
    requires m > 0
    ensures k == m * a + r && r < m && a == k / m
  {
    a, r := k / m, k % m;
  }

  lemma HalfQuotient(k: nat, m: nat, a: nat, h: nat, b: nat, r: nat)
    requires m > 0 && k == m * a + r && r < m && a == 2 * h + b && b < 2
    ensures k / (2 * m) == h
  {
    HalfRing(m, h, b, r);
    DivModUnique(k, 2 * m, h, m * b + r);
  }

  lemma HalfRing(m: nat, h: nat, b: nat, r: nat)
    requires b < 2 && r < m
    ensures m * (2 * h + b) + r == (2 * m) * h + (m * b + r) && 0 <= m * b + r < 2 * m
  {}

  lemma FirstIsFinite(p: int, u: int, q: nat -> XZ)
    requires Prime(p) && p > 2 && 0 < u < p && Multiples(p, u, q)
    ensures Finite(p, q(1)) && Affine(p, q(1)) == u
  {
    var a := XZ(u, 1);
    AffineSame(p, a, q(1));
    if Z(1, p) { ZSmall(1, p); }
    if Z(u, p) { ZSmall(u, p); }
    AffineIsQuotient(p, a);
    assert Affine(p, a) * 1 - u == Affine(p, a) - u;
    ZSmall(Affine(p, a) - u, p);
  }

  // For u = 0, the point of order two, every even multiple is the point at infinity.
  lemma {:induction false} EvenMultiplesOfZero(p: int, q: nat -> XZ, k: nat)
    requires Prime(p) && p > 2 && Multiples(p, 0, q) && k % 2 == 0
    ensures Z(q(k).z, p)
  {
    if k == 0 {
      ZMultiple(0, p);
      AffineSame(p, XZ(1, 0), q(0));
    } else {
      EvenMultiplesOfZero(p, q, k - 2);
      SecondOfZero(p, q);
      assert RepeatsAt(p, q, k - 2, 2);
      AffineSame(p, q(k - 2), q(k));
    }
  }

  lemma SecondOfZero(p: int, q: nat -> XZ)
    requires Prime(p) && p > 2 && Multiples(p, 0, q)
    ensures Z(q(2).z, p)
  {
    AffineSame(p, XZ(0, 1), q(1));
    ZMultiple(0, p);
    DoubleOfZero(p, q(1));
    assert DoublesAt(p, q, 1);
    AffineSame(p, Double(p, q(1)), q(2));
  }

  lemma DoubleOfZero(p: int, a: XZ)
    requires p > 0 && (Z(a.x, p) || Z(a.z, p))
    ensures Z(Double(p, a).z, p)
  {
    if Z(a.x, p) { ZMul(a.z, a.x, p); } else { ZMul(a.x, a.z, p); }
    var c := a.x * a.x + 486662 * (a.x * a.z) + a.z * a.z;
    ZMul(4, a.x * a.z, p);
    ZMul(c, 4 * (a.x * a.z), p);
    CongReduced(4 * (a.x * a.z) * c, 0, p);
  }

  // With u = 0 the low point never leaves z = 0.
  lemma {:induction false} LadderOfZero(p: int, k: nat, t: nat)
    requires p > 0 && t <= 255
    ensures Z(PlainLadder(p, 0, k, t).z2, p)
    decreases 255 - t
  {
    ZMultiple(0, p);
    if t < 255 {
      LadderOfZero(p, k, t + 1);
      var s := PlainLadder(p, 0, k, t + 1);
      DoubleOfZero(p, s.Low());
      SumOfZero(p, s.Low(), s.High());
    }
  }

  lemma SumOfZero(p: int, a: XZ, b: XZ)
    requires p > 0
    ensures Z(DiffAdd(p, 0, a, b).z, p)
  {
    var t := b.x * a.z - b.z * a.x;
    assert 4 * 0 * (t * t) == 0;
    ZMultiple(0, p);
    CongReduced(4 * 0 * (t * t), 0, p);
  }

  // What x25519 computes: the affine coordinate of the k-th multiple of the point with
  // coordinate u, where k is the clamped scalar; 0 stands for the point at infinity.
  lemma LadderIsMultiple(p: int, u: int, q: nat -> XZ, k: nat)
    requires Prime(p) && p > 2 && 0 <= u < p && Multiples(p, u, q) && k % 2 == 0 && k < TWO_255
    ensures Affine(p, PlainLadder(p, u, k, 0).Low()) == Affine(p, q(k))
  {
    if u == 0 {
      EvenMultiplesOfZero(p, q, k);
      LadderOfZero(p, k, 0);
      AffineIsQuotient(p, q(k));
      AffineIsQuotient(p, PlainLadder(p, u, k, 0).Low());
    } else {
      Pow2Sizes256();
      LadderHoldsMultiples(p, u, q, k, 0);
      ShrZero(k);
      AffineSame(p, PlainLadder(p, u, k, 0).Low(), q(k));
    }
  }

  lemma ShrZero(k: nat)
    ensures Shr(k, 0) == k
  {
    DivModUnique(k, 1, k, 0);
  }

  // The factor that stands for a scalar.
  function Exponent(scalar: bytes): nat
    requires |scalar| == 32
  {
    LE(Clamped(scalar))
  }

  lemma SharedIsPower(p: int, scalar: bytes, u: bytes, q: nat -> XZ)
    requires Prime(p) && 2 < p < TWO_255 && |scalar| == 32 && |u| == 32
    requires Multiples(p, LE(u) % p, q)
    ensures Shared(p, scalar, u).Some? && |Shared(p, scalar, u).value| == 32
    ensures LE(Shared(p, scalar, u).value) == Affine(p, q(Exponent(scalar)))
  {
    ClampedRange(scalar);
    EvenFromEight(Exponent(scalar));
    LadderIsMultiple(p, LE(u) % p, q, Exponent(scalar));
    FitsIn32(Affine(p, q(Exponent(scalar))), p);
  }

  // The bytes that come out encode the coordinate of the multiple by the clamped scalar.
  lemma SharedIsMultiple(p: int, scalar: bytes, u: bytes, q: nat -> XZ)
    requires Prime(p) && 2 < p < TWO_255 && |scalar| == 32 && |u| == 32
    requires Multiples(p, LE(u) % p, q)
    ensures Shared(p, scalar, u).Some? && |Shared(p, scalar, u).value| == 32
    ensures LE(Shared(p, scalar, u).value) == Affine(p, q(64 * TWO_248 + 8 * (LE(scalar) / 8 % TWO_251)))
  {
    SharedIsPower(p, scalar, u, q);
    ClampedValue(scalar);
  }

  // The u coordinate 9 of the base point.
  function Nine(): (u: bytes)
    ensures |u| == 32 && u[0] == 9 && forall i :: 1 <= i < 32 ==> u[i] == 0
  {
    [9] + seq<byte>(31, _ => 0)
  }

  lemma {:induction false} ZerosAreZero(s: bytes)
    requires forall i :: 0 <= i < |s| ==> s[i] == 0
    ensures LE(s) == 0
  {
    if s != [] { ZerosAreZero(s[1..]); }
  }

  lemma NineIsNine(u: bytes)
    requires |u| == 32 && u[0] == 9 && forall i :: 1 <= i < 32 ==> u[i] == 0
    ensures LE(u) == 9
  {
    ZerosAreZero(u[1..]);
  }

  method PublicFromPrivate(p: int, private: bytes) returns (result: Option<bytes>)
    requires p > 2
    ensures result == Shared(p, private, Nine())
  {
    result := X25519(p, private, Nine());
  }

  // A public key is a multiple of the point with coordinate 9.
  lemma PublicIsMultiple(p: int, private: bytes, u: bytes, q: nat -> XZ)
    requires Prime(p) && 9 < p < TWO_255 && |private| == 32 && u == Nine() && Multiples(p, 9, q)
    ensures Shared(p, private, u).Some? && |Shared(p, private, u).value| == 32
    ensures LE(Shared(p, private, u).value) == Affine(p, q(64 * TWO_248 + 8 * (LE(private) / 8 % TWO_251)))
  {
    NineIsNine(u);
    ModBasics(9, p);
    SharedIsMultiple(p, private, u, q);
  }

  lemma EvenFromEight(k: nat)
    requires k % 8 == 0
    ensures k % 2 == 0
  {
    assert k == 2 * (4 * (k / 8));
  }

  lemma FitsIn32(n: nat, p: int)
    requires n < p < TWO_255
    ensures LE(ToLE(n, 32)) == n
  {
    Pow2Sizes256();
    LEToLE(n, 32);
  }

  // The multiples of the b-th multiple.
  function Every(q: nat -> XZ, b: nat): nat -> XZ {
    (n: nat) => q(Times(n, b))
  }

  function Times(n: nat, b: nat): nat {
    n * b
  }

  lemma TimesLaws(m: nat, n: nat, b: nat)
    requires m <= n
    ensures Times(2 * n, b) == 2 * Times(n, b) && Times(m + n, b) == Times(m, b) + Times(n, b)
    ensures Times(m, b) <= Times(n, b) && Times(n - m, b) == Times(n, b) - Times(m, b)
    ensures Times(0, b) == 0 && Times(1, b) == b && Times(n, b) == Times(b, n)
  {
    assert (n - m) * b == n * b - m * b;
    assert n * b == b * n;
    assert (n - m) * b >= 0;
  }

  lemma EveryLaws(p: int, u: int, q: nat -> XZ, b: nat, m: nat, n: nat)
    requires p > 2 && Multiples(p, u, q)
    ensures DoublesAt(p, Every(q, b), n) && AddsAt(p, Every(q, b), m, n) && RepeatsAt(p, Every(q, b), m, n)
  {
    TimesLaws(0, n, b);
    assert DoublesAt(p, q, Times(n, b));
    assert AddsAt(p, q, Times(m, b), Times(n, b));
    assert RepeatsAt(p, q, Times(m, b), Times(n, b));
    if m <= n { TimesLaws(m, n, b); } else { TimesLaws(n, m, b); }
  }

  lemma EveryIsMultiples(p: int, u: int, q: nat -> XZ, b: nat)
    requires Prime(p) && p > 2 && Multiples(p, u, q) && !Z(q(b).z, p)
    ensures Multiples(p, Affine(p, q(b)), Every(q, b))
  {
    TimesLaws(0, 0, b);
    SameAsAffine(p, q(b));
    forall n: nat
      ensures DoublesAt(p, Every(q, b), n)
    {
      EveryLaws(p, u, q, b, 0, n);
    }
    forall m: nat, n: nat
      ensures AddsAt(p, Every(q, b), m, n) && RepeatsAt(p, Every(q, b), m, n)
    {
      EveryLaws(p, u, q, b, m, n);
    }
  }

  lemma {:induction false} MultiplesOfInfinity(p: int, u: int, q: nat -> XZ, b: nat, n: nat)
    requires Prime(p) && p > 2 && Multiples(p, u, q) && Z(q(b).z, p)
    ensures Z(q(Times(n, b)).z, p)
  {
    TimesLaws(0, n, b);
    if n == 0 {
      ZMultiple(0, p);
      AffineSame(p, XZ(1, 0), q(0));
    } else {
      MultiplesOfInfinity(p, u, q, b, n - 1);
      TimesLaws(1, n, b);
      assert RepeatsAt(p, q, Times(n - 1, b), b);
      AffineSame(p, q(Times(n - 1, b)), q(Times(n, b)));
    }
  }

  // Applying two scalars in turn gives the multiple by their product.
  lemma SharedTwice(p: int, a: bytes, b: bytes, u: bytes, q: nat -> XZ)
    requires Prime(p) && 2 < p < TWO_255 && |a| == 32 && |b| == 32 && |u| == 32
    requires Multiples(p, LE(u) % p, q)
    ensures Shared(p, b, u).Some? && Shared(p, a, Shared(p, b, u).value).Some?
    ensures LE(Shared(p, a, Shared(p, b, u).value).value) == Affine(p, q(Times(Exponent(a), Exponent(b))))
  {
    var ka, kb := Exponent(a), Exponent(b);
    SharedIsPower(p, b, u, q);
    var v := Shared(p, b, u).value;
    ModBasics(LE(v), p);
    if Z(q(kb).z, p) {
      AffineIsQuotient(p, q(kb));
      MultiplesOfInfinity(p, LE(u) % p, q, kb, ka);
      AffineIsQuotient(p, q(Times(ka, kb)));
      LadderOfZero(p, ka, 0);
      AffineIsQuotient(p, PlainLadder(p, 0, ka, 0).Low());
      FitsIn32(0, p);
    } else {
      EveryIsMultiples(p, LE(u) % p, q, kb);
      SharedIsPower(p, a, v, Every(q, kb));
    }
  }

  // Diffie-Hellman agreement: both sides compute the same 32 bytes.
  lemma Agreement(p: int, a: bytes, b: bytes, u: bytes, q: nat -> XZ)
    requires Prime(p) && 2 < p < TWO_255 && |a| == 32 && |b| == 32 && |u| == 32
    requires Multiples(p, LE(u) % p, q)
    ensures Shared(p, b, u).Some? && Shared(p, a, u).Some?
    ensures Shared(p, a, Shared(p, b, u).value) == Shared(p, b, Shared(p, a, u).value)
  {
    SharedTwice(p, a, b, u, q);
    SharedTwice(p, b, a, u, q);
    TimesLaws(0, Exponent(a), Exponent(b));
    var ab, ba := Shared(p, a, Shared(p, b, u).value).value, Shared(p, b, Shared(p, a, u).value).value;
    LEInjective(ab, ba);
  }
}
