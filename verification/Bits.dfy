/** Python's bitwise operators on non-negative integers, and bytes as integers below 256. */
module Bits {
  import opened NumberTheory

  type byte = x: int | 0 <= x < 256

  type bytes = seq<byte>

  // 2 to the 248th and to the 255th, written out
  const TWO_248: nat := 0x100000000000000000000000000000000000000000000000000000000000000
  const TWO_255: nat := 0x8000000000000000000000000000000000000000000000000000000000000000

  function Pow2(k: nat): (r: nat)
    ensures r >= 1
  {
    if k == 0 then 1 else 2 * Pow2(k - 1)
  }

  function And(a: nat, b: nat): nat {
    if a == 0 || b == 0 then 0 else (if a % 2 == 1 && b % 2 == 1 then 1 else 0) + 2 * And(a / 2, b / 2)
  }

  function Or(a: nat, b: nat): nat
    decreases a + b
  {
    if a == 0 && b == 0 then 0 else (if a % 2 == 1 || b % 2 == 1 then 1 else 0) + 2 * Or(a / 2, b / 2)
  }

  function Xor(a: nat, b: nat): nat
    decreases a + b
  {
    if a == 0 && b == 0 then 0 else (if a % 2 != b % 2 then 1 else 0) + 2 * Xor(a / 2, b / 2)
  }

  // Exclusive or of two bytes, which is again a byte.
  function XorByte(a: byte, b: byte): byte {
    XorBound(a, b, 8);
    assert Pow2(8) == 256 by { Pow2Small(); }
    Xor(a, b)
  }

  function Shl(a: nat, k: nat): nat {
    a * Pow2(k)
  }

  function Shr(a: nat, k: nat): nat {
    DivNonNegative(a, Pow2(k));
    a / Pow2(k)
  }

  lemma DivNonNegative(a: nat, m: nat)
    requires m > 0
    ensures a / m >= 0
  {}

  // ----------------------------------------------------------------- powers

  lemma Pow2Small()
    ensures Pow2(0) == 1 && Pow2(1) == 2 && Pow2(2) == 4 && Pow2(3) == 8 && Pow2(4) == 16
    ensures Pow2(5) == 32 && Pow2(6) == 64 && Pow2(7) == 128 && Pow2(8) == 256
  {
    assert Pow2(4) == 16;
  }

  lemma {:induction false} Pow2Add(m: nat, n: nat)
    ensures Pow2(m + n) == Pow2(m) * Pow2(n)
  {
    if m > 0 {
      Pow2Add(m - 1, n);
      assert Pow2(m + n) == 2 * (Pow2(m - 1) * Pow2(n));
    }
  }

  lemma Pow2Mono(m: nat, n: nat)
    requires m <= n
    ensures Pow2(m) <= Pow2(n)
  {
    Pow2Add(m, n - m);
    assert Pow2(m) * Pow2(n - m) >= Pow2(m) by { assert Pow2(m) * (Pow2(n - m) - 1) >= 0; }
  }

  lemma Pow2Sizes()
    ensures Pow2(16) == 0x1_0000
    ensures Pow2(32) == 0x1_0000_0000
    ensures Pow2(64) == 0x1_0000_0000_0000_0000
    ensures Pow2(128) == 0x1_0000_0000_0000_0000_0000_0000_0000_0000
  {
    Pow2Small();
    Pow2Add(8, 8);
    Pow2Add(16, 16);
    Pow2Add(32, 32);
    Pow2Add(64, 64);
  }

  lemma Pow2Sizes256()
    ensures Pow2(248) == TWO_248 && Pow2(255) == TWO_255 && 128 * TWO_248 == TWO_255
    ensures Pow2(254) == 64 * TWO_248
    ensures Pow2(256) == 256 * TWO_248
  {
    Pow2Sizes();
    Pow2Small();
    Pow2Add(128, 64);
    Pow2Add(192, 32);
    Pow2Add(224, 16);
    Pow2Add(240, 8);
    Pow2Add(6, 248);
    Pow2Add(7, 248);
    Pow2Add(8, 248);
  }

  // --------------------------------------------------------------- division

  lemma DivHalf(a: nat, m: nat)
    requires m > 0
    ensures a / (2 * m) == (a / 2) / m
    ensures a % (2 * m) == a % 2 + 2 * ((a / 2) % m)
  {
    var h := a / 2;
    var q, r := h / m, h % m;
    assert h == m * q + r && a == 2 * h + a % 2;
    DivModUnique(a, 2 * m, q, a % 2 + 2 * r);
  }

  // ------------------------------------------------------------------ masks

  // `a & ((1 << k) - 1)` keeps the low k bits.
  lemma {:induction false} AndLowMask(a: nat, k: nat)
    ensures And(a, Pow2(k) - 1) == a % Pow2(k)
  {
    if k == 0 || a == 0 {
      DivModUnique(a, 1, a, 0);
      DivModUnique(0, Pow2(k), 0, 0);
    } else {
      AndLowMask(a / 2, k - 1);
      DivHalf(a, Pow2(k - 1));
      assert (Pow2(k) - 1) / 2 == Pow2(k - 1) - 1 && (Pow2(k) - 1) % 2 == 1;
    }
  }

  lemma AndEven(a: nat, d: nat)
    ensures And(a, 2 * d) == 2 * And(a / 2, d)
  {
    assert (2 * d) / 2 == d && (2 * d) % 2 == 0;
  }

  // `b & 248` clears the low three bits of a byte.
  lemma And248(b: byte)
    ensures And(b, 248) == 8 * (b / 8)
  {
    AndEven(b, 124);
    AndEven(b / 2, 62);
    AndEven(b / 4, 31);
    And31(b / 8);
  }

  lemma And31(a: nat)
    requires a < 32
    ensures And(a, 31) == a
  {
    AndLowMask(a, 5);
    Pow2Small();
    DivModUnique(a, 32, 0, a);
  }

  lemma DoubleTerm(hi: int, q: int)
    ensures hi * (2 * q) == 2 * (hi * q)
  {}

  lemma OrDouble(m: nat, lo: nat)
    ensures Or(2 * m, lo) == lo % 2 + 2 * Or(m, lo / 2)
    ensures Or(lo, 2 * m) == lo % 2 + 2 * Or(lo / 2, m)
  {
    assert (2 * m) / 2 == m && (2 * m) % 2 == 0;
  }

  lemma OrDisjointStep(hi: nat, lo: nat, q: nat)
    requires hi * q >= 0 && Or(hi * q, lo / 2) == hi * q + lo / 2 && Or(lo / 2, hi * q) == hi * q + lo / 2
    ensures hi * (2 * q) >= 0
    ensures Or(hi * (2 * q), lo) == hi * (2 * q) + lo && Or(lo, hi * (2 * q)) == hi * (2 * q) + lo
  {
    DoubleTerm(hi, q);
    OrDouble(hi * q, lo);
  }

  // Bits that do not overlap are added by `|`.
  lemma {:induction false} OrDisjoint(hi: nat, lo: nat, k: nat)
    requires lo < Pow2(k)
    ensures Or(hi * Pow2(k), lo) == hi * Pow2(k) + lo
    ensures Or(lo, hi * Pow2(k)) == hi * Pow2(k) + lo
    decreases k
  {
    if k == 0 {
      OrZero(hi);
      assert hi * 1 == hi;
    } else {
      OrDisjoint(hi, lo / 2, k - 1);
      OrDisjointStep(hi, lo, Pow2(k - 1));
    }
  }

  lemma {:induction false} OrZero(a: nat)
    ensures Or(a, 0) == a && Or(0, a) == a
  {
    if a > 0 { OrZero(a / 2); }
  }

  lemma {:induction false} OrBound(a: nat, b: nat, n: nat)
    requires a < Pow2(n) && b < Pow2(n)
    ensures Or(a, b) < Pow2(n)
  {
    if n > 0 && (a > 0 || b > 0) { OrBound(a / 2, b / 2, n - 1); }
  }

  lemma {:induction false} AndBound(a: nat, b: nat)
    ensures And(a, b) <= a && And(a, b) <= b
  {
    if a > 0 && b > 0 { AndBound(a / 2, b / 2); }
  }

  function OrByte(a: byte, b: byte): byte {
    OrBound(a, b, 8);
    assert Pow2(8) == 256 by { Pow2Small(); }
    Or(a, b)
  }

  function AndByte(a: byte, b: byte): byte {
    AndBound(a, b);
    And(a, b)
  }

  // ------------------------------------------------------------ exclusive or

  lemma {:induction false} XorBound(a: nat, b: nat, n: nat)
    requires a < Pow2(n) && b < Pow2(n)
    ensures Xor(a, b) < Pow2(n)
  {
    if n > 0 && (a > 0 || b > 0) { XorBound(a / 2, b / 2, n - 1); }
  }

  lemma {:induction false} XorInvolution(a: nat, b: nat)
    ensures Xor(Xor(a, b), b) == a
    decreases a + b
  {
    if a > 0 || b > 0 {
      XorInvolution(a / 2, b / 2);
      var x := Xor(a, b);
      assert x / 2 == Xor(a / 2, b / 2);
      assert x % 2 == if a % 2 != b % 2 then 1 else 0;
    }
  }

  // ------------------------------------------------------------ bit by bit

  // Bit k of a number.
  function BitAt(a: nat, k: nat): (bit: nat)
    ensures bit < 2
  {
    if k == 0 then a % 2 else BitAt(a / 2, k - 1)
  }

  lemma {:induction false} XorBit(a: nat, b: nat, k: nat)
    ensures BitAt(Xor(a, b), k) == (BitAt(a, k) + BitAt(b, k)) % 2
    decreases k
  {
    if k > 0 { XorBit(a / 2, b / 2, k - 1); }
  }

  lemma {:induction false} AndBit(a: nat, b: nat, k: nat)
    ensures BitAt(And(a, b), k) == BitAt(a, k) * BitAt(b, k)
    decreases k
  {
    if k > 0 { AndBit(a / 2, b / 2, k - 1); }
  }

  lemma OrHalves(a: nat, b: nat)
    ensures Or(a, b) % 2 == (if a % 2 == 1 || b % 2 == 1 then 1 else 0) && Or(a, b) / 2 == Or(a / 2, b / 2)
  {}

  lemma {:induction false} OrBit(a: nat, b: nat, k: nat)
    ensures BitAt(Or(a, b), k) == if BitAt(a, k) == 1 || BitAt(b, k) == 1 then 1 else 0
    decreases k
  {
    OrHalves(a, b);
    if k > 0 { OrBit(a / 2, b / 2, k - 1); }
  }

  lemma HalfSum(lo: nat, u: nat)
    ensures (lo + 2 * u) / 2 == lo / 2 + u && (lo + 2 * u) % 2 == lo % 2
  {}

  lemma AndSplitStep(lo: nat, u: nat, lo': nat, u': nat, v: nat)
    requires And(lo / 2 + u, lo' / 2 + u') == And(lo / 2, lo' / 2) + v
    ensures And(lo + 2 * u, lo' + 2 * u') == And(lo, lo') + 2 * v
  {
    HalfSum(lo, u);
    HalfSum(lo', u');
    AndHalves(lo + 2 * u, lo' + 2 * u');
    AndHalves(lo, lo');
  }

  lemma ProductNonNegative(a: nat, b: nat)
    ensures a * b >= 0
  {}

  // Masks may be applied to the low bits and to the others.
  lemma {:induction false} AndSplit(lo: nat, hi: nat, lo': nat, hi': nat, k: nat)
    requires lo < Pow2(k) && lo' < Pow2(k)
    ensures hi * Pow2(k) >= 0 && hi' * Pow2(k) >= 0
    ensures And(lo + hi * Pow2(k), lo' + hi' * Pow2(k)) == And(lo, lo') + And(hi, hi') * Pow2(k)
  {
    if k == 0 {
      AndZero(0);
      assert hi * 1 == hi && hi' * 1 == hi' && And(hi, hi') * 1 == And(hi, hi');
    } else {
      var q := Pow2(k - 1);
      ProductNonNegative(hi, q);
      ProductNonNegative(hi', q);
      ProductNonNegative(And(hi, hi'), q);
      AndSplit(lo / 2, hi, lo' / 2, hi', k - 1);
      DoubleTerm(hi, q);
      DoubleTerm(hi', q);
      DoubleTerm(And(hi, hi'), q);
      AndSplitStep(lo, hi * q, lo', hi' * q, And(hi, hi') * q);
    }
  }

  lemma AndZero(a: nat)
    ensures And(a, 0) == 0 && And(0, a) == 0
  {}

  lemma AndHalves(a: nat, b: nat)
    ensures And(a, b) == (if a % 2 == 1 && b % 2 == 1 then 1 else 0) + 2 * And(a / 2, b / 2)
  {}

  lemma {:induction false} AndBytes(s: bytes, m: bytes, r: bytes)
    requires |s| == |m| == |r| && forall i :: 0 <= i < |s| ==> r[i] == And(s[i], m[i])
    ensures And(LE(s), LE(m)) == LE(r)
  {
    if s != [] {
      AndBytes(s[1..], m[1..], r[1..]);
      Pow2Small();
      AndSplit(s[0], LE(s[1..]), m[0], LE(m[1..]), 8);
    }
  }

  lemma {:induction false} BitIs(a: nat, k: nat)
    ensures BitAt(a, k) == a / Pow2(k) % 2
  {
    if k > 0 {
      BitIs(a / 2, k - 1);
      DivHalf(a, Pow2(k - 1));
    }
  }

  // ---------------------------------------------------- integers from bytes

  // int.from_bytes(s, "little")
  function LE(s: bytes): nat {
    if s == [] then 0 else s[0] + 256 * LE(s[1..])
  }

  // n.to_bytes(size, "little"), for n below 256 ** size
  function ToLE(n: nat, size: nat): (s: bytes)
    ensures |s| == size
  {
    if size == 0 then [] else [n % 256] + ToLE(n / 256, size - 1)
  }

  // int.from_bytes(s, "big")
  function BE(s: bytes): nat {
    if s == [] then 0 else 256 * BE(s[..|s| - 1]) + s[|s| - 1]
  }

  // n.to_bytes(size, "big"), for n below 256 ** size
  function ToBE(n: nat, size: nat): (s: bytes)
    ensures |s| == size
  {
    if size == 0 then [] else ToBE(n / 256, size - 1) + [n % 256]
  }

  lemma Pow256Step(n: nat)
    requires n > 0
    ensures Pow2(8 * n) == 256 * Pow2(8 * n - 8)
  {
    Pow2Add(8, 8 * n - 8);
    Pow2Small();
  }

  lemma {:induction false} LEBound(s: bytes)
    ensures LE(s) < Pow2(8 * |s|)
  {
    if s != [] { LEBound(s[1..]); Pow256Step(|s|); }
  }

  lemma {:induction false} LEToLE(n: nat, size: nat)
    requires n < Pow2(8 * size)
    ensures LE(ToLE(n, size)) == n
  {
    if size > 0 {
      Pow256Step(size);
      LEToLE(n / 256, size - 1);
      assert ToLE(n, size)[1..] == ToLE(n / 256, size - 1);
    }
  }

  lemma {:induction false} ToLELE(s: bytes)
    ensures ToLE(LE(s), |s|) == s
  {
    if s != [] {
      ToLELE(s[1..]);
      assert LE(s) / 256 == LE(s[1..]) && LE(s) % 256 == s[0];
      assert s == [s[0]] + s[1..];
    }
  }

  lemma {:induction false} LEAppend(a: bytes, b: bytes)
    ensures LE(a + b) == LE(a) + Pow2(8 * |a|) * LE(b)
  {
    if a == [] {
      assert a + b == b;
    } else {
      LEAppend(a[1..], b);
      Pow256Step(|a|);
      assert (a + b)[1..] == a[1..] + b;
      LEAppendRing(Pow2(8 * (|a| - 1)), LE(b));
    }
  }

  lemma LEAppendRing(p: int, n: int)
    ensures 256 * (p * n) == (256 * p) * n
  {}

  lemma LEInjective(a: bytes, b: bytes)
    requires |a| == |b| && LE(a) == LE(b)
    ensures a == b
  {
    ToLELE(a);
    ToLELE(b);
  }

  lemma {:induction false} BEToBE(n: nat, size: nat)
    requires n < Pow2(8 * size)
    ensures BE(ToBE(n, size)) == n
  {
    if size > 0 {
      Pow256Step(size);
      BEToBE(n / 256, size - 1);
      assert ToBE(n, size)[..size - 1] == ToBE(n / 256, size - 1);
    }
  }

  lemma {:induction false} ToBEBE(s: bytes)
    ensures BE(s) < Pow2(8 * |s|)
    ensures ToBE(BE(s), |s|) == s
  {
    if s != [] {
      var t := s[..|s| - 1];
      ToBEBE(t);
      Pow256Step(|s|);
      assert BE(s) / 256 == BE(t) && BE(s) % 256 == s[|s| - 1];
      assert s == t + [s[|s| - 1]];
    }
  }
}
