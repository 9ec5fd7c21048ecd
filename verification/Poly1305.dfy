/** Poly1305 as in poly1305.py. */
module Poly1305 {
  import opened Wrappers
  import opened NumberTheory
  import opened Bits

  const P: int := 0x3_ffffffff_ffffffff_ffffffff_fffffffb
  const R_MASK: nat := 0x0FFFFFFC_0FFFFFFC_0FFFFFFC_0FFFFFFF
  const TWO_128: nat := 0x1_00000000_00000000_00000000_00000000

  // A chunk of the message with the byte 0x01 behind it, as a number.
  function Coefficient(chunk: bytes): nat {
    LE(chunk + [1])
  }

  // The coefficients of a message: its 16-byte chunks, the last one possibly shorter.
  function Coefficients(m: bytes): (c: seq<nat>)
    ensures |c| == (|m| + 15) / 16
  {
    if |m| == 0 then []
    else if |m| <= 16 then [Coefficient(m)]
    else [Coefficient(m[..16])] + Coefficients(m[16..])
  }

  // c[0] * r^n + c[1] * r^(n-1) + ... + c[n-1] * r
  function Polynomial(c: seq<nat>, r: int): int {
    if c == [] then 0 else c[0] * Pow(r, |c|) + Polynomial(c[1..], r)
  }

  // The authenticator of section 2.5 of RFC 8439.
  function Tag(message: bytes, r: nat, s: nat): bytes {
    ToLE((Polynomial(Coefficients(message), r) % P + s) % TWO_128, 16)
  }

  function Mac(message: bytes, key: bytes): Option<bytes> {
    if |key| != 32 then None
    else Some(Tag(message, And(LE(key[..16]), R_MASK), LE(key[16..])))
  }

  method Poly1305Mac(message: bytes, key: bytes) returns (result: Option<bytes>)
    ensures result == Mac(message, key)
  {
    if |key| != 32 {
      return None;
    }
    var r := LE(key[..16]);
    r := And(r, R_MASK);
    var s := LE(key[16..]);
    var acc := 0;
    var pos := 0;
    assert message[..0] == [];
    while pos < |message|
      invariant pos % 16 == 0
      invariant acc == Polynomial(Coefficients(Upto(message, pos)), r) % P
      decreases |message| - pos
    {
      var chunk := Upto(message[pos..], 16);
      var n := LE(chunk + [1]);
      HornerStep(message, pos, r);
      acc := ((acc + n) * r) % P;
      pos := pos + 16;
    }
    assert Upto(message, pos) == message;
    var tag := (acc + s) % TWO_128;
    return Some(ToLE(tag, 16));
  }

  // Python's m[:n], which stops at the end of m.
  function Upto(m: bytes, n: nat): bytes {
    if n <= |m| then m[..n] else m
  }

  lemma HornerStep(m: bytes, pos: nat, r: nat)
    requires pos < |m| && pos % 16 == 0
    ensures var n := Coefficient(Upto(m[pos..], 16));
      ((Polynomial(Coefficients(Upto(m, pos)), r) % P + n) * r) % P
      == Polynomial(Coefficients(Upto(m, pos + 16)), r) % P
  {
    var chunk := Upto(m[pos..], 16);
    var n := Coefficient(chunk);
    var cs := Coefficients(m[..pos]);
    assert Upto(m, pos + 16) == m[..pos] + chunk;
    CoefficientsAppend(m[..pos], chunk);
    PolynomialAppend(cs, n, r);
    ReduceAcc(Polynomial(cs, r), n, r);
  }

  lemma ReduceAcc(a: int, n: int, r: int)
    ensures ((a % P + n) * r) % P == ((a + n) * r) % P
  {
    ZMod(a, P);
    ZMul(r, a % P - a, P);
    assert r * (a % P - a) == (a % P + n) * r - (a + n) * r;
    ZIffEq((a % P + n) * r, (a + n) * r, P);
  }

  lemma {:induction false} CoefficientsAppend(a: bytes, b: bytes)
    requires |a| % 16 == 0 && 0 < |b| <= 16
    ensures Coefficients(a + b) == Coefficients(a) + [Coefficient(b)]
  {
    if a == [] {
      assert a + b == b;
    } else {
      CoefficientsAppend(a[16..], b);
      assert (a + b)[..16] == a[..16] && (a + b)[16..] == a[16..] + b;
      if |a| == 16 { assert a[..16] == a; }
    }
  }

  lemma HornerRing(c: int, r: int, p: int, q: int, n: int)
    ensures c * (r * p) + (q + n) * r == (c * p + q + n) * r
  {}

  // Horner's rule: appending a coefficient multiplies by r once more.
  lemma {:induction false} PolynomialAppend(c: seq<nat>, n: nat, r: int)
    ensures Polynomial(c + [n], r) == (Polynomial(c, r) + n) * r
  {
    if c == [] {
      assert Pow(r, 1) == r * Pow(r, 0);
      assert (c + [n])[1..] == [];
    } else {
      PolynomialAppend(c[1..], n, r);
      assert (c + [n])[1..] == c[1..] + [n];
      assert Pow(r, |c| + 1) == r * Pow(r, |c|);
      HornerRing(c[0], r, Pow(r, |c|), Polynomial(c[1..], r), n);
    }
  }

  // ------------------------------------------------------------ injectivity

  // The marker byte makes the length of a chunk visible in the size of its coefficient.
  lemma CoefficientSize(chunk: bytes)
    ensures var m := Pow2(8 * |chunk|);
      Coefficient(chunk) == LE(chunk) + m && m <= Coefficient(chunk) < 2 * m
  {
    LEAppend(chunk, [1]);
    TimesOne(Pow2(8 * |chunk|), LE([1]));
    LEBound(chunk);
  }

  lemma TimesOne(m: nat, one: nat)
    requires one == LE([1])
    ensures m * one == m
  {
    LEOne();
  }

  lemma LEOne()
    ensures LE([1]) == 1
  {
    assert LE([]) == 0;
  }

  lemma SizesApart(a: nat, b: nat)
    requires a < b
    ensures 2 * Pow2(8 * a) <= Pow2(8 * b)
  {
    Pow2Mono(8 * a + 1, 8 * b);
  }

  lemma CoefficientInjective(a: bytes, b: bytes)
    requires Coefficient(a) == Coefficient(b)
    ensures a == b
  {
    CoefficientSize(a);
    CoefficientSize(b);
    if |a| < |b| { SizesApart(|a|, |b|); }
    if |b| < |a| { SizesApart(|b|, |a|); }
    LEInjective(a, b);
  }

  lemma FirstCoefficient(a: bytes)
    requires a != []
    ensures Coefficients(a)[0] == Coefficient(Upto(a, 16))
  {
    if |a| == 16 { assert a[..16] == a; }
  }

  // Different messages have different coefficient lists.
  lemma {:induction false} CoefficientsInjective(a: bytes, b: bytes)
    requires Coefficients(a) == Coefficients(b)
    ensures a == b
  {
    if a != [] && b != [] {
      var a0, b0 := Upto(a, 16), Upto(b, 16);
      FirstCoefficient(a);
      FirstCoefficient(b);
      CoefficientInjective(a0, b0);
      if |a| > 16 && |b| > 16 {
        assert Coefficients(a)[1..] == Coefficients(a[16..]) && Coefficients(b)[1..] == Coefficients(b[16..]);
        CoefficientsInjective(a[16..], b[16..]);
        assert a == a0 + a[16..] && b == b0 + b[16..];
      }
    }
  }

  // ------------------------------------------------ the authenticator, in numbers

  // The bytes of the mask, lowest first.
  function MaskByte(i: nat): byte {
    if i % 4 == 3 then 15 else if i % 4 == 0 && i > 0 then 252 else 255
  }

  lemma LEOfFour(s: bytes)
    requires |s| == 4
    ensures var a: int, b: int, c: int, d: int := s[0], s[1], s[2], s[3];
      LE(s) == a + 256 * b + 65536 * c + 16777216 * d
  {
    LEStep(s);
    LEStep(s[1..]);
    LEStep(s[2..]);
    LEStep(s[3..]);
    assert s[1..][1..] == s[2..] && s[2..][1..] == s[3..] && s[3..][1..] == [];
    assert LE([]) == 0;
  }

  lemma LEStep(s: bytes)
    requires s != []
    ensures LE(s) == s[0] as int + 256 * LE(s[1..])
  {}

  lemma AfterFour(s: bytes)
    requires |s| >= 4
    ensures LE(s) == LE(s[..4]) + 0x1_0000_0000 * LE(s[4..])
  {
    Pow2Sizes();
    LEAppend(s[..4], s[4..]);
    assert s == s[..4] + s[4..];
  }

  lemma LEOfSixteen(s: bytes)
    requires |s| == 16
    ensures LE(s) == LE(s[..4]) + 0x1_0000_0000 * (LE(s[4..8]) + 0x1_0000_0000 * (LE(s[8..12]) + 0x1_0000_0000 * LE(s[12..])))
  {
    AfterFour(s);
    AfterFour(s[4..]);
    AfterFour(s[8..]);
    assert s[4..][..4] == s[4..8] && s[4..][4..] == s[8..] && s[8..][..4] == s[8..12] && s[8..][4..] == s[12..];
  }

  lemma MaskBytesAre(m: bytes)
    requires |m| == 16 && forall i :: 0 <= i < 16 ==> m[i] == MaskByte(i)
    ensures LE(m) == R_MASK
  {
    LEOfSixteen(m);
    LEOfFour(m[..4]);
    LEOfFour(m[4..8]);
    LEOfFour(m[8..12]);
    LEOfFour(m[12..]);
  }

  // The first half of the key without the top four bits of bytes 3, 7, 11 and 15 and without the
  // low two bits of bytes 4, 8 and 12.
  function ClampedHalf(s: bytes): (r: bytes)
    requires |s| == 16
    ensures |r| == 16
  {
    seq<byte>(16, i requires 0 <= i < 16 => if i % 4 == 3 then s[i] % 16 else if i % 4 == 0 && i > 0 then s[i] / 4 * 4 else s[i])
  }

  lemma MaskedByte(b: byte)
    ensures And(b, 255) == b && And(b, 15) == b % 16 && And(b, 252) == b / 4 * 4
  {
    And255(b);
    And15(b);
    And252(b);
  }

  lemma And255(b: byte)
    ensures And(b, 255) == b
  {
    Pow2Small();
    AndLowMask(b, 8);
  }

  lemma And15(b: byte)
    ensures And(b, 15) == b % 16
  {
    Pow2Small();
    AndLowMask(b, 4);
  }

  lemma And252(b: byte)
    ensures And(b, 252) == b / 4 * 4
  {
    Pow2Small();
    AndEven(b, 126);
    AndEven(b / 2, 63);
    AndLowMask(b / 4, 6);
    DivModUnique(b / 4, 64, 0, b / 4);
  }

  lemma ClampedHalfIs(s: bytes)
    requires |s| == 16
    ensures And(LE(s), R_MASK) == LE(ClampedHalf(s))
  {
    var m := seq<byte>(16, i requires 0 <= i < 16 => MaskByte(i));
    MaskBytesAre(m);
    forall i | 0 <= i < 16
      ensures ClampedHalf(s)[i] == And(s[i], m[i])
    {
      MaskedByte(s[i]);
    }
    AndBytes(s, m, ClampedHalf(s));
  }

  // Chunk i of a message, of 16 bytes but for the last one.
  function ChunkAt(m: bytes, i: nat): bytes
    requires 16 * i < |m|
  {
    if 16 * i + 16 <= |m| then m[16 * i..16 * i + 16] else m[16 * i..]
  }

  lemma ChunkLater(m: bytes, i: nat)
    requires 16 * (i + 1) < |m|
    ensures ChunkAt(m[16..], i) == ChunkAt(m, i + 1)
  {
    var rest := m[16..];
    if 16 * i + 16 <= |rest| {
      assert rest[16 * i..16 * i + 16] == m[16 * (i + 1)..16 * (i + 1) + 16];
    } else {
      assert rest[16 * i..] == m[16 * (i + 1)..];
    }
  }

  lemma {:induction false} CoefficientAt(m: bytes, i: nat)
    requires 16 * i < |m|
    ensures i < |Coefficients(m)| && Coefficients(m)[i] == Coefficient(ChunkAt(m, i))
    decreases i
  {
    if i == 0 {
      FirstCoefficient(m);
    } else {
      CoefficientAt(m[16..], i - 1);
      ChunkLater(m, i - 1);
    }
  }

  // A chunk as a number, with a bit above its top byte.
  function Marked(chunk: bytes): nat {
    LE(chunk) + Pow2(8 * |chunk|)
  }

  lemma TagIs(message: bytes, r: nat, s: nat, coefficients: seq<nat>)
    requires |coefficients| == (|message| + 15) / 16
    requires forall i :: 0 <= i < |coefficients| ==> coefficients[i] == Marked(ChunkAt(message, i))
    ensures LE(Tag(message, r, s)) == (Polynomial(coefficients, r) % P + s) % TWO_128
  {
    forall i | 0 <= i < |coefficients|
      ensures coefficients[i] == Coefficients(message)[i]
    {
      CoefficientAt(message, i);
      CoefficientSize(ChunkAt(message, i));
    }
    assert coefficients == Coefficients(message);
    TagNumber((Polynomial(coefficients, r) % P + s) % TWO_128);
  }

  lemma TagNumber(n: nat)
    requires n < TWO_128
    ensures LE(ToLE(n, 16)) == n
  {
    Pow2Sizes();
    LEToLE(n, 16);
  }

  // Section 2.5 of RFC 8439: the polynomial whose coefficients are the marked chunks, at the clamped
  // first half of the key, modulo 2^130 - 5, plus the second half modulo 2^128.
  lemma MacIs(message: bytes, key: bytes, coefficients: seq<nat>)
    requires |key| == 32 && |coefficients| == (|message| + 15) / 16
    requires forall i :: 0 <= i < |coefficients| ==> coefficients[i] == Marked(ChunkAt(message, i))
    ensures Mac(message, key).Some? && |Mac(message, key).value| == 16
    ensures LE(Mac(message, key).value)
      == (Polynomial(coefficients, LE(ClampedHalf(key[..16]))) % 0x3_ffffffff_ffffffff_ffffffff_fffffffb + LE(key[16..]))
         % 0x1_00000000_00000000_00000000_00000000
  {
    ClampedHalfIs(key[..16]);
    TagIs(message, LE(ClampedHalf(key[..16])), LE(key[16..]), coefficients);
  }
}
