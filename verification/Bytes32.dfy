/** Little-endian numbers of 32 bytes, split at their top byte. */
module Bytes32 {
  import opened NumberTheory
  import opened Bits

  lemma SplitTop(s: bytes)
    requires |s| == 32
    ensures LE(s) == LE(s[..31]) + TWO_248 * s[31]
  {
    Pow2Sizes256();
    assert s == s[..31] + [s[31]];
    LEAppend(s[..31], [s[31]]);
    assert LE([s[31]]) == s[31];
  }

  lemma TopByteSum(k: int, b: int, bit: int)
    ensures k * (b + 128 * bit) == k * b + (128 * k) * bit
  {}

  lemma TopByteSmall(b: byte, lo: nat, y: nat)
    requires y == lo + TWO_248 * b && y < 128 * TWO_248
    ensures b < 128
  {
    if b >= 128 { MulMono(TWO_248, 128, b); }
  }

  lemma LowPartBound(k: int, b: int, lo: int)
    requires 0 <= lo < k && 0 <= b < 128
    ensures 0 <= lo + k * b < 128 * k
  {
    MulMono(k, b, 127);
    MulMono(k, 0, b);
  }

  lemma LowBytesBound(raw: bytes)
    requires |raw| == 32
    ensures LE(raw[..31]) < TWO_248
  {
    Pow2Sizes256();
    LEBound(raw[..31]);
  }

  lemma TopByteRange(r: bytes)
    requires |r| == 32 && 64 <= r[31] < 128
    ensures 64 * TWO_248 <= LE(r) < TWO_255
  {
    SplitTop(r);
    LEBound(r[..31]);
    Pow2Sizes256();
    LowPartBound(TWO_248, r[31], LE(r[..31]));
    MulMono(TWO_248, 64, r[31]);
  }

  lemma FirstByte(r: bytes)
    requires r != [] && r[0] % 8 == 0
    ensures LE(r) % 8 == 0
  {
  }

  lemma SplitEnds(s: bytes)
    requires |s| == 32
    ensures LE(s) == s[0] + 256 * LE(s[1..31]) + TWO_248 * s[31] && LE(s[1..31]) < TWO_240
  {
    SplitTop(s);
    assert s[..31][1..] == s[1..31];
    LEBound(s[1..31]);
    Pow2Sizes256();
    Pow2Small();
    Pow2Add(8, 240);
  }

  const TWO_240: nat := 0x1000000000000000000000000000000000000000000000000000000000000
  const TWO_245: nat := 0x20000000000000000000000000000000000000000000000000000000000000
  const TWO_251: nat := 0x800000000000000000000000000000000000000000000000000000000000000

  // Without its low three bits and the bits from 254 up, and with bit 254 set.
  lemma ClampedNumber(n: nat, first: nat, middle: nat, last: nat)
    requires first < 256 && middle < TWO_240 && last < 256 && n == first + 256 * middle + TWO_248 * last
    ensures 8 * (first / 8) + 256 * middle + TWO_248 * (last % 64 + 64) == 64 * TWO_248 + 8 * (n / 8 % TWO_251)
  {
    var low := first / 8 + 32 * middle + TWO_245 * (last % 64);
    assert n / 8 == TWO_251 * (last / 64) + low;
    DivModUnique(n / 8, TWO_251, last / 64, low);
  }

  // Both key formats clamp 32 bytes to this number.
  lemma ClampedIs(s: bytes, r: bytes)
    requires |s| == 32 && r == s[0 := 8 * (s[0] / 8)][31 := s[31] % 64 + 64]
    ensures LE(r) == 64 * TWO_248 + 8 * (LE(s) / 8 % TWO_251)
  {
    SplitEnds(s);
    SplitEnds(r);
    assert r[1..31] == s[1..31];
    ClampedNumber(LE(s), s[0], LE(s[1..31]), s[31]);
  }
}
