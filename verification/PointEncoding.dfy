/** Ed25519 point encoding and decoding as in ed25519.py: 32 bytes holding y and the
    parity of x. */
module PointEncoding {
  import opened Wrappers
  import opened NumberTheory
  import opened Bits
  import opened Bytes32
  import opened Edwards
  import opened EdwardsDenominators
  import opened EdwardsClosure
  import opened EdwardsRecovery

  // The curve is complete, i is a root of -1, and coordinates fit in 255 bits.
  ghost predicate Field(c: Curve, i: int) {
    Complete(c) && 5 < c.p < TWO_255 && Z(i * i + 1, c.p)
  }

  // --------------------------------------------------------- point encoding

  function Encoding(a: Point): (s: bytes)
    requires 0 <= a.y < 2 * TWO_255
    ensures |s| == 32
  {
    var s := ToLE(a.y, 32);
    s[31 := OrByte(s[31], 128 * (a.x % 2))]
  }

  lemma TopBit(b: byte, bit: nat)
    requires b < 128 && bit < 2
    ensures OrByte(b, 128 * bit) == b + 128 * bit
  {
    Pow2Small();
    OrDisjoint(bit, b, 7);
  }

  method EncodePoint(p: Point) returns (result: bytes)
    requires 0 <= p.y < 2 * TWO_255
    ensures result == Encoding(p)
  {
    var x, y := p.x, p.y;
    var le := ToLE(y, 32);
    var out := new byte[32](i requires 0 <= i < 32 => le[i]);
    assert out[..] == le;
    out[31] := OrByte(out[31], 128 * (x % 2));
    assert out[..] == Encoding(p);
    return out[..];
  }

  // An encoded point of 32 bytes: the low 255 bits are y, the top bit is the parity of x.
  lemma EncodingParts(a: Point)
    requires 0 <= a.y < TWO_255
    ensures LE(Encoding(a)) == a.y + TWO_255 * (a.x % 2)
    ensures Encoding(a)[31] / 128 == a.x % 2
  {
    var s, e, bit := ToLE(a.y, 32), Encoding(a), a.x % 2;
    Pow2Sizes256();
    LEToLE(a.y, 32);
    SplitTop(s);
    SplitTop(e);
    assert s[..31] == e[..31];
    TopByteSmall(s[31], LE(s[..31]), a.y);
    TopBit(s[31], bit);
    TopByteSum(TWO_248, s[31], bit);
  }

  // --------------------------------------------------------- point decoding

  function Decoding(c: Curve, i: int, raw: bytes): Option<Point>
    requires c.p > 5
  {
    if |raw| != 32 then None
    else
      var y := And(LE(raw), TWO_255 - 1);
      var sign := Shr(raw[31], 7);
      match RecoverX(c, i, y, sign)
      case None => None
      case Some(x) => Some(Point(x, y))
  }

  method DecodePoint(c: Curve, i: int, raw: bytes) returns (result: Option<Point>)
    requires c.p > 5
    ensures result == Decoding(c, i, raw)
  {
    if |raw| != 32 {
      return None;
    }
    var y := And(LE(raw), TWO_255 - 1);
    var sign := Shr(raw[31], 7);
    var xx := ((y * y - 1) * Inv(c, c.d * y * y + 1)) % c.p;
    var x := PowMod(xx, (c.p + 3) / 8, c.p);
    if (x * x - xx) % c.p != 0 {
      x := (x * i) % c.p;
    }
    if (x * x - xx) % c.p != 0 {
      return None;
    }
    if x % 2 != sign {
      x := c.p - x;
    }
    return Some(Point(x, y));
  }

  // The two parts _decode_point reads: the low 255 bits and the top bit.
  function LowBits(raw: bytes): nat
    requires |raw| == 32
  {
    LE(raw) % TWO_255
  }

  lemma DecodingParts(raw: bytes)
    requires |raw| == 32
    ensures And(LE(raw), TWO_255 - 1) == LowBits(raw) < TWO_255
    ensures Shr(raw[31], 7) == raw[31] / 128 < 2
    ensures LE(raw) == LowBits(raw) + TWO_255 * (raw[31] / 128)
  {
    LowMask255(LE(raw));
    Pow2Small();
    SplitTop(raw);
    LowBytesBound(raw);
    LowBitsAre(raw, LE(raw[..31]), raw[31] % 128, raw[31] / 128);
  }

  lemma LowMask255(n: nat)
    ensures And(n, TWO_255 - 1) == n % TWO_255
  {
    Pow2Sizes256();
    AndLowMask(n, 255);
  }

  lemma LowBitsAre(raw: bytes, lo: nat, b: nat, bit: nat)
    requires |raw| == 32 && lo < TWO_248 && b < 128 && LE(raw) == lo + TWO_248 * (b + 128 * bit)
    ensures LE(raw) == LowBits(raw) + TWO_255 * bit
  {
    TopByteSum(TWO_248, b, bit);
    LowPartBound(TWO_248, b, lo);
    DivModUnique(LE(raw), TWO_255, bit, lo + TWO_248 * b);
  }

  // Some curve point has this y.
  ghost predicate IsOrdinate(c: Curve, y: int)
    requires c.p > 2
  {
    exists x: int :: OnCurve(c, Point(x, y))
  }

  // Every accepted string decodes to a point of the curve.
  lemma DecodingSound(c: Curve, i: int, raw: bytes)
    requires Field(c, i) && Decoding(c, i, raw).Some?
    ensures OnCurve(c, Decoding(c, i, raw).value) && Decoding(c, i, raw).value.y == LowBits(raw)
  {
    DecodingParts(raw);
    RecoverXSound(c, i, LowBits(raw), raw[31] / 128);
  }

  // A string of 32 bytes is accepted exactly when some curve point has its y.
  lemma DecodingAccepts(c: Curve, i: int, raw: bytes)
    requires Field(c, i) && |raw| == 32
    ensures Decoding(c, i, raw).Some? <==> IsOrdinate(c, LowBits(raw))
  {
    DecodingParts(raw);
    var y := LowBits(raw);
    if Decoding(c, i, raw).Some? {
      DecodingSound(c, i, raw);
      assert OnCurve(c, Point(Decoding(c, i, raw).value.x, y));
    }
    if IsOrdinate(c, y) {
      var x :| OnCurve(c, Point(x, y));
      RecoverXFinds(c, i, x, y, raw[31] / 128);
    }
  }

  // Encoding undoes decoding on every accepted string, canonical or not.
  lemma EncodingOfDecoding(c: Curve, i: int, raw: bytes)
    requires Field(c, i) && Decoding(c, i, raw).Some?
    ensures var a := Decoding(c, i, raw).value; 0 <= a.y < TWO_255 && Encoding(a) == raw
  {
    DecodingParts(raw);
    Pow2Sizes256();
    var a, sign := Decoding(c, i, raw).value, raw[31] / 128;
    RecoverXSound(c, i, a.y, sign);
    EncodingParts(a);
    LEInjective(Encoding(a), raw);
  }

  // Decoding undoes encoding on every reduced point of the curve.
  lemma DecodingOfEncoding(c: Curve, i: int, a: Point)
    requires Field(c, i) && OnCurve(c, a) && Reduced(c, a)
    ensures 0 <= a.y < 2 * TWO_255
    ensures Decoding(c, i, Encoding(a)) == Some(a)
  {
    Pow2Sizes256();
    var raw := Encoding(a);
    EncodingParts(a);
    DecodingParts(raw);
    DivModUnique(LE(raw), TWO_255, a.x % 2, a.y);
    RecoverXUnique(c, i, a);
  }

  // Decoding, in terms of the curve alone: of the points with the y of the low 255 bits it is the
  // one whose x, in 0..p, has the parity of the top bit.
  lemma DecodingIs(c: Curve, i: int, raw: bytes, a: Point)
    requires Field(c, i)
    ensures Decoding(c, i, raw) == Some(a) <==>
            |raw| == 32 && OnCurve(c, a) && a.y == LE(raw) % TWO_255 && 0 <= a.x <= c.p && a.x % 2 == raw[31] / 128
  {
    if |raw| == 32 {
      DecodingParts(raw);
      RecoverXSound(c, i, LowBits(raw), raw[31] / 128);
      DecodingAccepts(c, i, raw);
      if OnCurve(c, a) && a.y == LowBits(raw) && 0 <= a.x <= c.p && a.x % 2 == raw[31] / 128 {
        assert OnCurve(c, Point(a.x, LowBits(raw)));
        var b := Decoding(c, i, raw).value;
        if a.x < c.p { SameXFromParity(c, a.x, b.x, a.y); } else if b.x < c.p { SameXFromParity(c, b.x, a.x, a.y); }
      }
    }
  }

  // Decoding yields reduced coordinates exactly when y is below c.p and the string does not
  // ask for an odd root of zero: for those two kinds of string it returns y >= c.p or x = c.p.
  lemma DecodingReduced(c: Curve, i: int, raw: bytes)
    requires Field(c, i) && Decoding(c, i, raw).Some?
    ensures var a, y := Decoding(c, i, raw).value, LowBits(raw);
      Reduced(c, a) <==> y < c.p && !(raw[31] >= 128 && (y * y - 1) % c.p == 0)
  {
    DecodingParts(raw);
    var y, sign := LowBits(raw), raw[31] / 128;
    RecoverXSound(c, i, y, sign);
    RecoverXReduced(c, i, y, sign);
  }

  // Both kinds of string exist and are accepted.  y = 1 with the sign bit set decodes to (p, 1).
  lemma SignedZeroAccepted(c: Curve, i: int)
    requires Field(c, i)
    ensures Decoding(c, i, ToLE(TWO_255 + 1, 32)) == Some(Point(c.p, 1))
  {
    var raw := ToLE(TWO_255 + 1, 32);
    Pow2Sizes256();
    LEToLE(TWO_255 + 1, 32);
    DecodingParts(raw);
    DivModUnique(LE(raw), TWO_255, 1, 1);
    IdentityOnCurve(c);
    DecodingAccepts(c, i, raw);
    ModBasics(0, c.p);
    RecoverXReduced(c, i, 1, 1);
  }

  // y = p, which stands for 0, decodes to a point with that y.
  lemma LargeOrdinateAccepted(c: Curve, i: int)
    requires Field(c, i)
    ensures Decoding(c, i, ToLE(c.p, 32)).Some? && Decoding(c, i, ToLE(c.p, 32)).value.y == c.p
  {
    var raw := ToLE(c.p, 32);
    Pow2Sizes256();
    LEToLE(c.p, 32);
    DecodingParts(raw);
    DivModUnique(LE(raw), TWO_255, 0, c.p);
    RootBelowZero(c, i);
    DecodingAccepts(c, i, raw);
  }

  lemma RootBelowZero(c: Curve, i: int)
    requires Field(c, i)
    ensures OnCurve(c, Point(i, c.p))
  {
    var y, r := c.p, Residue(c.d, Point(i, c.p));
    ZMultiple(y - c.d * ((i * i) * y), c.p);
    ZAdd((y - c.d * ((i * i) * y)) * c.p, i * i + 1, c.p);
    assert r == (y - c.d * ((i * i) * y)) * c.p - (i * i + 1) by { ResidueRing(c.d, i, y); }
  }

  lemma ResidueRing(d: int, x: int, y: int)
    ensures Residue(d, Point(x, y)) == (y - d * ((x * x) * y)) * y - (x * x + 1)
  {
    MulSwap(x, y, x, y);
    assert (x * y) * (x * y) == ((x * x) * y) * y;
    assert (y - d * ((x * x) * y)) * y == y * y - d * (((x * x) * y) * y);
  }
}
