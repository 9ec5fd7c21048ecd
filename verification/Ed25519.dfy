/** Ed25519 as in ed25519.py: scalar multiplication, point encoding and decoding,
    key expansion, signing and verification.

    SHA-512 is a parameter `h`, any function from bytes to 64 bytes. */
module Ed25519 {
  import opened Wrappers
  import opened NumberTheory
  import opened Bits
  import opened Bytes32
  import opened Edwards
  import opened EdwardsDenominators
  import opened EdwardsClosure
  import opened EdwardsRecovery
  import opened EdwardsMultiples
  import opened PointEncoding

  // The constants of ed25519.py: the curve (P and D), the root I of -1, the base point B
  // and its order L.  The sizes are what the 32-byte encodings need.
  datatype Parameters = Parameters(c: Curve, i: int, b: Point, l: nat) {
    predicate Fit() {
      5 < c.p < TWO_255 && 0 < l < TWO_255
    }
  }

  type Params = e: Parameters | e.Fit() witness Parameters(Curve(7, 0), 0, IDENTITY, 1)

  type Digest = s: bytes | |s| == 64 witness seq(64, _ => 0)
  type Hash = bytes -> Digest

  // What the proofs assume about the constants.  Ed25519Constants shows that the numbers in
  // ed25519.py meet this once P is prime, addition is associative and L * B is the identity; that
  // their D is not a square is proved there.
  ghost predicate Sound(e: Params) {
    && Group(e.c)
    && Z(e.i * e.i + 1, e.c.p)
    && OnCurve(e.c, e.b)
    && Multiple(e.c, e.l, e.b) == IDENTITY
  }

  // ------------------------------------------------------------------- keys

  // The first half of the digest with its low three bits cleared and bits 254, 255 set to 1, 0.
  function Clamped(s: bytes): (r: bytes)
    requires |s| == 32
    ensures |r| == 32
  {
    s[0 := AndByte(s[0], 248)][31 := OrByte(AndByte(s[31], 63), 64)]
  }

  lemma ClampLow(b: byte)
    ensures AndByte(b, 248) == 8 * (b / 8)
  {
    And248(b);
  }

  lemma ClampHigh(b: byte)
    ensures OrByte(AndByte(b, 63), 64) == b % 64 + 64
  {
    Pow2Small();
    AndLowMask(b, 6);
    OrDisjoint(1, b % 64, 6);
  }

  // The secret scalar is a multiple of the cofactor 8 between 2^254 and 2^255.
  lemma ClampedRange(s: bytes)
    requires |s| == 32
    ensures 64 * TWO_248 <= LE(Clamped(s)) < TWO_255 && LE(Clamped(s)) % 8 == 0
  {
    var r := Clamped(s);
    ClampedEnds(s);
    TopByteRange(r);
    FirstByte(r);
  }

  lemma ClampedEnds(s: bytes)
    requires |s| == 32
    ensures Clamped(s)[0] % 8 == 0 && 64 <= Clamped(s)[31] < 128
  {
    ClampLow(s[0]);
    ClampHigh(s[31]);
    assert Clamped(s)[0] == 8 * (s[0] / 8) && Clamped(s)[31] == s[31] % 64 + 64;
  }

  // As a number: the low three bits cleared, and everything from bit 254 up replaced by that bit.
  lemma ClampedValue(s: bytes)
    requires |s| == 32
    ensures LE(Clamped(s)) == 64 * TWO_248 + 8 * (LE(s) / 8 % TWO_251)
  {
    ClampLow(s[0]);
    ClampHigh(s[31]);
    assert Clamped(s) == s[0 := 8 * (s[0] / 8)][31 := s[31] % 64 + 64];
    ClampedIs(s, Clamped(s));
  }

  // Secret scalar and nonce prefix; none when the seed has the wrong length.
  function SecretKey(h: Hash, seed: bytes): Option<(nat, bytes)> {
    if |seed| != 32 then None else Some((LE(Clamped(h(seed)[..32])), h(seed)[32..]))
  }

  method SecretScalar(h: Hash, seed: bytes) returns (result: Option<(nat, bytes)>)
    ensures result == SecretKey(h, seed)
  {
    if |seed| != 32 {
      return None;
    }
    var digest := h(seed);
    var a := new byte[32](i requires 0 <= i < 32 => digest[i]);
    assert a[..] == digest[..32];
    a[0] := AndByte(a[0], 248);
    a[31] := AndByte(a[31], 63);
    a[31] := OrByte(a[31], 64);
    assert a[..] == Clamped(digest[..32]);
    return Some((LE(a[..]), digest[32..]));
  }

  // The encoding of a multiple of the base point.
  function BaseMultiple(e: Params, s: nat): (r: bytes)
    ensures |r| == 32
  {
    Encoding(DoubleAndAdd(e.c, IDENTITY, s, e.b))
  }

  method EncodedBaseMultiple(e: Params, s: nat) returns (r: bytes)
    ensures r == BaseMultiple(e, s)
  {
    var point := ScalarMult(e.c, s, e.b);
    r := EncodePoint(point);
  }

  function PublicKey(e: Params, h: Hash, seed: bytes): Option<bytes> {
    match SecretKey(h, seed)
    case None => None
    case Some(key) => Some(BaseMultiple(e, key.0))
  }

  method PublicFromSeed(e: Params, h: Hash, seed: bytes) returns (result: Option<bytes>)
    ensures result == PublicKey(e, h, seed)
  {
    var secret := SecretScalar(h, seed);
    if secret.None? {
      return None;
    }
    var public := EncodedBaseMultiple(e, secret.value.0);
    return Some(public);
  }

  // ---------------------------------------------------- signing and verifying

  function HashMod(e: Params, h: Hash, data: bytes): (r: nat)
    ensures r < e.l
  {
    LE(h(data)) % e.l
  }

  // The scalar half of a signature.
  function Response(e: Params, r: nat, k: nat, a: nat): (s: nat)
    ensures s < e.l
  {
    (r + k * a) % e.l
  }

  function Signature(e: Params, h: Hash, seed: bytes, message: bytes): Option<bytes> {
    match SecretKey(h, seed)
    case None => None
    case Some((a, prefix)) =>
      var public := BaseMultiple(e, a);
      var r := HashMod(e, h, prefix + message);
      var rPoint := BaseMultiple(e, r);
      var k := HashMod(e, h, rPoint + public + message);
      Some(rPoint + ToLE(Response(e, r, k, a), 32))
  }

  method Sign(e: Params, h: Hash, seed: bytes, message: bytes) returns (result: Option<bytes>)
    ensures result == Signature(e, h, seed, message)
  {
    var secret := SecretScalar(h, seed);
    if secret.None? {
      return None;
    }
    var (a, prefix) := secret.value;
    var public := PublicFromSeed(e, h, seed);
    var r := HashMod(e, h, prefix + message);
    var rPoint := EncodedBaseMultiple(e, r);
    var k := HashMod(e, h, rPoint + public.value + message);
    var s := Response(e, r, k, a);
    return Some(rPoint + ToLE(s, 32));
  }

  predicate Accepts(e: Params, h: Hash, public: bytes, message: bytes, signature: bytes) {
    && |public| == 32
    && |signature| == 64
    && Decoding(e.c, e.i, public).Some?
    && Decoding(e.c, e.i, signature[..32]).Some?
    && LE(signature[32..]) < e.l
    && DoubleAndAdd(e.c, IDENTITY, LE(signature[32..]), e.b)
       == Add(e.c, Decoding(e.c, e.i, signature[..32]).value,
              DoubleAndAdd(e.c, IDENTITY, HashMod(e, h, signature[..32] + public + message), Decoding(e.c, e.i, public).value))
  }

  method Verify(e: Params, h: Hash, public: bytes, message: bytes, signature: bytes) returns (ok: bool)
    ensures ok == Accepts(e, h, public, message, signature)
  {
    if |public| != 32 || |signature| != 64 {
      return false;
    }
    var a := DecodePoint(e.c, e.i, public);
    var r := DecodePoint(e.c, e.i, signature[..32]);
    if a.None? || r.None? {
      return false;
    }
    var s := LE(signature[32..]);
    if s >= e.l {
      return false;
    }
    var k := HashMod(e, h, signature[..32] + public + message);
    var left := ScalarMult(e.c, s, e.b);
    var ka := ScalarMult(e.c, k, a.value);
    var right := Add(e.c, r.value, ka);
    return left == right;
  }

  lemma SoundField(e: Params)
    requires Sound(e)
    ensures Field(e.c, e.i)
  {
  }

  lemma BaseMultipleDecodes(e: Params, s: nat)
    requires Sound(e)
    ensures DoubleAndAdd(e.c, IDENTITY, s, e.b) == Multiple(e.c, s, e.b)
    ensures Decoding(e.c, e.i, BaseMultiple(e, s)) == Some(Multiple(e.c, s, e.b))
    ensures OnCurve(e.c, Multiple(e.c, s, e.b))
  {
    var m := Multiple(e.c, s, e.b);
    SoundField(e);
    ScalarMultIsMultiple(e.c, s, e.b);
    MultipleClosed(e.c, s, e.b);
    DecodingOfEncoding(e.c, e.i, m);
    assert BaseMultiple(e, s) == Encoding(m);
  }

  // (r + k*a mod L) * B = r*B + k*(a*B)
  lemma SignatureEquation(e: Params, r: nat, k: nat, a: nat)
    requires Sound(e)
    ensures Multiple(e.c, Response(e, r, k, a), e.b)
         == Add(e.c, Multiple(e.c, r, e.b), Multiple(e.c, k, Multiple(e.c, a, e.b)))
  {
    BaseCounts(e, r + k * a);
    BaseSum(e, r, k, a, k * a);
  }

  lemma BaseCounts(e: Params, n: nat)
    requires Sound(e)
    ensures Multiple(e.c, n, e.b) == Multiple(e.c, n % e.l, e.b)
  {
    MultipleModOrder(e.c, n, e.l, e.b);
  }

  lemma BaseSum(e: Params, r: nat, k: nat, a: nat, ka: nat)
    requires Sound(e) && ka == k * a
    ensures Multiple(e.c, r + ka, e.b) == Add(e.c, Multiple(e.c, r, e.b), Multiple(e.c, k, Multiple(e.c, a, e.b)))
  {
    MultipleAdd(e.c, r, ka, e.b);
    MultipleOfMultiple(e.c, k, a, e.b);
  }

  lemma ResponseEncodes(e: Params, s: nat)
    requires s < e.l
    ensures LE(ToLE(s, 32)) == s
  {
    Pow2Sizes256();
    LEToLE(s, 32);
  }

  // Completeness: every signature made with a seed verifies under that seed's public key.
  lemma SignaturesVerify(e: Params, h: Hash, seed: bytes, message: bytes)
    requires Sound(e) && |seed| == 32
    ensures PublicKey(e, h, seed).Some? && Signature(e, h, seed, message).Some?
    ensures Accepts(e, h, PublicKey(e, h, seed).value, message, Signature(e, h, seed, message).value)
  {
    var (a, prefix) := SecretKey(h, seed).value;
    var public := BaseMultiple(e, a);
    var r := HashMod(e, h, prefix + message);
    var rPoint := BaseMultiple(e, r);
    var k := HashMod(e, h, rPoint + public + message);
    var s := Response(e, r, k, a);
    var signature := rPoint + ToLE(s, 32);
    assert signature[..32] == rPoint && signature[32..] == ToLE(s, 32);
    ResponseEncodes(e, s);
    BaseMultipleDecodes(e, a);
    BaseMultipleDecodes(e, r);
    BaseMultipleDecodes(e, s);
    SignatureEquation(e, r, k, a);
    ScalarMultIsMultiple(e.c, k, Multiple(e.c, a, e.b));
  }

  // The group equation s*B = R + k*A that RFC 8032 asks a verifier to check.
  ghost predicate GroupEquation(e: Params, s: nat, r: Point, k: nat, a: Point) {
    Multiple(e.c, s, e.b) == Add(e.c, r, Multiple(e.c, k, a))
  }

  lemma EquationChecked(e: Params, s: nat, r: Point, k: nat, a: Point)
    requires Sound(e) && OnCurve(e.c, a)
    ensures DoubleAndAdd(e.c, IDENTITY, s, e.b) == Add(e.c, r, DoubleAndAdd(e.c, IDENTITY, k, a))
            <==> GroupEquation(e, s, r, k, a)
  {
    ScalarMultIsMultiple(e.c, s, e.b);
    ScalarMultIsMultiple(e.c, k, a);
  }

  // What acceptance means: s is below L, both strings decode, and the group equation holds.
  lemma AcceptsMeans(e: Params, h: Hash, public: bytes, message: bytes, signature: bytes)
    requires Sound(e) && |public| == 32 && |signature| == 64
    ensures var R, s := signature[..32], LE(signature[32..]);
      Accepts(e, h, public, message, signature)
      <==> s < e.l && Decoding(e.c, e.i, public).Some? && Decoding(e.c, e.i, R).Some?
           && GroupEquation(e, s, Decoding(e.c, e.i, R).value, HashMod(e, h, R + public + message), Decoding(e.c, e.i, public).value)
  {
    var R, s := signature[..32], LE(signature[32..]);
    var a, r := Decoding(e.c, e.i, public), Decoding(e.c, e.i, R);
    if a.Some? && r.Some? {
      DecodingSound(e.c, e.i, public);
      EquationChecked(e, s, r.value, HashMod(e, h, R + public + message), a.value);
    }
  }

  // ------------------------------------- in terms of the hash and multiples

  // The 32 bytes of a point with y below 2^255.
  ghost predicate Encodes(raw: bytes, a: Point) {
    |raw| == 32 && LE(raw) == a.y + TWO_255 * (a.x % 2)
  }

  lemma BaseMultipleEncodes(e: Params, s: nat)
    requires Sound(e)
    ensures Encodes(BaseMultiple(e, s), Multiple(e.c, s, e.b))
  {
    var m := Multiple(e.c, s, e.b);
    SoundField(e);
    ScalarMultIsMultiple(e.c, s, e.b);
    MultipleClosed(e.c, s, e.b);
    EncodingParts(m);
  }

  // The public key of a seed encodes the multiple of the base point by the clamped first half of
  // the seed's hash.
  lemma PublicKeyIs(e: Params, h: Hash, seed: bytes)
    requires Sound(e) && |seed| == 32
    ensures var a := 64 * TWO_248 + 8 * (LE(h(seed)[..32]) / 8 % TWO_251);
      PublicKey(e, h, seed).Some? && Encodes(PublicKey(e, h, seed).value, Multiple(e.c, a, e.b))
  {
    ClampedValue(h(seed)[..32]);
    BaseMultipleEncodes(e, LE(Clamped(h(seed)[..32])));
  }

  lemma SignatureIsPair(e: Params, h: Hash, seed: bytes, message: bytes)
    requires |seed| == 32
    ensures var a, r := LE(Clamped(h(seed)[..32])), LE(h(h(seed)[32..] + message)) % e.l;
      Signature(e, h, seed, message)
      == Some(BaseMultiple(e, r)
              + ToLE((r + LE(h(BaseMultiple(e, r) + BaseMultiple(e, a) + message)) % e.l * a) % e.l, 32))
  {}

  lemma HalvesOf(e: Params, half: bytes, s: nat)
    requires |half| == 32 && s < e.l
    ensures var whole := half + ToLE(s, 32); |whole| == 64 && whole[..32] == half && LE(whole[32..]) == s
  {
    assert (half + ToLE(s, 32))[..32] == half && (half + ToLE(s, 32))[32..] == ToLE(s, 32);
    ResponseEncodes(e, s);
  }

  lemma SignatureParts(e: Params, h: Hash, seed: bytes, message: bytes, public: bytes, a: nat, r: nat, k: nat)
    requires Sound(e) && |seed| == 32 && a == LE(Clamped(h(seed)[..32])) && Encodes(public, Multiple(e.c, a, e.b))
    requires r == LE(h(h(seed)[32..] + message)) % e.l && k == LE(h(BaseMultiple(e, r) + public + message)) % e.l
    ensures var signature := Signature(e, h, seed, message);
      && signature.Some? && |signature.value| == 64
      && signature.value[..32] == BaseMultiple(e, r) && LE(signature.value[32..]) == (r + k * a) % e.l
  {
    BaseMultipleEncodes(e, a);
    LEInjective(public, BaseMultiple(e, a));
    SignatureIsPair(e, h, seed, message);
    HalvesOf(e, BaseMultiple(e, r), (r + k * a) % e.l);
  }

  lemma SignatureAt(e: Params, h: Hash, seed: bytes, message: bytes, public: bytes, a: nat)
    requires Sound(e) && |seed| == 32 && a == LE(Clamped(h(seed)[..32])) && Encodes(public, Multiple(e.c, a, e.b))
    ensures var r := LE(h(h(seed)[32..] + message)) % e.l;
      var signature := Signature(e, h, seed, message);
      && signature.Some? && |signature.value| == 64
      && Encodes(signature.value[..32], Multiple(e.c, r, e.b))
      && Decoding(e.c, e.i, signature.value[..32]) == Some(Multiple(e.c, r, e.b))
      && LE(signature.value[32..]) == (r + LE(h(signature.value[..32] + public + message)) % e.l * a) % e.l
  {
    var r := LE(h(h(seed)[32..] + message)) % e.l;
    SignatureParts(e, h, seed, message, public, a, r, LE(h(BaseMultiple(e, r) + public + message)) % e.l);
    BaseMultipleEncodes(e, r);
    BaseMultipleDecodes(e, r);
  }

  // Section 5.1.6 of RFC 8032: the nonce is the hash of the secret second half and the message, R
  // its multiple, and S the nonce plus challenge times secret.
  lemma SignatureIs(e: Params, h: Hash, seed: bytes, message: bytes, public: bytes)
    requires Sound(e) && |seed| == 32
    requires Encodes(public, Multiple(e.c, 64 * TWO_248 + 8 * (LE(h(seed)[..32]) / 8 % TWO_251), e.b))
    ensures var a := 64 * TWO_248 + 8 * (LE(h(seed)[..32]) / 8 % TWO_251);
      var r := LE(h(h(seed)[32..] + message)) % e.l;
      var signature := Signature(e, h, seed, message);
      && signature.Some? && |signature.value| == 64
      && Encodes(signature.value[..32], Multiple(e.c, r, e.b))
      && Decoding(e.c, e.i, signature.value[..32]) == Some(Multiple(e.c, r, e.b))
      && LE(signature.value[32..]) == (r + LE(h(signature.value[..32] + public + message)) % e.l * a) % e.l
  {
    ClampedValue(h(seed)[..32]);
    SignatureAt(e, h, seed, message, public, LE(Clamped(h(seed)[..32])));
  }

  // There is neither for a seed of another length.
  lemma WrongSeed(e: Params, h: Hash, seed: bytes, message: bytes)
    requires |seed| != 32
    ensures PublicKey(e, h, seed) == None && Signature(e, h, seed, message) == None
  {}

  // The point that a string stands for: with the y of its low 255 bits, on the curve, and with the
  // parity of its top bit.
  ghost predicate StandsFor(e: Params, raw: bytes, a: Point) {
    |raw| == 32 && OnCurve(e.c, a) && a.y == LE(raw) % TWO_255 && 0 <= a.x <= e.c.p && a.x % 2 == raw[31] / 128
  }

  ghost predicate Verifies(e: Params, h: Hash, public: bytes, message: bytes, signature: bytes, a: Point, r: Point) {
    && |public| == 32 && |signature| == 64 && StandsFor(e, public, a) && StandsFor(e, signature[..32], r)
    && LE(signature[32..]) < e.l
    && Multiple(e.c, LE(signature[32..]), e.b) == Add(e.c, r, Multiple(e.c, LE(h(signature[..32] + public + message)) % e.l, a))
  }

  // Section 5.1.7 of RFC 8032, but for the encodings that are not canonical: a signature is accepted
  // if and only if its halves and the key stand for points and a number below L that satisfy the
  // group equation.
  lemma AcceptedIs(e: Params, h: Hash, public: bytes, message: bytes, signature: bytes)
    requires Sound(e)
    ensures Accepts(e, h, public, message, signature) <==> exists a, r :: Verifies(e, h, public, message, signature, a, r)
  {
    SoundField(e);
    if |public| == 32 && |signature| == 64 {
      AcceptsMeans(e, h, public, message, signature);
      forall a: Point
        ensures Decoding(e.c, e.i, public) == Some(a) <==> StandsFor(e, public, a)
        ensures Decoding(e.c, e.i, signature[..32]) == Some(a) <==> StandsFor(e, signature[..32], a)
      {
        DecodingIs(e.c, e.i, public, a);
        DecodingIs(e.c, e.i, signature[..32], a);
      }
      if Accepts(e, h, public, message, signature) {
        assert Verifies(e, h, public, message, signature, Decoding(e.c, e.i, public).value, Decoding(e.c, e.i, signature[..32]).value);
      }
    }
  }
}
