/** The numbers of ed25519.py, and the proof that they meet what Ed25519 assumes of its
    parameters, from three facts: P is prime, addition on the curve is associative, and L * B
    is the identity. */
module Ed25519Constants {
  import opened NumberTheory
  import opened SquareRoots
  import opened Bits
  import opened EulerCertificate
  import opened Edwards
  import opened EdwardsDenominators
  import opened EdwardsClosure
  import opened EdwardsRecovery
  import opened EdwardsMultiples
  import opened Ed25519

  const L: nat := 7237005577332262213973186563042994240857116359379907606001950938285454250989
  const D: int := (-121665 * PowMod(121666, P - 2, P)) % P
  const I: int := PowMod(2, (P - 1) / 4, P)
  const B := Point(
    15112221349535400772501151409588531511454012693041857206046113283949847762202,
    46316835694926478169428394003475163141307993866256225615783033603165251855960)

  const ED25519: Params := Parameters(Curve(P, D), I, B, L)

  // L * B is the identity.  (Quantified so that the verifier does not start computing L * B.)
  ghost predicate BaseHasOrderL(c: Curve) {
    c.p > 2 && forall n: nat {:trigger Multiple(c, n, B)} :: n == L ==> Multiple(c, n, B) == IDENTITY
  }

  // 121666 * D = -121665, which is how D is meant.
  lemma DIsAQuotient()
    requires Prime(P)
    ensures Z(121666 * D + 121665, P)
  {
    InverseByPower(121666, P);
    var t := PowMod(121666, P - 2, P);
    if Z(121666, P) { ZSmall(121666, P); }
    ModBasics(1, P);
    ZIffEq(121666 * t, 1, P);
    ZMod(-121665 * t, P);
    ZComb(121666, D - (-121665 * t), 121665, 121666 * t - 1, P);
    assert 121666 * (D - (-121665 * t)) - 121665 * (121666 * t - 1) == 121666 * D + 121665;
  }

  lemma BaseEquation()
    ensures Z(121666 * (B.y * B.y - B.x * B.x - 1) + 121665 * ((B.x * B.y) * (B.x * B.y)), P)
  {
  }

  lemma BaseOnCurve()
    requires Prime(P)
    ensures OnCurve(Curve(P, D), B) && Reduced(Curve(P, D), B)
  {
    DIsAQuotient();
    BaseEquation();
    var n := (B.x * B.y) * (B.x * B.y);
    var k := B.y * B.y - B.x * B.x - 1;
    var d := D;
    BaseRing(d, k, n);
    ZMul(n, 121666 * d + 121665, P);
    ZAdd(121666 * k + 121665 * n, n * (121666 * d + 121665), P);
    Euclid(121666, k - d * n, P);
    if Z(121666, P) { ZSmall(121666, P); }
  }

  lemma BaseRing(d: int, k: int, n: int)
    ensures (121666 * k + 121665 * n) - n * (121666 * d + 121665) == 121666 * (k - d * n)
  {}

  lemma IIsARoot()
    requires Prime(P)
    ensures Z(I * I + 1, P)
  {
    RootOfMinusOne(P);
  }

  // If w were a root of D, then I * 121666 * w would be one of N = 121665 * 121666.
  lemma DIsNotASquare()
    requires Prime(P)
    ensures NonSquare(D, P)
  {
    forall w: int
      ensures !IsRoot(w, D, P)
    {
      DIsAQuotient();
      IIsARoot();
      NIsNotASquare(I * (121666 * w));
      if Z(w * w - D, P) { RootOfN(w, I, D, P); }
    }
  }

  lemma NIsNotASquare(w: int)
    requires Prime(P)
    ensures !Z(w * w - N, P)
  {
    AllSquarings();
    PowerOfTwo();
    if Z(N, P) { ZSmall(N, P); }
    LastDiffers();
    NoRoot(N, w, 254, LAST);
  }

  lemma RootOfN(w: int, i: int, d: int, p: int)
    requires p > 0 && Z(w * w - d, p) && Z(i * i + 1, p) && Z(121666 * d + 121665, p)
    ensures var r := i * (121666 * w); Z(r * r - N, p)
  {
    var a, b := 121665, 121666;
    RootRing(w, i, d, a, b);
    ZMul((b * w) * (b * w), i * i + 1, p);
    ZMul(b * b, w * w - d, p);
    ZMul(b, b * d + a, p);
    ZAdd(b * b * (w * w - d), b * (b * d + a), p);
    ZAdd((b * w) * (b * w) * (i * i + 1), b * b * (w * w - d) + b * (b * d + a), p);
  }

  lemma RootRing(w: int, i: int, d: int, a: int, b: int)
    ensures (i * (b * w)) * (i * (b * w)) - a * b
         == (b * w) * (b * w) * (i * i + 1) - (b * b * (w * w - d) + b * (b * d + a))
  {
    var u := b * w;
    assert (i * u) * (i * u) == u * u * (i * i);
    assert b * b * (w * w - d) == u * u - b * b * d;
    assert b * (b * d + a) == b * b * d + a * b;
  }

  lemma ConstantsAreSound()
    requires Prime(P) && Associative(Curve(P, D)) && BaseHasOrderL(Curve(P, D))
    ensures Sound(ED25519)
    ensures P == TWO_255 - 19 && L == 0x10000000_00000000_00000000_00000000_14def9de_a2f79cd6_5812631a_5cf5d3ed
  {
    DIsNotASquare();
    BaseOnCurve();
    IIsARoot();
  }

  // RFC 8032, section 5.1.7, for the constants of the program: what sign makes, verify accepts.
  lemma Ed25519Completeness(h: Hash, seed: bytes, message: bytes)
    requires Prime(P) && Associative(Curve(P, D)) && BaseHasOrderL(Curve(P, D))
    requires |seed| == 32
    ensures PublicKey(ED25519, h, seed).Some? && Signature(ED25519, h, seed, message).Some?
    ensures Accepts(ED25519, h, PublicKey(ED25519, h, seed).value, message, Signature(ED25519, h, seed, message).value)
  {
    ConstantsAreSound();
    SignaturesVerify(ED25519, h, seed, message);
  }
}
