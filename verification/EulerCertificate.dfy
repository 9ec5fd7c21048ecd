/** D has no square root modulo P = 2^255 - 19, by Euler's criterion: N = 121665 * 121666, which
    is D up to a square factor, has N^((P-1)/2) = -1.  The power is reached by 254 squarings,
    whose intermediate values are listed. */
module EulerCertificate {
  import opened NumberTheory
  import opened Bits

  const P: int := 57896044618658097711785492504343953926634992332820282019728792003956564819949
  const N: int := 14802493890

  // N^(2^254) mod P
  const LAST: int := 0x78e77e4c32af6d033c68b576060c7618abdf349f51c2287db5ea05fcc8bbfc6e

  predicate SquaresTo(a: int, b: int) {
    a * a % P == b
  }

  predicate Chain(c: seq<int>) {
    forall i :: 0 <= i < |c| - 1 ==> SquaresTo(c[i], c[i + 1])
  }

  // n squarings lead from a to b.  (Quantified so that the verifier does not start computing
  // the power.)
  ghost predicate Leads(a: int, n: nat, b: int) {
    forall e: nat {:trigger Pow(a, e)} :: e == Pow2(n) ==> Z(Pow(a, e) - b, P)
  }

  lemma NoStep(a: int)
    ensures Leads(a, 0, a)
  {
    forall e: nat | e == Pow2(0)
      ensures Z(Pow(a, e) - a, P)
    {
      assert Pow(a, 1) == a * Pow(a, 0);
    }
  }

  lemma SquareIs(a: int, e: nat)
    requires e == 2
    ensures Pow(a, e) == a * a
  {
    assert Pow(a, e) == a * Pow(a, e - 1) && Pow(a, e - 1) == a * Pow(a, e - 2);
  }

  lemma SquareStep(a: int, b: int, p: int)
    requires p > 0 && a * a % p == b
    ensures Z(a * a - b, p)
  {
    ZMod(a * a, p);
    ZMultiple(0, p);
    ZAdd(0, b - a * a, p);
  }

  lemma OneStep(a: int, b: int)
    requires SquaresTo(a, b)
    ensures Leads(a, 1, b)
  {
    forall e: nat | e == Pow2(1)
      ensures Z(Pow(a, e) - b, P)
    {
      SquareIs(a, e);
      SquareStep(a, b, P);
    }
  }

  lemma Join(a: int, m: nat, b: int, n: nat, c: int)
    requires Leads(a, m, b) && Leads(b, n, c)
    ensures Leads(a, m + n, c)
  {
    forall e: nat | e == Pow2(m + n)
      ensures Z(Pow(a, e) - c, P)
    {
      Pow2Add(m, n);
      PowPow(a, Pow2(m), Pow2(n));
      PowCong(Pow(a, Pow2(m)), b, Pow2(n), P);
      ZAdd(Pow(Pow(a, Pow2(m)), Pow2(n)) - Pow(b, Pow2(n)), Pow(b, Pow2(n)) - c, P);
    }
  }

  lemma {:induction false} ChainLeads(c: seq<int>, n: nat)
    requires Chain(c) && n < |c|
    ensures Leads(c[0], n, c[n])
  {
    if n == 0 {
      NoStep(c[0]);
    } else {
      ChainLeads(c, n - 1);
      assert SquaresTo(c[n - 1], c[n - 1 + 1]);
      OneStep(c[n - 1], c[n]);
      Join(c[0], n - 1, c[n - 1], 1, c[n]);
    }
  }

  lemma Squarings1() returns (c: seq<int>)
    ensures |c| == 17 && c[0] == N && c[16] == 0x534fc6b7c9e542387e41d1b25ec8cbb5a7044a99b060a6e7bff8dfbbcff80e5e && Chain(c)
  {
    c := [
      0x3724c21c2,
      0xbe0d0af40d7a39704,
      0x8d175cec6142c563b296672a32602db810,
      0x3e7e3757c79ac09307d8517831113e828f1948dca8c3e035934378763a028bdf,
      0xc828fadf4b73a7924a7d482e98fa6f6d2fc658b48f658b8a57e8f38371199e3,
      0x3f07f9117773b52c9667ab53994cf3c60b97207fa13301b4d67a341e28cca576,
      0x7ea43a334e72379692129ecb32f3ac60b5f3649565f9cdc9056cc613d1b3971b,
      0x246ad2b2c48b7f52f6c54d7223a4df9446d88419ab5e2a303c774c2daf8fc98a,
      0x2fbabced5d85751677a5b92c1a73d034b9c1b766c66441f994a484802556b87b,
      0x61f76180a2f005980e434694a835b5942319c0049cf687e83fc9aafdc101ae19,
      0x10a60fa1ad2ec3d9ada0afb37e0ee77cee717f08cc3e8f76bac84be808c2529a,
      0x3331eb91c7d2bdee490dc3761b92bd11da4001eaa6195657e28ef565d5b60162,
      0x21df9eb1a98e30c226cafa8ca8f728a6e2cf4bccbe709eeb9fc5ef4c0546a700,
      0xc8e3555c024c7baefa1b47e9955a3103efa626bb81aac03439ca4059dd8d42c,
      0x1d3d7548f868ff68d8afa5894ff4a2aed4d785d1d98a4a7944f68d25449d8e07,
      0x71351dbb69e8d5237c33e810c927a1449b2a2614302f397843f7a6486873fc63,
      0x534fc6b7c9e542387e41d1b25ec8cbb5a7044a99b060a6e7bff8dfbbcff80e5e];
    assert SquaresTo(c[0], c[1]);
    assert SquaresTo(c[1], c[2]);
    assert SquaresTo(c[2], c[3]);
    assert SquaresTo(c[3], c[4]);
    assert SquaresTo(c[4], c[5]);
    assert SquaresTo(c[5], c[6]);
    assert SquaresTo(c[6], c[7]);
    assert SquaresTo(c[7], c[8]);
    assert SquaresTo(c[8], c[9]);
    assert SquaresTo(c[9], c[10]);
    assert SquaresTo(c[10], c[11]);
    assert SquaresTo(c[11], c[12]);
    assert SquaresTo(c[12], c[13]);
    assert SquaresTo(c[13], c[14]);
    assert SquaresTo(c[14], c[15]);
    assert SquaresTo(c[15], c[16]);
  }

  lemma Squarings2() returns (c: seq<int>)
    ensures |c| == 17 && c[0] == 0x534fc6b7c9e542387e41d1b25ec8cbb5a7044a99b060a6e7bff8dfbbcff80e5e && c[16] == 0x4d9acbd6952790cc777a271efe3dedd942c17c452d2627523095037d797f0751 && Chain(c)
  {
    c := [
      0x534fc6b7c9e542387e41d1b25ec8cbb5a7044a99b060a6e7bff8dfbbcff80e5e,
      0x349711c2bf988284f2a224af9b94e555bc405e0eff711cce2ae0b3fc954e8508,
      0x7ec5595fba5a7b8a64330b9915f74a7bba0a5d411fa324d5c6f2ef8b0593ea86,
      0x7f443801dd1458b5d38c52b4334916549e65c9c3f867df8e0f774321e3ab8201,
      0x2883fa15c1d288d40b779cf62323ee65449776e13ca81d3d18c05dcfbf6b90dc,
      0x4de74b6aa5b4b7fcf61cb6dcb593ec5fb3bef2782f8a9bd0e04db599ec368a3f,
      0x2715b09d5aa9e5ad4586cf8940f8738d53c16c5f8559ff8f9650ac392568715c,
      0x2946ecf879a8b49fdf174f7ae25b1e427f4f1232e02495f9fad8c5109aa47ce8,
      0x24c9560e3ecaf2165de3d3296a27e286a082f8c8e88fda7deedb88f74b113682,
      0x38c44ba81dd79d8b8c9a63416025d3f7da3d58491e7160f92b4fad1e5b7d426e,
      0x4e57297767904a2914b50c559b23789bf0905598fe1f05f51fe74689be5c6368,
      0x3fd4799b8a2ddb5f017e97740f2786370668e0c8547b74b0102ae328517aa127,
      0x3729dd1803469204c26ad22a7cc6e148a52a576de14b9e2e5c6b1f329cd1d0d6,
      0x478524fd4fa43001b18399e4842107d73a4a0c9982c4715eda129836da298ff8,
      0x1295aa7204afc4e9a39eca2bda78b8760795ffcf083e5680647251370c757ab0,
      0x8bcd00df8b8b480c215bfc3a28ae618f7612707779ecfb49b0df0e7e44350,
      0x4d9acbd6952790cc777a271efe3dedd942c17c452d2627523095037d797f0751];
    assert SquaresTo(c[0], c[1]);
    assert SquaresTo(c[1], c[2]);
    assert SquaresTo(c[2], c[3]);
    assert SquaresTo(c[3], c[4]);
    assert SquaresTo(c[4], c[5]);
    assert SquaresTo(c[5], c[6]);
    assert SquaresTo(c[6], c[7]);
    assert SquaresTo(c[7], c[8]);
    assert SquaresTo(c[8], c[9]);
    assert SquaresTo(c[9], c[10]);
    assert SquaresTo(c[10], c[11]);
    assert SquaresTo(c[11], c[12]);
    assert SquaresTo(c[12], c[13]);
    assert SquaresTo(c[13], c[14]);
    assert SquaresTo(c[14], c[15]);
    assert SquaresTo(c[15], c[16]);
  }

  lemma Squarings3() returns (c: seq<int>)
    ensures |c| == 17 && c[0] == 0x4d9acbd6952790cc777a271efe3dedd942c17c452d2627523095037d797f0751 && c[16] == 0x7e0729ed15c7e8a4097e2333880abd19846e94931867fceea281221ccaeb2f5d && Chain(c)
  {
    c := [
      0x4d9acbd6952790cc777a271efe3dedd942c17c452d2627523095037d797f0751,
      0x60fa2a7dac7a858fb24141e0ce19d836351e4ce7ac3cb8b0041830304447feb4,
      0x7b703e7fa8dceff776c54f0a94b5861022ab5aecf790fcaaf4d150a38b6b66bb,
      0x60f82aefe98940b5d72fcad8e7812241e66e87c2ee81d61dd21cfb6bee55b8c4,
      0x23a0d58894221a91d87383babe0739f08c7459addc32c0475592919e868f4d5d,
      0x7984c19028b5004229fbeaef818573bd0462c727e21007cba0cbfca9bcf90149,
      0x72a98b585595cc190288811d93cbcde7798fb23a9a32ec9be8a45aa8c14d9307,
      0x6302bacca7cacf49c13093556f8418bec7c9c1fd45f462ffda665fdce3a7b904,
      0x341890b8fff9c99fb02481993f8f75d14fce06f50d531fceed62c5824cd58db,
      0x6b659d35cdd5e1973fbcc73ceff965e351e2969e71723e1edd60b7600b8296a6,
      0x13f86cf611d7c16087310635389bf9aeafc928480819b1371b611e7ae1077d17,
      0x58fb6d35fba27dcb7c20cbd732a0a1923e31fa386756af841e19848a2e2abc28,
      0x4d8bd1fa8304240ee6c23763d34a4dfa4beefd968b1599726b84588a54d51d1,
      0x5f9b9c27bcf6331e327b8fa50b011e83601f4c4078cb5f123049535bb9d865a5,
      0x7b2dae187cd0ec72782dc512c996691a2fa7f4e0417c7a6c0fea3645b315b07,
      0x74f94128c9b398e930a077a3998b4a4ee6478448d80d340ff43b70410f98d53d,
      0x7e0729ed15c7e8a4097e2333880abd19846e94931867fceea281221ccaeb2f5d];
    assert SquaresTo(c[0], c[1]);
    assert SquaresTo(c[1], c[2]);
    assert SquaresTo(c[2], c[3]);
    assert SquaresTo(c[3], c[4]);
    assert SquaresTo(c[4], c[5]);
    assert SquaresTo(c[5], c[6]);
    assert SquaresTo(c[6], c[7]);
    assert SquaresTo(c[7], c[8]);
    assert SquaresTo(c[8], c[9]);
    assert SquaresTo(c[9], c[10]);
    assert SquaresTo(c[10], c[11]);
    assert SquaresTo(c[11], c[12]);
    assert SquaresTo(c[12], c[13]);
    assert SquaresTo(c[13], c[14]);
    assert SquaresTo(c[14], c[15]);
    assert SquaresTo(c[15], c[16]);
  }

  lemma Squarings4() returns (c: seq<int>)
    ensures |c| == 17 && c[0] == 0x7e0729ed15c7e8a4097e2333880abd19846e94931867fceea281221ccaeb2f5d && c[16] == 0x27a98388d6cb67cf09a918b930a73b7f1bf57450791d20d09e7dc06466ed6f7c && Chain(c)
  {
    c := [
      0x7e0729ed15c7e8a4097e2333880abd19846e94931867fceea281221ccaeb2f5d,
      0x248757d8c266bd203808bb309e7cda581431a2fb9c6d906e3c9c22763fb3c690,
      0x249af65da4f47845c561bb12b8cd2802aa54aacfe28d8c9622b6c9ace31b02c5,
      0x3026463b37320b0218cc63dd29f8153d8b41627fa24931bbe859bc1a975100b4,
      0x427e51dcf002e0c58ac231df01a55d87d554882d8a729e343d1bc0712ff688b3,
      0x66e1d299f1040190f7abfcb5a07e309c3949cea56d78f606f9e8284f117f3414,
      0x25a51e5e74b54a751e27d036be98211e142782323502cfc89a32511f83202eaa,
      0x112bcb0b8b065c8548981c62ca80468817a49eb63475450705c666663cbecdd7,
      0x44b25cf6ec96f7616b7464be98549267ef2bb761bde67be31693c3edc9a2400b,
      0x352c3b9732b02708e9a94b93c4391db8685d034a4a0653db8cddbbe5c93c29f4,
      0x45ab81668fe43f47cd3b8608efcaaa37c5b6ed370d97c90fa95ea4dbe0f4ef7c,
      0x325f9e98d6a398fc3086b4b22dd590820cf1a11ab5b7f775acf12712611da45d,
      0x1633f9a6b8b5c81c025bd355ea2c5883fcbec9555d0cdd74ac9cfb4594795411,
      0x7d8223ea6fa21ea939de290fbde53bc8eeee53e5b56025452ab3a5c2f85174a4,
      0x28c2cf1c0b442092b5c92b78babc68b9d65f1a321a0c04bb2e8d92ba803339cc,
      0x530c72714ab143cb140cf32c98dc7ea5e3edca1ce64aa726c81aae29df7120b4,
      0x27a98388d6cb67cf09a918b930a73b7f1bf57450791d20d09e7dc06466ed6f7c];
    assert SquaresTo(c[0], c[1]);
    assert SquaresTo(c[1], c[2]);
    assert SquaresTo(c[2], c[3]);
    assert SquaresTo(c[3], c[4]);
    assert SquaresTo(c[4], c[5]);
    assert SquaresTo(c[5], c[6]);
    assert SquaresTo(c[6], c[7]);
    assert SquaresTo(c[7], c[8]);
    assert SquaresTo(c[8], c[9]);
    assert SquaresTo(c[9], c[10]);
    assert SquaresTo(c[10], c[11]);
    assert SquaresTo(c[11], c[12]);
    assert SquaresTo(c[12], c[13]);
    assert SquaresTo(c[13], c[14]);
    assert SquaresTo(c[14], c[15]);
    assert SquaresTo(c[15], c[16]);
  }

  lemma Squarings5() returns (c: seq<int>)
    ensures |c| == 17 && c[0] == 0x27a98388d6cb67cf09a918b930a73b7f1bf57450791d20d09e7dc06466ed6f7c && c[16] == 0x43e2088676ea9323289223d03ba7fb4a5086c0ef209b54527c5bdffca30c7cbf && Chain(c)
  {
    c := [
      0x27a98388d6cb67cf09a918b930a73b7f1bf57450791d20d09e7dc06466ed6f7c,
      0xe8a92ce849784613e3d17043aea1eff833a48b6bfe15056f42e7788602872aa,
      0x51ba2c4ae41c72f863530a80bd7ad071b0921a291767dd29a899acfea4d64d9f,
      0x3bc99ebe145999000ed4bb8705ce1f6a533412f81670146ab70bbc6700e1c8a8,
      0x77e84a4aedb81f1983f4edb962d3a8b09cead7fa807531977a0ad3a25f51f484,
      0x742cecc49dcf9b2aa9fc46d4ddcd2c28add1f5e43d57b307071065a156b5d374,
      0x353c38bafa85389d414822d6fe77cda0cd3fc582883343a4f5feca25701088c4,
      0x7abf5b84182885aa5b3ec44b4ca7e7bef74e9f0e3982a82cbdf52a4d28158950,
      0x290de757dffd051fd877886cae51fc9d173823812ab77f87b652d002eda62568,
      0x4004a3c266b7ce2f5d14ae2c7dd418cebeb4106f1f34818f7f0f455303162d6d,
      0x47e38734b1216f5dd0d0e9f18dcf1da45942dff6e9baa587c6253d35363b0c83,
      0xb26bec78ff4ab58d8ffc0c14a19f8e48483fdf9438b7acd99744aae3f04a383,
      0x8208ff79a3d50cb4ecc8ae2231ea0bf9bf046fbdad87960d0c8978e7dc4a8cf,
      0x5d6ea7051feda2956ffcd75370f9f5708167d0aff4b7e46ad83efa9e294a522e,
      0x7db1ccaac5d44afa827828689e5eca182ecfdc9de7afaa6f7c1f7877177b3eee,
      0x10fa80b91878f7a459dadc26fd002dbd2315a5ad3d1c7ebe73090a1294e20b21,
      0x43e2088676ea9323289223d03ba7fb4a5086c0ef209b54527c5bdffca30c7cbf];
    assert SquaresTo(c[0], c[1]);
    assert SquaresTo(c[1], c[2]);
    assert SquaresTo(c[2], c[3]);
    assert SquaresTo(c[3], c[4]);
    assert SquaresTo(c[4], c[5]);
    assert SquaresTo(c[5], c[6]);
    assert SquaresTo(c[6], c[7]);
    assert SquaresTo(c[7], c[8]);
    assert SquaresTo(c[8], c[9]);
    assert SquaresTo(c[9], c[10]);
    assert SquaresTo(c[10], c[11]);
    assert SquaresTo(c[11], c[12]);
    assert SquaresTo(c[12], c[13]);
    assert SquaresTo(c[13], c[14]);
    assert SquaresTo(c[14], c[15]);
    assert SquaresTo(c[15], c[16]);
  }

  lemma Squarings6() returns (c: seq<int>)
    ensures |c| == 17 && c[0] == 0x43e2088676ea9323289223d03ba7fb4a5086c0ef209b54527c5bdffca30c7cbf && c[16] == 0x3993fc46c82deec41b09f00a57e356d89ed577c6c8aa568273813a8dc5e339bd && Chain(c)
  {
    c := [
      0x43e2088676ea9323289223d03ba7fb4a5086c0ef209b54527c5bdffca30c7cbf,
      0x5a24b92c98e7e41143354a9355c2040c7aee11063e1f41e00763160235d17d8,
      0x2c350b726c5d4aff891bc3c27ed6cb0257b38b6737f9067361b56e9a78fb2f83,
      0x619a0e41db747c235ec228f9cb6c0264bf45b902c6b5ffdbba2ba51575c1dcb3,
      0x6042ac424bc79df876739c138e68b9ebacd3c1e3f6f7bac3c61a288d4dcc5d13,
      0x31277382f9093008dcec966987f80a15987e0800d1716fc3fe8a277ff9c8ddfd,
      0x41092b53eb7ed1e6f2e34c14020863dae61dc657a88d836f1af71da3d9a1190a,
      0x7ff0c371261717b805dcfaa5e85eb16776b9d007890d4368a8758b07de34f01a,
      0x9bd65c65776f0afed480a1152790892e305c53c884b7b76f9ce816b9739da99,
      0x64d6e0dc4a7af6c30dabf3cf7c92b2bf2bf3fb0847cb57bff8c24b9b5b5c921b,
      0x2a61f6a00b5ca6447ce5666bd05abb222f596a549eeb390b19433c554a1a349e,
      0x2be54f0f0b6a2a6f346b3b473cd7c96133f61071810cdbe9def517ba82c62291,
      0x388f9694067d94b4b37fbc43fce189c6f4ae1ca876d43c9a450e216361861654,
      0x3db10d82d68b7cb5a0744560fdc208ea39c4a01b09db304b715eced48f567569,
      0x443ad849dc00b92e86c9a76b40fcd53f4d17612df9fa1dcdf507bd0bd3c2c090,
      0x641ba228cafc4b049fe95c2c1fef15361f3c4232765d7ae148ab6daae32d3452,
      0x3993fc46c82deec41b09f00a57e356d89ed577c6c8aa568273813a8dc5e339bd];
    assert SquaresTo(c[0], c[1]);
    assert SquaresTo(c[1], c[2]);
    assert SquaresTo(c[2], c[3]);
    assert SquaresTo(c[3], c[4]);
    assert SquaresTo(c[4], c[5]);
    assert SquaresTo(c[5], c[6]);
    assert SquaresTo(c[6], c[7]);
    assert SquaresTo(c[7], c[8]);
    assert SquaresTo(c[8], c[9]);
    assert SquaresTo(c[9], c[10]);
    assert SquaresTo(c[10], c[11]);
    assert SquaresTo(c[11], c[12]);
    assert SquaresTo(c[12], c[13]);
    assert SquaresTo(c[13], c[14]);
    assert SquaresTo(c[14], c[15]);
    assert SquaresTo(c[15], c[16]);
  }

  lemma Squarings7() returns (c: seq<int>)
    ensures |c| == 17 && c[0] == 0x3993fc46c82deec41b09f00a57e356d89ed577c6c8aa568273813a8dc5e339bd && c[16] == 0x7ad50f51428e3e211669983d59168793841876a07798e6c167ce8fcbce8d0a03 && Chain(c)
  {
    c := [
      0x3993fc46c82deec41b09f00a57e356d89ed577c6c8aa568273813a8dc5e339bd,
      0x401cb16db4bc7a0daa9b63e00ba61bd91251d2497a6f9e0274bdffb24e529497,
      0x11c02da7cf15f4a2662c82f7ecd1189905237081941dcc1bd4f5ea55492c3e09,
      0x725b63899e2d5ba39c887d915fa9e64f3f3213f5f83923318d6565aba2d58938,
      0x6fdc7a0f3ca2d09bae201c0d59014cfc85f347fd5f71f51e6c75099badca5139,
      0x12af6f7bc90d053cf62670ca220d113b962d6a2d3eb1c2c15849f6f8314674e4,
      0x67eb26c9e2875e03158a4243ea68c477704bda0ad6537e0815070cdb89db22cb,
      0x7cdca5f4a695c820b01758592874e04401d4e1aad6f92e73fef67fc4d1182cb,
      0xf0294d1884a3356f0741981b176ab021c2e9ae1c66f6c33c4d04f364734ff96,
      0x50bf6e7ab75656a0f9d0f21bd463b651f529dc961675cb8aa59f7cf7513ba5f,
      0x377e6976296e3054842c63e9737d0ba38697be66609fe9c8ec924b7fec7cb3d0,
      0x346e122e740196175e542c7d5e4160fa0ba6041c705e96f9d770297108997936,
      0x534f1ac1d0e1d316f6bb8a4f9fecc36dcc4264ca61a10bdfe62297130d0d6a88,
      0x72c4ac8024848e74a2d9b27b614a7af08a2fd578665a9a0bec31047f70226bcf,
      0x1b26dca2f3e92cc91577e66acef4ddcb3da17bec584f8a5131d5c7edf6255940,
      0x419d3436906fbbce117bebdb0887eba70809d1dcb3d7341f27d74a4f3e10af4d,
      0x7ad50f51428e3e211669983d59168793841876a07798e6c167ce8fcbce8d0a03];
    assert SquaresTo(c[0], c[1]);
    assert SquaresTo(c[1], c[2]);
    assert SquaresTo(c[2], c[3]);
    assert SquaresTo(c[3], c[4]);
    assert SquaresTo(c[4], c[5]);
    assert SquaresTo(c[5], c[6]);
    assert SquaresTo(c[6], c[7]);
    assert SquaresTo(c[7], c[8]);
    assert SquaresTo(c[8], c[9]);
    assert SquaresTo(c[9], c[10]);
    assert SquaresTo(c[10], c[11]);
    assert SquaresTo(c[11], c[12]);
    assert SquaresTo(c[12], c[13]);
    assert SquaresTo(c[13], c[14]);
    assert SquaresTo(c[14], c[15]);
    assert SquaresTo(c[15], c[16]);
  }

  lemma Squarings8() returns (c: seq<int>)
    ensures |c| == 17 && c[0] == 0x7ad50f51428e3e211669983d59168793841876a07798e6c167ce8fcbce8d0a03 && c[16] == 0x2c0494cde590599eb146c5dc27342b27e5c8da0f0cb5520fb6930debda33900 && Chain(c)
  {
    c := [
      0x7ad50f51428e3e211669983d59168793841876a07798e6c167ce8fcbce8d0a03,
      0x44014e9085054a9112d8a025514cd77628fc88c8e21394ec5ca09f3081a8f884,
      0x30ced7b47c9833a12440b0540338fd16760206c33f69785ffc9300859d88ad5b,
      0x489e179b58f7844364cb326d95f5067290cf1b8c67b98a75e6da6995d7d16a22,
      0x2cb091fa922bc9232f0f3445add9ccba8bb46ad264c98b6a291ba3c3f5d62b0f,
      0x497d7596d73b16d2fab37d591bdc05fd3d9ec631a6c524f85595c85f5e1dd943,
      0x2d6ff5eb52f0a76417b958fbb2e81615786534c873f2a13b3cbaff33d3bb5463,
      0x3ba36423e1e4f64e8f05e97561b78a2f8d345af5ef4a9ea07915e745b133339d,
      0x46e31a9ac56268bb3fba0a064a3231f4af40222e91636ffe352481b3b82edf,
      0x6bc883e2adca8375c8524140d3d79556ad8dda3738d7fd98c6ea0e549c32202d,
      0x1450942aea5c13b5dc2c5e603ebbb34bfe0501bb142e6b0168cce65daac93e33,
      0x210fe7d7239203a02d978e8744c584a51e0e50ace28024f5500b90cdb2071d18,
      0x41f2eb9ee0db2f0a52fc4ed43ec871565fd8af896325931c3e8dbf67698170aa,
      0x193aa972fc8556fb4179a25deff8ba5290a097fd4843476d77405d6b06ac155f,
      0x1ec29fbe980c147131b2c56755cbbf729684f387359ffa4e8e93f46bae02dd07,
      0x218bab7753913778601fe9c5b33a4dab85e4fb991cd8bdd73d3e0b49f99e7127,
      0x2c0494cde590599eb146c5dc27342b27e5c8da0f0cb5520fb6930debda33900];
    assert SquaresTo(c[0], c[1]);
    assert SquaresTo(c[1], c[2]);
    assert SquaresTo(c[2], c[3]);
    assert SquaresTo(c[3], c[4]);
    assert SquaresTo(c[4], c[5]);
    assert SquaresTo(c[5], c[6]);
    assert SquaresTo(c[6], c[7]);
    assert SquaresTo(c[7], c[8]);
    assert SquaresTo(c[8], c[9]);
    assert SquaresTo(c[9], c[10]);
    assert SquaresTo(c[10], c[11]);
    assert SquaresTo(c[11], c[12]);
    assert SquaresTo(c[12], c[13]);
    assert SquaresTo(c[13], c[14]);
    assert SquaresTo(c[14], c[15]);
    assert SquaresTo(c[15], c[16]);
  }

  lemma Squarings9() returns (c: seq<int>)
    ensures |c| == 17 && c[0] == 0x2c0494cde590599eb146c5dc27342b27e5c8da0f0cb5520fb6930debda33900 && c[16] == 0x38b659cb0c49c7ea404143bef978645d4de4e643e5b3fc2a962a18d6bcd562c7 && Chain(c)
  {
    c := [
      0x2c0494cde590599eb146c5dc27342b27e5c8da0f0cb5520fb6930debda33900,
      0x55e94aa83f6b77ca98b84cf2e8381a9a40d0ea7a4107987bc1f66daed5fe6882,
      0x7ec41796b94359130e128862df808f82bd53ad989adad14cb196cd8705fc5151,
      0x5bc270cbc2ae66514bbc923ae804c39092577fe8bfa0091ac61328ad7d84ce4,
      0x77a65b1ecdee988bd2630281b40bca6f73924e8faa8884b24ecec33e3778e1a3,
      0x74237433f9b910c5259619fdc43ae9902394ebcf7e72f8c7b51975a60a792093,
      0x33f72de48fd4e8718cdbb2584c21e594ae9c8f22e988898d106e53306d991209,
      0x7c5edc10e575501815536d83dab4e203882de6fe3d5361f39dd701ea139ba1ab,
      0x676f0d54af9ce2f1293d10bac3b6822f6b5384c1536ba9f9209baa6725fdc9a5,
      0x291e6b9f22bf25f52f026546b87f695e51f486bc24d118ae55e6708382131352,
      0x3071f243fbb07808f47e9e79866d7ede8108b4434c9cc95ab2f61538419a8ddd,
      0x8224ab3be3bb2c08ea961272eff60226b30db7c9b247aa23a4197a63979db43,
      0x295549facf87b30810fdfe01ffae5cb68f2308851487ba3547a505489d4f6ba4,
      0x384dfc180c7eb9bc0e9cc75a97178e18134496041daa3cf8202d032ee18e7bf1,
      0x792a6c4189855287070923dc779c03bf307533b88cbf3d742f30a07cfe1cd994,
      0x3b44ef4344b3fdf8bf67c32b1df98f5582de69bc96c54144ab904a875d8d2d14,
      0x38b659cb0c49c7ea404143bef978645d4de4e643e5b3fc2a962a18d6bcd562c7];
    assert SquaresTo(c[0], c[1]);
    assert SquaresTo(c[1], c[2]);
    assert SquaresTo(c[2], c[3]);
    assert SquaresTo(c[3], c[4]);
    assert SquaresTo(c[4], c[5]);
    assert SquaresTo(c[5], c[6]);
    assert SquaresTo(c[6], c[7]);
    assert SquaresTo(c[7], c[8]);
    assert SquaresTo(c[8], c[9]);
    assert SquaresTo(c[9], c[10]);
    assert SquaresTo(c[10], c[11]);
    assert SquaresTo(c[11], c[12]);
    assert SquaresTo(c[12], c[13]);
    assert SquaresTo(c[13], c[14]);
    assert SquaresTo(c[14], c[15]);
    assert SquaresTo(c[15], c[16]);
  }

  lemma Squarings10() returns (c: seq<int>)
    ensures |c| == 17 && c[0] == 0x38b659cb0c49c7ea404143bef978645d4de4e643e5b3fc2a962a18d6bcd562c7 && c[16] == 0x2ec82d3ea91f4d1c4975dc973066842a9fa2923e20f31ccb0b9d69e690795ed6 && Chain(c)
  {
    c := [
      0x38b659cb0c49c7ea404143bef978645d4de4e643e5b3fc2a962a18d6bcd562c7,
      0x7b7c10316c37d8d30fe1b4ba7361531b26c3e3af7ff0d33fbf763a69967fe7e1,
      0x6b76091329e86469eda01735ad05ca24882fae3c3034b297d4c41c096d5e3b55,
      0x2b87328aef15eaecead3b8f2ad9646a78c8d0983b1ca19e25ddce8d2e820a970,
      0x74c837c4000bcf7c158813178b3475cc65efba14994b2f0d7c5d89b5b0df48a2,
      0x305fccefb3c19545c5228fb99998450ae203f7dbf58f52da1095ceaf93da070a,
      0x5d4962c01bd7748e87ed64d0ea05375048426223d3f3f17bed4dcdb7a1eadba3,
      0x6640b44ab112cd465290fde07736662e7dfbbb3a4cc98cc8c0064b50f7b90d0b,
      0x7c52e4f9f78131942ef9ba37fd9317dd743448a5ef4c03ba822143eef5146de7,
      0x474eb25e29a40778b199b405338b51dfaa64e694c22cd3f9e73a975fd0f9c76f,
      0x6069f51e02365df0e45c2a32eb5bd726d793f6f84d493bef90098de0b280eb94,
      0x52ad9c858a71f93ac71bc0fc0606976f8c954208c917d73ce33352b67ce09052,
      0x12db1c6ba15d216655c1d7e51392012aae463c9d9f61c6753b7e0bb9b888ef60,
      0x3285b5d3e196c7e85055e03da9a345c736419d3e49fbde8b607a37e14fb5f04f,
      0x4adcbcc6f3614f84ce06e6613d8104a3affe0b443d24ed88aeb5e8a33a09524f,
      0x2b2ed2a8e2bbad14e326329b95c1314388f9af996b0b016f270979c1b3568a4a,
      0x2ec82d3ea91f4d1c4975dc973066842a9fa2923e20f31ccb0b9d69e690795ed6];
    assert SquaresTo(c[0], c[1]);
    assert SquaresTo(c[1], c[2]);
    assert SquaresTo(c[2], c[3]);
    assert SquaresTo(c[3], c[4]);
    assert SquaresTo(c[4], c[5]);
    assert SquaresTo(c[5], c[6]);
    assert SquaresTo(c[6], c[7]);
    assert SquaresTo(c[7], c[8]);
    assert SquaresTo(c[8], c[9]);
    assert SquaresTo(c[9], c[10]);
    assert SquaresTo(c[10], c[11]);
    assert SquaresTo(c[11], c[12]);
    assert SquaresTo(c[12], c[13]);
    assert SquaresTo(c[13], c[14]);
    assert SquaresTo(c[14], c[15]);
    assert SquaresTo(c[15], c[16]);
  }

  lemma Squarings11() returns (c: seq<int>)
    ensures |c| == 17 && c[0] == 0x2ec82d3ea91f4d1c4975dc973066842a9fa2923e20f31ccb0b9d69e690795ed6 && c[16] == 0x433db317e153e416b2984ad884ecf08fe1aba66224eebbc8ccce1fcea4f67a7a && Chain(c)
  {
    c := [
      0x2ec82d3ea91f4d1c4975dc973066842a9fa2923e20f31ccb0b9d69e690795ed6,
      0x662b570d2eee2fc1177bca8daed472664771742f4fad44864aa8b5fc1081135a,
      0x25c07728014261bfcdc3e03a360b63b275468f215ab6f08e19e5ab4aa597598a,
      0x1ee6f21e1a0aec4a29eb62cec56e22c6da862a3be0f2c0365b1c8de49030d82b,
      0x1032b160efb34653013206ff2c89ad8344490467c57acb94cea98e16112dc4af,
      0xdf5475eba436179a51a025652ed5b9d8b3557437d4df2920ded6ddce00838da,
      0x70ccb4ee99f0b5c66ae4fc4e31a6f61549106696238fa000783866f69d02516a,
      0x1148833fc3d091092cbe775e7feb58efee1c5dbf07c15bb1c739c87e19e613d9,
      0xa6dd3ed8321b02be214b9dcec7dda85a041310ccf752f668f7fa7b4f312cc01,
      0x74e7fa3f72a5fc696097c54b97a154908e5cf779a2123d445b01b8b3549a2bfa,
      0x476d69df3332bb8f4fd8b55c8671650f3e356d103641c552dc59e7d7a893181e,
      0x6222e864ebfe71a0c06d486a73906dedbb883fba2e547c7f436901211a4c85f8,
      0x52be475e3a21b478462df0847d70a6d475ae6dd966ec47cc4217e4767f3ce5c3,
      0x30341e4e695fed7e3bed39505722c49556f5dad41deb2e6ad6131b0954d109eb,
      0x3b16e79c1531a48581c2a1788cafe83ba1ad2222683196d22903c00e4fa56a2e,
      0x54c121bba85fa41c57429891a7692c5f54fa591288ffce12ccb962c038ec2aff,
      0x433db317e153e416b2984ad884ecf08fe1aba66224eebbc8ccce1fcea4f67a7a];
    assert SquaresTo(c[0], c[1]);
    assert SquaresTo(c[1], c[2]);
    assert SquaresTo(c[2], c[3]);
    assert SquaresTo(c[3], c[4]);
    assert SquaresTo(c[4], c[5]);
    assert SquaresTo(c[5], c[6]);
    assert SquaresTo(c[6], c[7]);
    assert SquaresTo(c[7], c[8]);
    assert SquaresTo(c[8], c[9]);
    assert SquaresTo(c[9], c[10]);
    assert SquaresTo(c[10], c[11]);
    assert SquaresTo(c[11], c[12]);
    assert SquaresTo(c[12], c[13]);
    assert SquaresTo(c[13], c[14]);
    assert SquaresTo(c[14], c[15]);
    assert SquaresTo(c[15], c[16]);
  }

  lemma Squarings12() returns (c: seq<int>)
    ensures |c| == 17 && c[0] == 0x433db317e153e416b2984ad884ecf08fe1aba66224eebbc8ccce1fcea4f67a7a && c[16] == 0x5d2ec5729f5a3691612c0c5eb297cd1889d8ebc5327eb2d3c14314351b0e412 && Chain(c)
  {
    c := [
      0x433db317e153e416b2984ad884ecf08fe1aba66224eebbc8ccce1fcea4f67a7a,
      0x314a0a4870779088c81b6b67233869046ee423dafc3fe9e06bea2be95d32b895,
      0x6eabd1325a9bb8406781d998232641100f02bdc4406004a6c98528c75d82531b,
      0x48bb0280584bcee76d4f4870b4c50e62b32a472424bc3942b66f163e79f4381e,
      0x791ade488ac1d72ef7036b9e59c551083595ceeb04b2a80a9ee6405cf894bdac,
      0x3405decd9101a72a72d84523e067463964b4a9e3ff5131d01d6fe65fb64e26ec,
      0x5be1613c986eb02b398095429c48c02f410da21812e481fe6f0f4f323cd11a71,
      0x358245c02045db9f9fe869742133a67f7f4d46f416e98dc13ded9b0d22077f6a,
      0x28e3967243a2b2719cabcb7053deb6f4a06b28e6f696d64305cea3ff6f4d4d07,
      0x65901eea514ea2abcabb0782d77e345b4f7255611861fa4285fb7fcc05fa548b,
      0x7c879ea26cb2060cbe03fcdbdb42e2c7865768f7544e3a5e12d90ca34305498,
      0x5a254b32ec3cc22f651024f7af75d240b51b46b1c174e53b8681c4d43ccd57f2,
      0x43d3f44fbe8a4b6df88dcd4259b8c51d0950734575994a554cb43439692e8972,
      0x2fe4abc19e7aac5d6bbaefc32de1d8c8e5b9396b5338fe607c3152a91a1a53d6,
      0x47db65b8f50ee63ef9ec0e035e3bef092210c1da2ed103e065bb9af87d3f3d30,
      0x1d943debe3faf9cd4d62c2fa14186b4fd7764f1ec5bc2b71c4e1d705ca6a5842,
      0x5d2ec5729f5a3691612c0c5eb297cd1889d8ebc5327eb2d3c14314351b0e412];
    assert SquaresTo(c[0], c[1]);
    assert SquaresTo(c[1], c[2]);
    assert SquaresTo(c[2], c[3]);
    assert SquaresTo(c[3], c[4]);
    assert SquaresTo(c[4], c[5]);
    assert SquaresTo(c[5], c[6]);
    assert SquaresTo(c[6], c[7]);
    assert SquaresTo(c[7], c[8]);
    assert SquaresTo(c[8], c[9]);
    assert SquaresTo(c[9], c[10]);
    assert SquaresTo(c[10], c[11]);
    assert SquaresTo(c[11], c[12]);
    assert SquaresTo(c[12], c[13]);
    assert SquaresTo(c[13], c[14]);
    assert SquaresTo(c[14], c[15]);
    assert SquaresTo(c[15], c[16]);
  }

  lemma Squarings13() returns (c: seq<int>)
    ensures |c| == 17 && c[0] == 0x5d2ec5729f5a3691612c0c5eb297cd1889d8ebc5327eb2d3c14314351b0e412 && c[16] == 0x3fa55b311d305b7e4dcc94970fbf9015a6957c9ea38e9887382a082c2d22a00e && Chain(c)
  {
    c := [
      0x5d2ec5729f5a3691612c0c5eb297cd1889d8ebc5327eb2d3c14314351b0e412,
      0x15f12dff42da91b6b5e0447e645bf00049b8bbdef2f8bf33c233253b2f5d2cef,
      0x46f6d55ef0ac6996df06f50e524631cd51ace1a4ef9f421751605a97b8df014,
      0x17b5eb6be773eaeb2edef185530f718537ccff7e909d39b9856241a0f0f98988,
      0x53c952f4b3fbb40e1075dcbe07371c6e7356933562667a006ac48d00e131f599,
      0x3bbb7f5e21e6ca0f8e704430c05c1eedd61992dca219e0b40c9d08aec2b99cfd,
      0x2ad048607178f651dc75325ae403b473ed7eee403f6d7d2c18c0c1b18099a360,
      0x2802f5f5036c2770f66074956a8579812b19436bf1e47dbdd2bcf7b1e540871b,
      0x7cb2feb1e3b151f49a22159ceff6a4256bf35214524562248bac8d274f8fbc41,
      0x62b70c6e30799e460f55e96e09d09022b9baa713faea3e39227675178803d0cc,
      0x787f41af5b071555372d8e61bff4904186ebbe84dd217d4b7384306a7c8ceddb,
      0x77075d6b658d8e63514f3acc9a6c59f40497d9b75eae8f1ea6928df74e16427a,
      0xa713999b093b10681c6081f27b53977b1a447be89fcf81f23d806e428c17dd4,
      0x58de9711877a683f2a5d25f4eed8c770d89f233aa3a46b96afcd6608397d53f8,
      0x44dc0d4ade8a2220a80d63e9cdf4f672c794f7f36b094a0d3c5ffe7fc6e4c7cb,
      0x60a0f2f6f9e7de9d37bb5547202f4b08e38e32b1b5c364d276088eb57062a7a0,
      0x3fa55b311d305b7e4dcc94970fbf9015a6957c9ea38e9887382a082c2d22a00e];
    assert SquaresTo(c[0], c[1]);
    assert SquaresTo(c[1], c[2]);
    assert SquaresTo(c[2], c[3]);
    assert SquaresTo(c[3], c[4]);
    assert SquaresTo(c[4], c[5]);
    assert SquaresTo(c[5], c[6]);
    assert SquaresTo(c[6], c[7]);
    assert SquaresTo(c[7], c[8]);
    assert SquaresTo(c[8], c[9]);
    assert SquaresTo(c[9], c[10]);
    assert SquaresTo(c[10], c[11]);
    assert SquaresTo(c[11], c[12]);
    assert SquaresTo(c[12], c[13]);
    assert SquaresTo(c[13], c[14]);
    assert SquaresTo(c[14], c[15]);
    assert SquaresTo(c[15], c[16]);
  }

  lemma Squarings14() returns (c: seq<int>)
    ensures |c| == 17 && c[0] == 0x3fa55b311d305b7e4dcc94970fbf9015a6957c9ea38e9887382a082c2d22a00e && c[16] == 0x7692bb1b900d1a5609ca9e3bad3d4459a101a0a97a7dd215804140dd006240b6 && Chain(c)
  {
    c := [
      0x3fa55b311d305b7e4dcc94970fbf9015a6957c9ea38e9887382a082c2d22a00e,
      0x6d3cf261d0a4bbbb8bb58bbffd772f3adbcb46642c9e1a5dc0d06c4cdb54341e,
      0x69cb230e8bb07c167eb65f466cabe9e6862bbe729cf171db0c4f3ef34d3357f5,
      0x41cd86315ceb4e7f8e7cc394dbc660c8c446fddc6e1fc1364ff2b513b313c16a,
      0x262667c960d1eec235f82c61f6dac0ba45bc8dd7f641e87d9d91160859c123f3,
      0x718a7a6f8dfbde78d86196644cfde7b0763c68914c26b98c3f3c7b7b904f777f,
      0x28ec71fe7e4fd5a69f5671a8cf6fa6d93aaa88827b7050823071aec989f8d9ec,
      0x4ce88f25ecb42c17f8979ae333ee584e4dac8da8542b6aaadea757cbf391eed4,
      0x124e90abf12b237efe2a77f367c97babc82ec7204a3c4743cd2e535b414ad4d5,
      0x47d807a77c7d698e6fc106bfd0f2ab0abb6cf155cf554c0f03e865272c065a57,
      0x3410bbc1277834ee0cbf53a15aa5ab3f5d1844efdddf008e9d79a090a6d83f74,
      0x3700a27c7c7d3aca97306abc00d081b7a7d154afe2fbb52aab265b8e2c7d054d,
      0x52ed3d3335ab72b508d7de75fb9c9c45435a93c73031f0bcd86d891ff93b3468,
      0x7ea9cca839977d434e3d89135f0d9ab8e8a5174e6a2a163ef104e66605e72090,
      0x7daa87eb60d8731660e1c021b4a0168ca592a70e06a0cfc860482f3560afc4f,
      0x78cb5058f7924ed7bff7ef8cae56d432a013d6ad4532bd3ddcce957e53a77656,
      0x7692bb1b900d1a5609ca9e3bad3d4459a101a0a97a7dd215804140dd006240b6];
    assert SquaresTo(c[0], c[1]);
    assert SquaresTo(c[1], c[2]);
    assert SquaresTo(c[2], c[3]);
    assert SquaresTo(c[3], c[4]);
    assert SquaresTo(c[4], c[5]);
    assert SquaresTo(c[5], c[6]);
    assert SquaresTo(c[6], c[7]);
    assert SquaresTo(c[7], c[8]);
    assert SquaresTo(c[8], c[9]);
    assert SquaresTo(c[9], c[10]);
    assert SquaresTo(c[10], c[11]);
    assert SquaresTo(c[11], c[12]);
    assert SquaresTo(c[12], c[13]);
    assert SquaresTo(c[13], c[14]);
    assert SquaresTo(c[14], c[15]);
    assert SquaresTo(c[15], c[16]);
  }

  lemma Squarings15() returns (c: seq<int>)
    ensures |c| == 17 && c[0] == 0x7692bb1b900d1a5609ca9e3bad3d4459a101a0a97a7dd215804140dd006240b6 && c[16] == 0x424ca69d360edf6944e7c19a4015675dc4c26173eb79902e5aa5baa6572aca27 && Chain(c)
  {
    c := [
      0x7692bb1b900d1a5609ca9e3bad3d4459a101a0a97a7dd215804140dd006240b6,
      0x2a0ed2dfeb244cfe6263a4d61a086d5c354843d2f11c14360232ecbfe100250f,
      0x392d3d90b2a7829246fba1405349e992eddb37d0c500678dc4cdb2624ed2be90,
      0x7aff6844434f12d8fe5a35feab2880ecfd272ecd10899861c03ef900daabb493,
      0x1898addccef05a198875ca6c2cf8980b425b71e00ed1905632698dc87bd0e69d,
      0x1ae6db2b4bb0efab92fc648a96de2b7f22a9babb59e899b92cac76ab2720261b,
      0x8afe1263f944144e3a9c9360d91a75470f58f31e07535aea9179f6c7f0450fd,
      0x4b8e44506d79724eb445d3517f2ffff5a9d119f08aceeb7ac8b83e6a614e5d18,
      0x5de5688601dca8ebcffc0d0bd6c77b3132622f7761c0a21cc6fd0ee1879bab47,
      0x1a4a3a64e20c9a3ab8be7a2640dbad3e3df56ae91944b2ba31e1cc04691009ad,
      0x53dc742ed8a203a3ce63b3ec0304748c9b6cfe7a89036558c78f597bbc924480,
      0x47143a73a111022ab309b6484a0bc2ffd289102d363173b60f2978f3ce97aa86,
      0x7c6c685730e37f542ab50bd963f5da1a6057e5caf0e1fa48a89a1926b6927e74,
      0x1649200ef73158dea03b009b601e45acfe7b5e63de67ea96f35ae58ae4e2d805,
      0x29262e5f9386140ba3adb4dc55c5f7c8a9e2af7464f0b99f6af3862ee51a51ff,
      0x1e41eed94f37c03a109a0f9e60a1fe117b2a2379480bdfbdc9d3b5ab53c7d2d0,
      0x424ca69d360edf6944e7c19a4015675dc4c26173eb79902e5aa5baa6572aca27];
    assert SquaresTo(c[0], c[1]);
    assert SquaresTo(c[1], c[2]);
    assert SquaresTo(c[2], c[3]);
    assert SquaresTo(c[3], c[4]);
    assert SquaresTo(c[4], c[5]);
    assert SquaresTo(c[5], c[6]);
    assert SquaresTo(c[6], c[7]);
    assert SquaresTo(c[7], c[8]);
    assert SquaresTo(c[8], c[9]);
    assert SquaresTo(c[9], c[10]);
    assert SquaresTo(c[10], c[11]);
    assert SquaresTo(c[11], c[12]);
    assert SquaresTo(c[12], c[13]);
    assert SquaresTo(c[13], c[14]);
    assert SquaresTo(c[14], c[15]);
    assert SquaresTo(c[15], c[16]);
  }

  lemma Squarings16() returns (c: seq<int>)
    ensures |c| == 15 && c[0] == 0x424ca69d360edf6944e7c19a4015675dc4c26173eb79902e5aa5baa6572aca27 && c[14] == 0x78e77e4c32af6d033c68b576060c7618abdf349f51c2287db5ea05fcc8bbfc6e && Chain(c)
  {
    c := [
      0x424ca69d360edf6944e7c19a4015675dc4c26173eb79902e5aa5baa6572aca27,
      0x1d7906158c740f06908078d83d7db17024ca33257f4d4ca8577e5ccd3d86948f,
      0x328ef31243b6fba064ee5435ff5a6908d4eb43e01da7351bcbc44e358e947471,
      0x3d56e57977913ed92b3e6c6eca50464f681005ac2afc1be43ddbd032e1a754eb,
      0x25ad466a76bc8f9fc09ad4bf7b7648fa25085567931f799aa22a61825ccdeeca,
      0x53a8742749fbb1caeb96a3cad96ab338acd4de5a70a9afbff8640740b33d07fb,
      0x245a5c19ed1f90c8bc74dad99bbd67f1d7e1b6278aae8da07e505209dc46ab75,
      0x38739b59abb1d5148df046574f299cdeb1ca2ae6eb927b3584e9f4a2732aa47,
      0x57600746dd0e5e05d3498f551900439e76af548cb9c4b492c18c4a9762767719,
      0x2f318821719b8bc5dd9b7c8382f27b183c8caced7159ed8b43ede35155d8775f,
      0x5bdaf9fe0fbc67059bc1e8066310b6749979f2bc8502564a83ab15c07b880c1e,
      0x44d960c3ce264956989097c170903c866950d53792c7bc9dae16ddf236e56239,
      0x1e36ce3466ab82c2d6f6806907dba84354ee873ce90e718a3e8d9c65221e5695,
      0x20f25ba10d2fb98e4a32a861c054c8225cc01e23241ac348380a56aa0ff1c613,
      0x78e77e4c32af6d033c68b576060c7618abdf349f51c2287db5ea05fcc8bbfc6e];
    assert SquaresTo(c[0], c[1]);
    assert SquaresTo(c[1], c[2]);
    assert SquaresTo(c[2], c[3]);
    assert SquaresTo(c[3], c[4]);
    assert SquaresTo(c[4], c[5]);
    assert SquaresTo(c[5], c[6]);
    assert SquaresTo(c[6], c[7]);
    assert SquaresTo(c[7], c[8]);
    assert SquaresTo(c[8], c[9]);
    assert SquaresTo(c[9], c[10]);
    assert SquaresTo(c[10], c[11]);
    assert SquaresTo(c[11], c[12]);
    assert SquaresTo(c[12], c[13]);
    assert SquaresTo(c[13], c[14]);
  }

  // All of them, one stretch behind the other.
  lemma AllSquarings()
    ensures Leads(N, 254, LAST)
  {
    var c1 := Squarings1();
    ChainLeads(c1, 16);
    var c2 := Squarings2();
    ChainLeads(c2, 16);
    Join(N, 16, c2[0], 16, c2[16]);
    var c3 := Squarings3();
    ChainLeads(c3, 16);
    Join(N, 16 + 16, c3[0], 16, c3[16]);
    var c4 := Squarings4();
    ChainLeads(c4, 16);
    Join(N, 16 + 16 + 16, c4[0], 16, c4[16]);
    var c5 := Squarings5();
    ChainLeads(c5, 16);
    Join(N, 16 + 16 + 16 + 16, c5[0], 16, c5[16]);
    var c6 := Squarings6();
    ChainLeads(c6, 16);
    Join(N, 16 + 16 + 16 + 16 + 16, c6[0], 16, c6[16]);
    var c7 := Squarings7();
    ChainLeads(c7, 16);
    Join(N, 16 + 16 + 16 + 16 + 16 + 16, c7[0], 16, c7[16]);
    var c8 := Squarings8();
    ChainLeads(c8, 16);
    Join(N, 16 + 16 + 16 + 16 + 16 + 16 + 16, c8[0], 16, c8[16]);
    var c9 := Squarings9();
    ChainLeads(c9, 16);
    Join(N, 16 + 16 + 16 + 16 + 16 + 16 + 16 + 16, c9[0], 16, c9[16]);
    var c10 := Squarings10();
    ChainLeads(c10, 16);
    Join(N, 16 + 16 + 16 + 16 + 16 + 16 + 16 + 16 + 16, c10[0], 16, c10[16]);
    var c11 := Squarings11();
    ChainLeads(c11, 16);
    Join(N, 16 + 16 + 16 + 16 + 16 + 16 + 16 + 16 + 16 + 16, c11[0], 16, c11[16]);
    var c12 := Squarings12();
    ChainLeads(c12, 16);
    Join(N, 16 + 16 + 16 + 16 + 16 + 16 + 16 + 16 + 16 + 16 + 16, c12[0], 16, c12[16]);
    var c13 := Squarings13();
    ChainLeads(c13, 16);
    Join(N, 16 + 16 + 16 + 16 + 16 + 16 + 16 + 16 + 16 + 16 + 16 + 16, c13[0], 16, c13[16]);
    var c14 := Squarings14();
    ChainLeads(c14, 16);
    Join(N, 16 + 16 + 16 + 16 + 16 + 16 + 16 + 16 + 16 + 16 + 16 + 16 + 16, c14[0], 16, c14[16]);
    var c15 := Squarings15();
    ChainLeads(c15, 16);
    Join(N, 16 + 16 + 16 + 16 + 16 + 16 + 16 + 16 + 16 + 16 + 16 + 16 + 16 + 16, c15[0], 16, c15[16]);
    var c16 := Squarings16();
    ChainLeads(c16, 14);
    Join(N, 16 + 16 + 16 + 16 + 16 + 16 + 16 + 16 + 16 + 16 + 16 + 16 + 16 + 16 + 16, c16[0], 14, c16[14]);
  }

  lemma PowerOfTwo()
    ensures P - 1 == 2 * (Pow2(254) - 10) && P == TWO_255 - 19
  {
    Pow2Sizes256();
  }

  // b is not v^10, which it would be if v^(2^254 - 10) were 1.
  ghost predicate Differs(v: int, b: int) {
    forall e: nat {:trigger Pow(v, e)} :: e == 10 ==> !Z(b - Pow(v, e), P)
  }

  lemma LastDiffers()
    ensures Differs(N, LAST)
  {
    assert Pow(N, 10) == N * N * N * N * N * N * N * N * N * N;
    assert (LAST - N * N * N * N * N * N * N * N * N * N) % P != 0;
  }

  // Euler's criterion, in the direction that is needed: if v were a square, its power
  // (p - 1) / 2 would be 1, and this one is not.
  lemma NoRoot(v: int, w: int, n: nat, b: int)
    requires Prime(P) && !Z(v, P) && Leads(v, n, b) && P - 1 == 2 * (Pow2(n) - 10)
    requires Differs(v, b)
    ensures !Z(w * w - v, P)
  {
    if Z(w * w - v, P) {
      var h: nat := Pow2(n) - 10;
      HalfPower(v, w, h, P);
      PowAdd(v, h, 10);
      ZMul(Pow(v, 10), Pow(v, h) - 1, P);
      var t := Pow(v, 10);
      assert t * (Pow(v, h) - 1) == Pow(v, Pow2(n)) - t;
      ZAdd(Pow(v, Pow2(n)) - t, Pow(v, Pow2(n)) - b, P);
    }
  }

  lemma HalfPower(v: int, w: int, h: nat, p: int)
    requires Prime(p) && !Z(v, p) && Z(w * w - v, p) && p - 1 == 2 * h
    ensures Z(Pow(v, h) - 1, p)
  {
    if Z(w, p) {
      ZMul(w, w, p);
      ZAdd(w * w, w * w - v, p);
    }
    Fermat(w, p);
    PowPow(w, 2, h);
    SquareIs(w, 2);
    PowCong(w * w, v, h, p);
    ZAdd(Pow(w, 2 * h) - 1, Pow(w * w, h) - Pow(v, h), p);
  }
}
