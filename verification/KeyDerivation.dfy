/** Expansion of the key exchange secret into keys (section 7.2 of RFC 4253), `_derive_key` of
    relay.py.  SHA-256 is a parameter, any function from bytes to 32 bytes. */
module KeyDerivation {
  import opened Wrappers
  import opened Bits
  import opened SshEncoding
  import SshCipher

  type Digest = d: bytes | |d| == 32 witness seq<byte>(32, i => 0)

  type Sha256 = bytes -> Digest

  // K1 || K2 || ... || Kn: every block hashes the secret, the exchange hash, and for the first
  // block the letter and the session id, for the others all blocks before them.
  function Blocks(hash: Sha256, k: bytes, exchangeHash: bytes, mark: bytes, n: nat): (out: bytes)
    ensures |out| == 32 * n
  {
    if n == 0 then []
    else
      var before := Blocks(hash, k, exchangeHash, mark, n - 1);
      before + hash(k + exchangeHash + if n == 1 then mark else before)
  }

  lemma {:induction false} BlocksExtend(hash: Sha256, k: bytes, exchangeHash: bytes, mark: bytes, m: nat, n: nat)
    requires m <= n
    ensures Blocks(hash, k, exchangeHash, mark, m) <= Blocks(hash, k, exchangeHash, mark, n)
    decreases n
  {
    if m < n { BlocksExtend(hash, k, exchangeHash, mark, m, n - 1); }
  }

  // `length` bytes of key for a secret, when the secret can be encoded.
  function Key(hash: Sha256, secret: nat, exchangeHash: bytes, session: bytes, letter: byte, length: nat): (key: Option<bytes>)
    ensures key.Some? ==> |key.value| == length
  {
    match Mpint(secret)
    case None => None
    case Some(k) => Some(Blocks(hash, k, exchangeHash, [letter] + session, length / 32 + 1)[..length])
  }

  // Whatever the number of blocks, the first bytes of the expansion are the key.
  lemma KeyFromAnyBlocks(hash: Sha256, k: bytes, exchangeHash: bytes, mark: bytes, n: nat, length: nat)
    requires 32 * n >= length
    ensures Blocks(hash, k, exchangeHash, mark, n)[..length] == Blocks(hash, k, exchangeHash, mark, length / 32 + 1)[..length]
  {
    if n <= length / 32 + 1 {
      BlocksExtend(hash, k, exchangeHash, mark, n, length / 32 + 1);
    } else {
      BlocksExtend(hash, k, exchangeHash, mark, length / 32 + 1, n);
    }
  }

  // Section 7.2 of RFC 4253: the first 32 bytes are the hash of the secret as an mpint, the exchange
  // hash, the letter and the session id; every later 32 bytes are the hash of secret, exchange hash
  // and all key bytes before them.
  lemma KeyIs(hash: Sha256, secret: nat, exchangeHash: bytes, session: bytes, letter: byte, length: nat, i: nat)
    requires Mpint(secret).Some? && 32 * (i + 1) <= length
    ensures var key := Key(hash, secret, exchangeHash, session, letter, length);
      key.Some? && |key.value| == length
      && key.value[32 * i..32 * (i + 1)]
         == hash(Mpint(secret).value + exchangeHash + if i == 0 then [letter] + session else key.value[..32 * i])
  {
    CutIs(hash, Mpint(secret).value, exchangeHash, [letter] + session, length, i);
  }

  lemma CutIs(hash: Sha256, k: bytes, exchangeHash: bytes, mark: bytes, length: nat, i: nat)
    requires 32 * (i + 1) <= length
    ensures var key := Blocks(hash, k, exchangeHash, mark, length / 32 + 1)[..length];
      key[32 * i..32 * (i + 1)] == hash(k + exchangeHash + if i == 0 then mark else key[..32 * i])
  {
    var all, some := Blocks(hash, k, exchangeHash, mark, length / 32 + 1), Blocks(hash, k, exchangeHash, mark, i + 1);
    BlocksExtend(hash, k, exchangeHash, mark, i + 1, length / 32 + 1);
    BlockAt(hash, k, exchangeHash, mark, i);
    SameSlices(all, some, 32 * i, length);
    assert 32 * (i + 1) == 32 * i + 32;
  }

  lemma SameSlices(all: bytes, some: bytes, low: nat, length: nat)
    requires some <= all && |some| == low + 32 && low + 32 <= length <= |all|
    ensures all[..length][low..low + 32] == some[low..] && all[..length][..low] == some[..low]
  {
    assert all[..low + 32] == some;
  }

  lemma BlockAt(hash: Sha256, k: bytes, exchangeHash: bytes, mark: bytes, i: nat)
    ensures var some := Blocks(hash, k, exchangeHash, mark, i + 1);
      some[32 * i..] == hash(k + exchangeHash + if i == 0 then mark else some[..32 * i])
  {
    var before := Blocks(hash, k, exchangeHash, mark, i);
    var last := hash(k + exchangeHash + if i == 0 then mark else before);
    assert (before + last)[..32 * i] == before && (before + last)[32 * i..] == last;
  }

  // A longer key continues a shorter one.
  lemma KeysExtend(hash: Sha256, secret: nat, exchangeHash: bytes, session: bytes, letter: byte, short: nat, long: nat)
    requires short <= long && Mpint(secret).Some?
    ensures Key(hash, secret, exchangeHash, session, letter, short).value <= Key(hash, secret, exchangeHash, session, letter, long).value
  {
    var k, mark := Mpint(secret).value, [letter] + session;
    KeyFromAnyBlocks(hash, k, exchangeHash, mark, long / 32 + 1, short);
  }

  method DeriveKey(hash: Sha256, secret: nat, exchangeHash: bytes, session: bytes, letter: byte, length: nat) returns (key: Option<bytes>)
    ensures key == Key(hash, secret, exchangeHash, session, letter, length)
  {
    var encoded := Mpint(secret);
    if encoded.None? { return None; }
    var k := encoded.value;
    ghost var mark := [letter] + session;
    var out: bytes := hash(k + exchangeHash + [letter] + session);
    assert k + exchangeHash + [letter] + session == k + exchangeHash + mark;
    ghost var n: nat := 1;
    assert [] + out == out && out == Blocks(hash, k, exchangeHash, mark, 1);
    while |out| < length
      invariant n >= 1 && out == Blocks(hash, k, exchangeHash, mark, n)
      decreases length - |out|
    {
      out := out + hash(k + exchangeHash + out);
      n := n + 1;
    }
    KeyFromAnyBlocks(hash, k, exchangeHash, mark, n, length);
    return Some(out[..length]);
  }

  // The 64 bytes that the relay derives for each direction make a cipher that the packet layer can
  // rely on: OpenSSHChaCha20Poly1305(_derive_key(..., 64)) does not raise.
  lemma DerivedCipherIsSound(hash: Sha256, secret: nat, exchangeHash: bytes, session: bytes, letter: byte)
    requires Mpint(secret).Some?
    ensures var keys := SshCipher.FromMaterial(Key(hash, secret, exchangeHash, session, letter, 64).value);
      keys.Some? && SshCipher.Sound(SshCipher.OpenSSH(keys.value))
  {
    var keys := SshCipher.FromMaterial(Key(hash, secret, exchangeHash, session, letter, 64).value);
    SshCipher.OpenSSHIsSound(keys.value);
  }
}
