/** chacha20-poly1305@openssh.com as in ssh_packet.py. */
module SshCipher {
  import opened Wrappers
  import opened NumberTheory
  import opened Bits
  import opened ChaCha20
  import opened Poly1305
  import opened SshEncoding

  // An authenticated cipher for packets, as PacketStream uses it: `seal` and `open` take the
  // sequence number; `length` decrypts the first four bytes only.
  datatype Aead = Aead(
    seal: (nat, bytes) -> bytes,
    open: (nat, bytes) -> Option<bytes>,
    length: (nat, bytes) -> nat)

  // What PacketStream relies on.
  ghost predicate Sound(c: Aead) {
    && (forall n: nat, plain: bytes :: n < LIMIT_32 && |plain| >= 4 ==> SealsAt(c, n, plain))
    && (forall n: nat, sealed: bytes :: n < LIMIT_32 && c.open(n, sealed).Some? ==> OpensAt(c, n, sealed))
  }

  // Sealing adds a tag of 16 bytes, opening undoes it.
  ghost predicate SealsAt(c: Aead, n: nat, plain: bytes) {
    |c.seal(n, plain)| == |plain| + 16 && c.open(n, c.seal(n, plain)) == Some(plain)
  }

  // An opened packet starts with the length that was read from its first four bytes.
  ghost predicate OpensAt(c: Aead, n: nat, sealed: bytes) {
    c.open(n, sealed).Some? ==>
      |sealed| >= 20 && |c.open(n, sealed).value| == |sealed| - 16
      && c.length(n, sealed[..4]) == BE(c.open(n, sealed).value[..4])
  }

  // The 64 bytes of key material: K_2 for payload and tag, K_1 for the length.
  datatype Keys = Keys(payloadKey: bytes, lengthKey: bytes) {
    predicate Valid() { |payloadKey| == 32 && |lengthKey| == 32 }
  }

  function FromMaterial(material: bytes): (k: Option<Keys>)
    ensures k.Some? <==> |material| == 64
    ensures k.Some? ==> k.value.Valid() && k.value.payloadKey + k.value.lengthKey == material
  {
    if |material| != 64 then None else Some(Keys(material[..32], material[32..]))
  }

  function Nonce(sequence: nat): (r: bytes)
    ensures |r| == 8
  {
    ToBE(sequence, 8)
  }

  // Key stream of the length field, and of payload (from block 1) and tag key (block 0).
  function LengthStream(k: Keys, sequence: nat): nat -> Block64
    requires k.Valid()
  {
    Keystream(k.lengthKey, Nonce(sequence))
  }

  function PayloadStream(k: Keys, sequence: nat): nat -> Block64
    requires k.Valid()
  {
    Keystream(k.payloadKey, Nonce(sequence))
  }

  // Encryption and decryption for any two key streams and any tag function.
  function SealWith(lengths: nat -> Block64, payloads: nat -> Block64, tag: bytes -> bytes, plain: bytes): bytes {
    var n := Least(4, |plain|);
    var body := Ciphered(lengths, 0, plain[..n]) + Ciphered(payloads, 1, plain[n..]);
    body + tag(body)
  }

  function OpenWith(lengths: nat -> Block64, payloads: nat -> Block64, tag: bytes -> bytes, sealed: bytes): Option<bytes> {
    if |sealed| < 20 then None
    else
      var body, received := sealed[..|sealed| - 16], sealed[|sealed| - 16..];
      if received != tag(body) then None
      else Some(Ciphered(lengths, 0, body[..4]) + Ciphered(payloads, 1, body[4..]))
  }

  lemma OpenUndoesSeal(lengths: nat -> Block64, payloads: nat -> Block64, tag: bytes -> bytes, plain: bytes)
    requires |plain| >= 4 && forall b: bytes :: |tag(b)| == 16
    ensures |SealWith(lengths, payloads, tag, plain)| == |plain| + 16
    ensures OpenWith(lengths, payloads, tag, SealWith(lengths, payloads, tag, plain)) == Some(plain)
  {
    var a, b := Ciphered(lengths, 0, plain[..4]), Ciphered(payloads, 1, plain[4..]);
    var body := a + b;
    var sealed := body + tag(body);
    assert sealed[..|sealed| - 16] == body && sealed[|sealed| - 16..] == tag(body);
    assert body[..4] == a && body[4..] == b;
    CipheredInvolution(lengths, 0, plain[..4]);
    CipheredInvolution(payloads, 1, plain[4..]);
    assert plain[..4] + plain[4..] == plain;
  }

  lemma OpenedStart(lengths: nat -> Block64, payloads: nat -> Block64, tag: bytes -> bytes, sealed: bytes)
    requires OpenWith(lengths, payloads, tag, sealed).Some?
    ensures var p := OpenWith(lengths, payloads, tag, sealed).value;
      |sealed| >= 20 && |p| == |sealed| - 16 && p[..4] == Ciphered(lengths, 0, sealed[..4])
  {
    var body := sealed[..|sealed| - 16];
    assert body[..4] == sealed[..4];
    var p := OpenWith(lengths, payloads, tag, sealed).value;
    assert p[..4] == Ciphered(lengths, 0, body[..4]);
  }

  function TagOf(polyKey: bytes): bytes -> bytes
    requires |polyKey| == 32
  {
    (body: bytes) => Tag(body, And(LE(polyKey[..16]), R_MASK), LE(polyKey[16..]))
  }

  lemma TagSize(polyKey: bytes)
    requires |polyKey| == 32
    ensures forall b: bytes :: |TagOf(polyKey)(b)| == 16
  {}

  function OpenSSH(k: Keys): Aead
    requires k.Valid()
  {
    Aead((sequence: nat, plain: bytes) => EncryptPacket(k, sequence, plain),
         (sequence: nat, sealed: bytes) => DecryptPacket(k, sequence, sealed),
         (sequence: nat, first: bytes) => DecryptLength(k, sequence, first))
  }

  function PolyKey(k: Keys, sequence: nat): (r: bytes)
    requires k.Valid()
    ensures |r| == 32
  {
    Block(k.payloadKey, Nonce(sequence), 0)[..32]
  }

  function EncryptPacket(k: Keys, sequence: nat, plain: bytes): bytes
    requires k.Valid()
  {
    SealWith(LengthStream(k, sequence), PayloadStream(k, sequence), TagOf(PolyKey(k, sequence)), plain)
  }

  function DecryptPacket(k: Keys, sequence: nat, sealed: bytes): Option<bytes>
    requires k.Valid()
  {
    OpenWith(LengthStream(k, sequence), PayloadStream(k, sequence), TagOf(PolyKey(k, sequence)), sealed)
  }

  function DecryptLength(k: Keys, sequence: nat, first: bytes): nat
    requires k.Valid()
  {
    BE(Ciphered(LengthStream(k, sequence), 0, first))
  }

  lemma SealsAtAll(k: Keys, n: nat, plain: bytes)
    requires k.Valid() && |plain| >= 4
    ensures SealsAt(OpenSSH(k), n, plain)
  {
    TagSize(PolyKey(k, n));
    OpenUndoesSeal(LengthStream(k, n), PayloadStream(k, n), TagOf(PolyKey(k, n)), plain);
    assert OpenSSH(k).seal(n, plain) == EncryptPacket(k, n, plain);
    assert OpenSSH(k).open(n, EncryptPacket(k, n, plain)) == DecryptPacket(k, n, EncryptPacket(k, n, plain));
  }

  lemma OpensAtAll(k: Keys, n: nat, sealed: bytes)
    requires k.Valid()
    ensures OpensAt(OpenSSH(k), n, sealed)
  {
    if DecryptPacket(k, n, sealed).Some? {
      OpenedStart(LengthStream(k, n), PayloadStream(k, n), TagOf(PolyKey(k, n)), sealed);
    }
  }

  // The cipher of ssh_packet.py meets what PacketStream relies on: decrypting undoes encrypting
  // under the same sequence number, and the length can be read ahead of the tag check.
  lemma OpenSSHIsSound(k: Keys)
    requires k.Valid()
    ensures Sound(OpenSSH(k))
  {
    forall n: nat, plain: bytes | |plain| >= 4
      ensures SealsAt(OpenSSH(k), n, plain)
    {
      SealsAtAll(k, n, plain);
    }
    forall n: nat, sealed: bytes
      ensures OpensAt(OpenSSH(k), n, sealed)
    {
      OpensAtAll(k, n, sealed);
    }
  }

  // ------------------------------------------- in terms of stream and tag

  // What chacha20-poly1305@openssh.com makes of a packet: the length under the second half of the
  // key material from block 0, the rest under the first half from block 1, and a tag over both with
  // a key from block 0 of the first half; the nonce is the sequence number in eight bytes.
  lemma EncryptIs(material: bytes, sequence: nat, plain: bytes)
    requires |material| == 64 && |plain| >= 4
    ensures var nonce := ToBE(sequence, 8);
      var a, b := Xored(material[32..], nonce, 0, plain[..4]), Xored(material[..32], nonce, 1, plain[4..]);
      && a.Some? && b.Some?
      && EncryptPacket(FromMaterial(material).value, sequence, plain)
         == a.value + b.value + Mac(a.value + b.value, Block(material[..32], nonce, 0)[..32]).value
  {
    CipheredNothing(Keystream(material[..32], ToBE(sequence, 8)));
  }

  lemma DecryptLengthIs(material: bytes, sequence: nat, first: bytes)
    requires |material| == 64 && |first| == 4
    ensures Xored(material[32..], ToBE(sequence, 8), 0, first).Some?
    ensures DecryptLength(FromMaterial(material).value, sequence, first) == BE(Xored(material[32..], ToBE(sequence, 8), 0, first).value)
  {}

  lemma SealUndoesOpen(lengths: nat -> Block64, payloads: nat -> Block64, tag: bytes -> bytes, sealed: bytes)
    requires OpenWith(lengths, payloads, tag, sealed).Some?
    ensures var plain := OpenWith(lengths, payloads, tag, sealed).value;
      |plain| >= 4 && SealWith(lengths, payloads, tag, plain) == sealed
  {
    var body := sealed[..|sealed| - 16];
    var a, b := Ciphered(lengths, 0, body[..4]), Ciphered(payloads, 1, body[4..]);
    var plain := OpenWith(lengths, payloads, tag, sealed).value;
    assert plain == a + b && plain[..4] == a && plain[4..] == b;
    CipheredInvolution(lengths, 0, body[..4]);
    CipheredInvolution(payloads, 1, body[4..]);
    assert body[..4] + body[4..] == body && body + sealed[|sealed| - 16..] == sealed;
  }

  // Decryption accepts exactly what encryption produces, and gives back what it was made from.
  lemma DecryptIs(k: Keys, sequence: nat, sealed: bytes, plain: bytes)
    requires k.Valid()
    ensures DecryptPacket(k, sequence, sealed) == Some(plain) <==> |plain| >= 4 && EncryptPacket(k, sequence, plain) == sealed
  {
    TagSize(PolyKey(k, sequence));
    if DecryptPacket(k, sequence, sealed).Some? {
      SealUndoesOpen(LengthStream(k, sequence), PayloadStream(k, sequence), TagOf(PolyKey(k, sequence)), sealed);
    }
    if |plain| >= 4 {
      OpenUndoesSeal(LengthStream(k, sequence), PayloadStream(k, sequence), TagOf(PolyKey(k, sequence)), plain);
    }
  }

  // ------------------------------------------------- comparison of the tags

  lemma {:induction false} OrIsZero(a: nat, b: nat)
    ensures Or(a, b) == 0 <==> a == 0 && b == 0
    decreases a + b
  {
    if a > 0 || b > 0 { OrIsZero(a / 2, b / 2); }
  }

  lemma {:induction false} XorIsZero(a: nat, b: nat)
    ensures Xor(a, b) == 0 <==> a == b
    decreases a + b
  {
    if a > 0 || b > 0 { XorIsZero(a / 2, b / 2); }
  }

  method ConstantTimeEqual(a: bytes, b: bytes) returns (equal: bool)
    ensures equal <==> a == b
  {
    if |a| != |b| {
      return false;
    }
    var result: nat := 0;
    for i := 0 to |a|
      invariant result == 0 <==> a[..i] == b[..i]
    {
      OrIsZero(result, Xor(a[i], b[i]));
      XorIsZero(a[i], b[i]);
      assert a[..i + 1] == a[..i] + [a[i]] && b[..i + 1] == b[..i] + [b[i]];
      result := Or(result, Xor(a[i], b[i]));
    }
    assert a[..|a|] == a && b[..|b|] == b;
    return result == 0;
  }

  // encrypt_packet and decrypt_packet as the program computes them, through the stream cipher
  // and the authenticator.
  method Encrypt(k: Keys, sequence: nat, plain: bytes) returns (sealed: bytes)
    requires k.Valid()
    ensures sealed == EncryptPacket(k, sequence, plain)
  {
    var nonce := Nonce(sequence);
    var n := Least(4, |plain|);
    var encryptedLength := ChaCha20Xor(k.lengthKey, nonce, 0, plain[..n]);
    var block := ChaCha20Block(k.payloadKey, nonce, 0);
    var polyKey := block.value[..32];
    var encryptedPayload := ChaCha20Xor(k.payloadKey, nonce, 1, plain[n..]);
    CipheredNothing(LengthStream(k, sequence));
    CipheredNothing(PayloadStream(k, sequence));
    var body := encryptedLength.value + encryptedPayload.value;
    var tag := Poly1305Mac(body, polyKey);
    return body + tag.value;
  }

  // Whether the last 16 bytes are the tag of what stands before them.
  method TagMatches(k: Keys, sequence: nat, sealed: bytes) returns (same: bool)
    requires k.Valid() && |sealed| >= 16
    ensures same <==> sealed[|sealed| - 16..] == TagOf(PolyKey(k, sequence))(sealed[..|sealed| - 16])
  {
    var block := ChaCha20Block(k.payloadKey, Nonce(sequence), 0);
    var expected := Poly1305Mac(sealed[..|sealed| - 16], block.value[..32]);
    same := ConstantTimeEqual(sealed[|sealed| - 16..], expected.value);
  }

  method Decrypt(k: Keys, sequence: nat, sealed: bytes) returns (plain: Option<bytes>)
    requires k.Valid()
    ensures plain == DecryptPacket(k, sequence, sealed)
  {
    if |sealed| < 20 {
      return None;
    }
    var same := TagMatches(k, sequence, sealed);
    if !same {
      return None;
    }
    var body := sealed[..|sealed| - 16];
    var length := ChaCha20Xor(k.lengthKey, Nonce(sequence), 0, body[..4]);
    var payload := ChaCha20Xor(k.payloadKey, Nonce(sequence), 1, body[4..]);
    CipheredNothing(PayloadStream(k, sequence));
    return Some(length.value + payload.value);
  }

  lemma CipheredNothing(ks: nat -> Block64)
    ensures Ciphered(ks, 0, []) == [] && Ciphered(ks, 1, []) == []
  {}
}
