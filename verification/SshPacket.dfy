/** The SSH binary packet protocol (section 6 of RFC 4253) as in PacketStream of
    ssh_packet.py, with a cipher switch at any packet. */
module SshPacket {
  import opened Wrappers
  import opened NumberTheory
  import opened Bits
  import opened SshEncoding
  import opened Framing
  import opened SshCipher
  import opened Sockets
  import opened WebSocket

  const MAX_PACKET: nat := 256 * 1024

  // ---------------------------------------------------------- plain packets

  // Padding fills the part that is aligned to 8-byte blocks; the length field belongs to it
  // when the packet is not encrypted (section 6 of RFC 4253).
  predicate PaddingFits(payloadSize: nat, padding: nat, aead: bool) {
    4 <= padding <= 11 && (payloadSize + 1 + padding + if aead then 0 else 4) % 8 == 0
  }

  // There is exactly one such padding size.
  lemma PaddingUnique(payloadSize: nat, a: nat, b: nat, aead: bool)
    requires PaddingFits(payloadSize, a, aead) && PaddingFits(payloadSize, b, aead)
    ensures a == b
  {}

  function PaddingFor(payloadSize: nat, aead: bool): (padding: nat)
    ensures PaddingFits(payloadSize, padding, aead)
  {
    11 - (payloadSize + 12 + if aead then 0 else 4) % 8
  }

  // The value of the length field.
  function PacketLength(payloadSize: nat, aead: bool): nat {
    payloadSize + 1 + PaddingFor(payloadSize, aead)
  }

  function PlainPacket(payload: bytes, padding: bytes): bytes
    requires |padding| < 256
  {
    ToBE(1 + |payload| + |padding|, 4) + ([|padding|] + (payload + padding))
  }

  // `plain` is a packet for this payload, with the required padding of any content.
  ghost predicate IsPlain(payload: bytes, aead: bool, plain: bytes) {
    exists padding: bytes :: PadsTo(payload, aead, plain, padding)
  }

  ghost predicate PadsTo(payload: bytes, aead: bool, plain: bytes, padding: bytes) {
    |padding| == PaddingFor(|payload|, aead) && 1 + |payload| + |padding| < LIMIT_32 && plain == PlainPacket(payload, padding)
  }

  // _build_plain_packet; it raises when the length does not fit its field.
  method BuildPlainPacket(payload: bytes, aead: bool) returns (plain: Option<bytes>)
    ensures plain.Some? <==> PacketLength(|payload|, aead) < LIMIT_32
    ensures plain.Some? ==> IsPlain(payload, aead, plain.value)
  {
    var padding := PadLength(|payload|, aead);
    if |payload| + 1 + padding >= LIMIT_32 {
      return None;
    }
    var random: bytes :| |random| == padding by { assert |seq<byte>(padding, i => 0)| == padding; }
    plain := Some(ToBE(1 + |payload| + padding, 4) + ([padding] + (payload + random)));
    assert PadsTo(payload, aead, plain.value, random);
  }

  method PadLength(payloadSize: nat, aead: bool) returns (padding: nat)
    ensures padding == PaddingFor(payloadSize, aead)
  {
    padding := 4;
    var extra := if aead then 0 else 4;
    while (payloadSize + 1 + padding + extra) % 8 != 0
      invariant 4 <= padding <= PaddingFor(payloadSize, aead)
      decreases PaddingFor(payloadSize, aead) - padding
    {
      padding := padding + 1;
    }
    PaddingUnique(payloadSize, padding, PaddingFor(payloadSize, aead), aead);
  }

  // ------------------------------------------------------------ on the wire

  type Cipher = Option<Aead>

  ghost predicate CipherSound(c: Cipher) {
    c.Some? ==> Sound(c.value)
  }

  function Wrapped(c: Cipher, sequence: nat, plain: bytes): bytes {
    if c.Some? then c.value.seal(sequence, plain) else plain
  }

  // w is what send_packet may put on the wire for a payload.
  ghost predicate IsWire(c: Cipher, sequence: nat, payload: bytes, w: bytes) {
    exists plain: bytes :: IsPlain(payload, c.Some?, plain) && w == Wrapped(c, sequence, plain)
  }

  method BuildWire(c: Cipher, sequence: nat, payload: bytes) returns (w: Option<bytes>)
    ensures w.Some? <==> PacketLength(|payload|, c.Some?) < LIMIT_32
    ensures w.Some? ==> IsWire(c, sequence, payload, w.value)
  {
    var plain := BuildPlainPacket(payload, c.Some?);
    if plain.None? { return None; }
    return Some(Wrapped(c, sequence, plain.value));
  }

  // The packet length announced by the first four bytes.
  function AnnouncedLength(c: Cipher, sequence: nat, first: bytes): nat {
    if c.Some? then c.value.length(sequence, first) else BE(first)
  }

  // The plain packet inside a complete wire packet.
  function Unwrapped(c: Cipher, sequence: nat, whole: bytes): Option<bytes> {
    if c.Some? then c.value.open(sequence, whole) else Some(whole)
  }

  // Payload of a plain packet, when its padding is in order.
  function PayloadOf(plain: bytes): Option<bytes> {
    if |plain| < 5 then None
    else
      var length := BE(plain[..4]);
      if length < 1 || 4 + length > |plain| then None
      else
        var padding := plain[4];
        if padding < 4 || padding >= length then None
        else Some(plain[4..4 + length][1..length - padding])
  }

  // The first packet of a byte stream, decrypted.
  function FirstPlain(c: Cipher, sequence: nat, s: bytes): Option<Cut<bytes>> {
    match ParseTake(s, 4)
    case None => None
    case Some(first) =>
      var length := AnnouncedLength(c, sequence, first.value);
      if length < 5 || length > MAX_PACKET then None
      else match ParseTake(first.rest, length + if c.Some? then 16 else 0)
        case None => None
        case Some(rest) =>
          match Unwrapped(c, sequence, first.value + rest.value)
          case None => None
          case Some(plain) => Some(Cut(plain, rest.rest))
  }

  // The payload of the first packet of a byte stream.
  function FirstPacket(c: Cipher, sequence: nat, s: bytes): Option<Cut<bytes>> {
    match FirstPlain(c, sequence, s)
    case None => None
    case Some(cut) =>
      match PayloadOf(cut.item)
      case None => None
      case Some(payload) => Some(Cut(payload, cut.rest))
  }

  lemma PlainParts(payload: bytes, padding: bytes)
    requires 4 <= |padding| < 256 && 1 + |payload| + |padding| < LIMIT_32
    ensures var p := PlainPacket(payload, padding); var n := 1 + |payload| + |padding|;
      |p| == 4 + n && BE(p[..4]) == n && PayloadOf(p) == Some(payload)
  {
    var p, n := PlainPacket(payload, padding), 1 + |payload| + |padding|;
    Uint32Bytes(n);
    assert p[..4] == ToBE(n, 4);
    assert p[4..4 + n] == [|padding|] + (payload + padding);
    assert p[4..4 + n][1..n - |padding|] == payload;
  }

  // What the receiver needs to know of a packet on the wire.
  lemma WireParts(c: Cipher, sequence: nat, payload: bytes, w: bytes) returns (plain: bytes)
    requires CipherSound(c) && sequence < LIMIT_32 && IsWire(c, sequence, payload, w)
    ensures |w| == 4 + PacketLength(|payload|, c.Some?) + if c.Some? then 16 else 0
    ensures AnnouncedLength(c, sequence, w[..4]) == PacketLength(|payload|, c.Some?)
    ensures Unwrapped(c, sequence, w) == Some(plain) && PayloadOf(plain) == Some(payload)
  {
    plain :| IsPlain(payload, c.Some?, plain) && w == Wrapped(c, sequence, plain);
    var padding: bytes :| PadsTo(payload, c.Some?, plain, padding);
    PlainParts(payload, padding);
    if c.Some? {
      assert SealsAt(c.value, sequence, plain);
      assert OpensAt(c.value, sequence, w);
    }
  }

  lemma TakeTwice(w: bytes, size: nat, rest: bytes)
    requires |w| == 4 + size
    ensures ParseTake(w + rest, 4) == Some(Parsed(w[..4], w[4..] + rest))
    ensures ParseTake(w[4..] + rest, size) == Some(Parsed(w[4..], rest))
    ensures w[..4] + w[4..] == w
  {
    assert (w + rest)[..4] == w[..4] && (w + rest)[4..] == w[4..] + rest;
    assert (w[4..] + rest)[..size] == w[4..] && (w[4..] + rest)[size..] == rest;
  }

  // read_packet undoes send_packet, under the same cipher and sequence number and whatever
  // follows, exactly for the payloads whose packet stays within the length limit.
  lemma PacketRoundTrip(c: Cipher, sequence: nat, payload: bytes, w: bytes, rest: bytes)
    requires CipherSound(c) && sequence < LIMIT_32 && IsWire(c, sequence, payload, w)
    ensures if PacketLength(|payload|, c.Some?) <= MAX_PACKET
      then FirstPacket(c, sequence, w + rest) == Some(Cut(payload, rest))
      else FirstPacket(c, sequence, w + rest) == None
  {
    var plain := WireParts(c, sequence, payload, w);
    TakeTwice(w, |w| - 4, rest);
  }

  // ------------------------------------------------------------ whole runs

  // Reading a packet depends on its number.
  type NumberedCutter<T> = (nat, bytes) -> Option<Cut<T>>

  // What `count` successive reads return, from packet number i on, and the bytes left.
  function ReadMany<T>(first: NumberedCutter<T>, i: nat, s: bytes, count: nat): Option<Parsed<seq<T>>>
    decreases count
  {
    if count == 0 then Some(Parsed([], s))
    else match first(i, s)
      case None => None
      case Some(cut) =>
        match ReadMany(first, i + 1, cut.rest, count - 1)
        case None => None
        case Some(more) => Some(Parsed([cut.item] + more.value, more.rest))
  }

  // One more read behind `count` reads.
  lemma {:induction false} ReadManySnoc<T>(first: NumberedCutter<T>, i: nat, s: bytes, count: nat)
    requires ReadMany(first, i, s, count).Some?
    ensures var done := ReadMany(first, i, s, count).value;
      |done.value| == count
      && match first(i + count, done.rest)
         case None => ReadMany(first, i, s, count + 1) == None
         case Some(cut) => ReadMany(first, i, s, count + 1) == Some(Parsed(done.value + [cut.item], cut.rest))
    decreases count
  {
    var done := ReadMany(first, i, s, count).value;
    if count == 0 {
      match first(i, s) {
        case None =>
        case Some(cut) =>
          assert ReadMany(first, i + 1, cut.rest, 0) == Some(Parsed([], cut.rest));
          assert [cut.item] + [] == done.value + [cut.item];
      }
    } else {
      var cut := first(i, s).value;
      ReadManySnoc(first, i + 1, cut.rest, count - 1);
      var more := ReadMany(first, i + 1, cut.rest, count - 1).value;
      match first(i + count, done.rest) {
        case None =>
        case Some(last) => assert [cut.item] + (more.value + [last.item]) == done.value + [last.item];
      }
    }
  }

  // Only the numbers that are read matter.
  lemma {:induction false} ReadManySame<T>(first: NumberedCutter<T>, other: NumberedCutter<T>, i: nat, s: bytes, count: nat)
    requires forall j: nat, w: bytes :: i <= j < i + count ==> first(j, w) == other(j, w)
    ensures ReadMany(first, i, s, count) == ReadMany(other, i, s, count)
    decreases count
  {
    if count != 0 && first(i, s).Some? {
      ReadManySame(first, other, i + 1, first(i, s).value.rest, count - 1);
    }
  }

  // `w` on the wire is read as packet number i with this content, whatever follows.
  ghost predicate ReadsAs<T(!new)>(first: NumberedCutter<T>, i: nat, w: bytes, item: T) {
    forall rest: bytes {:trigger first(i, w + rest)} :: first(i, w + rest) == Some(Cut(item, rest))
  }

  lemma {:induction false} ReadManyOfConcat<T(!new)>(first: NumberedCutter<T>, i: nat, wires: seq<bytes>, items: seq<T>, rest: bytes)
    requires |wires| == |items|
    requires forall k :: 0 <= k < |items| ==> ReadsAs(first, i + k, wires[k], items[k])
    ensures ReadMany(first, i, Concat(wires) + rest, |items|) == Some(Parsed(items, rest))
    decreases |items|
  {
    if items == [] {
      assert [] + rest == rest;
    } else {
      var w, more := wires[0], Concat(wires[1..]) + rest;
      assert Concat(wires) + rest == w + more;
      assert ReadsAs(first, i + 0, w, items[0]);
      assert first(i, w + more) == Some(Cut(items[0], more));
      forall k | 0 <= k < |items[1..]|
        ensures ReadsAs(first, i + 1 + k, wires[1..][k], items[1..][k])
      {
        assert ReadsAs(first, i + (k + 1), wires[k + 1], items[k + 1]);
      }
      ReadManyOfConcat(first, i + 1, wires[1..], items[1..], rest);
      assert items == [items[0]] + items[1..];
    }
  }

  // The first n of some packets, read from all of them.
  lemma ReadManyPrefix<T(!new)>(first: NumberedCutter<T>, wires: seq<bytes>, items: seq<T>, n: nat, rest: bytes)
    requires n <= |items| == |wires|
    requires forall k :: 0 <= k < n ==> ReadsAs(first, k, wires[k], items[k])
    ensures ReadMany(first, 0, Concat(wires) + rest, n) == Some(Parsed(items[..n], Concat(wires[n..]) + rest))
  {
    forall k | 0 <= k < n
      ensures ReadsAs(first, 0 + k, wires[..n][k], items[..n][k])
    {}
    ReadManyOfConcat(first, 0, wires[..n], items[..n], Concat(wires[n..]) + rest);
    ConcatAppend(wires[..n], wires[n..]);
    assert wires[..n] + wires[n..] == wires;
    assert Concat(wires) + rest == Concat(wires[..n]) + (Concat(wires[n..]) + rest);
  }

  // One more read, by a reader that agrees on the earlier ones.
  lemma ReadManyGrows<T>(first: NumberedCutter<T>, other: NumberedCutter<T>, s: bytes, items: seq<T>, pending: bytes, item: T, rest: bytes)
    requires forall j: nat, w: bytes :: j < |items| ==> first(j, w) == other(j, w)
    requires ReadMany(first, 0, s, |items|) == Some(Parsed(items, pending))
    requires other(|items|, pending) == Some(Cut(item, rest))
    ensures ReadMany(other, 0, s, |items| + 1) == Some(Parsed(items + [item], rest))
  {
    ReadManySame(first, other, 0, s, |items|);
    assert other(0 + |items|, pending) == Some(Cut(item, rest));
    ReadManySnoc(other, 0, s, |items|);
  }

  // How one packet is read: FirstPacket.
  type Reading = (Cipher, nat, bytes) -> Option<Cut<bytes>>

  // The reader of packet number i, given the ciphers that were in force so far.
  function PacketReader(read: Reading, ciphers: seq<Cipher>): NumberedCutter<bytes> {
    (i: nat, s: bytes) => read(CipherAt(ciphers, i), i % LIMIT_32, s)
  }

  function CipherAt(ciphers: seq<Cipher>, i: nat): Cipher {
    if i < |ciphers| then ciphers[i] else None
  }

  // A log of packets: their payloads, and the ciphers in force.
  datatype Log = Log(payloads: seq<bytes>, ciphers: seq<Cipher>) {
    function Add(payload: bytes, c: Cipher): Log {
      Log(payloads + [payload], ciphers + [c])
    }
  }

  // The packets a sender put on the wire, number by number.
  ghost predicate SentAs(sent: Log, wires: seq<bytes>) {
    && |sent.payloads| == |sent.ciphers| == |wires|
    && forall k: nat :: k < |wires| ==> IsWire(sent.ciphers[k], k % LIMIT_32, sent.payloads[k], wires[k])
  }

  ghost predicate SendLogged(sent: Log, wires: seq<bytes>, base: bytes, sequence: nat, stream: bytes) {
    SentAs(sent, wires) && sequence == |wires| % LIMIT_32 && stream == base + Concat(wires)
  }

  // Reading what came in gives the logged payloads and leaves these bytes.
  ghost predicate ReceiveLogged(read: Reading, received: Log, inbound: bytes, sequence: nat, pending: bytes) {
    && |received.payloads| == |received.ciphers| && sequence == |received.payloads| % LIMIT_32
    && ReadMany(PacketReader(read, received.ciphers), 0, inbound, |received.payloads|) == Some(Parsed(received.payloads, pending))
  }

  // The packet is within the length limit of the reader, and its cipher is sound.
  ghost predicate Readable(payload: bytes, c: Cipher) {
    CipherSound(c) && PacketLength(|payload|, c.Some?) <= MAX_PACKET
  }

  // Whole runs: under any schedule of ciphers, the first n of any number of readable packets
  // are read back in order, and the rest stays on the wire.
  lemma RunRoundTrip(sent: Log, wires: seq<bytes>, n: nat, rest: bytes)
    requires SentAs(sent, wires) && n <= |wires|
    requires forall k :: 0 <= k < n ==> Readable(sent.payloads[k], sent.ciphers[k])
    ensures ReadMany(PacketReader(FirstPacket, sent.ciphers), 0, Concat(wires) + rest, n) == Some(Parsed(sent.payloads[..n], Concat(wires[n..]) + rest))
  {
    forall k | 0 <= k < n
      ensures ReadsAs(PacketReader(FirstPacket, sent.ciphers), k, wires[k], sent.payloads[k])
    {
      PacketReadsAs(sent, wires, k);
    }
    ReadManyPrefix(PacketReader(FirstPacket, sent.ciphers), wires, sent.payloads, n, rest);
  }

  lemma PacketReadsAs(sent: Log, wires: seq<bytes>, k: nat)
    requires SentAs(sent, wires) && k < |wires| && Readable(sent.payloads[k], sent.ciphers[k])
    ensures ReadsAs(PacketReader(FirstPacket, sent.ciphers), k, wires[k], sent.payloads[k])
  {
    forall rest: bytes
      ensures PacketReader(FirstPacket, sent.ciphers)(k, wires[k] + rest) == Some(Cut(sent.payloads[k], rest))
    {
      assert CipherAt(sent.ciphers, k) == sent.ciphers[k];
      PacketRoundTrip(sent.ciphers[k], k % LIMIT_32, sent.payloads[k], wires[k], rest);
    }
  }

  lemma NextSequence(count: nat)
    ensures (count % LIMIT_32 + 1) % LIMIT_32 == (count + 1) % LIMIT_32
  {}

  // The sender's log grows by one packet.
  lemma SendOneMore(sent: Log, wires: seq<bytes>, base: bytes, sequence: nat, stream: bytes, c: Cipher, payload: bytes, wire: bytes)
    requires SendLogged(sent, wires, base, sequence, stream) && IsWire(c, sequence, payload, wire)
    ensures SendLogged(sent.Add(payload, c), wires + [wire], base, (sequence + 1) % LIMIT_32, stream + wire)
  {
    NextSequence(|wires|);
    ConcatSnoc(wires, wire);
    assert (base + Concat(wires)) + wire == base + (Concat(wires) + wire);
    SentAsMore(sent, wires, c, payload, wire);
  }

  lemma SentAsMore(sent: Log, wires: seq<bytes>, c: Cipher, payload: bytes, wire: bytes)
    requires SentAs(sent, wires) && IsWire(c, |wires| % LIMIT_32, payload, wire)
    ensures SentAs(sent.Add(payload, c), wires + [wire])
  {
    var more, all := sent.Add(payload, c), wires + [wire];
    forall k: nat | k < |all|
      ensures IsWire(more.ciphers[k], k % LIMIT_32, more.payloads[k], all[k])
    {}
  }

  // The ciphers behind the last packet read do not matter.
  lemma SameReader(read: Reading, some: seq<Cipher>, all: seq<Cipher>, j: nat)
    requires some <= all && j < |some|
    ensures forall w: bytes :: PacketReader(read, some)(j, w) == PacketReader(read, all)(j, w)
  {
    assert CipherAt(some, j) == CipherAt(all, j);
  }

  // The receiver's log grows by one packet.
  lemma ReceiveOneMore(read: Reading, received: Log, inbound: bytes, sequence: nat, pending: bytes, c: Cipher, payload: bytes, rest: bytes)
    requires ReceiveLogged(read, received, inbound, sequence, pending)
    requires read(c, sequence, pending) == Some(Cut(payload, rest))
    ensures ReceiveLogged(read, received.Add(payload, c), inbound, (sequence + 1) % LIMIT_32, rest)
  {
    NextSequence(|received.payloads|);
    var n, all := |received.payloads|, received.ciphers + [c];
    var first, other := PacketReader(read, received.ciphers), PacketReader(read, all);
    forall j: nat, w: bytes | j < n
      ensures first(j, w) == other(j, w)
    {
      SameReader(read, received.ciphers, all, j);
    }
    assert CipherAt(all, n) == c;
    ReadManyGrows(first, other, inbound, received.payloads, pending, payload, rest);
  }

  // What was received of what was sent, under the ciphers it was sent under, is its beginning.
  lemma ReceivedIsSent(sent: Log, wires: seq<bytes>, rest: bytes, received: Log, sequence: nat, pending: bytes)
    requires SentAs(sent, wires) && ReceiveLogged(FirstPacket, received, Concat(wires) + rest, sequence, pending)
    requires received.ciphers <= sent.ciphers
    requires forall k :: 0 <= k < |received.payloads| ==> Readable(sent.payloads[k], sent.ciphers[k])
    ensures received.payloads <= sent.payloads && pending == Concat(wires[|received.payloads|..]) + rest
  {
    ReceivedUnder(FirstPacket, received, sent.ciphers, Concat(wires) + rest, sequence, pending);
    RunRoundTrip(sent, wires, |received.payloads|, rest);
  }

  lemma ReceivedUnder(read: Reading, received: Log, all: seq<Cipher>, inbound: bytes, sequence: nat, pending: bytes)
    requires ReceiveLogged(read, received, inbound, sequence, pending) && received.ciphers <= all
    ensures ReadMany(PacketReader(read, all), 0, inbound, |received.payloads|) == Some(Parsed(received.payloads, pending))
  {
    var first, other := PacketReader(read, received.ciphers), PacketReader(read, all);
    var n := |received.payloads|;
    forall j: nat, w: bytes | 0 <= j < 0 + n
      ensures first(j, w) == other(j, w)
    {
      SameReader(read, received.ciphers, all, j);
    }
    ReadManySame(first, other, 0, inbound, n);
  }

  lemma NextReceived(sent: Log, wires: seq<bytes>, rest: bytes, received: Log, sequence: nat, pending: bytes, c: Cipher)
    requires SentAs(sent, wires) && ReceiveLogged(FirstPacket, received, Concat(wires) + rest, sequence, pending)
    requires received.ciphers <= sent.ciphers && |received.payloads| < |wires|
    requires forall k :: 0 <= k <= |received.payloads| ==> Readable(sent.payloads[k], sent.ciphers[k])
    requires c == sent.ciphers[|received.payloads|]
    ensures FirstPacket(c, sequence, pending)
      == Some(Cut(sent.payloads[|received.payloads|], Concat(wires[|received.payloads| + 1..]) + rest))
  {
    ReceivedIsSent(sent, wires, rest, received, sequence, pending);
    NextIsRead(sent, wires, |received.payloads|, rest);
  }

  lemma NextIsRead(sent: Log, wires: seq<bytes>, n: nat, rest: bytes)
    requires SentAs(sent, wires) && n < |wires| && Readable(sent.payloads[n], sent.ciphers[n])
    ensures FirstPacket(sent.ciphers[n], n % LIMIT_32, Concat(wires[n..]) + rest) == Some(Cut(sent.payloads[n], Concat(wires[n + 1..]) + rest))
  {
    PacketRoundTrip(sent.ciphers[n], n % LIMIT_32, sent.payloads[n], wires[n], Concat(wires[n + 1..]) + rest);
    NextWire(wires, n, rest);
  }

  lemma NextWire(wires: seq<bytes>, n: nat, rest: bytes)
    requires n < |wires|
    ensures Concat(wires[n..]) + rest == wires[n] + (Concat(wires[n + 1..]) + rest)
  {
    assert wires[n..][1..] == wires[n + 1..];
  }

  // ---------------------------------------------------------- PacketStream

  class PacketStream {
    const sock: Socket
    var sendSequence: nat
    var recvSequence: nat
    var sendCipher: Cipher
    var recvCipher: Cipher

    // Logs: the packets sent with their bytes on the wire, and the packets received.  `broken`
    // records that read_packet has raised.
    ghost var sent: Log
    ghost var wires: seq<bytes>
    ghost var received: Log
    ghost var broken: bool

    // What had been sent, and what was still to come, when the stream was created.
    ghost const base: bytes
    ghost const inbound: bytes

    // Both sequence numbers count the packets modulo 2^32, the bytes sent are the packets of
    // the log, and the payloads received are the first packets of what came in.
    ghost predicate Valid()
      reads this, sock
    {
      && SendLogged(sent, wires, base, sendSequence, sock.outgoing)
      && (!broken ==> ReceiveLogged(FirstPacket, received, inbound, recvSequence, sock.incoming))
    }

    constructor (sock: Socket)
      ensures this.sock == sock && Valid() && !broken && sent == received == Log([], [])
      ensures sendCipher == None && recvCipher == None && base == sock.outgoing && inbound == sock.incoming
    {
      this.sock := sock;
      sendSequence, recvSequence := 0, 0;
      sendCipher, recvCipher := None, None;
      sent, wires, received, broken := Log([], []), [], Log([], []), false;
      base, inbound := sock.outgoing, sock.incoming;
      new;
      assert base + [] == base;
    }

    method SetSendCipher(cipher: Aead)
      requires Valid()
      modifies `sendCipher
      ensures Valid() && sendCipher == Some(cipher)
    {
      sendCipher := Some(cipher);
    }

    method SetRecvCipher(cipher: Aead)
      requires Valid()
      modifies `recvCipher
      ensures Valid() && recvCipher == Some(cipher)
    {
      recvCipher := Some(cipher);
    }

    method SendPacket(payload: bytes) returns (ok: bool)
      requires Valid()
      modifies sock, `sendSequence, `sent, `wires
      ensures Valid()
      ensures sent == if ok then old(sent).Add(payload, sendCipher) else old(sent)
      ensures ok <==> PacketLength(|payload|, sendCipher.Some?) < LIMIT_32
    {
      ghost var wire;
      ok, wire := Transmit(payload);
      if ok {
        SendOneMore(sent, wires, base, sendSequence, old(sock.outgoing), sendCipher, payload, wire);
        sent, wires := sent.Add(payload, sendCipher), wires + [wire];
        sendSequence := (sendSequence + 1) % LIMIT_32;
      }
    }

    // Up to the point where the sequence number is advanced.
    method Transmit(payload: bytes) returns (ok: bool, ghost wire: bytes)
      modifies sock
      ensures sock.incoming == old(sock.incoming)
      ensures if ok then IsWire(sendCipher, sendSequence, payload, wire) && sock.outgoing == old(sock.outgoing) + wire
        else sock.outgoing == old(sock.outgoing)
      ensures ok <==> PacketLength(|payload|, sendCipher.Some?) < LIMIT_32
    {
      wire := [];
      var w := BuildWire(sendCipher, sendSequence, payload);
      if w.None? { return false, []; }
      wire := w.value;
      sock.SendAll(w.value);
      ok := true;
    }

    method ReadPacket() returns (payload: Option<bytes>)
      requires Valid() && !broken
      modifies sock, `recvSequence, `received, `broken
      ensures Valid() && broken == payload.None?
      ensures match FirstPacket(recvCipher, old(recvSequence), old(sock.incoming)) {
        case Some(cut) => payload == Some(cut.item) && sock.incoming == cut.rest
        case None => payload == None
      }
      ensures received == if payload.Some? then old(received).Add(payload.value, recvCipher) else old(received)
      ensures recvSequence ==
        if FirstPlain(recvCipher, old(recvSequence), old(sock.incoming)).Some? then (old(recvSequence) + 1) % LIMIT_32 else old(recvSequence)
    {
      payload := ReadPayload();
      if payload.None? {
        broken := true;
      } else {
        ReceiveOneMore(FirstPacket, received, inbound, old(recvSequence), old(sock.incoming), recvCipher, payload.value, sock.incoming);
        received := received.Add(payload.value, recvCipher);
      }
    }

    // The whole packet; the sequence number advances before the padding is looked at.
    method ReadPayload() returns (payload: Option<bytes>)
      modifies sock, `recvSequence
      ensures sock.outgoing == old(sock.outgoing)
      ensures match FirstPacket(recvCipher, old(recvSequence), old(sock.incoming)) {
        case Some(cut) => payload == Some(cut.item) && sock.incoming == cut.rest
        case None => payload == None
      }
      ensures recvSequence ==
        if FirstPlain(recvCipher, old(recvSequence), old(sock.incoming)).Some? then (old(recvSequence) + 1) % LIMIT_32 else old(recvSequence)
    {
      var plain := ReadPlain();
      if plain.None? { return None; }
      recvSequence := (recvSequence + 1) % LIMIT_32;
      payload := PayloadOf(plain.value);
    }

    // Up to the point where the sequence number is advanced.
    method ReadPlain() returns (plain: Option<bytes>)
      modifies sock
      ensures sock.outgoing == old(sock.outgoing)
      ensures match FirstPlain(recvCipher, recvSequence, old(sock.incoming)) {
        case Some(cut) => plain == Some(cut.item) && sock.incoming == cut.rest
        case None => plain == None
      }
    {
      var first := RecvExact(sock, 4);
      if first.None? { return None; }
      var length := AnnouncedLength(recvCipher, recvSequence, first.value);
      if length < 5 || length > MAX_PACKET { return None; }
      var rest := RecvExact(sock, length + if recvCipher.Some? then 16 else 0);
      if rest.None? { return None; }
      return Unwrapped(recvCipher, recvSequence, first.value + rest.value);
    }
  }

  // Sender and receiver connected by any byte stream: as long as every packet read was read
  // under the cipher it was sent under, the receiver has exactly the first packets of the
  // sender, in order, and the packets not read yet are what is pending.
  lemma PacketsArriveInOrder(a: PacketStream, b: PacketStream, rest: bytes)
    requires a.Valid() && b.Valid() && !b.broken
    requires b.inbound == Concat(a.wires) + rest
    requires b.received.ciphers <= a.sent.ciphers
    requires forall k :: 0 <= k < |b.received.payloads| ==> Readable(a.sent.payloads[k], a.sent.ciphers[k])
    ensures b.received.payloads <= a.sent.payloads
    ensures b.sock.incoming == Concat(a.wires[|b.received.payloads|..]) + rest
    ensures a.sendSequence == |a.sent.payloads| % LIMIT_32 && b.recvSequence == |b.received.payloads| % LIMIT_32
  {
    ReceivedIsSent(a.sent, a.wires, rest, b.received, b.recvSequence, b.sock.incoming);
  }

  // ... and the next packet is read as soon as the receiver has switched to its cipher.
  lemma NextPacketArrives(a: PacketStream, b: PacketStream, rest: bytes)
    requires a.Valid() && b.Valid() && !b.broken
    requires b.inbound == Concat(a.wires) + rest
    requires b.received.ciphers <= a.sent.ciphers && |b.received.payloads| < |a.sent.payloads|
    requires forall k :: 0 <= k <= |b.received.payloads| ==> Readable(a.sent.payloads[k], a.sent.ciphers[k])
    requires b.recvCipher == a.sent.ciphers[|b.received.payloads|]
    ensures FirstPacket(b.recvCipher, b.recvSequence, b.sock.incoming)
      == Some(Cut(a.sent.payloads[|b.received.payloads|], Concat(a.wires[|b.received.payloads| + 1..]) + rest))
  {
    NextReceived(a.sent, a.wires, rest, b.received, b.recvSequence, b.sock.incoming, b.recvCipher);
  }
}
