/** The formats on the wire, byte by byte: what the encoders write and the readers accept, without
    reference to either. */
module WireFormats {
  import opened Wrappers
  import opened Bits
  import opened SshEncoding
  import opened Framing
  import Runs
  import P = PrivateProtocol
  import F = FrameSocket
  import S = SshPacket
  import W = WebSocketFrames

  // A number below 2^32 in four bytes, highest first.
  function Four(n: nat): (s: bytes)
    requires n < 0x1_0000_0000
    ensures |s| == 4
  {
    [n / 0x100_0000, n / 0x1_0000 % 256, n / 256 % 256, n % 256]
  }

  // A string behind its length.
  function Counted(v: bytes): bytes
    requires |v| < 0x1_0000_0000
  {
    Four(|v|) + v
  }

  // ------------------------------------------------------- SSH encodings

  lemma FourIs(n: nat)
    requires n < 0x1_0000_0000
    ensures ToBE(n, 4) == Four(n)
  {
    assert n / 256 / 256 == n / 0x1_0000 && n / 256 / 256 / 256 == n / 0x100_0000 && n / 256 / 256 / 256 / 256 == 0;
    assert ToBE(n / 0x100_0000, 1) == [n / 0x100_0000];
    assert ToBE(n / 0x1_0000, 2) == ToBE(n / 0x100_0000, 1) + [n / 0x1_0000 % 256];
    assert ToBE(n / 256, 3) == ToBE(n / 0x1_0000, 2) + [n / 256 % 256];
  }

  lemma FourBack(s: bytes)
    requires |s| == 4
    ensures BE(s) < 0x1_0000_0000 && Four(BE(s)) == s
  {
    Uint32Back(s);
    FourIs(BE(s));
  }

  // uint32 and string: section 5 of RFC 4251.
  lemma Uint32Is(n: int)
    ensures Uint32(n) == if 0 <= n < 0x1_0000_0000 then Some(Four(n)) else None
  {
    if 0 <= n < 0x1_0000_0000 { FourIs(n); }
  }

  lemma StringIs(v: bytes)
    ensures String(v) == if |v| < 0x1_0000_0000 then Some(Counted(v)) else None
  {
    Uint32Is(|v|);
  }

  // A string is read if and only if it stands there behind its length.
  lemma StringReadIs(s: bytes, v: bytes, rest: bytes)
    ensures ParseString(s) == Some(Parsed(v, rest)) <==> |v| < 0x1_0000_0000 && s == Counted(v) + rest
  {
    if ParseString(s) == Some(Parsed(v, rest)) {
      StringReadIsWritten(s);
      StringIs(v);
    }
    if |v| < 0x1_0000_0000 && s == Counted(v) + rest {
      StringRoundTrip(v, rest);
      StringIs(v);
    }
  }

  // name-list: a comma stands in front of every name but the first.
  function Commas(): bytes -> bytes {
    (name: bytes) => [44] + name
  }

  lemma {:induction false} JoinedIs(names: seq<bytes>)
    requires names != []
    ensures [44] + JoinNames(names) == Runs.Gathered(Commas(), names)
  {
    if |names| > 1 {
      JoinedIs(names[1..]);
      assert [44] + (names[0] + [44] + JoinNames(names[1..])) == ([44] + names[0]) + ([44] + JoinNames(names[1..]));
    } else {
      assert names[1..] == [] && Runs.Gathered(Commas(), names) == ([44] + names[0]) + [];
    }
  }

  lemma {:induction false} SplitIs(s: bytes)
    ensures [44] + s == Runs.Gathered(Commas(), SplitNames(s))
  {
    if s == [] {
      assert SplitNames(s)[1..] == [] && Runs.Gathered(Commas(), SplitNames(s)) == ([44] + []) + [];
    } else {
      var more := SplitNames(s[1..]);
      SplitIs(s[1..]);
      var behind := Runs.Gathered(Commas(), more[1..]);
      CommaBefore(s[1..], more[0] + behind);
      assert s == [s[0]] + s[1..];
      if s[0] == 44 { NameStarts(more); } else { NameGrows(s[0], more); }
    }
  }

  lemma CommaBefore(a: bytes, b: bytes)
    ensures [44] + a == [44] + b <==> a == b
  {
    assert ([44] + a)[1..] == a && ([44] + b)[1..] == b;
  }

  lemma NameStarts(names: seq<bytes>)
    requires names != []
    ensures Runs.Gathered(Commas(), [[]] + names) == [44] + Runs.Gathered(Commas(), names)
  {
    assert ([[]] + names)[1..] == names && [44] + [] == [44];
  }

  lemma NameGrows(b: byte, names: seq<bytes>)
    requires names != []
    ensures Runs.Gathered(Commas(), [[b] + names[0]] + names[1..]) == [44] + ([b] + (names[0] + Runs.Gathered(Commas(), names[1..])))
  {
    assert ([[b] + names[0]] + names[1..])[1..] == names[1..];
  }

  // The names stand between the commas of a string, and an empty string has none.
  ghost predicate IsNameList(utf8: Utf8, joined: bytes, names: seq<bytes>) {
    if joined == [] then names == []
    else utf8(joined) && names != [] && (forall k :: 0 <= k < |names| ==> 44 !in names[k])
         && [44] + joined == Runs.Gathered(Commas(), names)
  }

  lemma NameListReadIs(utf8: Utf8, s: bytes, joined: bytes, names: seq<bytes>, rest: bytes)
    requires |joined| < 0x1_0000_0000 && s == Counted(joined) + rest
    ensures ParseNameList(utf8, s) == Some(Parsed(names, rest)) <==> IsNameList(utf8, joined, names)
  {
    StringReadIs(s, joined, rest);
    SplitIs(joined);
    SplitsHaveNoComma(joined);
    if joined != [] && IsNameList(utf8, joined, names) {
      JoinedIs(names);
      assert ([44] + JoinNames(names))[1..] == JoinNames(names) && ([44] + joined)[1..] == joined;
      SplitJoined(names);
    }
  }

  // ------------------------------------------------ messages of the client

  // The payload of a message, field by field.
  ghost predicate Writes(m: P.Message, s: bytes) {
    match m
    case Register(identifier) => |identifier| < 0x1_0000_0000 && s == Counted(identifier)
    case RegisterResult(ok, text) => |text| < 0x1_0000_0000 && s == Flag(ok) + Counted(text)
    case AuthRequest(authId, username, fingerprint, keyBlob) =>
      authId < 0x1_0000_0000 && |username| < 0x1_0000_0000 && |fingerprint| < 0x1_0000_0000 && |keyBlob| < 0x1_0000_0000
      && s == Four(authId) + Counted(username) + Counted(fingerprint) + Counted(keyBlob)
    case AuthResponse(authId, ok, persist) => authId < 0x1_0000_0000 && s == Four(authId) + Flag(ok) + Flag(persist)
    case OpenChannel(channelId, kind, extraJson) =>
      channelId < 0x1_0000_0000 && |kind| < 0x1_0000_0000 && |extraJson| < 0x1_0000_0000
      && s == Four(channelId) + Counted(kind) + Counted(extraJson)
    case OpenConfirm(channelId, ok, text) =>
      channelId < 0x1_0000_0000 && |text| < 0x1_0000_0000 && s == Four(channelId) + Flag(ok) + Counted(text)
    case ChannelData(channelId, data) =>
      channelId < 0x1_0000_0000 && |data| < 0x1_0000_0000 && s == Four(channelId) + Counted(data)
    case ChannelId(channelId) => channelId < 0x1_0000_0000 && s == Four(channelId)
    case ChannelRequest(channelId, request, wantReply, payload) =>
      channelId < 0x1_0000_0000 && |request| < 0x1_0000_0000 && |payload| < 0x1_0000_0000
      && s == Four(channelId) + Counted(request) + Flag(wantReply) + Counted(payload)
    case ExtendedData(channelId, dataType, data) =>
      channelId < 0x1_0000_0000 && dataType < 0x1_0000_0000 && |data| < 0x1_0000_0000
      && s == Four(channelId) + Four(dataType) + Counted(data)
  }

  function Flag(b: bool): bytes {
    if b then [1] else [0]
  }

  // pack_* writes these bytes, and fails exactly when a number or a length does not fit.
  lemma PackIs(m: P.Message, s: bytes)
    ensures P.Pack(m) == Some(s) <==> Writes(m, s)
  {
    match m {
      case Register(identifier) => StringIs(identifier);
      case RegisterResult(ok, text) => StringIs(text);
      case AuthRequest(authId, username, fingerprint, keyBlob) =>
        Uint32Is(authId);
        StringIs(username);
        StringIs(fingerprint);
        StringIs(keyBlob);
        Regroup(authId, username, fingerprint, keyBlob);
      case AuthResponse(authId, ok, persist) => Uint32Is(authId); ThreeFlags(authId, ok, persist);
      case OpenChannel(channelId, kind, extraJson) => Uint32Is(channelId); StringIs(kind); StringIs(extraJson); Three(channelId, kind, extraJson);
      case OpenConfirm(channelId, ok, text) => Uint32Is(channelId); StringIs(text); OneFlag(channelId, ok, text);
      case ChannelData(channelId, data) => Uint32Is(channelId); StringIs(data);
      case ChannelId(channelId) => Uint32Is(channelId);
      case ChannelRequest(channelId, request, wantReply, payload) =>
        Uint32Is(channelId);
        StringIs(request);
        StringIs(payload);
        Asked(channelId, request, wantReply, payload);
      case ExtendedData(channelId, dataType, data) => Uint32Is(channelId); Uint32Is(dataType); StringIs(data); TwoNumbers(channelId, dataType, data);
    }
  }

  lemma Regroup(n: nat, a: bytes, b: bytes, c: bytes)
    ensures n < 0x1_0000_0000 && |a| < 0x1_0000_0000 && |b| < 0x1_0000_0000 && |c| < 0x1_0000_0000 ==>
      Four(n) + (Counted(a) + (Counted(b) + Counted(c))) == Four(n) + Counted(a) + Counted(b) + Counted(c)
  {}

  lemma ThreeFlags(n: nat, a: bool, b: bool)
    ensures n < 0x1_0000_0000 ==> Four(n) + (Flag(a) + Flag(b)) == Four(n) + Flag(a) + Flag(b)
  {}

  lemma Three(n: nat, a: bytes, b: bytes)
    ensures n < 0x1_0000_0000 && |a| < 0x1_0000_0000 && |b| < 0x1_0000_0000 ==>
      Four(n) + (Counted(a) + Counted(b)) == Four(n) + Counted(a) + Counted(b)
  {}

  lemma OneFlag(n: nat, a: bool, b: bytes)
    ensures n < 0x1_0000_0000 && |b| < 0x1_0000_0000 ==> Four(n) + (Flag(a) + Counted(b)) == Four(n) + Flag(a) + Counted(b)
  {}

  lemma Asked(n: nat, a: bytes, f: bool, b: bytes)
    ensures n < 0x1_0000_0000 && |a| < 0x1_0000_0000 && |b| < 0x1_0000_0000 ==>
      Four(n) + (Counted(a) + (Flag(f) + Counted(b))) == Four(n) + Counted(a) + Flag(f) + Counted(b)
  {}

  lemma TwoNumbers(n: nat, m: nat, b: bytes)
    ensures n < 0x1_0000_0000 && m < 0x1_0000_0000 && |b| < 0x1_0000_0000 ==>
      Four(n) + (Four(m) + Counted(b)) == Four(n) + Four(m) + Counted(b)
  {}

  // The numbers of FrameType.
  predicate FrameNumber(kind: byte) {
    kind in {1, 2, 3, 4, 10, 11, 12, 13, 14, 15, 16, 30}
  }

  lemma FrameNumbers(kind: byte)
    ensures FrameNumber(kind) <==> F.Known(kind)
  {}

  lemma FrameWritten(s: bytes, kind: byte, payload: bytes, rest: bytes)
    requires 1 + |payload| <= 0x100_0000 && FrameNumber(kind) && s == Four(1 + |payload|) + [kind] + payload + rest
    ensures F.FirstPrivate(s) == Some(Cut(F.Private(kind, payload), rest))
  {
    var f := F.Private(kind, payload);
    FrameNumbers(kind);
    F.PrivateRoundTrip(f, rest);
    FourIs(1 + |payload|);
    assert F.EncodedPrivate(f) + rest == s;
  }

  lemma FrameRead(s: bytes, kind: byte, payload: bytes, rest: bytes)
    requires F.FirstPrivate(s) == Some(Cut(F.Private(kind, payload), rest))
    ensures 1 + |payload| <= 0x100_0000 && FrameNumber(kind) && s == Four(1 + |payload|) + [kind] + payload + rest
  {
    FrameNumbers(kind);
    FourBack(s[..4]);
    FrameParts(s, BE(s[..4]), kind, payload, rest);
  }

  lemma FrameParts(s: bytes, n: nat, kind: byte, payload: bytes, rest: bytes)
    requires 1 <= n <= |s| - 4 && s[4] == kind && s[4..][..n][1..] == payload && s[4..][n..] == rest
    ensures n == 1 + |payload| && s == s[..4] + [kind] + payload + rest
  {
    assert s == s[..4] + (s[4..][..n] + s[4..][n..]);
    assert s[4..][..n] == [kind] + payload;
  }

  // read_frame returns a frame if and only if it stands there complete: the length of type and
  // payload, at most 16 MiB, a known type, and the payload.
  lemma FrameIs(s: bytes, kind: byte, payload: bytes, rest: bytes)
    ensures F.FirstPrivate(s) == Some(Cut(F.Private(kind, payload), rest)) <==>
            1 + |payload| <= 0x100_0000 && FrameNumber(kind) && s == Four(1 + |payload|) + [kind] + payload + rest
  {
    if F.FirstPrivate(s) == Some(Cut(F.Private(kind, payload), rest)) {
      FrameRead(s, kind, payload, rest);
    } else if 1 + |payload| <= 0x100_0000 && FrameNumber(kind) && s == Four(1 + |payload|) + [kind] + payload + rest {
      FrameWritten(s, kind, payload, rest);
    }
  }

  // ----------------------------------------------------------- SSH packets

  // A packet before encryption: its length, the length of the padding, payload and padding, which
  // has 4 to 11 bytes; without the length field when that is encrypted apart, the whole is a
  // multiple of eight (section 6 of RFC 4253).
  lemma PlainPacketIs(payload: bytes, aead: bool, plain: bytes)
    ensures S.IsPlain(payload, aead, plain) <==>
            exists padding: bytes :: IsPadded(payload, aead, plain, padding)
  {
    if padding: bytes :| IsPadded(payload, aead, plain, padding) { PaddedIsPlain(payload, aead, plain, padding); }
    if S.IsPlain(payload, aead, plain) {
      var padding: bytes :| S.PadsTo(payload, aead, plain, padding);
      PlainIsPadded(payload, aead, plain, padding);
    }
  }

  lemma PaddedIsPlain(payload: bytes, aead: bool, plain: bytes, padding: bytes)
    requires IsPadded(payload, aead, plain, padding)
    ensures S.PadsTo(payload, aead, plain, padding)
  {
    S.PaddingUnique(|payload|, |padding|, S.PaddingFor(|payload|, aead), aead);
    FourIs(1 + |payload| + |padding|);
    assert plain == S.PlainPacket(payload, padding);
  }

  lemma PlainIsPadded(payload: bytes, aead: bool, plain: bytes, padding: bytes)
    requires S.PadsTo(payload, aead, plain, padding)
    ensures IsPadded(payload, aead, plain, padding)
  {
    FourIs(1 + |payload| + |padding|);
    assert plain == Four(1 + |payload| + |padding|) + [|padding|] + payload + padding;
  }

  ghost predicate IsPadded(payload: bytes, aead: bool, plain: bytes, padding: bytes) {
    && 4 <= |padding| <= 11 && 1 + |payload| + |padding| < 0x1_0000_0000
    && plain == Four(1 + |payload| + |padding|) + [|padding|] + payload + padding
    && (|plain| - if aead then 4 else 0) % 8 == 0
  }

  // read_packet without a cipher accepts exactly this: a length from 5 to 256 KiB, a padding length
  // from 4, and that much behind it.
  lemma PacketIs(sequence: nat, s: bytes, payload: bytes, rest: bytes)
    ensures S.FirstPacket(None, sequence, s) == Some(Cut(payload, rest)) <==> exists padding: bytes :: StandsFirst(s, payload, padding, rest)
  {
    if S.FirstPacket(None, sequence, s) == Some(Cut(payload, rest)) {
      FourBack(s[..4]);
      var n := BE(s[..4]);
      var plain := s[..4] + s[4..][..n];
      assert plain[..4] == s[..4] && plain[4] == s[4] && plain[4..4 + n] == s[4..][..n];
      var body := s[4..][..n];
      var padding := body[n - s[4]..];
      assert body == [s[4]] + (body[1..n - s[4]] + padding);
      assert s == s[..4] + (body + rest);
      assert StandsFirst(s, payload, padding, rest);
    }
    if padding: bytes :| StandsFirst(s, payload, padding, rest) { PacketAccepted(sequence, s, payload, padding, rest); }
  }

  ghost predicate StandsFirst(s: bytes, payload: bytes, padding: bytes, rest: bytes) {
    && 4 <= |padding| < 256 && 1 + |payload| + |padding| <= 0x4_0000
    && s == Four(1 + |payload| + |padding|) + [|padding|] + payload + padding + rest
  }

  lemma PacketAccepted(sequence: nat, s: bytes, payload: bytes, padding: bytes, rest: bytes)
    requires StandsFirst(s, payload, padding, rest)
    ensures S.FirstPacket(None, sequence, s) == Some(Cut(payload, rest))
  {
    var n := 1 + |payload| + |padding|;
    var plain := S.PlainPacket(payload, padding);
    FourIs(n);
    S.PlainParts(payload, padding);
    assert s == plain + rest;
    S.TakeTwice(plain, n, rest);
    assert plain[..4] == ToBE(n, 4);
  }

  // ------------------------------------------------------ WebSocket frames

  // The length in one of three forms, behind the mask bit.
  function LengthBytes(n: nat, masked: bool): bytes
    requires n < 0x1_0000_0000_0000_0000
  {
    if n < 126 then [(if masked then 128 else 0) + n]
    else if n < 0x1_0000 then [(if masked then 128 else 0) + 126, n / 256, n % 256]
    else [(if masked then 128 else 0) + 127] + ToBE(n, 8)
  }

  lemma LengthIs(n: nat, masked: bool)
    requires n < 0x1_0000_0000_0000_0000
    ensures [W.WithFlag(masked, W.LengthCode(n))] + W.ExtendedLength(n) == LengthBytes(n, masked)
  {
    W.FlagValue(W.LengthCode(n));
    if 126 <= n < 0x1_0000 { TwoBytes(n); }
  }

  // Section 5.2 of RFC 6455: the final bit and the opcode, the mask bit and the length, the mask if
  // there is one, and the payload under it.
  lemma WebSocketFrameIs(f: W.Frame, mask: Option<W.Mask>)
    requires f.opcode < 16 && |f.payload| < 0x1_0000_0000_0000_0000
    ensures W.Encoded(f, mask)
      == [(if f.fin then 128 else 0) + f.opcode] + LengthBytes(|f.payload|, mask.Some?)
         + (if mask.Some? then mask.value else []) + (if mask.Some? then W.Masked(f.payload, mask.value) else f.payload)
  {
    W.FlagValue(f.opcode);
    LengthIs(|f.payload|, mask.Some?);
    HeadFirst(W.WithFlag(f.fin, f.opcode), W.WithFlag(mask.Some?, W.LengthCode(|f.payload|)), W.ExtendedLength(|f.payload|));
  }

  lemma HeadFirst(a: byte, b: byte, more: bytes)
    ensures [a, b] + more == [a] + ([b] + more)
  {}

  lemma TwoBytes(n: nat)
    requires n < 0x1_0000
    ensures ToBE(n, 2) == [n / 256, n % 256]
  {
    assert ToBE(n / 256, 1) == [n / 256];
  }

  lemma MaskedIs(payload: bytes, mask: W.Mask, i: nat)
    requires i < |payload|
    ensures W.Masked(payload, mask)[i] == Xor(payload[i], mask[i % 4])
  {}

  // What is answered to the frames of a stream: to each ping a pong with its payload.
  function Answer(): W.Frame -> seq<W.Frame> {
    (f: W.Frame) => if f.opcode == 0x9 then [W.Frame(true, 0xA, f.payload)] else []
  }

  lemma {:induction false} PongsAre(fs: seq<W.Frame>)
    ensures W.Pongs(fs) == Runs.Gathered(Answer(), fs)
  {
    if fs != [] { PongsAre(fs[1..]); }
  }

  // And what is data in it: the payloads of text, binary and continuation frames.
  function PayloadOf(): W.Frame -> bytes {
    (f: W.Frame) => if f.opcode <= 0x2 then f.payload else []
  }

  lemma {:induction false} DataIs(fs: seq<W.Frame>)
    ensures W.DataPayloads(fs) == Runs.Gathered(PayloadOf(), fs)
  {
    if fs != [] { DataIs(fs[1..]); }
  }

  // Behind a close frame, or a frame of an unknown kind, nothing is delivered.
  lemma {:induction false} DeliveredStops(a: seq<W.Frame>, f: W.Frame, b: seq<W.Frame>, parts: bytes)
    requires f.opcode > 0x2 && f.opcode != 0x9 && f.opcode != 0xA
    ensures W.Delivered(a + [f] + b, parts) == W.Delivered(a, parts)
    decreases |a|
  {
    if a == [] {
      assert a + [f] + b == [f] + b;
    } else {
      assert (a + [f] + b)[1..] == a[1..] + [f] + b;
      var p := a[0].payload;
      DeliveredStops(a[1..], f, b, parts);
      DeliveredStops(a[1..], f, b, []);
      DeliveredStops(a[1..], f, b, parts + p);
    }
  }
}
