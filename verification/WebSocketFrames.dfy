/** WebSocket frames (section 5.2 of RFC 6455) as websocket.py writes and reads them. */
module WebSocketFrames {
  import opened Wrappers
  import opened NumberTheory
  import opened Bits
  import opened SshEncoding
  import opened Framing

  const CONTINUATION: nat := 0x0
  const TEXT: nat := 0x1
  const BINARY: nat := 0x2
  const CLOSE: nat := 0x8
  const PING: nat := 0x9
  const PONG: nat := 0xA

  const LENGTH_LIMIT: nat := 0x1_0000_0000_0000_0000

  datatype Frame = Frame(fin: bool, opcode: nat, payload: bytes) {
    predicate Sendable() { opcode < 16 && |payload| < LENGTH_LIMIT }
  }

  type Mask = m: bytes | |m| == 4 witness [0, 0, 0, 0]

  // ------------------------------------------------------------- encoding

  // bytes(byte ^ mask[index % 4] for index, byte in enumerate(payload))
  function Masked(payload: bytes, mask: Mask): (r: bytes)
    ensures |r| == |payload|
  {
    seq<byte>(|payload|, i requires 0 <= i < |payload| => XorByte(payload[i], mask[i % 4]))
  }

  lemma MaskedTwice(payload: bytes, mask: Mask)
    ensures Masked(Masked(payload, mask), mask) == payload
  {
    forall i | 0 <= i < |payload|
      ensures Masked(Masked(payload, mask), mask)[i] == payload[i]
    {
      XorInvolution(payload[i], mask[i % 4]);
    }
  }

  // `0x80 | n`, or n alone
  function WithFlag(flag: bool, n: nat): byte
    requires n < 128
  {
    FlagValue(n);
    if flag then Or(0x80, n) else n
  }

  lemma FlagValue(n: nat)
    requires n < 128
    ensures Or(0x80, n) == 128 + n
  {
    Pow2Small();
    OrDisjoint(1, n, 7);
  }

  // The length bits of the second header byte, and the extended length behind it.
  function LengthCode(length: nat): (r: nat)
    ensures r < 128
  {
    if length < 126 then length else if length <= 0xFFFF then 126 else 127
  }

  function ExtendedLength(length: nat): bytes {
    if length < 126 then [] else if length <= 0xFFFF then ToBE(length, 2) else ToBE(length, 8)
  }

  function Encoded(f: Frame, mask: Option<Mask>): bytes
    requires f.Sendable()
  {
    [WithFlag(f.fin, f.opcode), WithFlag(mask.Some?, LengthCode(|f.payload|))]
    + ExtendedLength(|f.payload|)
    + (if mask.Some? then mask.value else [])
    + (if mask.Some? then Masked(f.payload, mask.value) else f.payload)
  }

  // ------------------------------------------------------------- decoding

  // The extended length announced by the length code.
  function TakeLength(code: nat, s: bytes): Option<Parsed<nat>> {
    if code == 126 then TakeNumber(s, 2) else if code == 127 then TakeNumber(s, 8) else Some(Parsed(code, s))
  }

  function TakeNumber(s: bytes, size: nat): Option<Parsed<nat>> {
    match ParseTake(s, size)
    case None => None
    case Some(p) => Some(Parsed(BE(p.value), p.rest))
  }

  function TakeMask(masked: bool, s: bytes): Option<Parsed<bytes>> {
    if masked then ParseTake(s, 4) else Some(Parsed([], s))
  }

  function Unmasked(payload: bytes, mask: bytes): bytes {
    if |mask| == 4 then Masked(payload, mask) else payload
  }

  // Mask and payload, once the length is known.
  function TakeBody(masked: bool, length: nat, s: bytes): Option<Parsed<bytes>> {
    match TakeMask(masked, s)
    case None => None
    case Some(m) =>
      match ParseTake(m.rest, length)
      case None => None
      case Some(p) => Some(Parsed(Unmasked(p.value, m.value), p.rest))
  }

  // Everything behind the two header bytes.
  function TakeRest(second: byte, s: bytes): Option<Parsed<bytes>> {
    match TakeLength(second % 128, s)
    case None => None
    case Some(n) => TakeBody(second >= 128, n.value, n.rest)
  }

  // The first frame on the wire, if it is there completely.
  function FirstFrame(wire: bytes): (r: Option<Cut<Frame>>)
    ensures r.Some? ==> |r.value.rest| < |wire|
  {
    match ParseTake(wire, 2)
    case None => None
    case Some(h) =>
      match TakeRest(h.value[1], h.rest)
      case None => None
      case Some(p) => Some(Cut(Frame(h.value[0] >= 128, h.value[0] % 16, p.value), p.rest))
  }

  // The complete frames on the wire; what is behind the last one is lost when the wire ends.
  ghost function Frames(wire: bytes): seq<Frame> {
    FirstFrameShrinks();
    Items(FirstFrame, wire)
  }

  // The wire consists of complete frames only.
  ghost predicate Whole(wire: bytes) {
    FirstFrameShrinks();
    Leftover(FirstFrame, wire) == []
  }

  lemma FirstFrameShrinks()
    ensures Shrinks(FirstFrame)
  {}

  // ----------------------------------------------------------- round trip

  lemma TakePrefix(a: bytes, rest: bytes)
    ensures ParseTake(a + rest, |a|) == Some(Parsed(a, rest))
  {
    assert (a + rest)[..|a|] == a && (a + rest)[|a|..] == rest;
  }

  lemma LengthRoundTrip(length: nat, rest: bytes)
    requires length < LENGTH_LIMIT
    ensures TakeLength(LengthCode(length), ExtendedLength(length) + rest) == Some(Parsed(length, rest))
  {
    Pow2Sizes();
    TakePrefix(ExtendedLength(length), rest);
    if 126 <= length <= 0xFFFF {
      BEToBE(length, 2);
    } else if length > 0xFFFF {
      BEToBE(length, 8);
    } else {
      assert [] + rest == rest;
    }
  }

  lemma BodyRoundTrip(payload: bytes, mask: Option<Mask>, rest: bytes)
    ensures TakeBody(mask.Some?, |payload|,
                     (if mask.Some? then mask.value else [])
                     + ((if mask.Some? then Masked(payload, mask.value) else payload) + rest))
         == Some(Parsed(payload, rest))
  {
    if mask.Some? {
      var m := Masked(payload, mask.value);
      TakePrefix(mask.value, m + rest);
      TakePrefix(m, rest);
      MaskedTwice(payload, mask.value);
    } else {
      assert [] + (payload + rest) == payload + rest;
      TakePrefix(payload, rest);
    }
  }

  lemma FlagSplits(flag: bool, n: nat)
    requires n < 128
    ensures WithFlag(flag, n) % 128 == n && (WithFlag(flag, n) >= 128 <==> flag) && WithFlag(flag, n) % 16 == n % 16
  {
    FlagValue(n);
    if flag {
      DivModUnique(128 + n, 128, 1, n);
      FlagKeepsLow(n);
    } else {
      DivModUnique(n, 128, 0, n);
    }
  }

  lemma FlagKeepsLow(n: nat)
    ensures (128 + n) % 16 == n % 16
  {
    DivModUnique(128 + n, 16, 8 + n / 16, n % 16);
  }

  lemma CutFrom(wire: bytes, head: bytes, tail: bytes, payload: bytes, rest: bytes)
    requires |head| == 2 && TakeRest(head[1], tail) == Some(Parsed(payload, rest)) && wire == head + tail
    ensures FirstFrame(wire) == Some(Cut(Frame(head[0] >= 128, head[0] % 16, payload), rest))
  {
    TakePrefix(head, tail);
  }

  lemma RestRoundTrip(second: byte, payload: bytes, mask: Option<Mask>, rest: bytes)
    requires |payload| < LENGTH_LIMIT && second % 128 == LengthCode(|payload|) && (second >= 128 <==> mask.Some?)
    ensures TakeRest(second, ExtendedLength(|payload|)
                     + ((if mask.Some? then mask.value else [])
                        + ((if mask.Some? then Masked(payload, mask.value) else payload) + rest)))
         == Some(Parsed(payload, rest))
  {
    var key := if mask.Some? then mask.value else [];
    var body := if mask.Some? then Masked(payload, mask.value) else payload;
    LengthRoundTrip(|payload|, key + (body + rest));
    BodyRoundTrip(payload, mask, rest);
  }

  function Head(f: Frame, mask: Option<Mask>): bytes
    requires f.Sendable()
  {
    [WithFlag(f.fin, f.opcode), WithFlag(mask.Some?, LengthCode(|f.payload|))]
  }

  function Tail(f: Frame, mask: Option<Mask>, rest: bytes): bytes
    requires f.Sendable()
  {
    ExtendedLength(|f.payload|)
    + ((if mask.Some? then mask.value else [])
       + ((if mask.Some? then Masked(f.payload, mask.value) else f.payload) + rest))
  }

  lemma EncodedParts(f: Frame, mask: Option<Mask>, rest: bytes)
    requires f.Sendable()
    ensures Encoded(f, mask) + rest == Head(f, mask) + Tail(f, mask, rest)
  {
    Nested(Head(f, mask), ExtendedLength(|f.payload|), if mask.Some? then mask.value else [],
           if mask.Some? then Masked(f.payload, mask.value) else f.payload, rest);
  }

  lemma Nested(h: bytes, e: bytes, k: bytes, b: bytes, rest: bytes)
    ensures h + e + k + b + rest == h + (e + (k + (b + rest)))
  {}

  lemma HeadParts(f: Frame, mask: Option<Mask>)
    requires f.Sendable()
    ensures var h := Head(f, mask);
      && (h[0] >= 128 <==> f.fin) && h[0] % 16 == f.opcode
      && (h[1] >= 128 <==> mask.Some?) && h[1] % 128 == LengthCode(|f.payload|)
  {
    FlagSplits(f.fin, f.opcode);
    FlagSplits(mask.Some?, LengthCode(|f.payload|));
    DivModUnique(f.opcode, 16, 0, f.opcode);
  }

  // _read_frame undoes _frame: every payload, all three length forms, masked or not.
  lemma ReadUndoesFrame(f: Frame, mask: Option<Mask>, rest: bytes)
    requires f.Sendable()
    ensures FirstFrame(Encoded(f, mask) + rest) == Some(Cut(f, rest))
  {
    var head, tail := Head(f, mask), Tail(f, mask, rest);
    HeadParts(f, mask);
    RestRoundTrip(head[1], f.payload, mask, rest);
    EncodedParts(f, mask, rest);
    CutFrom(Encoded(f, mask) + rest, head, tail, f.payload, rest);
  }

  lemma TakeStable(s: bytes, size: nat, more: bytes)
    requires size <= |s|
    ensures ParseTake(s + more, size) == Some(Parsed(s[..size], s[size..] + more))
  {
    assert (s + more)[..size] == s[..size] && (s + more)[size..] == s[size..] + more;
  }

  lemma RestStable(second: byte, s: bytes, more: bytes)
    requires TakeRest(second, s).Some?
    ensures var p := TakeRest(second, s).value; TakeRest(second, s + more) == Some(Parsed(p.value, p.rest + more))
  {
    var code := second % 128;
    if code == 126 { TakeStable(s, 2, more); } else if code == 127 { TakeStable(s, 8, more); }
    var n := TakeLength(code, s).value;
    assert TakeLength(code, s + more) == Some(Parsed(n.value, n.rest + more));
    if second >= 128 { TakeStable(n.rest, 4, more); }
    var m := TakeMask(second >= 128, n.rest).value;
    TakeStable(m.rest, n.value, more);
  }

  // A complete first frame is not changed by what arrives behind it.
  lemma FirstFrameStable(wire: bytes, more: bytes)
    requires FirstFrame(wire).Some?
    ensures FirstFrame(wire + more) == Some(Cut(FirstFrame(wire).value.item, FirstFrame(wire).value.rest + more))
  {
    TakeStable(wire, 2, more);
    RestStable(wire[1], wire[2..], more);
  }

  lemma FirstFrameStableAll()
    ensures Shrinks(FirstFrame) && Stable(FirstFrame)
  {
    forall w: bytes, more: bytes | FirstFrame(w).Some?
      ensures FirstFrame(w + more) == Some(Cut(FirstFrame(w).value.item, FirstFrame(w).value.rest + more))
    {
      FirstFrameStable(w, more);
    }
  }

  // A frame that was read can be sent again.
  lemma FirstFrameSendable(wire: bytes)
    requires FirstFrame(wire).Some?
    ensures FirstFrame(wire).value.item.Sendable()
  {
    var second, s := wire[1], wire[2..];
    LengthBound(second % 128, s);
  }

  lemma LengthBound(code: nat, s: bytes)
    requires code < 128 && TakeLength(code, s).Some?
    ensures TakeLength(code, s).value.value < LENGTH_LIMIT
  {
    Pow2Sizes();
    if code == 126 { ToBEBE(s[..2]); } else if code == 127 { ToBEBE(s[..8]); }
  }

  lemma FramesCut(wire: bytes)
    ensures match FirstFrame(wire) {
      case None => Frames(wire) == []
      case Some(cut) => Frames(wire) == [cut.item] + Frames(cut.rest)
    }
  {
    FirstFrameShrinks();
  }

  // Writing one more frame behind whole frames.
  lemma FrameAppended(wire: bytes, f: Frame, mask: Option<Mask>)
    requires Whole(wire) && f.Sendable()
    ensures Whole(wire + Encoded(f, mask)) && Frames(wire + Encoded(f, mask)) == Frames(wire) + [f]
  {
    FirstFrameStableAll();
    ReadUndoesFrame(f, mask, []);
    assert Encoded(f, mask) + [] == Encoded(f, mask);
    ItemsSnoc(FirstFrame, wire, Encoded(f, mask), f);
  }

  // --------------------------------------------- what the frames deliver

  predicate IsData(opcode: nat) {
    opcode == CONTINUATION || opcode == TEXT || opcode == BINARY
  }

  // The bytes handed on: the payloads of complete messages, up to a close frame, an unknown
  // opcode or the end.  `parts` holds the fragments of the message being read.
  function Delivered(fs: seq<Frame>, parts: bytes): bytes {
    if fs == [] || fs[0].opcode == CLOSE then []
    else if fs[0].opcode == PING || fs[0].opcode == PONG then Delivered(fs[1..], parts)
    else if !IsData(fs[0].opcode) then []
    else if fs[0].fin then parts + fs[0].payload + Delivered(fs[1..], [])
    else Delivered(fs[1..], parts + fs[0].payload)
  }

  // The answers to the pings among the frames, in order.
  function Pongs(fs: seq<Frame>): seq<Frame> {
    if fs == [] then []
    else if fs[0].opcode == PING then [Frame(true, PONG, fs[0].payload)] + Pongs(fs[1..])
    else Pongs(fs[1..])
  }

  lemma {:induction false} PongsAppend(a: seq<Frame>, b: seq<Frame>)
    ensures Pongs(a + b) == Pongs(a) + Pongs(b)
  {
    if a == [] {
      assert a + b == b;
    } else {
      PongsAppend(a[1..], b);
      assert (a + b)[1..] == a[1..] + b;
    }
  }

  // All payload bytes of data frames.
  function DataPayloads(fs: seq<Frame>): bytes {
    if fs == [] then []
    else (if IsData(fs[0].opcode) then fs[0].payload else []) + DataPayloads(fs[1..])
  }

  predicate OnlyDataAndControl(fs: seq<Frame>) {
    forall i :: 0 <= i < |fs| ==> IsData(fs[i].opcode) || fs[i].opcode == PING || fs[i].opcode == PONG
  }

  // The last data frame, if any, finishes its message.
  predicate Finished(fs: seq<Frame>) {
    fs == [] || (if IsData(fs[|fs| - 1].opcode) then fs[|fs| - 1].fin else Finished(fs[..|fs| - 1]))
  }

  // However data messages are fragmented and interleaved with pings and pongs, what is
  // delivered is a prefix of the concatenated data payloads, ...
  lemma {:induction false} DeliveredIsPrefix(fs: seq<Frame>, parts: bytes)
    requires OnlyDataAndControl(fs)
    ensures Delivered(fs, parts) <= parts + DataPayloads(fs)
  {
    if fs != [] {
      var f, p := fs[0], fs[0].payload;
      assert OnlyDataAndControl(fs[1..]);
      if IsData(f.opcode) {
        if f.fin {
          DeliveredIsPrefix(fs[1..], []);
          assert [] + DataPayloads(fs[1..]) == DataPayloads(fs[1..]);
        } else {
          DeliveredIsPrefix(fs[1..], parts + p);
        }
        assert parts + (p + DataPayloads(fs[1..])) == parts + p + DataPayloads(fs[1..]);
      } else {
        DeliveredIsPrefix(fs[1..], parts);
        assert [] + DataPayloads(fs[1..]) == DataPayloads(fs[1..]);
      }
    }
  }

  lemma DataPayloadsCons(f: Frame, fs: seq<Frame>)
    ensures DataPayloads([f] + fs) == (if IsData(f.opcode) then f.payload else []) + DataPayloads(fs)
  {
    assert ([f] + fs)[1..] == fs;
  }

  lemma {:induction false} DataPayloadsAppend(a: seq<Frame>, b: seq<Frame>)
    ensures DataPayloads(a + b) == DataPayloads(a) + DataPayloads(b)
    decreases a
  {
    if a == [] {
      assert a + b == b && [] + DataPayloads(b) == DataPayloads(b);
    } else {
      var f, tail := a[0], a[1..];
      DataPayloadsAppend(tail, b);
      assert a + b == [f] + (tail + b) && a == [f] + tail;
      DataPayloadsCons(f, tail + b);
      DataPayloadsCons(f, tail);
    }
  }

  lemma DataPayloadsSnoc(fs: seq<Frame>)
    requires fs != []
    ensures var f := fs[|fs| - 1];
      DataPayloads(fs) == DataPayloads(fs[..|fs| - 1]) + if IsData(f.opcode) then f.payload else []
  {
    var n := |fs| - 1;
    assert fs == fs[..n] + [fs[n]];
    DataPayloadsAppend(fs[..n], [fs[n]]);
    assert [fs[n]][1..] == [];
  }

  // Answering pings adds nothing to the data sent.
  lemma {:induction false} PongsCarryNoData(fs: seq<Frame>)
    ensures DataPayloads(Pongs(fs)) == []
  {
    if fs != [] {
      PongsCarryNoData(fs[1..]);
      if fs[0].opcode == PING {
        var pong := Frame(true, PONG, fs[0].payload);
        assert ([pong] + Pongs(fs[1..]))[1..] == Pongs(fs[1..]);
      }
    }
  }

  predicate HasData(fs: seq<Frame>) {
    exists i :: 0 <= i < |fs| && IsData(fs[i].opcode)
  }

  lemma HasDataTail(fs: seq<Frame>)
    requires fs != [] && HasData(fs) && !IsData(fs[0].opcode)
    ensures HasData(fs[1..])
  {
    var i :| 0 <= i < |fs| && IsData(fs[i].opcode);
    assert fs[1..][i - 1] == fs[i];
  }

  lemma {:induction false} FinishedTail(fs: seq<Frame>)
    requires fs != [] && Finished(fs)
    ensures Finished(fs[1..])
    ensures IsData(fs[0].opcode) && !fs[0].fin ==> HasData(fs[1..])
  {
    if |fs| > 1 {
      var last := |fs| - 1;
      assert fs[1..][last - 1] == fs[last] && fs[1..][..last - 1] == fs[..last][1..];
      if !IsData(fs[last].opcode) {
        FinishedTail(fs[..last]);
        if HasData(fs[..last][1..]) {
          var i :| 0 <= i < last - 1 && IsData(fs[..last][1..][i].opcode);
          assert fs[1..][i] == fs[..last][1..][i];
        }
      }
    }
  }

  lemma Regroup(a: bytes, b: bytes, c: bytes)
    ensures a + (b + c) == a + b + c && [] + c == c
  {}

  lemma DataStep(f: Frame, tail: seq<Frame>, parts: bytes)
    requires IsData(f.opcode)
    requires Delivered(tail, if f.fin then [] else parts + f.payload)
          == (if f.fin then [] else parts + f.payload) + DataPayloads(tail)
    ensures Delivered([f] + tail, parts) == parts + DataPayloads([f] + tail)
  {
    assert ([f] + tail)[1..] == tail;
    Regroup(parts, f.payload, DataPayloads(tail));
  }

  lemma ControlStep(f: Frame, tail: seq<Frame>, parts: bytes)
    requires f.opcode == PING || f.opcode == PONG
    requires Delivered(tail, parts) == parts + DataPayloads(tail)
    ensures Delivered([f] + tail, parts) == parts + DataPayloads([f] + tail)
  {
    assert ([f] + tail)[1..] == tail;
    Regroup([], [], DataPayloads(tail));
  }

  // ... and all of them when the last data message is finished.
  lemma {:induction false} DeliveredIsAll(fs: seq<Frame>, parts: bytes)
    requires OnlyDataAndControl(fs) && Finished(fs) && (parts == [] || HasData(fs))
    ensures Delivered(fs, parts) == parts + DataPayloads(fs)
  {
    if fs != [] {
      var f, tail := fs[0], fs[1..];
      FinishedTail(fs);
      assert fs == [f] + tail;
      if !IsData(f.opcode) {
        if parts != [] { HasDataTail(fs); }
        DeliveredIsAll(tail, parts);
        ControlStep(f, tail, parts);
      } else {
        DeliveredIsAll(tail, if f.fin then [] else parts + f.payload);
        DataStep(f, tail, parts);
      }
    }
  }
}
