/** Length-prefixed frames of the private protocol over a plain socket or over a WebSocket
    stream (FrameSocket of private_protocol.py, recv_exact of ssh_packet.py). */
module FrameSocket {
  import opened Wrappers
  import opened NumberTheory
  import opened Bits
  import opened SshEncoding
  import opened Sockets
  import opened Framing
  import opened WebSocketFrames
  import opened WebSocket

  // ------------------------------------------------------------ transports

  // What the program calls `sock`: both kinds answer recv and sendall.
  datatype Transport = Plain(sock: Socket) | Web(ws: WebSocketStream) {
    ghost function Repr(): set<object> {
      match this
      case Plain(sock) => {sock}
      case Web(ws) => {ws, ws.sock}
    }

    ghost predicate Ready()
      reads Repr()
    {
      Web? ==> ws.Valid() && ws.InOrder()
    }

    // The bytes that are still to be received, ...
    ghost function Pending(): bytes
      reads Repr()
    {
      match this
      case Plain(sock) => sock.incoming
      case Web(ws) => ws.Pending()
    }

    // ... and the bytes sent so far.
    ghost function Sent(): bytes
      reads Repr()
    {
      match this
      case Plain(sock) => sock.outgoing
      case Web(ws) => DataPayloads(ws.sent)
    }

    method Recv(size: nat) returns (chunk: Option<bytes>)
      requires Ready()
      modifies Repr()
      ensures Ready() && Sent() == old(Sent())
      ensures chunk.Some? ==> old(Pending()) == chunk.value + Pending() && |chunk.value| <= size
      ensures chunk.None? ==> old(Pending()) == []
      ensures size > 0 && old(Pending()) != [] ==> chunk.Some? && chunk.value != []
    {
      match this {
        case Plain(sock) =>
          var piece := sock.Recv(size);
          chunk := Some(piece);
        case Web(ws) =>
          ghost var before := ws.sent;
          var result, frames := ws.Recv(size);
          DataPayloadsAppend(before, Pongs(frames));
          PongsCarryNoData(frames);
          assert DataPayloads(before) + [] == DataPayloads(before);
          chunk := if result.Got? then Some(result.data) else None;
      }
    }

    method SendAll(data: bytes) returns (ok: bool)
      requires Ready()
      modifies Repr()
      ensures Ready()
      ensures ok <==> Plain? || (!old(ws.closed) && |data| < LENGTH_LIMIT)
      ensures Sent() == old(Sent()) + if ok then data else []
      ensures Pending() == old(Pending())
    {
      match this {
        case Plain(sock) =>
          sock.SendAll(data);
          ok := true;
        case Web(ws) =>
          var f := Frame(true, BINARY, data);
          ghost var before := ws.sent;
          ok := ws.SendAll(data);
          if ok {
            DataPayloadsSnoc(before + [f]);
            assert (before + [f])[..|before|] == before;
          } else {
            assert before + [] == before;
          }
      }
    }
  }

  // One turn of the loop in recv_exact: the next piece, or nothing when the stream ends.
  method RecvMore(t: Transport, chunks: bytes, size: nat) returns (more: Option<bytes>)
    requires t.Ready() && |chunks| < size
    modifies t.Repr()
    ensures t.Ready() && t.Sent() == old(t.Sent())
    ensures match more {
      case Some(both) => both + t.Pending() == chunks + old(t.Pending()) && |chunks| < |both| <= size
      case None => old(t.Pending()) == []
    }
  {
    var chunk := t.Recv(size - |chunks|);
    if chunk.None? || chunk.value == [] {
      return None;
    }
    assert (chunks + chunk.value) + t.Pending() == chunks + (chunk.value + t.Pending());
    return Some(chunks + chunk.value);
  }

  // recv_exact: it succeeds exactly when that many bytes are still to come.
  method RecvExactly(t: Transport, size: nat) returns (data: Option<bytes>)
    requires t.Ready()
    modifies t.Repr()
    ensures t.Ready() && t.Sent() == old(t.Sent())
    ensures match ParseTake(old(t.Pending()), size) {
      case Some(p) => data == Some(p.value) && t.Pending() == p.rest
      case None => data == None
    }
  {
    ghost var all, left, sent := t.Pending(), t.Pending(), t.Sent();
    var chunks: bytes := [];
    while |chunks| < size
      invariant t.Ready() && t.Sent() == sent && left == t.Pending()
      invariant |chunks| <= size && chunks + left == all
      decreases size - |chunks|
    {
      var more := RecvMore(t, chunks, size);
      if more.None? {
        TakeShort(all, chunks, size);
        return None;
      }
      chunks, left := more.value, t.Pending();
    }
    TakePrefix(chunks, left);
    return Some(chunks);
  }

  lemma TakeShort(all: bytes, got: bytes, size: nat)
    requires all == got + [] && |got| < size
    ensures ParseTake(all, size) == None
  {}

  // ----------------------------------------------------------------- frames

  const MAX_FRAME: nat := 16 * 1024 * 1024

  // The values of FrameType.
  predicate Known(kind: byte) {
    1 <= kind <= 4 || 10 <= kind <= 16 || kind == 30
  }

  datatype Private = Private(kind: byte, payload: bytes) {
    predicate Fits() { Known(kind) && 1 + |payload| <= MAX_FRAME }
  }

  function EncodedPrivate(f: Private): bytes {
    ToBE(1 + |f.payload|, 4) + ([f.kind] + f.payload)
  }

  // The first frame of a byte stream: none when it is incomplete, has a length out of range
  // or an unknown type.
  function FirstPrivate(s: bytes): (r: Option<Cut<Private>>)
    ensures r.Some? ==> |r.value.rest| < |s|
  {
    match ParseUint32(s)
    case None => None
    case Some(n) =>
      if n.value < 1 || n.value > MAX_FRAME then None
      else match ParseTake(n.rest, n.value)
        case None => None
        case Some(body) =>
          if Known(body.value[0]) then Some(Cut(Private(body.value[0], body.value[1..]), body.rest)) else None
  }

  // The frames sent and received on a connection, with the bytes on both sides.
  ghost predicate SendLogged(sent: seq<Private>, base: bytes, outgoing: bytes) {
    outgoing == base + EncodeAll(EncodedPrivate, sent) && forall i :: 0 <= i < |sent| ==> sent[i].Fits()
  }

  lemma SendOneMore(sent: seq<Private>, base: bytes, outgoing: bytes, f: Private)
    requires SendLogged(sent, base, outgoing) && f.Fits()
    ensures SendLogged(sent + [f], base, outgoing + EncodedPrivate(f))
  {
    EncodeAllSnoc(EncodedPrivate, sent, f);
    assert (base + EncodeAll(EncodedPrivate, sent)) + EncodedPrivate(f) == base + (EncodeAll(EncodedPrivate, sent) + EncodedPrivate(f));
  }

  class FrameStream {
    const sock: Transport

    // Logs: the frames sent, the frames received; `broken` records that read_frame has raised.
    ghost var sent: seq<Private>
    ghost var received: seq<Private>
    ghost var broken: bool

    // What had been sent, and what was still to come, when the stream was created.
    ghost const base: bytes
    ghost const inbound: bytes

    // The bytes sent are the frames of the log, and the frames received are the first frames of
    // what came in.
    ghost predicate Valid()
      reads this, sock.Repr()
    {
      && this !in sock.Repr() && sock.Ready()
      && SendLogged(sent, base, sock.Sent())
      && (!broken ==> CutsTo(FirstPrivate, inbound, received, sock.Pending()))
    }

    constructor (sock: Transport)
      requires sock.Ready()
      ensures this.sock == sock && Valid() && !broken && sent == received == []
      ensures base == sock.Sent() && inbound == sock.Pending()
    {
      this.sock := sock;
      sent, received, broken := [], [], false;
      base, inbound := sock.Sent(), sock.Pending();
      new;
      assert base + [] == base;
    }

    method SendFrame(kind: byte, payload: bytes) returns (ok: bool)
      requires Known(kind) && Valid()
      modifies `sent, sock.Repr()
      ensures Valid() && sock.Pending() == old(sock.Pending())
      ensures ok <==> 1 + |payload| <= MAX_FRAME && (sock.Plain? || !old(sock.ws.closed))
      ensures sent == old(sent) + if ok then [Private(kind, payload)] else []
    {
      ok := Transmit(kind, payload);
      if ok {
        SendOneMore(sent, base, old(sock.Sent()), Private(kind, payload));
        sent := sent + [Private(kind, payload)];
      }
    }

    method Transmit(kind: byte, payload: bytes) returns (ok: bool)
      requires Known(kind) && sock.Ready()
      modifies sock.Repr()
      ensures sock.Ready() && sock.Pending() == old(sock.Pending())
      ensures ok <==> 1 + |payload| <= MAX_FRAME && (sock.Plain? || !old(sock.ws.closed))
      ensures sock.Sent() == old(sock.Sent()) + if ok then EncodedPrivate(Private(kind, payload)) else []
    {
      var body := [kind] + payload;
      if |body| > MAX_FRAME {
        assert sock.Sent() + [] == sock.Sent();
        return false;
      }
      ok := sock.SendAll(ToBE(|body|, 4) + body);
    }

    method ReadFrame() returns (frame: Option<Private>)
      requires Valid()
      modifies `received, `broken, sock.Repr()
      ensures Valid() && sock.Sent() == old(sock.Sent()) && broken == (old(broken) || frame.None?)
      ensures match FirstPrivate(old(sock.Pending())) {
        case Some(cut) => frame == Some(cut.item) && sock.Pending() == cut.rest
        case None => frame == None
      }
      ensures received == old(received) + if frame.Some? then [frame.value] else []
    {
      frame := Take();
      Log(frame, old(sock.Pending()));
    }

    ghost method Log(frame: Option<Private>, pending: bytes)
      requires this !in sock.Repr() && sock.Ready() && SendLogged(sent, base, sock.Sent())
      requires !broken ==> CutsTo(FirstPrivate, inbound, received, pending)
      requires frame.Some? ==> FirstPrivate(pending) == Some(Cut(frame.value, sock.Pending()))
      modifies `received, `broken
      ensures Valid() && broken == (old(broken) || frame.None?) && received == old(received) + if frame.Some? then [frame.value] else []
    {
      broken := broken || frame.None?;
      if frame.Some? {
        if !broken { CutsSnoc(FirstPrivate, inbound, received, pending, frame.value, sock.Pending()); }
        received := received + [frame.value];
      } else {
        assert received + [] == received;
      }
    }

    method Take() returns (frame: Option<Private>)
      requires sock.Ready()
      modifies sock.Repr()
      ensures sock.Ready() && sock.Sent() == old(sock.Sent())
      ensures match FirstPrivate(old(sock.Pending())) {
        case Some(cut) => frame == Some(cut.item) && sock.Pending() == cut.rest
        case None => frame == None
      }
    {
      var header := RecvExactly(sock, 4);
      if header.None? { return None; }
      var length := BE(header.value);
      if length < 1 || length > MAX_FRAME { return None; }
      var body := RecvExactly(sock, length);
      if body.None? { return None; }
      if !Known(body.value[0]) { return None; }
      return Some(Private(body.value[0], body.value[1..]));
    }
  }

  // ------------------------------------------------------------- round trip

  lemma PrivateRoundTrip(f: Private, rest: bytes)
    requires f.Fits()
    ensures FirstPrivate(EncodedPrivate(f) + rest) == Some(Cut(f, rest))
  {
    var n := 1 + |f.payload|;
    var body := [f.kind] + f.payload;
    var s := EncodedPrivate(f) + rest;
    Uint32Bytes(n);
    assert s == ToBE(n, 4) + (body + rest);
    assert s[..4] == ToBE(n, 4) && s[4..] == body + rest;
    TakePrefix(body, rest);
    assert body[1..] == f.payload;
  }

  lemma PrivateShrinks()
    ensures Shrinks(FirstPrivate)
  {}

  lemma EveryFrameUndone(fs: seq<Private>)
    requires forall i :: 0 <= i < |fs| ==> fs[i].Fits()
    ensures FirstPrivate([]) == None && forall i :: 0 <= i < |fs| ==> Undoes(FirstPrivate, EncodedPrivate, fs[i])
  {
    forall i | 0 <= i < |fs|
      ensures Undoes(FirstPrivate, EncodedPrivate, fs[i])
    {
      forall more: bytes
        ensures FirstPrivate(EncodedPrivate(fs[i]) + more) == Some(Cut(fs[i], more))
      {
        PrivateRoundTrip(fs[i], more);
      }
    }
  }

  // Any sequence of frames comes back from the concatenation of their encodings.
  lemma PrivateFramesComeBack(fs: seq<Private>)
    requires forall i :: 0 <= i < |fs| ==> fs[i].Fits()
    ensures Shrinks(FirstPrivate)
    ensures Items(FirstPrivate, EncodeAll(EncodedPrivate, fs)) == fs
  {
    PrivateShrinks();
    EveryFrameUndone(fs);
    ItemsOfEncoded(FirstPrivate, EncodedPrivate, fs, []);
    var w := EncodeAll(EncodedPrivate, fs);
    assert w + [] == w && fs + [] == fs;
  }

  // A stream to which these frames come in has received the first of them, in order, and the
  // others are what is pending.
  lemma FirstAreReceived(b: FrameStream, fs: seq<Private>)
    requires b.Valid() && !b.broken && forall i :: 0 <= i < |fs| ==> fs[i].Fits()
    requires b.inbound == EncodeAll(EncodedPrivate, fs)
    ensures b.received <= fs && b.sock.Pending() == EncodeAll(EncodedPrivate, fs[|b.received|..])
  {
    EveryFrameUndone(fs);
    CutsOfEncoded(FirstPrivate, EncodedPrivate, fs, b.received, b.sock.Pending());
  }

  // Sender and receiver connected by any byte stream, after any number of calls: the receiver has
  // exactly the first frames of the sender, in order, and the next one is read next.
  lemma FramesArriveInOrder(a: FrameStream, b: FrameStream)
    requires a.Valid() && b.Valid() && !b.broken
    requires b.inbound == EncodeAll(EncodedPrivate, a.sent)
    ensures b.received <= a.sent && b.sock.Pending() == EncodeAll(EncodedPrivate, a.sent[|b.received|..])
    ensures |b.received| < |a.sent| ==>
      FirstPrivate(b.sock.Pending()) == Some(Cut(a.sent[|b.received|], EncodeAll(EncodedPrivate, a.sent[|b.received| + 1..])))
  {
    FirstAreReceived(b, a.sent);
    var n := |b.received|;
    if n < |a.sent| {
      assert a.sent[n..][1..] == a.sent[n + 1..];
      PrivateRoundTrip(a.sent[n], EncodeAll(EncodedPrivate, a.sent[n + 1..]));
    }
  }

  // The two layers together: private frames whose bytes travel in WebSocket data messages, cut
  // into fragments and interleaved with pings and pongs in any way, are read in order.
  lemma LayersCompose(b: FrameStream, fs: seq<Private>, wire: bytes)
    requires b.Valid() && !b.broken && forall i :: 0 <= i < |fs| ==> fs[i].Fits()
    requires b.inbound == Delivered(Frames(wire), [])
    requires OnlyDataAndControl(Frames(wire)) && Finished(Frames(wire))
    requires DataPayloads(Frames(wire)) == EncodeAll(EncodedPrivate, fs)
    ensures b.received <= fs && b.sock.Pending() == EncodeAll(EncodedPrivate, fs[|b.received|..])
  {
    DeliveredIsAll(Frames(wire), []);
    assert [] + DataPayloads(Frames(wire)) == DataPayloads(Frames(wire));
    FirstAreReceived(b, fs);
  }

  // Both ends of the program: frames sent over one WebSocket stream and read from another, which
  // gets the same bytes on the wire, arrive in order, whatever was answered in between.
  lemma FramesArriveOverWebSocket(a: FrameStream, b: FrameStream)
    requires a.Valid() && b.Valid() && !b.broken && a.sock.Web? && a.base == []
    requires OnlyDataAndControl(a.sock.ws.sent)
    requires b.inbound == Delivered(Frames(a.sock.ws.sock.outgoing[|a.sock.ws.base|..]), [])
    ensures b.received <= a.sent && b.sock.Pending() == EncodeAll(EncodedPrivate, a.sent[|b.received|..])
  {
    WholeMessages(a.sock.ws.sent);
    assert [] + EncodeAll(EncodedPrivate, a.sent) == EncodeAll(EncodedPrivate, a.sent);
    LayersCompose(b, a.sent, a.sock.ws.sock.outgoing[|a.sock.ws.base|..]);
  }

  lemma {:induction false} WholeMessages(fs: seq<Frame>)
    requires forall i :: 0 <= i < |fs| ==> fs[i].fin
    ensures Finished(fs)
  {
    if fs != [] { WholeMessages(fs[..|fs| - 1]); }
  }
}
