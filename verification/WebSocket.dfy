/** The WebSocket stream of websocket.py: a byte stream carried in data messages. */
module WebSocket {
  import opened Wrappers
  import opened Bits
  import opened Sockets
  import opened SshEncoding
  import opened Framing
  import opened WebSocketFrames

  // `_recv_exact`: exactly `size` bytes, or none when the connection ends first.
  method RecvExact(sock: Socket, size: nat) returns (data: Option<bytes>)
    modifies sock
    ensures sock.outgoing == old(sock.outgoing)
    ensures match ParseTake(old(sock.incoming), size) {
      case Some(p) => data == Some(p.value) && sock.incoming == p.rest
      case None => data == None && sock.incoming == []
    }
  {
    var got: bytes := [];
    while |got| < size
      invariant |got| <= size && got + sock.incoming == old(sock.incoming) && sock.outgoing == old(sock.outgoing)
      decreases size - |got|
    {
      var chunk := sock.Recv(size - |got|);
      if chunk == [] {
        return None;
      }
      got := got + chunk;
    }
    assert old(sock.incoming)[..size] == got && old(sock.incoming)[size..] == sock.incoming;
    return Some(got);
  }

  // The bytes sent behind `base` are exactly the frames of the log.
  ghost predicate Logged(base: bytes, outgoing: bytes, sent: seq<Frame>) {
    base <= outgoing && Whole(outgoing[|base|..]) && Frames(outgoing[|base|..]) == sent
  }

  lemma LogAppended(base: bytes, outgoing: bytes, sent: seq<Frame>, f: Frame, mask: Option<Mask>)
    requires Logged(base, outgoing, sent) && f.Sendable()
    ensures Logged(base, outgoing + Encoded(f, mask), sent + [f])
  {
    FrameAppended(outgoing[|base|..], f, mask);
    BehindBase(base, outgoing, Encoded(f, mask));
  }

  lemma BehindBase(base: bytes, outgoing: bytes, more: bytes)
    requires base <= outgoing
    ensures base <= outgoing + more && (outgoing + more)[|base|..] == outgoing[|base|..] + more
  {}

  // The payload length: the code itself, or a number of two or eight bytes.
  method ReadLength(sock: Socket, code: nat) returns (length: Option<nat>)
    modifies sock
    ensures sock.outgoing == old(sock.outgoing)
    ensures match TakeLength(code, old(sock.incoming)) {
      case Some(p) => length == Some(p.value) && sock.incoming == p.rest
      case None => length == None && sock.incoming == []
    }
  {
    if code == 126 {
      var raw := RecvExact(sock, 2);
      return if raw.None? then None else Some(BE(raw.value));
    } else if code == 127 {
      var raw := RecvExact(sock, 8);
      return if raw.None? then None else Some(BE(raw.value));
    }
    return Some(code);
  }

  // Mask and payload.
  method ReadBody(sock: Socket, masked: bool, length: nat) returns (payload: Option<bytes>)
    modifies sock
    ensures sock.outgoing == old(sock.outgoing)
    ensures match TakeBody(masked, length, old(sock.incoming)) {
      case Some(p) => payload == Some(p.value) && sock.incoming == p.rest
      case None => payload == None && sock.incoming == []
    }
  {
    var mask: bytes := [];
    if masked {
      var raw := RecvExact(sock, 4);
      if raw.None? { return None; }
      mask := raw.value;
    }
    var body: bytes := [];
    if length != 0 {
      var raw := RecvExact(sock, length);
      if raw.None? { return None; }
      body := raw.value;
    } else {
      assert ParseTake(sock.incoming, 0) == Some(Parsed([], sock.incoming));
    }
    return Some(Unmasked(body, mask));
  }

  // The frame at the front of the wire; none, with everything read, when the wire ends in it.
  method ReadFirstFrame(sock: Socket) returns (frame: Option<Frame>)
    modifies sock
    ensures sock.outgoing == old(sock.outgoing)
    ensures match FirstFrame(old(sock.incoming)) {
      case Some(cut) => frame == Some(cut.item) && sock.incoming == cut.rest
      case None => frame == None && sock.incoming == []
    }
  {
    var header := RecvExact(sock, 2);
    if header.None? { return None; }
    var first, second := header.value[0], header.value[1];
    var length := ReadLength(sock, second % 128);
    if length.None? { return None; }
    var payload := ReadBody(sock, second >= 128, length.value);
    if payload.None? { return None; }
    return Some(Frame(first >= 128, first % 16, payload.value));
  }

  // Two stretches of consumed frames, one after the other.
  lemma ConsumedMore(all: seq<Frame>, a: seq<Frame>, mid: seq<Frame>, b: seq<Frame>, rest: seq<Frame>,
                     sent0: seq<Frame>, sent1: seq<Frame>, sent2: seq<Frame>)
    requires all == a + mid && mid == b + rest
    requires sent1 == sent0 + Pongs(a) && sent2 == sent1 + Pongs(b)
    ensures all == (a + b) + rest && sent2 == sent0 + Pongs(a + b)
  {
    PongsAppend(a, b);
  }

  lemma FrontAndBack(s: bytes, n: nat, tail: bytes)
    requires n <= |s|
    ensures s == s[..n] + s[n..] && s + tail == s[..n] + (s[n..] + tail)
  {}

  datatype Outcome = Fine | Raised

  datatype Status = Going | Complete | Stopped

  datatype RecvResult = Got(data: bytes) | Failed

  class WebSocketStream {
    const sock: Socket
    const maskOutgoing: bool
    var buffer: bytes
    var closed: bool

    // What was sent before the upgrade, and the frames sent since.
    ghost const base: bytes
    ghost var sent: seq<Frame>

    // What was to be received at first, what recv has returned since, and whether it has raised.
    ghost const inbound: bytes
    ghost var received: bytes
    ghost var broken: bool

    ghost predicate Valid()
      reads `sent, sock
    {
      Logged(base, sock.outgoing, sent) && forall i :: 0 <= i < |sent| ==> sent[i].fin
    }

    // However often recv is called, and whatever is sent in between: what it has returned and
    // what is still pending make up what came in.
    ghost predicate InOrder()
      reads `buffer, `closed, `received, `broken, sock
    {
      !broken ==> inbound == received + Pending()
    }

    // What recv will still return: the buffer, then what the frames to come deliver.
    ghost function Pending(): bytes
      reads `buffer, `closed, sock
    {
      if closed then buffer else buffer + Delivered(Frames(sock.incoming), [])
    }

    constructor (sock: Socket, maskOutgoing: bool)
      ensures this.sock == sock && this.maskOutgoing == maskOutgoing
      ensures Valid() && buffer == [] && !closed && sent == [] && base == sock.outgoing
      ensures InOrder() && received == [] && !broken && inbound == Delivered(Frames(sock.incoming), [])
    {
      this.sock, this.maskOutgoing := sock, maskOutgoing;
      buffer, closed := [], false;
      base, sent := sock.outgoing, [];
      inbound, received, broken := Delivered(Frames(sock.incoming), []), [], false;
      new;
      assert sock.outgoing[|base|..] == [];
      FirstFrameShrinks();
    }

    // `self.sock.sendall(self._frame(opcode, payload))`; the mask is any four bytes.
    method SendFrame(opcode: nat, payload: bytes)
      requires Valid() && Frame(true, opcode, payload).Sendable()
      modifies sock, `sent
      ensures Valid() && sock.incoming == old(sock.incoming)
      ensures sent == old(sent) + [Frame(true, opcode, payload)]
    {
      var mask: Option<Mask> := None;
      if maskOutgoing {
        var random: Mask :| true;
        mask := Some(random);
      }
      var f := Frame(true, opcode, payload);
      LogAppended(base, sock.outgoing, sent, f, mask);
      sock.SendAll(Encoded(f, mask));
      sent := sent + [f];
    }

    // sendall: one binary frame; it raises when the stream is closed or the length does not
    // fit its 64-bit field.
    method SendAll(data: bytes) returns (ok: bool)
      requires Valid()
      modifies sock, `sent
      ensures Valid() && sock.incoming == old(sock.incoming)
      ensures ok <==> !closed && |data| < LENGTH_LIMIT
      ensures sent == old(sent) + if ok then [Frame(true, 0x2, data)] else []
    {
      if closed || |data| >= LENGTH_LIMIT {
        return false;
      }
      SendFrame(BINARY, data);
      return true;
    }

    method Close()
      requires Valid()
      modifies this, sock
      ensures Valid() && closed && buffer == old(buffer) && sock.incoming == old(sock.incoming)
      ensures sent == old(sent) + if old(closed) then [] else [Frame(true, 0x8, [])]
      ensures received == old(received)
    {
      if closed {
        return;
      }
      closed := true;
      SendFrame(CLOSE, []);
    }

    method ReadFrame() returns (frame: Option<Frame>)
      requires Valid()
      modifies sock
      ensures Valid() && sock.outgoing == old(sock.outgoing)
      ensures match frame {
        case Some(f) =>
          f.Sendable() && Frames(old(sock.incoming)) == [f] + Frames(sock.incoming) && |sock.incoming| < |old(sock.incoming)|
        case None => Frames(old(sock.incoming)) == [] && sock.incoming == []
      }
    {
      ghost var wire := sock.incoming;
      FramesCut(wire);
      frame := ReadFirstFrame(sock);
      if frame.Some? { FirstFrameSendable(wire); }
    }

    // What reading whole frames does to the state: the frames are taken off the wire and
    // the pings among them answered, in order.
    twostate predicate Consumed(frames: seq<Frame>)
      reads this, sock
    {
      && Valid()
      && Frames(old(sock.incoming)) == frames + Frames(sock.incoming)
      && sent == old(sent) + Pongs(frames)
      && received == old(received) && broken == old(broken)
    }

    // One turn of the loop in _read_next_message: read a frame and act on it.
    method ReadStep(parts: bytes) returns (status: Status, newParts: bytes, ghost frames: seq<Frame>)
      requires Valid() && !closed
      modifies this, sock
      ensures Consumed(frames) && old(buffer) <= buffer
      ensures !status.Stopped? ==> |sock.incoming| < |old(sock.incoming)|
      ensures status.Going? ==> buffer == old(buffer) && !closed
      ensures status.Going? ==> Delivered(Frames(old(sock.incoming)), parts) == Delivered(Frames(sock.incoming), newParts)
      ensures status.Complete? ==> old(buffer) + Delivered(Frames(old(sock.incoming)), parts) == Pending()
      ensures status.Stopped? ==> buffer == old(buffer) && !closed && Delivered(Frames(old(sock.incoming)), parts) == []
    {
      newParts := parts;
      var frame := ReadFrame();
      if frame.None? {
        return Stopped, parts, [];
      }
      var f := frame.value;
      frames := [f];
      assert frames[1..] == [];
      ghost var fs := [f] + Frames(sock.incoming);
      assert fs[1..] == Frames(sock.incoming);
      if f.opcode == CLOSE {
        closed := true;
        return Complete, parts, frames;
      }
      if f.opcode == PING {
        SendFrame(PONG, f.payload);
        return Going, parts, frames;
      }
      if f.opcode == PONG {
        return Going, parts, frames;
      }
      if !IsData(f.opcode) {
        return Stopped, parts, frames;
      }
      newParts := parts + f.payload;
      if f.fin {
        buffer := buffer + newParts;
        return Complete, newParts, frames;
      }
      return Going, newParts, frames;
    }

    // Reads one complete data message into the buffer, or the close frame.
    method ReadNextMessage() returns (outcome: Outcome, ghost frames: seq<Frame>)
      requires Valid() && !closed
      modifies this, sock
      ensures Consumed(frames) && old(buffer) <= buffer
      ensures outcome.Fine? ==> Pending() == old(Pending()) && |sock.incoming| < |old(sock.incoming)|
      ensures outcome.Raised? ==> old(Pending()) == old(buffer) == buffer && !closed
    {
      var parts: bytes := [];
      frames := [];
      while true
        invariant Consumed(frames) && buffer == old(buffer) && !closed
        invariant |sock.incoming| <= |old(sock.incoming)|
        invariant Delivered(Frames(old(sock.incoming)), []) == Delivered(Frames(sock.incoming), parts)
        decreases |sock.incoming|
      {
        ghost var more, sent0, todo := [], sent, Frames(sock.incoming);
        var status;
        status, parts, more := ReadStep(parts);
        ConsumedMore(Frames(old(sock.incoming)), frames, todo, more, Frames(sock.incoming), old(sent), sent0, sent);
        frames := frames + more;
        if !status.Going? {
          outcome := if status.Complete? then Fine else Raised;
          return;
        }
      }
    }

    // recv: what it returns is the front of what is pending, and the rest stays pending.
    method Recv(size: nat) returns (result: RecvResult, ghost frames: seq<Frame>)
      requires Valid() && InOrder()
      modifies this, sock
      ensures Valid() && InOrder() && broken == (old(broken) || result.Failed?)
      ensures Frames(old(sock.incoming)) == frames + Frames(sock.incoming) && sent == old(sent) + Pongs(frames)
      ensures received == old(received) + if result.Got? then result.data else []
      ensures result.Got? ==> old(Pending()) == result.data + Pending() && |result.data| <= size
      ensures result.Failed? ==> old(Pending()) == []
      ensures size > 0 && old(Pending()) != [] ==> result.Got? && result.data != []
    {
      result, frames := RecvFront(size);
      Log(result, old(Pending()));
    }

    ghost method Log(result: RecvResult, pending: bytes)
      requires (!broken ==> inbound == received + pending) && (result.Got? ==> pending == result.data + Pending())
      modifies `received, `broken
      ensures InOrder() && broken == (old(broken) || result.Failed?) && received == old(received) + if result.Got? then result.data else []
    {
      broken := broken || result.Failed?;
      if result.Got? {
        ghost var before, rest := received, Pending();
        Regroup(before, result.data, rest);
        received := before + result.data;
      }
    }

    method RecvFront(size: nat) returns (result: RecvResult, ghost frames: seq<Frame>)
      requires Valid()
      modifies this, sock
      ensures Consumed(frames)
      ensures result.Got? ==> old(Pending()) == result.data + Pending() && |result.data| <= size
      ensures result.Failed? ==> old(Pending()) == []
      ensures size > 0 && old(Pending()) != [] ==> result.Got? && result.data != []
    {
      frames := [];
      while buffer == [] && !closed
        invariant Consumed(frames) && Pending() == old(Pending())
        decreases |sock.incoming|
      {
        ghost var more, sent0, todo := [], sent, Frames(sock.incoming);
        var outcome;
        outcome, more := ReadNextMessage();
        ConsumedMore(Frames(old(sock.incoming)), frames, todo, more, Frames(sock.incoming), old(sent), sent0, sent);
        frames := frames + more;
        if outcome.Raised? {
          return Failed, frames;
        }
      }
      if closed && buffer == [] {
        return Got([]), frames;
      }
      var n := if size < |buffer| then size else |buffer|;
      var out := buffer[..n];
      FrontAndBack(buffer, n, Delivered(Frames(sock.incoming), []));
      buffer := buffer[n..];
      return Got(out), frames;
    }
  }
}
