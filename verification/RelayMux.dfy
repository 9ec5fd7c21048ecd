/** Channel routing in relay.py between the id space of one reverse client and the id spaces of
    the SSH connections that are bound to it, as a state machine.  One step handles one message,
    one wake-up of a waiting thread or one event of a forwarded TCP connection.

    Channel objects are shared by several dictionaries of the program; here they live in one
    sequence and the dictionaries hold their positions. */
module RelayMux {
  import opened Wrappers
  import opened Bits
  import opened ChannelMessages
  import opened Runs

  // ----------------------------------------------------------------- state

  // The thread of a forwarded channel waits for the answer to its open, then reads from its TCP
  // connection until that ends.
  datatype Phase = Waiting(granted: bool) | Reading | Ended

  datatype Kind = Remote(remoteId: nat) | Forwarded(phase: Phase)

  // RemoteRelayChannel or TCPForwardedChannel.
  datatype Channel = Channel(conn: nat, localId: nat, kind: Kind, recipient: Option<nat>, closed: bool)

  // A connection thread inside open_channel: its channel, the operator's number for it, and
  // the answer of the client once there is one.
  datatype Opening = Opening(ref: nat, sender: nat, answer: Option<bool>)

  datatype Connection = Connection(nextId: nat, channels: map<nat, nat>, opening: Option<Opening>)

  datatype State = State(
    counter: nat,                 // RegisteredClient._channel_counter
    pending: map<nat, nat>,       // _pending_open: remote id to the connection that waits
    client: map<nat, nat>,        // RegisteredClient.channels: remote id to channel
    conns: map<nat, Connection>,
    chans: seq<Channel>)

  const START := State(1, map[], map[], map[], [])

  // ------------------------------------------------------- events and output

  datatype FromOperator =
    | ChannelOpen(supported: bool, sender: nat)
    | GotConfirmation(localId: nat, sender: nat)
    | GotFailure(localId: nat)
    | GotData(localId: nat, data: bytes)
    | GotExtended(localId: nat, code: nat, data: bytes)
    | GotEof(localId: nat)
    | GotClose(localId: nat)
    | GotRequest(localId: nat, name: string, wantReply: bool, payload: bytes)

  // `chunks` is what the send loop makes of the data under flow control.
  datatype FromClient =
    | Confirm(id: nat, ok: bool)
    | SentData(id: nat, chunks: seq<bytes>)
    | SentExtended(id: nat, code: nat, chunks: seq<bytes>)
    | SentRequest(id: nat, name: string, wantReply: bool, payload: bytes)
    | SentEof(id: nat)
    | SentClose(id: nat)

  datatype Event =
    | Connect(conn: nat)
    | Operator(conn: nat, got: FromOperator)
    | Client(frame: FromClient)
    | Wake(conn: nat, timedOut: bool)          // open_channel returns
    | Accept(conn: nat)                        // create_forwarded_channel
    | GiveUp(ref: nat)                         // the open of a forwarded channel was refused or timed out,
    | Start(ref: nat)                          // or was granted: its reader starts
    | TcpData(ref: nat, chunks: seq<bytes>)
    | TcpEnd(ref: nat)

  datatype Frame =
    | OpenChannel(id: nat)
    | ChannelData(id: nat, data: bytes)
    | ChannelExtended(id: nat, code: nat, data: bytes)
    | ChannelRequest(id: nat, name: string, wantReply: bool, payload: bytes)
    | ChannelEof(id: nat)
    | ChannelClose(id: nat)

  // `via` and `owner` are the channel object on whose behalf the output is made.
  datatype Output =
    | ToClient(via: nat, frame: Frame)
    | ToOperator(conn: nat, owner: Option<nat>, message: Message)
    | ToSocket(via: nat, data: bytes)

  // ----------------------------------------------------------------- steps

  predicate IsChannel(s: State, ref: nat) {
    ref < |s.chans| && s.chans[ref].conn in s.conns
  }

  function Find(m: map<nat, nat>, id: nat): Option<nat> {
    if id in m then Some(m[id]) else None
  }

  function Marked(s: State, ref: nat): State
    requires ref < |s.chans|
  {
    s.(chans := s.chans[ref := s.chans[ref].(closed := true)])
  }

  function Addressed(s: State, ref: nat, recipient: nat): State
    requires ref < |s.chans|
  {
    s.(chans := s.chans[ref := s.chans[ref].(recipient := Some(recipient))])
  }

  function Forgotten(s: State, remoteId: nat): State {
    s.(client := s.client - {remoteId})
  }

  function Unlisted(s: State, conn: nat, localId: nat): State
    requires conn in s.conns
  {
    s.(conns := s.conns[conn := s.conns[conn].(channels := s.conns[conn].channels - {localId})])
  }

  function To(ch: Channel): nat {
    if ch.recipient.Some? then ch.recipient.value else 0
  }

  // Messages to the operator on behalf of a channel, when it has a recipient.
  function Tell(s: State, ref: nat, messages: seq<Message>): seq<Output>
    requires ref < |s.chans|
  {
    if s.chans[ref].recipient.None? then []
    else seq(|messages|, i requires 0 <= i < |messages| => ToOperator(s.chans[ref].conn, Some(ref), messages[i]))
  }

  predicate IsWaiting(kind: Kind) {
    kind.Forwarded? && kind.phase.Waiting?
  }

  function InPhase(s: State, ref: nat, phase: Phase): State
    requires ref < |s.chans|
  {
    s.(chans := s.chans[ref := s.chans[ref].(kind := Forwarded(phase))])
  }

  // set_open_result
  function OpenResult(s: State, ref: nat, ok: bool): State
    requires ref < |s.chans|
  {
    if IsWaiting(s.chans[ref].kind) then InPhase(s, ref, Waiting(ok)) else s
  }

  predicate Enabled(s: State, e: Event) {
    match e
    case Connect(conn) => conn !in s.conns
    case Operator(conn, _) => conn in s.conns && s.conns[conn].opening.None?
    case Client(_) => true
    case Wake(conn, timedOut) =>
      conn in s.conns && s.conns[conn].opening.Some? && (timedOut || s.conns[conn].opening.value.answer.Some?)
    case Accept(conn) => conn in s.conns
    // The wait can have run out just before an answer came.
    case GiveUp(ref) => IsChannel(s, ref) && IsWaiting(s.chans[ref].kind)
    case Start(ref) => IsChannel(s, ref) && s.chans[ref].kind == Forwarded(Waiting(true))
    case TcpData(ref, _) => IsChannel(s, ref) && s.chans[ref].kind == Forwarded(Reading) && !s.chans[ref].closed
    case TcpEnd(ref) => IsChannel(s, ref) && s.chans[ref].kind == Forwarded(Reading)
  }

  // open_channel up to the wait.
  function StartOpen(s: State, conn: nat, sender: nat): Effect<State, Output>
    requires conn in s.conns
  {
    var c, ref, id := s.conns[conn], |s.chans|, s.counter;
    Effect(
      State(id + 1, s.pending[id := conn], s.client[id := ref],
            s.conns[conn := c.(nextId := c.nextId + 1, opening := Some(Opening(ref, sender, None)))],
            s.chans + [Channel(conn, c.nextId, Remote(id), None, false)]),
      [ToClient(ref, OpenChannel(id))])
  }

  const CONNECT_FAILED: nat := 2
  const UNKNOWN_CHANNEL_TYPE: nat := 3

  // What follows the wait when the channel was refused or the wait timed out, ...
  function OpenFailed(s: State, conn: nat, timedOut: bool): Effect<State, Output>
    requires conn in s.conns && s.conns[conn].opening.Some? && s.conns[conn].opening.value.ref < |s.chans|
  {
    var c := s.conns[conn];
    var kind := s.chans[c.opening.value.ref].kind;
    var ids := if kind.Remote? then {kind.remoteId} else {};
    Effect(
      s.(client := s.client - ids, pending := if timedOut then s.pending - ids else s.pending,
         conns := s.conns[conn := c.(opening := None)]),
      [ToOperator(conn, None, OpenFailure(c.opening.value.sender, CONNECT_FAILED))])
  }

  // ... and when it was granted.
  function OpenGranted(s: State, conn: nat): Effect<State, Output>
    requires conn in s.conns && s.conns[conn].opening.Some? && s.conns[conn].opening.value.ref < |s.chans|
  {
    var c := s.conns[conn];
    var o := c.opening.value;
    var ch := s.chans[o.ref];
    Effect(
      s.(chans := s.chans[o.ref := ch.(recipient := Some(o.sender))],
         conns := s.conns[conn := c.(opening := None, channels := c.channels[ch.localId := o.ref])]),
      [ToOperator(conn, Some(o.ref), OpenConfirmation(o.sender, ch.localId, CHANNEL_WINDOW, CHANNEL_MAX_PACKET))])
  }

  function Connected(s: State, conn: nat): State {
    s.(conns := s.conns[conn := Connection(0, map[], None)])
  }

  function Accepted(s: State, conn: nat): Effect<State, Output>
    requires conn in s.conns
  {
    var c, ref := s.conns[conn], |s.chans|;
    Effect(
      s.(conns := s.conns[conn := c.(nextId := c.nextId + 1, channels := c.channels[c.nextId := ref])],
         chans := s.chans + [Channel(conn, c.nextId, Forwarded(Waiting(false)), None, false)]),
      [ToOperator(conn, Some(ref), Open(c.nextId))])
  }

  const SESSION_REQUESTS: set<string> := {"pty-req", "env", "shell", "exec", "subsystem", "window-change", "signal"}

  // A message for a channel that is listed.
  function OnChannel(s: State, ref: nat, got: FromOperator): Effect<State, Output>
    requires IsChannel(s, ref)
  {
    var ch := s.chans[ref];
    match got
    case ChannelOpen(_, _) => Effect(s, [])
    case GotConfirmation(_, sender) =>
      Effect(OpenResult(Addressed(s, ref, sender), ref, true), [])
    case GotFailure(localId) => Effect(OpenResult(Unlisted(s, ch.conn, localId), ref, false), [])
    case GotData(_, data) =>
      Effect(s, [if ch.kind.Remote? then ToClient(ref, ChannelData(ch.kind.remoteId, data)) else ToSocket(ref, data)]
                + Tell(s, ref, Adjustment(ch.recipient, |data|)))
    case GotExtended(_, code, data) =>
      Effect(s, [if ch.kind.Remote? then ToClient(ref, ChannelExtended(ch.kind.remoteId, code, data)) else ToSocket(ref, data)]
                + Tell(s, ref, Adjustment(ch.recipient, |data|)))
    case GotEof(_) => Effect(s, if ch.kind.Remote? then [ToClient(ref, ChannelEof(ch.kind.remoteId))] else [])
    case GotClose(localId) =>
      var t := Marked(Unlisted(s, ch.conn, localId), ref);
      if ch.kind.Remote? then
        Effect(Forgotten(t, ch.kind.remoteId), [ToClient(ref, ChannelClose(ch.kind.remoteId))] + Tell(s, ref, [Close(To(ch))]))
      else Effect(t, Tell(s, ref, [Close(To(ch))]))
    case GotRequest(_, name, wantReply, payload) =>
      if ch.kind.Remote? then
        Effect(s, [ToClient(ref, ChannelRequest(ch.kind.remoteId, name, wantReply, payload))]
                  + if !wantReply then [] else if name in SESSION_REQUESTS then Tell(s, ref, [Success(To(ch))]) else Tell(s, ref, [Failure(To(ch))]))
      else Effect(s, if wantReply then Tell(s, ref, [Failure(To(ch))]) else [])
  }

  function OnOperator(s: State, conn: nat, got: FromOperator): Effect<State, Output>
    requires Enabled(s, Operator(conn, got))
  {
    if got.ChannelOpen? then
      if got.supported then StartOpen(s, conn, got.sender)
      else Effect(s, [ToOperator(conn, None, OpenFailure(got.sender, UNKNOWN_CHANNEL_TYPE))])
    else
      match Find(s.conns[conn].channels, got.localId)
      case Some(ref) => if IsChannel(s, ref) then OnChannel(s, ref, got) else Effect(s, [])
      case None =>
        Effect(s, if got.GotRequest? && got.wantReply then [ToOperator(conn, None, Failure(got.localId))] else [])
  }

  // remote_close.
  function RemoteClose(s: State, ref: nat): Effect<State, Output>
    requires IsChannel(s, ref)
  {
    var ch := s.chans[ref];
    var t := if ch.recipient.Some? then Unlisted(Marked(s, ref), ch.conn, ch.localId) else Marked(s, ref);
    Effect(if ch.kind.Remote? then Forgotten(t, ch.kind.remoteId) else t, Tell(s, ref, [Close(To(ch))]))
  }

  predicate CanAnswer(s: State, id: nat) {
    id in s.pending && s.pending[id] in s.conns && s.conns[s.pending[id]].opening.Some?
  }

  // The answer is handed to the connection that waits for it.
  function Answered(s: State, id: nat, ok: bool): State
    requires CanAnswer(s, id)
  {
    var c := s.conns[s.pending[id]];
    s.(pending := s.pending - {id},
       conns := s.conns[s.pending[id] := c.(opening := Some(c.opening.value.(answer := Some(ok))))])
  }

  function OnClient(s: State, f: FromClient): Effect<State, Output> {
    if f.Confirm? then
      Effect(if CanAnswer(s, f.id) then Answered(s, f.id, f.ok) else s, [])
    else
      match Find(s.client, f.id)
      case None => Effect(s, [])
      case Some(ref) =>
        if !IsChannel(s, ref) then Effect(s, [])
        else match f
          case SentData(_, chunks) => Effect(s, Tell(s, ref, DataMessages(To(s.chans[ref]), None, chunks)))
          case SentExtended(_, code, chunks) => Effect(s, Tell(s, ref, DataMessages(To(s.chans[ref]), Some(code), chunks)))
          case SentRequest(_, name, wantReply, payload) => Effect(s, Tell(s, ref, [Request(To(s.chans[ref]), name, wantReply, payload)]))
          case SentEof(_) => Effect(s, Tell(s, ref, [Eof(To(s.chans[ref]))]))
          case SentClose(_) => RemoteClose(s, ref)
          case Confirm(_, _) => Effect(s, [])
  }

  function Handle(s: State, e: Event): Effect<State, Output>
    requires Enabled(s, e)
  {
    match e
    case Connect(conn) => Effect(Connected(s, conn), [])
    case Operator(conn, got) => OnOperator(s, conn, got)
    case Client(f) => OnClient(s, f)
    case Wake(conn, timedOut) =>
      if s.conns[conn].opening.value.ref >= |s.chans| then Effect(s, [])
      else if timedOut || s.conns[conn].opening.value.answer != Some(true) then OpenFailed(s, conn, timedOut)
      else OpenGranted(s, conn)
    case Accept(conn) => Accepted(s, conn)
    case GiveUp(ref) => Effect(InPhase(Marked(s, ref), ref, Ended), [])
    case Start(ref) => Effect(InPhase(s, ref, Reading), [])
    case TcpData(ref, chunks) => Effect(s, Tell(s, ref, DataMessages(To(s.chans[ref]), None, chunks)))
    case TcpEnd(ref) =>
      var ch := s.chans[ref];
      var ended := InPhase(s, ref, Ended);
      if ch.recipient.None? then Effect(ended, [])
      else Effect(Unlisted(Marked(ended, ref), ch.conn, ch.localId), Tell(s, ref, [Eof(To(ch)), Close(To(ch))]))
  }

  const MUX: System<State, Event, Output> :=
    System(Enabled, (s: State, e: Event) => if Enabled(s, e) then Handle(s, e) else Effect(s, []))
}
