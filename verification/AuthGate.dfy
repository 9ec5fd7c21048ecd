/** The authentication gate of relay.py: many SSH connections ask many reverse clients for
    approval, over the request and answer ids of RegisteredClient and the ClientRegistry. */
module AuthGate {
  import opened Wrappers
  import opened Bits
  import opened SshEncoding
  import opened Runs

  function Ascii(s: string): bytes
    requires forall i :: 0 <= i < |s| ==> s[i] < 128 as char
  {
    seq<byte>(|s|, i requires 0 <= i < |s| => s[i] as int)
  }

  const SSH_ED25519: bytes := Ascii("ssh-ed25519")
  const SSH_USERAUTH: bytes := Ascii("ssh-userauth")
  const SSH_CONNECTION: bytes := Ascii("ssh-connection")
  const PUBLICKEY: bytes := Ascii("publickey")
  const USERAUTH_REQUEST: byte := 50

  // ------------------------------------------------------------- signatures

  // The decoding of text, and the signature scheme: verify(public, message, signature).
  datatype Checks = Checks(utf8: Utf8, verify: (bytes, bytes, bytes) -> bool)

  // A request with a signature.
  datatype AuthRequest = AuthRequest(username: bytes, service: bytes, keyAlg: bytes, keyBlob: bytes, signature: bytes)

  // Two fields, text and string, and nothing behind them.
  function TextAndString(k: Checks, s: bytes): Option<(bytes, bytes)> {
    match ParseText(k.utf8, s)
    case None => None
    case Some(name) =>
      match ParseString(name.rest)
      case None => None
      case Some(value) => if value.rest == [] then Some((name.value, value.value)) else None
  }

  // parse_ed25519_key_blob
  function PublicOf(k: Checks, blob: bytes): Option<bytes> {
    match TextAndString(k, blob)
    case None => None
    case Some(fields) => if fields.0 == SSH_ED25519 && |fields.1| == 32 then Some(fields.1) else None
  }

  // The message a user signs (section 7 of RFC 4252).
  function Signed(session: bytes, r: AuthRequest): Option<bytes> {
    Join(String(session),
    Join(Some([USERAUTH_REQUEST]),
    Join(String(r.username),
    Join(String(r.service),
    Join(String(PUBLICKEY),
    Join(Some(Boolean(true)),
    Join(String(r.keyAlg), String(r.keyBlob))))))))
  }

  // _verify_user_signature
  predicate SignatureValid(k: Checks, session: bytes, r: AuthRequest) {
    && PublicOf(k, r.keyBlob).Some?
    && TextAndString(k, r.signature).Some?
    && TextAndString(k, r.signature).value.0 == SSH_ED25519
    && Signed(session, r).Some?
    && k.verify(PublicOf(k, r.keyBlob).value, Signed(session, r).value, TextAndString(k, r.signature).value.1)
  }

  lemma SameStart(a: bytes, x: bytes, b: bytes, y: bytes)
    requires String(a).Some? && String(b).Some? && String(a).value + x == String(b).value + y
    ensures a == b && x == y
  {
    StringRoundTrip(a, x);
    StringRoundTrip(b, y);
  }

  lemma SameByte(a: byte, x: bytes, y: bytes)
    requires [a] + x == [a] + y
    ensures x == y
  {
    assert ([a] + x)[1..] == x && ([a] + y)[1..] == y;
  }

  // The signed message determines session, user, service, algorithm and key: a signature made
  // for another of them is a signature of another message.
  lemma SignedInjective(session: bytes, r: AuthRequest, other: bytes, q: AuthRequest)
    requires Signed(session, r).Some? && Signed(session, r) == Signed(other, q)
    ensures session == other && r.username == q.username && r.service == q.service && r.keyAlg == q.keyAlg && r.keyBlob == q.keyBlob
  {
    var a7, b7 := Join(String(r.keyAlg), String(r.keyBlob)), Join(String(q.keyAlg), String(q.keyBlob));
    var a6, b6 := Join(Some(Boolean(true)), a7), Join(Some(Boolean(true)), b7);
    var a5, b5 := Join(String(PUBLICKEY), a6), Join(String(PUBLICKEY), b6);
    var a4, b4 := Join(String(r.service), a5), Join(String(q.service), b5);
    var a3, b3 := Join(String(r.username), a4), Join(String(q.username), b4);
    var a2, b2 := Join(Some([USERAUTH_REQUEST]), a3), Join(Some([USERAUTH_REQUEST]), b3);
    SameStart(session, a2.value, other, b2.value);
    SameByte(USERAUTH_REQUEST, a3.value, b3.value);
    SameStart(r.username, a4.value, q.username, b4.value);
    SameStart(r.service, a5.value, q.service, b5.value);
    SameStart(PUBLICKEY, a6.value, PUBLICKEY, b6.value);
    SameByte(1, a7.value, b7.value);
    SameStart(r.keyAlg, String(r.keyBlob).value, q.keyAlg, String(q.keyBlob).value);
    assert String(r.keyBlob).value + [] == String(r.keyBlob).value && String(q.keyBlob).value + [] == String(q.keyBlob).value;
    SameStart(r.keyBlob, [], q.keyBlob, []);
  }

  // --------------------------------------------------------------- requests

  // What _authenticate makes of the fields of SSH_MSG_USERAUTH_REQUEST, which it reads only as
  // far as it needs them: it raises, refuses, is asked for an acceptable key, or has a signature
  // to check.
  datatype Asking = Broken | Unsuitable | Probe(keyBlob: bytes) | Signing(request: AuthRequest)

  function ReadRequest(k: Checks, body: bytes): Asking {
    match ParseText(k.utf8, body)
    case None => Broken
    case Some(username) =>
      match ParseText(k.utf8, username.rest)
      case None => Broken
      case Some(service) =>
        match ParseText(k.utf8, service.rest)
        case None => Broken
        case Some(how) =>
          if service.value != SSH_CONNECTION || how.value != PUBLICKEY then Unsuitable
          else ReadKey(k, username.value, service.value, how.rest)
  }

  function ReadKey(k: Checks, username: bytes, service: bytes, fields: bytes): Asking {
    match ParseBoolean(fields)
    case None => Broken
    case Some(hasSignature) =>
      match ParseText(k.utf8, hasSignature.rest)
      case None => Broken
      case Some(keyAlg) =>
        match ParseString(keyAlg.rest)
        case None => Broken
        case Some(keyBlob) =>
          if keyAlg.value != SSH_ED25519 then Unsuitable
          else if !hasSignature.value then Probe(keyBlob.value)
          else
            match ParseString(keyBlob.rest)
            case None => Broken
            case Some(signature) =>
              if signature.rest != [] then Broken
              else Signing(AuthRequest(username, service, keyAlg.value, keyBlob.value, signature.value))
  }

  // ------------------------------------------------------------------ state

  // A connection thread inside request_auth.
  datatype Waiting = Waiting(request: AuthRequest, client: nat, authId: nat, answer: Option<bool>)

  datatype Phase = Start | Authenticating | Waits(w: Waiting) | Bound(client: nat) | Ended

  datatype Connection = Connection(session: bytes, phase: Phase)

  datatype Reply = ServiceAccept | PkOk(keyBlob: bytes) | Failure | Disconnect

  // What happened, in order.
  datatype Entry =
    | Registered(identifier: bytes, client: nat)
    | Replied(conn: nat, reply: Reply)
    | Asked(conn: nat, request: AuthRequest, client: nat, authId: nat)
    | Answered(client: nat, authId: nat, ok: bool)
    | Succeeded(conn: nat, client: nat)
    | Opened(conn: nat, client: nat)

  datatype State = State(
    conns: map<nat, Connection>,
    registry: map<bytes, nat>,         // ClientRegistry._clients
    alive: set<nat>,
    counters: map<nat, nat>,           // RegisteredClient._auth_counter
    pending: map<(nat, nat), nat>,     // _pending_auth of every client: client and id to the connection that waits
    trace: seq<Entry>)

  const START := State(map[], map[], {}, map[], map[], [])

  datatype Message =
    | ServiceRequest(service: bytes)
    | UserAuth(body: bytes)
    | ChannelOpen
    | Ignorable
    | Other

  datatype Event =
    | Register(identifier: bytes, client: nat)
    | Lost(identifier: bytes, client: nat)     // RegisteredClient.close
    | Accept(conn: nat, session: bytes)        // a connection behind its key exchange
    | Got(conn: nat, m: Message)
    | Respond(client: nat, authId: nat, ok: bool)
    | Wake(conn: nat, timedOut: bool)          // request_auth returns

  predicate Enabled(s: State, e: Event) {
    match e
    case Register(_, client) => client !in s.counters
    case Lost(_, client) => client in s.counters
    case Accept(conn, _) => conn !in s.conns
    case Got(conn, _) => conn in s.conns && !s.conns[conn].phase.Waits? && !s.conns[conn].phase.Ended?
    case Respond(client, _, _) => client in s.counters
    case Wake(conn, timedOut) => conn in s.conns && s.conns[conn].phase.Waits? && (timedOut || s.conns[conn].phase.w.answer.Some?)
  }

  // ClientRegistry.get
  function Lookup(s: State, identifier: bytes): Option<nat> {
    if identifier in s.registry && s.registry[identifier] in s.alive then Some(s.registry[identifier]) else None
  }

  function Moved(s: State, conn: nat, phase: Phase, entry: Entry): State
    requires conn in s.conns
  {
    s.(conns := s.conns[conn := s.conns[conn].(phase := phase)], trace := s.trace + [entry])
  }

  function Ask(s: State, conn: nat, r: AuthRequest, client: nat): State
    requires conn in s.conns && client in s.counters
  {
    var id := s.counters[client];
    Moved(s.(counters := s.counters[client := id + 1], pending := s.pending[(client, id) := conn]),
          conn, Waits(Waiting(r, client, id, None)), Asked(conn, r, client, id))
  }

  // A request with a signature is passed on when that is valid and the client is there.
  function OnSigned(k: Checks, s: State, conn: nat, r: AuthRequest): State
    requires conn in s.conns
  {
    var fail := Moved(s, conn, Authenticating, Replied(conn, Failure));
    if !SignatureValid(k, s.conns[conn].session, r) then fail
    else
      match Lookup(s, r.username)
      case None => fail
      case Some(client) => if client in s.counters then Ask(s, conn, r, client) else fail
  }

  // One turn of the second loop in _authenticate.
  function OnUserAuth(k: Checks, s: State, conn: nat, body: bytes): State
    requires conn in s.conns
  {
    var fail := Moved(s, conn, Authenticating, Replied(conn, Failure));
    match ReadRequest(k, body)
    case Broken => Moved(s, conn, Ended, Replied(conn, Disconnect))
    case Unsuitable => fail
    case Probe(keyBlob) => Moved(s, conn, Authenticating, Replied(conn, PkOk(keyBlob)))
    case Signing(r) => OnSigned(k, s, conn, r)
  }

  function OnMessage(k: Checks, s: State, conn: nat, m: Message): State
    requires Enabled(s, Got(conn, m))
  {
    match s.conns[conn].phase
    case Start =>
      if m.ServiceRequest? && m.service == SSH_USERAUTH then Moved(s, conn, Authenticating, Replied(conn, ServiceAccept))
      else if m.Ignorable? then s
      else Moved(s, conn, Ended, Replied(conn, Disconnect))
    case Authenticating =>
      if m.UserAuth? then OnUserAuth(k, s, conn, m.body) else Moved(s, conn, Ended, Replied(conn, Disconnect))
    case Bound(client) =>
      if m.ChannelOpen? then s.(trace := s.trace + [Opened(conn, client)]) else s
    case _ => s
  }

  // The answer is handed to the connection that waits for this id of this client.
  function OnResponse(s: State, client: nat, authId: nat, ok: bool): State {
    var noted := s.(trace := s.trace + [Answered(client, authId, ok)]);
    if (client, authId) !in s.pending then noted
    else
      var conn := s.pending[(client, authId)];
      if conn in s.conns && s.conns[conn].phase.Waits? then
        noted.(pending := s.pending - {(client, authId)},
               conns := s.conns[conn := s.conns[conn].(phase := Waits(s.conns[conn].phase.w.(answer := Some(ok))))])
      else noted.(pending := s.pending - {(client, authId)})
  }

  function LetIn(s: State, conn: nat, client: nat): State
    requires conn in s.conns
  {
    Moved(s, conn, Bound(client), Succeeded(conn, client))
  }

  function Refused(s: State, conn: nat, timedOut: bool): State
    requires conn in s.conns && s.conns[conn].phase.Waits?
  {
    var w := s.conns[conn].phase.w;
    var t := if timedOut then s.(pending := s.pending - {(w.client, w.authId)}) else s;
    Moved(t, conn, Authenticating, Replied(conn, Failure))
  }

  function OnWake(s: State, conn: nat, timedOut: bool): State
    requires Enabled(s, Wake(conn, timedOut))
  {
    var w := s.conns[conn].phase.w;
    if !timedOut && w.answer == Some(true) then LetIn(s, conn, w.client) else Refused(s, conn, timedOut)
  }

  function Next(k: Checks, s: State, e: Event): State
    requires Enabled(s, e)
  {
    match e
    case Register(identifier, client) =>
      var known := s.(counters := s.counters[client := 1], alive := s.alive + {client});
      if Lookup(s, identifier).Some? then known
      else known.(registry := s.registry[identifier := client], trace := s.trace + [Registered(identifier, client)])
    case Lost(identifier, client) =>
      s.(alive := s.alive - {client},
         registry := if identifier in s.registry && s.registry[identifier] == client then s.registry - {identifier} else s.registry)
    case Accept(conn, session) => s.(conns := s.conns[conn := Connection(session, Start)])
    case Got(conn, m) => OnMessage(k, s, conn, m)
    case Respond(client, authId, ok) => OnResponse(s, client, authId, ok)
    case Wake(conn, timedOut) => OnWake(s, conn, timedOut)
  }

  function Gate(k: Checks): System<State, Event, Entry> {
    System(Enabled, (s: State, e: Event) => Effect(if Enabled(s, e) then Next(k, s, e) else s, []))
  }
}
