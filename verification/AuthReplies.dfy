/** What the authentication gate answers, over whole runs: every entry of its history is the one that
    the event calls for, in terms of the bytes that arrive. */
module AuthReplies {
  import opened Wrappers
  import opened Bits
  import opened SshEncoding
  import opened Runs
  import opened AuthGate
  import opened WireFormats

  // ------------------------------------------- requests, field by field

  predicate Short(v: bytes) {
    |v| < 0x1_0000_0000
  }

  // User name, service and method, with something behind them.
  ghost predicate Head(k: Checks, body: bytes, username: bytes, service: bytes, how: bytes, rest: bytes) {
    && Short(username) && Short(service) && Short(how) && k.utf8(username) && k.utf8(service) && k.utf8(how)
    && body == Counted(username) + Counted(service) + Counted(how) + rest
  }

  // Whether there is a signature, the algorithm and the key, with something behind them.
  ghost predicate KeyPart(k: Checks, fields: bytes, signed: bool, keyAlg: bytes, keyBlob: bytes, more: bytes) {
    Short(keyAlg) && Short(keyBlob) && k.utf8(keyAlg) && fields == Flag(signed) + Counted(keyAlg) + Counted(keyBlob) + more
  }

  // Section 7 of RFC 4252: a request without a signature, to find out whether a key would do.
  ghost predicate IsProbe(k: Checks, body: bytes, keyBlob: bytes) {
    exists username, fields, more ::
      Head(k, body, username, Ascii("ssh-connection"), Ascii("publickey"), fields)
      && KeyPart(k, fields, false, Ascii("ssh-ed25519"), keyBlob, more)
  }

  // A request with a signature, and nothing behind it.
  ghost predicate IsSigned(k: Checks, body: bytes, r: AuthRequest) {
    && r.service == Ascii("ssh-connection") && r.keyAlg == Ascii("ssh-ed25519") && Short(r.signature)
    && exists fields :: Head(k, body, r.username, r.service, Ascii("publickey"), fields)
                        && KeyPart(k, fields, true, r.keyAlg, r.keyBlob, Counted(r.signature))
  }

  // Another service, method or algorithm.
  ghost predicate IsUnsuitable(k: Checks, body: bytes) {
    exists username, service, how, fields ::
      Head(k, body, username, service, how, fields)
      && (service != Ascii("ssh-connection") || how != Ascii("publickey") || IsOtherKey(k, fields))
  }

  ghost predicate IsOtherKey(k: Checks, fields: bytes) {
    exists signed, keyAlg, keyBlob, more :: KeyPart(k, fields, signed, keyAlg, keyBlob, more) && keyAlg != Ascii("ssh-ed25519")
  }

  // Key and signature name the algorithm, and the signature is one of the session, the message
  // number 50 and the fields of the request.
  ghost predicate Holds(k: Checks, session: bytes, r: AuthRequest) {
    && Short(session) && Short(r.username) && Short(r.service) && Short(r.keyAlg) && Short(r.keyBlob)
    && exists public, signature :: Names(k, r, public, signature) && k.verify(public,
         Counted(session) + [50] + Counted(r.username) + Counted(r.service) + Counted(Ascii("publickey")) + [1]
         + Counted(r.keyAlg) + Counted(r.keyBlob), signature)
  }

  ghost predicate Names(k: Checks, r: AuthRequest, public: bytes, signature: bytes) {
    && |public| == 32 && Short(signature)
    && r.keyBlob == Counted(Ascii("ssh-ed25519")) + Counted(public)
    && r.signature == Counted(Ascii("ssh-ed25519")) + Counted(signature)
  }

  // -------------------------------------------------- what is read is that

  lemma TextReadIs(k: Checks, s: bytes, v: bytes, rest: bytes)
    ensures ParseText(k.utf8, s) == Some(Parsed(v, rest)) <==> Short(v) && k.utf8(v) && s == Counted(v) + rest
  {
    StringReadIs(s, v, rest);
  }

  lemma ThreeBefore(a: bytes, b: bytes, c: bytes, rest: bytes)
    ensures a + b + c + rest == a + (b + (c + rest))
  {}

  lemma HeadRead(k: Checks, body: bytes, username: bytes, service: bytes, how: bytes, rest: bytes)
    requires Head(k, body, username, service, how, rest)
    ensures var b := Counted(how) + rest; var a := Counted(service) + b;
      && ParseText(k.utf8, body) == Some(Parsed(username, a)) && ParseText(k.utf8, a) == Some(Parsed(service, b))
      && ParseText(k.utf8, b) == Some(Parsed(how, rest))
  {
    var b := Counted(how) + rest;
    var a := Counted(service) + b;
    ThreeBefore(Counted(username), Counted(service), Counted(how), rest);
    TextReadIs(k, body, username, a);
    TextReadIs(k, a, service, b);
    TextReadIs(k, b, how, rest);
  }

  lemma HeadBack(k: Checks, body: bytes, username: bytes, a: bytes, service: bytes, b: bytes, how: bytes, rest: bytes)
    requires ParseText(k.utf8, body) == Some(Parsed(username, a)) && ParseText(k.utf8, a) == Some(Parsed(service, b))
    requires ParseText(k.utf8, b) == Some(Parsed(how, rest))
    ensures Head(k, body, username, service, how, rest)
  {
    TextReadIs(k, body, username, a);
    TextReadIs(k, a, service, b);
    TextReadIs(k, b, how, rest);
    ThreeBefore(Counted(username), Counted(service), Counted(how), rest);
  }

  lemma FlagReadIs(s: bytes, b: bool, rest: bytes)
    ensures ParseBoolean(s) == Some(Parsed(b, rest)) <==> s == Flag(b) + rest
  {
    if ParseBoolean(s) == Some(Parsed(b, rest)) { assert s == [s[0]] + s[1..]; }
    if s == Flag(b) + rest { assert s[1..] == rest; }
  }

  lemma KeyRead(k: Checks, fields: bytes, signed: bool, keyAlg: bytes, keyBlob: bytes, more: bytes)
    requires KeyPart(k, fields, signed, keyAlg, keyBlob, more)
    ensures var b := Counted(keyBlob) + more; var a := Counted(keyAlg) + b;
      && ParseBoolean(fields) == Some(Parsed(signed, a)) && ParseText(k.utf8, a) == Some(Parsed(keyAlg, b))
      && ParseString(b) == Some(Parsed(keyBlob, more))
  {
    var b := Counted(keyBlob) + more;
    var a := Counted(keyAlg) + b;
    ThreeBefore(Flag(signed), Counted(keyAlg), Counted(keyBlob), more);
    FlagReadIs(fields, signed, a);
    TextReadIs(k, a, keyAlg, b);
    StringReadIs(b, keyBlob, more);
  }

  lemma KeyBack(k: Checks, fields: bytes, signed: bool, a: bytes, keyAlg: bytes, b: bytes, keyBlob: bytes, more: bytes)
    requires ParseBoolean(fields) == Some(Parsed(signed, a)) && ParseText(k.utf8, a) == Some(Parsed(keyAlg, b))
    requires ParseString(b) == Some(Parsed(keyBlob, more))
    ensures KeyPart(k, fields, signed, keyAlg, keyBlob, more)
  {
    FlagReadIs(fields, signed, a);
    TextReadIs(k, a, keyAlg, b);
    StringReadIs(b, keyBlob, more);
    ThreeBefore(Flag(signed), Counted(keyAlg), Counted(keyBlob), more);
  }

  lemma NamesOfThings()
    ensures Ascii("ssh-connection") == SSH_CONNECTION && Ascii("publickey") == PUBLICKEY && Ascii("ssh-ed25519") == SSH_ED25519
    ensures Ascii("ssh-userauth") == SSH_USERAUTH
  {}

  // Each of the four readings, in one direction ...
  lemma ProbeRead(k: Checks, body: bytes, keyBlob: bytes)
    requires IsProbe(k, body, keyBlob)
    ensures ReadRequest(k, body) == Probe(keyBlob)
  {
    NamesOfThings();
    var username, fields, more :|
      Head(k, body, username, SSH_CONNECTION, PUBLICKEY, fields) && KeyPart(k, fields, false, SSH_ED25519, keyBlob, more);
    HeadRead(k, body, username, SSH_CONNECTION, PUBLICKEY, fields);
    KeyRead(k, fields, false, SSH_ED25519, keyBlob, more);
  }

  lemma HeadThenKey(k: Checks, body: bytes, username: bytes, fields: bytes)
    requires Head(k, body, username, SSH_CONNECTION, PUBLICKEY, fields)
    ensures ReadRequest(k, body) == ReadKey(k, username, SSH_CONNECTION, fields)
  {
    HeadRead(k, body, username, SSH_CONNECTION, PUBLICKEY, fields);
  }

  lemma KeyThenSignature(k: Checks, r: AuthRequest, fields: bytes)
    requires r.service == SSH_CONNECTION && r.keyAlg == SSH_ED25519 && Short(r.signature)
    requires KeyPart(k, fields, true, r.keyAlg, r.keyBlob, Counted(r.signature))
    ensures ReadKey(k, r.username, r.service, fields) == Signing(r)
  {
    KeyRead(k, fields, true, r.keyAlg, r.keyBlob, Counted(r.signature));
    assert Counted(r.signature) + [] == Counted(r.signature);
    StringReadIs(Counted(r.signature), r.signature, []);
  }

  lemma SignedRead(k: Checks, body: bytes, r: AuthRequest)
    requires IsSigned(k, body, r)
    ensures ReadRequest(k, body) == Signing(r)
  {
    NamesOfThings();
    var fields :| Head(k, body, r.username, r.service, PUBLICKEY, fields) && KeyPart(k, fields, true, r.keyAlg, r.keyBlob, Counted(r.signature));
    HeadThenKey(k, body, r.username, fields);
    KeyThenSignature(k, r, fields);
  }

  lemma OtherKeyRead(k: Checks, username: bytes, fields: bytes)
    requires IsOtherKey(k, fields)
    ensures ReadKey(k, username, SSH_CONNECTION, fields) == Unsuitable
  {
    NamesOfThings();
    var signed, keyAlg, keyBlob, more :| KeyPart(k, fields, signed, keyAlg, keyBlob, more) && keyAlg != SSH_ED25519;
    KeyRead(k, fields, signed, keyAlg, keyBlob, more);
  }

  lemma UnsuitableRead(k: Checks, body: bytes)
    requires IsUnsuitable(k, body)
    ensures ReadRequest(k, body) == Unsuitable
  {
    NamesOfThings();
    var username, service, how, fields :|
      Head(k, body, username, service, how, fields) && (service != SSH_CONNECTION || how != PUBLICKEY || IsOtherKey(k, fields));
    if service == SSH_CONNECTION && how == PUBLICKEY {
      HeadThenKey(k, body, username, fields);
      OtherKeyRead(k, username, fields);
    } else {
      HeadRead(k, body, username, service, how, fields);
    }
  }

  // ... and in the other.
  lemma ReadIsWritten(k: Checks, body: bytes)
    ensures match ReadRequest(k, body) {
      case Broken => true
      case Unsuitable => IsUnsuitable(k, body)
      case Probe(keyBlob) => IsProbe(k, body, keyBlob)
      case Signing(r) => IsSigned(k, body, r)
    }
  {
    if !ReadRequest(k, body).Broken? {
      NamesOfThings();
      var username := ParseText(k.utf8, body).value;
      var service := ParseText(k.utf8, username.rest).value;
      var how := ParseText(k.utf8, service.rest).value;
      HeadBack(k, body, username.value, username.rest, service.value, service.rest, how.value, how.rest);
      if service.value == SSH_CONNECTION && how.value == PUBLICKEY { KeyIsWritten(k, body, username.value, how.rest); }
    }
  }

  lemma KeyIsWritten(k: Checks, body: bytes, username: bytes, fields: bytes)
    requires Head(k, body, username, Ascii("ssh-connection"), Ascii("publickey"), fields)
    ensures match ReadKey(k, username, SSH_CONNECTION, fields) {
      case Broken => true
      case Unsuitable => IsUnsuitable(k, body)
      case Probe(keyBlob) => IsProbe(k, body, keyBlob)
      case Signing(r) => IsSigned(k, body, r)
    }
  {
    var reading := ReadKey(k, username, SSH_CONNECTION, fields);
    if !reading.Broken? {
      NamesOfThings();
      var flag := ParseBoolean(fields).value;
      var keyAlg := ParseText(k.utf8, flag.rest).value;
      var keyBlob := ParseString(keyAlg.rest).value;
      KeyBack(k, fields, flag.value, flag.rest, keyAlg.value, keyAlg.rest, keyBlob.value, keyBlob.rest);
      match reading {
        case Unsuitable => assert IsOtherKey(k, fields);
        case Probe(_) =>
        case Signing(r) =>
          StringReadIs(keyBlob.rest, r.signature, []);
          assert Counted(r.signature) + [] == Counted(r.signature);
      }
    }
  }

  // What a request is taken for, in terms of its bytes.
  lemma ReadingIs(k: Checks, body: bytes, keyBlob: bytes, r: AuthRequest)
    ensures ReadRequest(k, body) == Probe(keyBlob) <==> IsProbe(k, body, keyBlob)
    ensures ReadRequest(k, body) == Signing(r) <==> IsSigned(k, body, r)
    ensures ReadRequest(k, body) == Unsuitable <==> IsUnsuitable(k, body)
    ensures ReadRequest(k, body) == Broken <==> Unreadable(k, body)
  {
    ReadIsWritten(k, body);
    if IsProbe(k, body, keyBlob) { ProbeRead(k, body, keyBlob); }
    if IsSigned(k, body, r) { SignedRead(k, body, r); }
    if IsUnsuitable(k, body) { UnsuitableRead(k, body); }
    forall blob | IsProbe(k, body, blob)
      ensures ReadRequest(k, body) == Probe(blob)
    {
      ProbeRead(k, body, blob);
    }
    forall q | IsSigned(k, body, q)
      ensures ReadRequest(k, body) == Signing(q)
    {
      SignedRead(k, body, q);
    }
  }

  // It is none of the three.
  ghost predicate Unreadable(k: Checks, body: bytes) {
    !IsUnsuitable(k, body) && (forall keyBlob :: !IsProbe(k, body, keyBlob)) && forall r :: !IsSigned(k, body, r)
  }

  // ------------------------------------------------------- signatures

  lemma PairReadIs(k: Checks, s: bytes, a: bytes, b: bytes)
    ensures TextAndString(k, s) == Some((a, b)) <==> Short(a) && Short(b) && k.utf8(a) && s == Counted(a) + Counted(b)
  {
    if TextAndString(k, s) == Some((a, b)) {
      var rest := ParseText(k.utf8, s).value.rest;
      TextReadIs(k, s, a, rest);
      StringReadIs(rest, b, []);
      assert Counted(b) + [] == Counted(b);
    }
    if Short(a) && Short(b) && k.utf8(a) && s == Counted(a) + Counted(b) {
      TextReadIs(k, s, a, Counted(b));
      assert Counted(b) + [] == Counted(b);
      StringReadIs(Counted(b), b, []);
    }
  }

  // The signed message (section 7 of RFC 4252).
  lemma SignedIs(session: bytes, r: AuthRequest)
    requires Short(session) && Short(r.username) && Short(r.service) && Short(r.keyAlg) && Short(r.keyBlob)
    ensures Signed(session, r)
      == Some(Counted(session) + [50] + Counted(r.username) + Counted(r.service) + Counted(Ascii("publickey")) + [1]
              + Counted(r.keyAlg) + Counted(r.keyBlob))
  {
    NamesOfThings();
    StringIs(session);
    StringIs(r.username);
    StringIs(r.service);
    StringIs(PUBLICKEY);
    StringIs(r.keyAlg);
    StringIs(r.keyBlob);
    EightBefore(Counted(session), [50], Counted(r.username), Counted(r.service), Counted(PUBLICKEY), [1], Counted(r.keyAlg), Counted(r.keyBlob));
  }

  lemma EightBefore(a: bytes, b: bytes, c: bytes, d: bytes, e: bytes, f: bytes, g: bytes, h: bytes)
    ensures a + (b + (c + (d + (e + (f + (g + h)))))) == a + b + c + d + e + f + g + h
  {}

  lemma Unsigned(session: bytes, r: AuthRequest)
    requires !(Short(session) && Short(r.username) && Short(r.service) && Short(r.keyAlg) && Short(r.keyBlob))
    ensures Signed(session, r) == None
  {
    StringIs(session);
    StringIs(r.username);
    StringIs(r.service);
    StringIs(r.keyAlg);
    StringIs(r.keyBlob);
  }

  // A signature is valid if and only if it verifies under the key of the request, as a signature of
  // exactly these bytes.
  lemma ValidIs(k: Checks, session: bytes, r: AuthRequest)
    requires k.utf8(Ascii("ssh-ed25519"))
    ensures SignatureValid(k, session, r) <==> Holds(k, session, r)
  {
    NamesOfThings();
    if Short(session) && Short(r.username) && Short(r.service) && Short(r.keyAlg) && Short(r.keyBlob) {
      SignedIs(session, r);
      if SignatureValid(k, session, r) {
        var public, signature := PublicOf(k, r.keyBlob).value, TextAndString(k, r.signature).value.1;
        PairReadIs(k, r.keyBlob, SSH_ED25519, public);
        PairReadIs(k, r.signature, SSH_ED25519, signature);
        assert Names(k, r, public, signature);
      }
      if Holds(k, session, r) {
        var public, signature :| Names(k, r, public, signature) && k.verify(public, Signed(session, r).value, signature);
        PairReadIs(k, r.keyBlob, SSH_ED25519, public);
        PairReadIs(k, r.signature, SSH_ED25519, signature);
      }
    } else {
      Unsigned(session, r);
    }
  }

  // ------------------------------------------------- what is written, and when

  // A live client is registered under the name.
  predicate IsClient(s: State, name: bytes, client: nat) {
    name in s.registry && s.registry[name] == client && client in s.alive && client in s.counters
  }

  ghost predicate Asks(k: Checks, s: State, e: Event, conn: nat, r: AuthRequest) {
    e.Got? && e.conn == conn && conn in s.conns && s.conns[conn].phase.Authenticating? && e.m.UserAuth? && IsSigned(k, e.m.body, r)
  }

  // The event makes the gate answer this.
  ghost predicate Answers(k: Checks, s: State, e: Event, conn: nat, reply: Reply)
    requires Enabled(s, e)
  {
    match reply
    case ServiceAccept => e == Got(conn, ServiceRequest(Ascii("ssh-userauth"))) && s.conns[conn].phase.Start?
    case PkOk(keyBlob) =>
      e.Got? && e.conn == conn && s.conns[conn].phase.Authenticating? && e.m.UserAuth? && IsProbe(k, e.m.body, keyBlob)
    case Failure =>
      || (e.Got? && e.conn == conn && s.conns[conn].phase.Authenticating? && e.m.UserAuth? && IsUnsuitable(k, e.m.body))
      || (exists r :: Asks(k, s, e, conn, r)
                      && !(Holds(k, s.conns[conn].session, r) && exists client :: IsClient(s, r.username, client)))
      || (e.Wake? && e.conn == conn && (e.timedOut || s.conns[conn].phase.w.answer != Some(true)))
    case Disconnect =>
      e.Got? && e.conn == conn
      && ((s.conns[conn].phase.Start? && e.m != ServiceRequest(Ascii("ssh-userauth")) && !e.m.Ignorable?)
          || (s.conns[conn].phase.Authenticating? && (e.m.UserAuth? ==> Unreadable(k, e.m.body))))
  }

  // The event makes the gate write this.
  ghost predicate Writes(k: Checks, s: State, e: Event, entry: Entry)
    requires Enabled(s, e)
  {
    match entry
    case Registered(name, client) =>
      e == Register(name, client) && !(name in s.registry && s.registry[name] in s.alive)
    case Replied(conn, reply) => Answers(k, s, e, conn, reply)
    case Asked(conn, r, client, id) =>
      Asks(k, s, e, conn, r) && Holds(k, s.conns[conn].session, r) && IsClient(s, r.username, client) && id == s.counters[client]
    case Answered(client, id, ok) => e == Respond(client, id, ok)
    case Succeeded(conn, client) =>
      e == Wake(conn, false) && s.conns[conn].phase.w.answer == Some(true) && s.conns[conn].phase.w.client == client
    case Opened(conn, client) => e == Got(conn, ChannelOpen) && s.conns[conn].phase == Bound(client)
  }

  // The step writes this entry, or writes nothing.
  ghost predicate Wrote(k: Checks, s: State, e: Event, entry: Entry)
    requires Enabled(s, e)
  {
    Next(k, s, e).trace == s.trace + [entry]
  }

  lemma OneLonger<T>(trace: seq<T>, a: T, b: T)
    ensures trace + [a] == trace + [b] <==> a == b
    ensures trace + [a] != trace
  {
    assert (trace + [a])[|trace|] == a && (trace + [b])[|trace|] == b;
  }

  // What is called for by a request, for each of its readings.
  lemma BrokenCalls(k: Checks, s: State, conn: nat, body: bytes, entry: Entry)
    requires Enabled(s, Got(conn, UserAuth(body))) && s.conns[conn].phase.Authenticating? && Unreadable(k, body)
    ensures Writes(k, s, Got(conn, UserAuth(body)), entry) <==> entry == Replied(conn, Disconnect)
  {}

  lemma UnsuitableCalls(k: Checks, s: State, conn: nat, body: bytes, entry: Entry)
    requires Enabled(s, Got(conn, UserAuth(body))) && s.conns[conn].phase.Authenticating? && IsUnsuitable(k, body)
    requires forall keyBlob :: !IsProbe(k, body, keyBlob)
    requires forall r :: !IsSigned(k, body, r)
    ensures Writes(k, s, Got(conn, UserAuth(body)), entry) <==> entry == Replied(conn, Failure)
  {}

  lemma ProbeCalls(k: Checks, s: State, conn: nat, body: bytes, keyBlob: bytes, entry: Entry)
    requires Enabled(s, Got(conn, UserAuth(body))) && s.conns[conn].phase.Authenticating? && !IsUnsuitable(k, body)
    requires forall blob :: IsProbe(k, body, blob) <==> blob == keyBlob
    requires forall r :: !IsSigned(k, body, r)
    ensures Writes(k, s, Got(conn, UserAuth(body)), entry) <==> entry == Replied(conn, PkOk(keyBlob))
  {
    assert IsProbe(k, body, keyBlob);
  }

  lemma SignedCalls(k: Checks, s: State, conn: nat, body: bytes, r: AuthRequest, entry: Entry)
    requires Enabled(s, Got(conn, UserAuth(body))) && s.conns[conn].phase.Authenticating? && !IsUnsuitable(k, body)
    requires forall keyBlob :: !IsProbe(k, body, keyBlob)
    requires forall q :: IsSigned(k, body, q) <==> q == r
    ensures Writes(k, s, Got(conn, UserAuth(body)), entry) <==>
      || (entry == Replied(conn, Failure) && !(Holds(k, s.conns[conn].session, r) && exists client :: IsClient(s, r.username, client)))
      || (entry.Asked? && entry == Asked(conn, r, entry.client, entry.authId) && Holds(k, s.conns[conn].session, r)
          && IsClient(s, r.username, entry.client) && entry.authId == s.counters[entry.client])
  {
    assert Asks(k, s, Got(conn, UserAuth(body)), conn, r);
  }

  // A reply and nothing else.
  predicate Adds(s: State, t: State, entry: Entry) {
    t.trace == s.trace + [entry]
  }

  lemma AddsOne(s: State, t: State, a: Entry, b: Entry)
    requires Adds(s, t, a)
    ensures t.trace == s.trace + [b] <==> a == b
    ensures s.trace <= t.trace && |t.trace| == |s.trace| + 1
  {
    OneLonger(s.trace, a, b);
  }

  lemma UserAuthAdds(k: Checks, s: State, conn: nat, body: bytes)
    requires conn in s.conns && !ReadRequest(k, body).Signing?
    ensures Adds(s, OnUserAuth(k, s, conn, body), Replied(conn, match ReadRequest(k, body) {
      case Broken => Disconnect
      case Unsuitable => Failure
      case Probe(keyBlob) => PkOk(keyBlob)
      case Signing(_) => Failure
    }))
  {}

  lemma UserAuthWrites(k: Checks, s: State, conn: nat, body: bytes, entry: Entry)
    requires k.utf8(Ascii("ssh-ed25519"))
    requires Enabled(s, Got(conn, UserAuth(body))) && s.conns[conn].phase.Authenticating?
    ensures OnUserAuth(k, s, conn, body).trace == s.trace + [entry] <==> Writes(k, s, Got(conn, UserAuth(body)), entry)
    ensures |OnUserAuth(k, s, conn, body).trace| == |s.trace| + 1 && s.trace <= OnUserAuth(k, s, conn, body).trace
  {
    var t := OnUserAuth(k, s, conn, body);
    NotOfKind(k, body);
    match ReadRequest(k, body) {
      case Broken =>
        UserAuthAdds(k, s, conn, body);
        AddsOne(s, t, Replied(conn, Disconnect), entry);
        BrokenCalls(k, s, conn, body, entry);
      case Unsuitable =>
        UserAuthAdds(k, s, conn, body);
        AddsOne(s, t, Replied(conn, Failure), entry);
        UnsuitableCalls(k, s, conn, body, entry);
      case Probe(keyBlob) =>
        UserAuthAdds(k, s, conn, body);
        AddsOne(s, t, Replied(conn, PkOk(keyBlob)), entry);
        ProbeCalls(k, s, conn, body, keyBlob, entry);
      case Signing(r) =>
        SignedWrites(k, s, conn, r, entry);
        SignedCalls(k, s, conn, body, r, entry);
    }
  }

  // The four readings exclude each other.
  lemma NotOfKind(k: Checks, body: bytes)
    ensures IsUnsuitable(k, body) <==> ReadRequest(k, body) == Unsuitable
    ensures Unreadable(k, body) <==> ReadRequest(k, body) == Broken
    ensures forall keyBlob :: IsProbe(k, body, keyBlob) <==> ReadRequest(k, body) == Probe(keyBlob)
    ensures forall r :: IsSigned(k, body, r) <==> ReadRequest(k, body) == Signing(r)
  {
    forall keyBlob, r
      ensures IsProbe(k, body, keyBlob) <==> ReadRequest(k, body) == Probe(keyBlob)
      ensures IsSigned(k, body, r) <==> ReadRequest(k, body) == Signing(r)
      ensures IsUnsuitable(k, body) <==> ReadRequest(k, body) == Unsuitable
      ensures Unreadable(k, body) <==> ReadRequest(k, body) == Broken
    {
      ReadingIs(k, body, keyBlob, r);
    }
    ReadingIs(k, body, [], AuthRequest([], [], [], [], []));
  }

  lemma SignedWrites(k: Checks, s: State, conn: nat, r: AuthRequest, entry: Entry)
    requires k.utf8(Ascii("ssh-ed25519")) && conn in s.conns
    ensures OnSigned(k, s, conn, r).trace == s.trace + [entry] <==>
      || (entry == Replied(conn, Failure) && !(Holds(k, s.conns[conn].session, r) && exists client :: IsClient(s, r.username, client)))
      || (entry.Asked? && entry == Asked(conn, r, entry.client, entry.authId) && Holds(k, s.conns[conn].session, r)
          && IsClient(s, r.username, entry.client) && entry.authId == s.counters[entry.client])
    ensures |OnSigned(k, s, conn, r).trace| == |s.trace| + 1 && s.trace <= OnSigned(k, s, conn, r).trace
  {
    ValidIs(k, s.conns[conn].session, r);
    OneLonger(s.trace, Replied(conn, Failure), entry);
    if SignatureValid(k, s.conns[conn].session, r) && Lookup(s, r.username).Some? && Lookup(s, r.username).value in s.counters {
      var client := Lookup(s, r.username).value;
      assert IsClient(s, r.username, client);
      OneLonger(s.trace, Asked(conn, r, client, s.counters[client]), entry);
    } else {
      assert OnSigned(k, s, conn, r).trace == s.trace + [Replied(conn, Failure)];
    }
  }

  lemma StartWrites(k: Checks, s: State, conn: nat, m: Message, entry: Entry)
    requires Enabled(s, Got(conn, m)) && s.conns[conn].phase.Start?
    ensures Wrote(k, s, Got(conn, m), entry) <==> Writes(k, s, Got(conn, m), entry)
    ensures s.trace <= Next(k, s, Got(conn, m)).trace && |Next(k, s, Got(conn, m)).trace| <= |s.trace| + 1
  {
    NamesOfThings();
    OneLonger(s.trace, Replied(conn, ServiceAccept), entry);
    OneLonger(s.trace, Replied(conn, Disconnect), entry);
  }

  lemma BoundWrites(k: Checks, s: State, conn: nat, m: Message, client: nat, entry: Entry)
    requires Enabled(s, Got(conn, m)) && s.conns[conn].phase == Bound(client)
    ensures Wrote(k, s, Got(conn, m), entry) <==> Writes(k, s, Got(conn, m), entry)
    ensures s.trace <= Next(k, s, Got(conn, m)).trace && |Next(k, s, Got(conn, m)).trace| <= |s.trace| + 1
  {
    OneLonger(s.trace, Opened(conn, client), entry);
  }

  lemma StrayWrites(k: Checks, s: State, conn: nat, m: Message, entry: Entry)
    requires Enabled(s, Got(conn, m)) && s.conns[conn].phase.Authenticating? && !m.UserAuth?
    ensures Wrote(k, s, Got(conn, m), entry) <==> Writes(k, s, Got(conn, m), entry)
    ensures s.trace <= Next(k, s, Got(conn, m)).trace && |Next(k, s, Got(conn, m)).trace| <= |s.trace| + 1
  {
    OneLonger(s.trace, Replied(conn, Disconnect), entry);
  }

  lemma RequestWrites(k: Checks, s: State, conn: nat, body: bytes, entry: Entry)
    requires k.utf8(Ascii("ssh-ed25519"))
    requires Enabled(s, Got(conn, UserAuth(body))) && s.conns[conn].phase.Authenticating?
    ensures Wrote(k, s, Got(conn, UserAuth(body)), entry) <==> Writes(k, s, Got(conn, UserAuth(body)), entry)
    ensures s.trace <= Next(k, s, Got(conn, UserAuth(body))).trace && |Next(k, s, Got(conn, UserAuth(body))).trace| <= |s.trace| + 1
  {
    assert Next(k, s, Got(conn, UserAuth(body))) == OnUserAuth(k, s, conn, body);
    UserAuthWrites(k, s, conn, body, entry);
  }

  lemma MessageWrites(k: Checks, s: State, conn: nat, m: Message, entry: Entry)
    requires k.utf8(Ascii("ssh-ed25519")) && Enabled(s, Got(conn, m))
    ensures Wrote(k, s, Got(conn, m), entry) <==> Writes(k, s, Got(conn, m), entry)
    ensures s.trace <= Next(k, s, Got(conn, m)).trace && |Next(k, s, Got(conn, m)).trace| <= |s.trace| + 1
  {
    match s.conns[conn].phase {
      case Start => StartWrites(k, s, conn, m, entry);
      case Authenticating => if m.UserAuth? { RequestWrites(k, s, conn, m.body, entry); } else { StrayWrites(k, s, conn, m, entry); }
      case Bound(client) => BoundWrites(k, s, conn, m, client, entry);
    }
  }

  lemma WakeWrites(k: Checks, s: State, conn: nat, timedOut: bool, entry: Entry)
    requires Enabled(s, Wake(conn, timedOut))
    ensures Wrote(k, s, Wake(conn, timedOut), entry) <==> Writes(k, s, Wake(conn, timedOut), entry)
    ensures s.trace <= Next(k, s, Wake(conn, timedOut)).trace && |Next(k, s, Wake(conn, timedOut)).trace| <= |s.trace| + 1
  {
    OneLonger(s.trace, Replied(conn, Failure), entry);
    OneLonger(s.trace, Succeeded(conn, s.conns[conn].phase.w.client), entry);
  }

  lemma OtherWrites(k: Checks, s: State, e: Event, entry: Entry)
    requires Enabled(s, e) && (e.Register? || e.Lost? || e.Accept? || e.Respond?)
    ensures Wrote(k, s, e, entry) <==> Writes(k, s, e, entry)
    ensures s.trace <= Next(k, s, e).trace && |Next(k, s, e).trace| <= |s.trace| + 1
  {
    match e {
      case Register(name, client) => OneLonger(s.trace, Registered(name, client), entry);
      case Respond(client, id, ok) => OneLonger(s.trace, Answered(client, id, ok), entry);
      case Lost(_, _) => OneLonger(s.trace, entry, entry);
      case Accept(_, _) => OneLonger(s.trace, entry, entry);
    }
  }

  // A step writes at most one entry, and writes exactly the one that is called for.
  lemma StepWrites(k: Checks, s: State, e: Event, entry: Entry)
    requires k.utf8(Ascii("ssh-ed25519")) && Enabled(s, e)
    ensures s.trace <= Next(k, s, e).trace && |Next(k, s, e).trace| <= |s.trace| + 1
    ensures Next(k, s, e).trace == s.trace + [entry] <==> Writes(k, s, e, entry)
  {
    match e {
      case Got(conn, m) => MessageWrites(k, s, conn, m, entry);
      case Wake(conn, timedOut) => WakeWrites(k, s, conn, timedOut, entry);
      case Register(_, _) => OtherWrites(k, s, e, entry);
      case Lost(_, _) => OtherWrites(k, s, e, entry);
      case Accept(_, _) => OtherWrites(k, s, e, entry);
      case Respond(_, _, _) => OtherWrites(k, s, e, entry);
    }
  }

  // ------------------------------------------- where a connection goes on

  // What an entry leaves a connection in.
  function PhaseBehind(s: State, conn: nat, entry: Entry): Phase
    requires conn in s.conns
  {
    var was := s.conns[conn].phase;
    match entry
    case Replied(c, reply) => if c == conn then (if reply == Disconnect then Ended else Authenticating) else was
    case Asked(c, r, client, id) => if c == conn then Waits(Waiting(r, client, id, None)) else was
    case Answered(client, id, ok) =>
      if (client, id) in s.pending && s.pending[(client, id)] == conn && was.Waits? then Waits(was.w.(answer := Some(ok))) else was
    case Succeeded(c, client) => if c == conn then Bound(client) else was
    case Registered(_, _) => was
    case Opened(_, _) => was
  }

  // A connection stays where it is, or goes where the entry of the step says.
  ghost predicate GoesOn(s: State, t: State, conn: nat)
    requires conn in s.conns
  {
    && conn in t.conns && t.conns[conn].session == s.conns[conn].session
    && t.conns[conn].phase == if |t.trace| > |s.trace| then PhaseBehind(s, conn, t.trace[|s.trace|]) else s.conns[conn].phase
  }

  lemma MovedGoesOn(s: State, c: nat, phase: Phase, entry: Entry, conn: nat)
    requires c in s.conns && conn in s.conns
    requires phase == PhaseBehind(s, c, entry) && (conn != c ==> PhaseBehind(s, conn, entry) == s.conns[conn].phase)
    ensures GoesOn(s, Moved(s, c, phase, entry), conn)
  {}

  lemma SignedGoesOn(k: Checks, s: State, c: nat, r: AuthRequest, conn: nat)
    requires c in s.conns && conn in s.conns
    ensures GoesOn(s, OnSigned(k, s, c, r), conn)
  {}

  lemma UserAuthGoesOn(k: Checks, s: State, c: nat, body: bytes, conn: nat)
    requires c in s.conns && conn in s.conns
    ensures GoesOn(s, OnUserAuth(k, s, c, body), conn)
  {
    match ReadRequest(k, body) {
      case Broken => MovedGoesOn(s, c, Ended, Replied(c, Disconnect), conn);
      case Unsuitable => MovedGoesOn(s, c, Authenticating, Replied(c, Failure), conn);
      case Probe(keyBlob) => MovedGoesOn(s, c, Authenticating, Replied(c, PkOk(keyBlob)), conn);
      case Signing(r) => SignedGoesOn(k, s, c, r, conn);
    }
  }

  lemma MessageGoesOn(k: Checks, s: State, c: nat, m: Message, conn: nat)
    requires Enabled(s, Got(c, m)) && conn in s.conns
    ensures GoesOn(s, OnMessage(k, s, c, m), conn)
  {
    match s.conns[c].phase {
      case Start =>
        MovedGoesOn(s, c, Authenticating, Replied(c, ServiceAccept), conn);
        MovedGoesOn(s, c, Ended, Replied(c, Disconnect), conn);
      case Authenticating =>
        if m.UserAuth? { UserAuthGoesOn(k, s, c, m.body, conn); } else { MovedGoesOn(s, c, Ended, Replied(c, Disconnect), conn); }
      case Bound(client) =>
    }
  }

  lemma ResponseGoesOn(s: State, client: nat, id: nat, ok: bool, conn: nat)
    requires conn in s.conns
    ensures GoesOn(s, OnResponse(s, client, id, ok), conn)
  {}

  // Every connection that is there goes on in this way, and only Accept adds one.
  lemma StepGoesOn(k: Checks, s: State, e: Event, conn: nat)
    requires Enabled(s, e)
    ensures conn in s.conns ==> GoesOn(s, Next(k, s, e), conn)
    ensures conn !in s.conns && conn in Next(k, s, e).conns ==> e.Accept? && e.conn == conn
    ensures e.Accept? ==> e.conn in Next(k, s, e).conns && Next(k, s, e).conns[e.conn] == Connection(e.session, Start)
  {
    if conn in s.conns {
      match e {
        case Got(c, m) => MessageGoesOn(k, s, c, m, conn);
        case Respond(client, id, ok) => ResponseGoesOn(s, client, id, ok, conn);
        case Wake(c, timedOut) =>
        case Register(_, _) =>
        case Lost(_, _) =>
        case Accept(_, _) =>
      }
    } else if !(e.Accept? && e.conn == conn) {
      NoneAdded(k, s, e, conn);
    }
  }

  lemma NoneAdded(k: Checks, s: State, e: Event, conn: nat)
    requires Enabled(s, e) && conn !in s.conns && !(e.Accept? && e.conn == conn)
    ensures conn !in Next(k, s, e).conns
  {
    match e {
      case Got(c, m) =>
        if s.conns[c].phase.Authenticating? && m.UserAuth? && ReadRequest(k, m.body).Signing? {
          assert conn !in OnSigned(k, s, c, ReadRequest(k, m.body).request).conns;
        }
      case Respond(client, id, ok) => assert conn !in OnResponse(s, client, id, ok).conns;
      case Wake(c, timedOut) => assert conn !in OnWake(s, c, timedOut).conns;
      case Register(_, _) =>
      case Lost(_, _) =>
      case Accept(_, _) =>
    }
  }

  // -------------------------------------------------------- over whole runs

  function TraceOf(): State -> seq<Entry> {
    (s: State) => s.trace
  }

  ghost function Calls(k: Checks): (State, Event, Entry) -> bool {
    (s: State, e: Event, entry: Entry) => Enabled(s, e) && Writes(k, s, e, entry)
  }

  lemma GateLogs(k: Checks)
    requires k.utf8(Ascii("ssh-ed25519"))
    ensures Logs(Gate(k), TraceOf(), Calls(k))
  {
    forall s, e, entry | Gate(k).enabled(s, e)
      ensures LogsStep(Gate(k), TraceOf(), Calls(k), s, e, entry)
    {
      StepWrites(k, s, e, entry);
    }
  }

  // Step a of the run starts behind i entries, and calls for this one.
  ghost predicate CallsFor(k: Checks, events: seq<Event>, a: nat, i: nat, entry: Entry)
    requires a < |events|
  {
    var s := Before(Gate(k), START, events, a);
    |s.trace| == i && Enabled(s, events[a]) && Writes(k, s, events[a], entry)
  }

  lemma CallsForIs(k: Checks, events: seq<Event>, a: nat, i: nat, entry: Entry)
    requires a < |events|
    ensures CallsFor(k, events, a, i, entry) <==> CalledAt(Gate(k), TraceOf(), Calls(k), START, events, a, i, entry)
  {}

  // In every run an entry is where it is if and only if the step there called for it: PK_OK answers
  // exactly the probes, FAILURE exactly the unsuitable requests, those signed badly or for nobody, and
  // the waits that end without approval, and the connection is ended exactly where the loops raise.
  lemma EntriesExactly(k: Checks, events: seq<Event>, i: nat, entry: Entry)
    requires k.utf8(Ascii("ssh-ed25519")) && Possible(Gate(k), START, events)
    ensures var trace := After(Gate(k), START, events).s.trace;
      (i < |trace| && trace[i] == entry) <==> exists a: nat :: a < |events| && CallsFor(k, events, a, i, entry)
  {
    var trace := After(Gate(k), START, events).s.trace;
    GateLogs(k);
    if i < |trace| && trace[i] == entry {
      var a := LoggedIsCalled(Gate(k), TraceOf(), Calls(k), START, events, i, entry);
      CallsForIs(k, events, a, i, entry);
    }
    forall a: nat | a < |events| && CallsFor(k, events, a, i, entry)
      ensures i < |trace| && trace[i] == entry
    {
      CallsForIs(k, events, a, i, entry);
      CalledIsLogged(Gate(k), TraceOf(), Calls(k), START, events, a, i, entry);
    }
  }

  lemma ProbeStep(k: Checks, s: State, conn: nat, body: bytes, keyBlob: bytes)
    requires conn in s.conns && s.conns[conn].phase.Authenticating? && ReadRequest(k, body) == Probe(keyBlob)
    ensures Next(k, s, Got(conn, UserAuth(body))) == s.(trace := s.trace + [Replied(conn, PkOk(keyBlob))])
  {
    assert s.conns == s.conns[conn := s.conns[conn].(phase := Authenticating)];
  }

  // The first request of an operator is answered by PK_OK with its key, and nothing else changes.
  lemma ProbeIsAnswered(k: Checks, s: State, conn: nat, body: bytes, keyBlob: bytes)
    requires conn in s.conns && s.conns[conn].phase.Authenticating? && IsProbe(k, body, keyBlob)
    ensures Next(k, s, Got(conn, UserAuth(body))) == s.(trace := s.trace + [Replied(conn, PkOk(keyBlob))])
  {
    ProbeRead(k, body, keyBlob);
    ProbeStep(k, s, conn, body, keyBlob);
  }

  // Such a request, written out.
  lemma ProbeIs(k: Checks, username: bytes, keyBlob: bytes, more: bytes)
    requires k.utf8(username) && k.utf8(Ascii("ssh-connection")) && k.utf8(Ascii("publickey")) && k.utf8(Ascii("ssh-ed25519"))
    requires Short(username) && Short(keyBlob)
    ensures IsProbe(k, Counted(username) + Counted(Ascii("ssh-connection")) + Counted(Ascii("publickey"))
                       + ([0] + Counted(Ascii("ssh-ed25519")) + Counted(keyBlob) + more), keyBlob)
  {
    var fields := [0] + Counted(Ascii("ssh-ed25519")) + Counted(keyBlob) + more;
    assert Head(k, Counted(username) + Counted(Ascii("ssh-connection")) + Counted(Ascii("publickey")) + fields,
                username, Ascii("ssh-connection"), Ascii("publickey"), fields);
    assert KeyPart(k, fields, false, Ascii("ssh-ed25519"), keyBlob, more);
  }
}
