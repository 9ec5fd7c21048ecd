/** Key blobs and user signatures on the wire (keys.py and _verify_user_signature of relay.py),
    together with Ed25519: what an operator signs with its seed passes the gate. */
module OperatorLogin {
  import opened Wrappers
  import opened Bits
  import opened SshEncoding
  import E = Ed25519
  import opened AuthGate

  function TwoStrings(a: bytes, b: bytes): Option<bytes> {
    Join(String(a), String(b))
  }

  // A text and a string written one behind the other are read back, and nothing else is read
  // as them.
  lemma TwoStringsInverse(k: Checks, a: bytes, b: bytes, s: bytes)
    requires k.utf8(a) && |a| < LIMIT_32 && |b| < LIMIT_32
    ensures TextAndString(k, s) == Some((a, b)) <==> TwoStrings(a, b) == Some(s)
  {
    StringRoundTrip(a, String(b).value);
    StringRoundTrip(b, []);
    assert String(b).value + [] == String(b).value;
    if TextAndString(k, s) == Some((a, b)) {
      StringReadIsWritten(s);
      var rest := ParseString(s).value.rest;
      StringReadIsWritten(rest);
      assert String(b).value + [] == rest;
    }
  }

  // parse_ed25519_key_blob accepts exactly what ed25519_key_blob makes of 32 bytes.
  lemma KeyBlobInverse(k: Checks, public: bytes, blob: bytes)
    requires k.utf8(SSH_ED25519) && |public| == 32
    ensures PublicOf(k, blob) == Some(public) <==> TwoStrings(SSH_ED25519, public) == Some(blob)
  {
    TwoStringsInverse(k, SSH_ED25519, public, blob);
  }

  // The gate with Ed25519 as its signature scheme.
  function Ed25519Checks(e: E.Params, h: E.Hash, utf8: Utf8): Checks {
    Checks(utf8, (public: bytes, message: bytes, signature: bytes) => E.Accepts(e, h, public, message, signature))
  }

  // A request that carries the operator's own key and a signature of the session made with its
  // seed is valid, whatever the session and the user name.
  lemma SignedRequestIsValid(e: E.Params, h: E.Hash, utf8: Utf8, session: bytes, seed: bytes, r: AuthRequest, message: bytes)
    requires E.Sound(e) && |seed| == 32 && utf8(SSH_ED25519)
    requires E.PublicKey(e, h, seed).Some? && TwoStrings(SSH_ED25519, E.PublicKey(e, h, seed).value) == Some(r.keyBlob)
    requires Signed(session, r) == Some(message)
    requires E.Signature(e, h, seed, message).Some?
    requires TwoStrings(SSH_ED25519, E.Signature(e, h, seed, message).value) == Some(r.signature)
    ensures SignatureValid(Ed25519Checks(e, h, utf8), session, r)
  {
    var k, public, signature := Ed25519Checks(e, h, utf8), E.PublicKey(e, h, seed).value, E.Signature(e, h, seed, message).value;
    E.SignaturesVerify(e, h, seed, message);
    KeyBlobInverse(k, public, r.keyBlob);
    TwoStringsInverse(k, SSH_ED25519, signature, r.signature);
  }

  // The fields of SSH_MSG_USERAUTH_REQUEST with a signature (section 7 of RFC 4252).
  function Written(r: AuthRequest): Option<bytes> {
    Join(String(r.username),
    Join(String(r.service),
    Join(String(PUBLICKEY),
    Join(Some(Boolean(true)),
    Join(String(r.keyAlg),
    Join(String(r.keyBlob), String(r.signature)))))))
  }

  predicate Texts(k: Checks) {
    k.utf8(SSH_CONNECTION) && k.utf8(PUBLICKEY) && k.utf8(SSH_ED25519)
  }

  // Such a request for the connection service and an Ed25519 key is read back, and nothing else
  // is read as it.
  lemma RequestInverse(k: Checks, r: AuthRequest, body: bytes)
    requires Texts(k) && k.utf8(r.username) && r.service == SSH_CONNECTION && r.keyAlg == SSH_ED25519
    ensures ReadRequest(k, body) == Signing(r) <==> Written(r) == Some(body)
  {
    if Written(r) == Some(body) { RequestReadBack(k, r); }
    if ReadRequest(k, body) == Signing(r) { RequestIsWritten(k, r, body); }
  }

  lemma RequestReadBack(k: Checks, r: AuthRequest)
    requires Texts(k) && k.utf8(r.username) && r.service == SSH_CONNECTION && r.keyAlg == SSH_ED25519 && Written(r).Some?
    ensures ReadRequest(k, Written(r).value) == Signing(r)
  {
    KeyReadBack(k, r);
    HeadReadBack(k, r.username, r.service, PUBLICKEY, Boolean(true) + (String(r.keyAlg).value + Join(String(r.keyBlob), String(r.signature)).value));
  }

  lemma HeadReadBack(k: Checks, username: bytes, service: bytes, how: bytes, fields: bytes)
    requires k.utf8(username) && k.utf8(service) && k.utf8(how) && service == SSH_CONNECTION && how == PUBLICKEY
    requires String(username).Some? && String(service).Some? && String(how).Some?
    ensures ReadRequest(k, String(username).value + (String(service).value + (String(how).value + fields))) == ReadKey(k, username, service, fields)
  {
    StringRoundTrip(how, fields);
    StringRoundTrip(service, String(how).value + fields);
    StringRoundTrip(username, String(service).value + (String(how).value + fields));
  }

  lemma KeyReadBack(k: Checks, r: AuthRequest)
    requires Texts(k) && r.keyAlg == SSH_ED25519 && Join(String(r.keyBlob), String(r.signature)).Some?
    ensures String(r.keyAlg).Some?
    ensures ReadKey(k, r.username, r.service, Boolean(true) + (String(r.keyAlg).value + Join(String(r.keyBlob), String(r.signature)).value)) == Signing(r)
  {
    var blob := String(r.keyBlob).value + String(r.signature).value;
    StringRoundTrip(r.keyAlg, blob);
    StringRoundTrip(r.keyBlob, String(r.signature).value);
    StringRoundTrip(r.signature, []);
    assert String(r.signature).value + [] == String(r.signature).value;
    var fields := Boolean(true) + (String(r.keyAlg).value + blob);
    assert fields[0] == 1 && fields[1..] == String(r.keyAlg).value + blob;
  }

  lemma RequestIsWritten(k: Checks, r: AuthRequest, body: bytes)
    requires ReadRequest(k, body) == Signing(r)
    ensures Written(r) == Some(body)
  {
    var username := ParseText(k.utf8, body).value;
    var service := ParseText(k.utf8, username.rest).value;
    var how := ParseText(k.utf8, service.rest).value;
    StringReadIsWritten(body);
    StringReadIsWritten(username.rest);
    StringReadIsWritten(service.rest);
    KeyIsWritten(k, r, how.rest);
  }

  lemma KeyIsWritten(k: Checks, r: AuthRequest, fields: bytes)
    requires ReadKey(k, r.username, r.service, fields) == Signing(r)
    ensures Join(Some(Boolean(true)), Join(String(r.keyAlg), Join(String(r.keyBlob), String(r.signature)))) == Some(fields)
  {
    var flag := ParseBoolean(fields).value;
    var keyAlg := ParseText(k.utf8, flag.rest).value;
    var keyBlob := ParseString(keyAlg.rest).value;
    StringReadIsWritten(flag.rest);
    StringReadIsWritten(keyAlg.rest);
    StringReadIsWritten(keyBlob.rest);
    assert fields == [fields[0]] + fields[1..];
    assert String(r.signature).value + [] == String(r.signature).value;
  }

  // What an operator with a seed has to send is passed on to the client it names, if that is
  // there: the gate asks it about the key of this operator.
  lemma OperatorIsPassedOn(e: E.Params, h: E.Hash, utf8: Utf8, s: State, conn: nat, seed: bytes, r: AuthRequest, message: bytes, body: bytes)
    requires E.Sound(e) && |seed| == 32 && Texts(Ed25519Checks(e, h, utf8)) && utf8(r.username)
    requires E.PublicKey(e, h, seed).Some? && TwoStrings(SSH_ED25519, E.PublicKey(e, h, seed).value) == Some(r.keyBlob)
    requires r.service == SSH_CONNECTION && r.keyAlg == SSH_ED25519
    requires Enabled(s, Got(conn, UserAuth(body))) && s.conns[conn].phase.Authenticating?
    requires Signed(s.conns[conn].session, r) == Some(message) && E.Signature(e, h, seed, message).Some?
    requires TwoStrings(SSH_ED25519, E.Signature(e, h, seed, message).value) == Some(r.signature) && Written(r) == Some(body)
    requires Lookup(s, r.username).Some? && Lookup(s, r.username).value in s.counters
    ensures Next(Ed25519Checks(e, h, utf8), s, Got(conn, UserAuth(body))) == Ask(s, conn, r, Lookup(s, r.username).value)
  {
    SignedRequestIsValid(e, h, utf8, s.conns[conn].session, seed, r, message);
    RequestInverse(Ed25519Checks(e, h, utf8), r, body);
    ValidIsPassedOn(Ed25519Checks(e, h, utf8), s, conn, r, body);
  }

  lemma ValidIsPassedOn(k: Checks, s: State, conn: nat, r: AuthRequest, body: bytes)
    requires Enabled(s, Got(conn, UserAuth(body))) && s.conns[conn].phase.Authenticating?
    requires ReadRequest(k, body) == Signing(r) && SignatureValid(k, s.conns[conn].session, r)
    requires Lookup(s, r.username).Some? && Lookup(s, r.username).value in s.counters
    ensures Next(k, s, Got(conn, UserAuth(body))) == Ask(s, conn, r, Lookup(s, r.username).value)
  {}
}
