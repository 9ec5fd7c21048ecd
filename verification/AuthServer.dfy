/** ClientRegistry, request_auth and _authenticate of relay.py as they change their dictionaries
    and counters; each is proved to be one step of the gate in AuthGate, so that what is proved of
    the runs of the gate holds of everything a Server object ever does. */
module AuthServer {
  import opened Wrappers
  import opened Bits
  import opened SshEncoding
  import opened AuthGate
  import opened AuthHistory
  import opened Runs
  import AuthReplies

  class Server {
    const checks: Checks
    var conns: map<nat, Connection>
    var registry: map<bytes, nat>
    var alive: set<nat>
    var counters: map<nat, nat>
    var pending: map<(nat, nat), nat>
    var trace: seq<Entry>

    ghost var history: seq<Event>

    ghost function Now(): State
      reads this
    {
      State(conns, registry, alive, counters, pending, trace)
    }

    twostate predicate Did(e: Event)
      reads this
      requires Enabled(old(Now()), e)
    {
      Now() == Next(checks, old(Now()), e)
    }

    // The fields are what a run of the gate leads to.
    ghost predicate Valid()
      reads this
    {
      Possible(Gate(checks), START, history) && After(Gate(checks), START, history).s == Now()
    }

    constructor (checks: Checks)
      ensures Valid() && this.checks == checks && history == [] && Now() == START
    {
      this.checks := checks;
      conns, registry, alive, counters, pending, trace := map[], map[], {}, map[], map[], [];
      history := [];
    }

    // ClientRegistry.get
    method Get(identifier: bytes) returns (client: Option<nat>)
      ensures client == Lookup(Now(), identifier)
    {
      if identifier in registry && registry[identifier] in alive {
        return Some(registry[identifier]);
      }
      return None;
    }

    // A new RegisteredClient and ClientRegistry.add: an identifier is never taken over from a
    // client that is alive.
    method Add(identifier: bytes, client: nat) returns (added: bool)
      requires Enabled(Now(), Register(identifier, client))
      modifies `conns, `registry, `alive, `counters, `pending, `trace
      ensures Did(Register(identifier, client))
      ensures added <==> old(Lookup(Now(), identifier)).None?
      ensures if added then Lookup(Now(), identifier) == Some(client) else registry == old(registry)
    {
      var existing := Get(identifier);
      alive := alive + {client};
      counters := counters[client := 1];
      if existing.Some? {
        return false;
      }
      registry := registry[identifier := client];
      trace := trace + [Registered(identifier, client)];
      return true;
    }

    // RegisteredClient.close with ClientRegistry.remove: a successor under the same identifier
    // stays.
    method Remove(identifier: bytes, client: nat)
      requires Enabled(Now(), Lost(identifier, client))
      modifies `conns, `registry, `alive, `counters, `pending, `trace
      ensures Did(Lost(identifier, client))
      ensures forall name :: old(Lookup(Now(), name)).Some? && old(Lookup(Now(), name)) != Some(client) ==> Lookup(Now(), name) == old(Lookup(Now(), name))
    {
      alive := alive - {client};
      if identifier in registry && registry[identifier] == client {
        registry := registry - {identifier};
      }
    }

    method Answer(conn: nat, phase: Phase, entry: Entry)
      requires conn in conns
      modifies `conns, `registry, `alive, `counters, `pending, `trace
      ensures Now() == Moved(old(Now()), conn, phase, entry)
    {
      conns := conns[conn := conns[conn].(phase := phase)];
      trace := trace + [entry];
    }

    // request_auth up to the wait.
    method RequestAuth(conn: nat, r: AuthRequest, client: nat)
      requires conn in conns && client in counters
      modifies `conns, `registry, `alive, `counters, `pending, `trace
      ensures Now() == Ask(old(Now()), conn, r, client)
    {
      var authId := counters[client];
      counters := counters[client := authId + 1];
      pending := pending[(client, authId) := conn];
      Answer(conn, Waits(Waiting(r, client, authId, None)), Asked(conn, r, client, authId));
    }

    // The fields of a request are read one after the other, as far as they are needed.
    method ReadFields(body: bytes) returns (asking: Asking)
      ensures asking == ReadRequest(checks, body)
    {
      var reader := new Reader(body);
      var username := reader.Text(checks.utf8);
      if username.None? { return Broken; }
      var service := reader.Text(checks.utf8);
      if service.None? { return Broken; }
      var how := reader.Text(checks.utf8);
      if how.None? { return Broken; }
      if service.value != SSH_CONNECTION { return Unsuitable; }
      if how.value != PUBLICKEY { return Unsuitable; }
      asking := ReadKeyFields(username.value, service.value, reader);
    }

    method ReadKeyFields(username: bytes, service: bytes, reader: Reader) returns (asking: Asking)
      requires reader.Valid()
      modifies reader
      ensures asking == ReadKey(checks, username, service, old(reader.Rest()))
    {
      var hasSignature := reader.Boolean();
      if hasSignature.None? { return Broken; }
      var keyAlg := reader.Text(checks.utf8);
      if keyAlg.None? { return Broken; }
      var keyBlob := reader.String();
      if keyBlob.None? { return Broken; }
      if keyAlg.value != SSH_ED25519 { return Unsuitable; }
      if !hasSignature.value { return Probe(keyBlob.value); }
      var signature := reader.String();
      if signature.None? { return Broken; }
      var end := reader.Eof();
      if !end { return Broken; }
      return Signing(AuthRequest(username, service, keyAlg.value, keyBlob.value, signature.value));
    }

    // One turn of the second loop in _authenticate.
    method HandleUserAuth(conn: nat, body: bytes)
      requires Enabled(Now(), Got(conn, UserAuth(body))) && conns[conn].phase.Authenticating?
      modifies `conns, `registry, `alive, `counters, `pending, `trace
      ensures Did(Got(conn, UserAuth(body)))
    {
      var asking := ReadFields(body);
      match asking {
        case Broken => Answer(conn, Ended, Replied(conn, Disconnect));
        case Unsuitable => Answer(conn, Authenticating, Replied(conn, Failure));
        case Probe(keyBlob) => Answer(conn, Authenticating, Replied(conn, PkOk(keyBlob)));
        case Signing(r) => HandleSigned(conn, r);
      }
    }

    method HandleSigned(conn: nat, r: AuthRequest)
      requires conn in conns
      modifies `conns, `registry, `alive, `counters, `pending, `trace
      ensures Now() == OnSigned(checks, old(Now()), conn, r)
    {
      if SignatureValid(checks, conns[conn].session, r) {
        var client := Get(r.username);
        if client.Some? && client.value in counters {
          RequestAuth(conn, r, client.value);
          return;
        }
      }
      Answer(conn, Authenticating, Replied(conn, Failure));
    }

    // One message of a connection: the two loops of _authenticate, and what matters here of the
    // connection loop behind them.
    method HandleMessage(conn: nat, m: Message)
      requires Enabled(Now(), Got(conn, m))
      modifies `conns, `registry, `alive, `counters, `pending, `trace
      ensures Did(Got(conn, m))
    {
      match conns[conn].phase {
        case Start =>
          if m.ServiceRequest? && m.service == SSH_USERAUTH {
            Answer(conn, Authenticating, Replied(conn, ServiceAccept));
          } else if !m.Ignorable? {
            Answer(conn, Ended, Replied(conn, Disconnect));
          }
        case Authenticating =>
          match m {
            case UserAuth(body) => HandleUserAuth(conn, body);
            case _ => Answer(conn, Ended, Replied(conn, Disconnect));
          }
        case Bound(client) =>
          if m.ChannelOpen? { trace := trace + [Opened(conn, client)]; }
        case _ =>
      }
    }

    // AUTH_RESPONSE of the reader loop: the entry is popped and its waiter, if any, gets the
    // value.
    method HandleAuthResponse(client: nat, authId: nat, ok: bool)
      requires Enabled(Now(), Respond(client, authId, ok))
      modifies `conns, `registry, `alive, `counters, `pending, `trace
      ensures Did(Respond(client, authId, ok))
    {
      trace := trace + [Answered(client, authId, ok)];
      if (client, authId) !in pending {
        return;
      }
      var conn := pending[(client, authId)];
      pending := pending - {(client, authId)};
      if conn in conns && conns[conn].phase.Waits? {
        conns := conns[conn := conns[conn].(phase := Waits(conns[conn].phase.w.(answer := Some(ok))))];
      }
    }

    // request_auth returns and _authenticate goes on.
    method FinishRequestAuth(conn: nat, timedOut: bool)
      requires Enabled(Now(), Wake(conn, timedOut))
      modifies `conns, `registry, `alive, `counters, `pending, `trace
      ensures Did(Wake(conn, timedOut))
    {
      var w := conns[conn].phase.w;
      var approved := false;
      if timedOut {
        pending := pending - {(w.client, w.authId)};
      } else {
        approved := w.answer == Some(true);
      }
      if approved {
        Answer(conn, Bound(w.client), Succeeded(conn, w.client));
      } else {
        Answer(conn, Authenticating, Replied(conn, Failure));
      }
    }

    // A connection behind its key exchange.
    method AddConnection(conn: nat, session: bytes)
      requires conn !in conns
      modifies `conns
      ensures Did(Accept(conn, session))
    {
      conns := conns[conn := Connection(session, Start)];
    }

    method Dispatch(e: Event)
      requires Enabled(Now(), e)
      modifies `conns, `registry, `alive, `counters, `pending, `trace
      ensures Did(e)
    {
      match e {
        case Register(identifier, client) => var added := Add(identifier, client);
        case Lost(identifier, client) => Remove(identifier, client);
        case Accept(conn, session) => AddConnection(conn, session);
        case Got(conn, m) => HandleMessage(conn, m);
        case Respond(client, authId, ok) => HandleAuthResponse(client, authId, ok);
        case Wake(conn, timedOut) => FinishRequestAuth(conn, timedOut);
      }
    }

    method Turn(e: Event)
      requires Valid() && Enabled(Now(), e)
      modifies this
      ensures Valid() && history == old(history) + [e]
    {
      StepLast(Gate(checks), START, history, e);
      Dispatch(e);
      history := history + [e];
    }

    lemma NextIsEnabled(all: seq<Event>, k: nat)
      requires Valid() && Possible(Gate(checks), START, all) && k < |all| && history == all[..k]
      ensures Enabled(Now(), all[k])
    {
      EnabledBefore(Gate(checks), START, all, k);
    }

    // Whatever happens, in whatever order it happens: the methods run the gate.
    method Serve(events: seq<Event>)
      requires Valid() && Possible(Gate(checks), START, history + events)
      modifies this
      ensures Valid() && history == old(history) + events
    {
      ghost var all, done := history + events, |history|;
      for i := 0 to |events|
        invariant Valid() && history == all[..done + i]
      {
        NextIsEnabled(all, done + i);
        Turn(events[i]);
        assert all[..done + i] + [all[done + i]] == all[..done + i + 1];
      }
    }

    // Whatever happened to a server: it let nobody in, and opened no channel for anybody, without
    // the approval of the client for a validly signed request.
    lemma TraceIsSafe(n: nat)
      requires Valid() && n < |trace| && (trace[n].Succeeded? || trace[n].Opened?)
      ensures LetInProperly(checks, Now(), trace[n].conn, trace[n].client, n)
    {
      if trace[n].Succeeded? { SuccessIsApproved(checks, history, n); } else { OpenIsApproved(checks, history, n); }
    }

    // Every entry of its trace is the one that its step called for, and all that were called for are there.
    lemma TraceIsCalledFor(i: nat, entry: Entry)
      requires Valid() && checks.utf8(Ascii("ssh-ed25519"))
      ensures (i < |trace| && trace[i] == entry) <==>
        exists a: nat :: a < |history| && AuthReplies.CallsFor(checks, history, a, i, entry)
    {
      AuthReplies.EntriesExactly(checks, history, i, entry);
    }
  }
}
