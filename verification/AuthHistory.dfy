/** What every run of the authentication gate keeps: nobody is let in without a valid signature
    and an approval that answers exactly that request. */
module AuthHistory {
  import opened Wrappers
  import opened Bits
  import opened SshEncoding
  import opened Runs
  import opened AuthGate

  // ------------------------------------------------------------- invariant

  // Among the first n entries: the request of this connection to this client and, behind it,
  // the client's approval under the same id.
  ghost predicate ApprovedBefore(trace: seq<Entry>, n: nat, conn: nat, client: nat) {
    exists i, j :: 0 <= i < j < n <= |trace| && Approves(trace, i, j, conn, client)
  }

  predicate Approves(trace: seq<Entry>, i: nat, j: nat, conn: nat, client: nat)
    requires i < |trace| && j < |trace|
  {
    trace[i].Asked? && trace[i].conn == conn && trace[i].client == client && trace[j] == Answered(client, trace[i].authId, true)
  }

  ghost predicate SucceededBefore(trace: seq<Entry>, n: nat, conn: nat, client: nat) {
    exists i :: 0 <= i < n <= |trace| && trace[i] == Succeeded(conn, client)
  }

  ghost predicate RegisteredBefore(trace: seq<Entry>, n: nat, identifier: bytes, client: nat) {
    exists i :: 0 <= i < n <= |trace| && trace[i] == Registered(identifier, client)
  }

  ghost predicate EntryAt(k: Checks, s: State, i: nat)
    requires i < |s.trace|
  {
    match s.trace[i]
    case Asked(conn, r, client, id) =>
      && conn in s.conns && SignatureValid(k, s.conns[conn].session, r)
      && r.service == SSH_CONNECTION && r.keyAlg == SSH_ED25519
      && RegisteredBefore(s.trace, i, r.username, client) && client in s.counters && id < s.counters[client]
    case Succeeded(conn, client) => ApprovedBefore(s.trace, i, conn, client)
    case Opened(conn, client) => SucceededBefore(s.trace, i, conn, client)
    case _ => true
  }

  // Ids of one client are handed out in growing order.
  predicate InOrder(a: Entry, b: Entry) {
    a.Asked? && b.Asked? && a.client == b.client ==> a.authId < b.authId
  }

  ghost predicate WaitsOk(trace: seq<Entry>, conn: nat, w: Waiting) {
    exists i :: 0 <= i < |trace| && trace[i] == Asked(conn, w.request, w.client, w.authId)
                && (w.answer.Some? ==> AnsweredAfter(trace, i, w.client, w.authId, w.answer.value))
  }

  ghost predicate AnsweredAfter(trace: seq<Entry>, i: nat, client: nat, authId: nat, ok: bool) {
    exists j :: i < j < |trace| && trace[j] == Answered(client, authId, ok)
  }

  ghost predicate ConnAt(s: State, conn: nat)
    requires conn in s.conns
  {
    match s.conns[conn].phase
    case Waits(w) =>
      WaitsOk(s.trace, conn, w) && (w.answer.None? ==> (w.client, w.authId) in s.pending && s.pending[(w.client, w.authId)] == conn)
    case Bound(client) => SucceededBefore(s.trace, |s.trace|, conn, client)
    case _ => true
  }

  // Whoever is to get the answer waits for exactly this answer.
  predicate PendingAt(s: State, key: (nat, nat))
    requires key in s.pending
  {
    s.pending[key] in s.conns &&
    var phase := s.conns[s.pending[key]].phase;
    phase.Waits? && (phase.w.client, phase.w.authId) == key && phase.w.answer.None?
  }

  ghost predicate Inv(k: Checks, s: State) {
    && (forall i :: 0 <= i < |s.trace| ==> EntryAt(k, s, i))
    && (forall i, j :: 0 <= i < j < |s.trace| ==> InOrder(s.trace[i], s.trace[j]))
    && (forall conn :: conn in s.conns ==> ConnAt(s, conn))
    && (forall key :: key in s.pending ==> PendingAt(s, key))
    && (forall name :: name in s.registry ==> RegisteredBefore(s.trace, |s.trace|, name, s.registry[name]))
  }

  // ------------------------------------------------------ kept by every step

  // t continues s: sessions stay, counters grow, and the trace gets longer.
  ghost predicate Continues(s: State, t: State) {
    && (forall conn :: conn in s.conns ==> conn in t.conns && t.conns[conn].session == s.conns[conn].session)
    && (forall client :: client in s.counters ==> client in t.counters && s.counters[client] <= t.counters[client])
    && s.trace <= t.trace
  }

  lemma ApprovedStays(trace: seq<Entry>, longer: seq<Entry>, n: nat, conn: nat, client: nat)
    requires trace <= longer && ApprovedBefore(trace, n, conn, client)
    ensures ApprovedBefore(longer, n, conn, client)
  {
    var i, j :| 0 <= i < j < n <= |trace| && Approves(trace, i, j, conn, client);
    assert Approves(longer, i, j, conn, client);
  }

  lemma SucceededStays(trace: seq<Entry>, longer: seq<Entry>, n: nat, m: nat, conn: nat, client: nat)
    requires trace <= longer && n <= m <= |longer| && SucceededBefore(trace, n, conn, client)
    ensures SucceededBefore(longer, m, conn, client)
  {
    var i :| 0 <= i < n <= |trace| && trace[i] == Succeeded(conn, client);
    assert longer[i] == Succeeded(conn, client);
  }

  lemma RegisteredStays(trace: seq<Entry>, longer: seq<Entry>, n: nat, m: nat, identifier: bytes, client: nat)
    requires trace <= longer && n <= m <= |longer| && RegisteredBefore(trace, n, identifier, client)
    ensures RegisteredBefore(longer, m, identifier, client)
  {
    var i :| 0 <= i < n <= |trace| && trace[i] == Registered(identifier, client);
    assert longer[i] == Registered(identifier, client);
  }

  lemma WaitsStays(trace: seq<Entry>, longer: seq<Entry>, conn: nat, w: Waiting)
    requires trace <= longer && WaitsOk(trace, conn, w)
    ensures WaitsOk(longer, conn, w)
  {
    var i :| 0 <= i < |trace| && trace[i] == Asked(conn, w.request, w.client, w.authId)
             && (w.answer.Some? ==> AnsweredAfter(trace, i, w.client, w.authId, w.answer.value));
    assert longer[i] == trace[i];
    if w.answer.Some? {
      var j :| i < j < |trace| && trace[j] == Answered(w.client, w.authId, w.answer.value);
      assert longer[j] == trace[j];
    }
  }

  lemma EntriesStay(k: Checks, s: State, t: State)
    requires Inv(k, s) && Continues(s, t)
    ensures forall i :: 0 <= i < |s.trace| ==> EntryAt(k, t, i)
  {
    forall i | 0 <= i < |s.trace|
      ensures EntryAt(k, t, i)
    {
      assert EntryAt(k, s, i) && t.trace[i] == s.trace[i];
      match s.trace[i] {
        case Asked(_, r, client, _) => RegisteredStays(s.trace, t.trace, i, i, r.username, client);
        case Succeeded(conn, client) => ApprovedStays(s.trace, t.trace, i, conn, client);
        case Opened(conn, client) => SucceededStays(s.trace, t.trace, i, i, conn, client);
        case _ =>
      }
    }
  }

  // A connection whose phase does not change.
  lemma ConnStays(s: State, t: State, conn: nat)
    requires conn in s.conns && conn in t.conns && t.conns[conn].phase == s.conns[conn].phase && s.trace <= t.trace && ConnAt(s, conn)
    requires s.conns[conn].phase.Waits? && s.conns[conn].phase.w.answer.None? ==>
      var key := (s.conns[conn].phase.w.client, s.conns[conn].phase.w.authId);
      key in t.pending && key in s.pending && t.pending[key] == s.pending[key]
    ensures ConnAt(t, conn)
  {
    match s.conns[conn].phase {
      case Waits(w) => WaitsStays(s.trace, t.trace, conn, w);
      case Bound(client) => SucceededStays(s.trace, t.trace, |s.trace|, |t.trace|, conn, client);
      case _ =>
    }
  }

  // A step that adds at most one entry, gives one connection a new phase, and stops or starts
  // waiting only there.
  ghost predicate OneMoved(s: State, t: State, conn: nat) {
    && Continues(s, t) && conn in t.conns && t.conns.Keys == s.conns.Keys + {conn}
    && |t.trace| <= |s.trace| + 1 && t.registry == s.registry
    && (forall other :: other in s.conns && other != conn ==> t.conns[other] == s.conns[other])
    && (forall key :: key in s.pending && s.pending[key] != conn ==> key in t.pending && t.pending[key] == s.pending[key])
    && (forall key :: key in t.pending && t.pending[key] != conn ==> key in s.pending && t.pending[key] == s.pending[key])
  }

  lemma OneMovedKeeps(k: Checks, s: State, t: State, conn: nat)
    requires Inv(k, s) && OneMoved(s, t, conn)
    requires ConnAt(t, conn)
    requires forall key :: key in t.pending && t.pending[key] == conn ==> PendingAt(t, key)
    requires |t.trace| > |s.trace| ==> EntryAt(k, t, |s.trace|) && forall i :: 0 <= i < |s.trace| ==> InOrder(s.trace[i], t.trace[|s.trace|])
    ensures Inv(k, t)
  {
    EntriesStay(k, s, t);
    forall i, j | 0 <= i < j < |t.trace|
      ensures InOrder(t.trace[i], t.trace[j])
    {
      assert t.trace[i] == s.trace[i];
      if j < |s.trace| { assert InOrder(s.trace[i], s.trace[j]); }
    }
    forall other | other in t.conns
      ensures ConnAt(t, other)
    {
      if other != conn {
        assert ConnAt(s, other);
        ConnStays(s, t, other);
      }
    }
    forall key | key in t.pending
      ensures PendingAt(t, key)
    {
      if t.pending[key] != conn { assert PendingAt(s, key); }
    }
    RegistryStays(k, s, t);
  }

  lemma RegistryStays(k: Checks, s: State, t: State)
    requires Inv(k, s) && s.trace <= t.trace && t.registry == s.registry
    ensures forall name :: name in t.registry ==> RegisteredBefore(t.trace, |t.trace|, name, t.registry[name])
  {
    forall name | name in t.registry
      ensures RegisteredBefore(t.trace, |t.trace|, name, t.registry[name])
    {
      RegisteredStays(s.trace, t.trace, |s.trace|, |t.trace|, name, t.registry[name]);
    }
  }

  // A connection that is not waiting is not awaited.
  lemma NotAwaited(k: Checks, s: State, conn: nat)
    requires Inv(k, s) && conn in s.conns && !s.conns[conn].phase.Waits?
    ensures forall key :: key in s.pending ==> s.pending[key] != conn
  {
    forall key | key in s.pending
      ensures s.pending[key] != conn
    {
      assert PendingAt(s, key);
    }
  }

  // A fresh id is larger than every id handed out before.
  lemma FreshId(k: Checks, s: State, client: nat)
    requires Inv(k, s) && client in s.counters
    ensures forall i :: 0 <= i < |s.trace| && s.trace[i].Asked? && s.trace[i].client == client ==> s.trace[i].authId < s.counters[client]
    ensures (client, s.counters[client]) !in s.pending
  {
    forall i | 0 <= i < |s.trace| && s.trace[i].Asked? && s.trace[i].client == client
      ensures s.trace[i].authId < s.counters[client]
    {
      assert EntryAt(k, s, i);
    }
    forall key | key in s.pending
      ensures key != (client, s.counters[client])
    {
      assert PendingAt(s, key);
      var w := s.conns[s.pending[key]].phase.w;
      assert ConnAt(s, s.pending[key]);
      var i :| 0 <= i < |s.trace| && s.trace[i] == Asked(s.pending[key], w.request, w.client, w.authId);
    }
  }

  lemma AskMoves(s: State, conn: nat, r: AuthRequest, client: nat)
    requires conn in s.conns && client in s.counters && (client, s.counters[client]) !in s.pending
    requires forall key :: key in s.pending ==> s.pending[key] != conn
    ensures OneMoved(s, Ask(s, conn, r, client), conn)
  {}

  lemma AskWaits(s: State, conn: nat, r: AuthRequest, client: nat)
    requires conn in s.conns && client in s.counters
    ensures var t, id := Ask(s, conn, r, client), s.counters[client];
      && t.trace == s.trace + [Asked(conn, r, client, id)] && ConnAt(t, conn)
      && t.conns[conn].phase == Waits(Waiting(r, client, id, None)) && t.pending == s.pending[(client, id) := conn]
  {
    var t := Ask(s, conn, r, client);
    assert t.trace[|s.trace|] == Asked(conn, r, client, s.counters[client]);
    assert WaitsOk(t.trace, conn, Waiting(r, client, s.counters[client], None));
  }

  lemma AskKeeps(k: Checks, s: State, conn: nat, r: AuthRequest, client: nat)
    requires Inv(k, s) && conn in s.conns && !s.conns[conn].phase.Waits? && client in s.counters
    requires SignatureValid(k, s.conns[conn].session, r)
    requires r.service == SSH_CONNECTION && r.keyAlg == SSH_ED25519
    requires r.username in s.registry && s.registry[r.username] == client
    ensures Inv(k, Ask(s, conn, r, client))
  {
    var t := Ask(s, conn, r, client);
    FreshId(k, s, client);
    NotAwaited(k, s, conn);
    AskWaits(s, conn, r, client);
    RegisteredStays(s.trace, t.trace, |s.trace|, |s.trace|, r.username, client);
    AskMoves(s, conn, r, client);
    OneMovedKeeps(k, s, t, conn);
  }

  // A connection that does not wait goes on, with a reply.
  lemma RepliedKeeps(k: Checks, s: State, conn: nat, phase: Phase, reply: Reply)
    requires Inv(k, s) && conn in s.conns && !s.conns[conn].phase.Waits? && !phase.Waits? && !phase.Bound?
    ensures Inv(k, Moved(s, conn, phase, Replied(conn, reply)))
  {
    NotAwaited(k, s, conn);
    OneMovedKeeps(k, s, Moved(s, conn, phase, Replied(conn, reply)), conn);
  }

  lemma OpenedKeeps(k: Checks, s: State, conn: nat, client: nat)
    requires Inv(k, s) && conn in s.conns && s.conns[conn].phase == Bound(client)
    ensures Inv(k, s.(trace := s.trace + [Opened(conn, client)]))
  {
    var t := s.(trace := s.trace + [Opened(conn, client)]);
    assert ConnAt(s, conn);
    NotAwaited(k, s, conn);
    SucceededStays(s.trace, t.trace, |s.trace|, |s.trace|, conn, client);
    ConnStays(s, t, conn);
    OneMovedKeeps(k, s, t, conn);
  }

  lemma SignedKeeps(k: Checks, s: State, conn: nat, r: AuthRequest)
    requires Inv(k, s) && conn in s.conns && !s.conns[conn].phase.Waits?
    requires r.service == SSH_CONNECTION && r.keyAlg == SSH_ED25519
    ensures Inv(k, OnSigned(k, s, conn, r))
  {
    if SignatureValid(k, s.conns[conn].session, r) && Lookup(s, r.username).Some? && Lookup(s, r.username).value in s.counters {
      AskKeeps(k, s, conn, r, Lookup(s, r.username).value);
    } else {
      RepliedKeeps(k, s, conn, Authenticating, Failure);
    }
  }

  lemma UserAuthKeeps(k: Checks, s: State, conn: nat, body: bytes)
    requires Inv(k, s) && conn in s.conns && !s.conns[conn].phase.Waits?
    ensures Inv(k, OnUserAuth(k, s, conn, body))
  {
    match ReadRequest(k, body) {
      case Broken => RepliedKeeps(k, s, conn, Ended, Disconnect);
      case Unsuitable => RepliedKeeps(k, s, conn, Authenticating, Failure);
      case Probe(keyBlob) => RepliedKeeps(k, s, conn, Authenticating, PkOk(keyBlob));
      case Signing(r) =>
        SigningNames(k, body);
        SignedKeeps(k, s, conn, r);
    }
  }

  lemma SigningNames(k: Checks, body: bytes)
    requires ReadRequest(k, body).Signing?
    ensures var r := ReadRequest(k, body).request; r.service == SSH_CONNECTION && r.keyAlg == SSH_ED25519
  {}

  lemma MessageKeeps(k: Checks, s: State, conn: nat, m: Message)
    requires Inv(k, s) && Enabled(s, Got(conn, m))
    ensures Inv(k, OnMessage(k, s, conn, m))
  {
    match s.conns[conn].phase {
      case Start =>
        if m.ServiceRequest? && m.service == SSH_USERAUTH {
          RepliedKeeps(k, s, conn, Authenticating, ServiceAccept);
        } else if !m.Ignorable? {
          RepliedKeeps(k, s, conn, Ended, Disconnect);
        }
      case Authenticating =>
        if m.UserAuth? {
          UserAuthKeeps(k, s, conn, m.body);
        } else {
          RepliedKeeps(k, s, conn, Ended, Disconnect);
        }
      case Bound(client) => if m.ChannelOpen? { OpenedKeeps(k, s, conn, client); }
    }
  }

  lemma ResponseMoves(s: State, client: nat, authId: nat, ok: bool)
    requires (client, authId) in s.pending && s.pending[(client, authId)] in s.conns
    requires s.conns[s.pending[(client, authId)]].phase.Waits?
    ensures OneMoved(s, OnResponse(s, client, authId, ok), s.pending[(client, authId)])
  {}

  lemma ResponseKeeps(k: Checks, s: State, client: nat, authId: nat, ok: bool)
    requires Inv(k, s)
    ensures Inv(k, OnResponse(s, client, authId, ok))
  {
    var key, t := (client, authId), OnResponse(s, client, authId, ok);
    if key in s.pending {
      assert PendingAt(s, key);
      var conn := s.pending[key];
      var w := s.conns[conn].phase.w;
      assert ConnAt(s, conn);
      var i :| 0 <= i < |s.trace| && s.trace[i] == Asked(conn, w.request, w.client, w.authId);
      assert t.trace[i] == s.trace[i] && t.trace[|s.trace|] == Answered(client, authId, ok);
      assert AnsweredAfter(t.trace, i, client, authId, ok);
      assert WaitsOk(t.trace, conn, w.(answer := Some(ok)));
      AwaitedOnce(k, s, conn);
      ResponseMoves(s, client, authId, ok);
      OneMovedKeeps(k, s, t, conn);
    } else {
      NotedKeeps(k, s, Answered(client, authId, ok));
    }
  }

  // An answer that nobody waits for changes nothing but the trace.
  lemma NotedKeeps(k: Checks, s: State, entry: Entry)
    requires Inv(k, s) && (entry.Answered? || entry.Replied?)
    ensures Inv(k, s.(trace := s.trace + [entry]))
  {
    var t := s.(trace := s.trace + [entry]);
    EntriesStay(k, s, t);
    forall i, j | 0 <= i < j < |t.trace|
      ensures InOrder(t.trace[i], t.trace[j])
    {
      if j < |s.trace| { assert InOrder(s.trace[i], s.trace[j]); }
    }
    forall other | other in t.conns
      ensures ConnAt(t, other)
    {
      assert ConnAt(s, other);
      ConnStays(s, t, other);
    }
    forall key | key in t.pending
      ensures PendingAt(t, key)
    {
      assert PendingAt(s, key);
    }
    RegistryStays(k, s, t);
  }

  // Only the wait of this connection is over.
  lemma AwaitedOnce(k: Checks, s: State, conn: nat)
    requires Inv(k, s) && conn in s.conns && s.conns[conn].phase.Waits?
    ensures var w := s.conns[conn].phase.w;
      forall key :: key in s.pending && s.pending[key] == conn ==> key == (w.client, w.authId) && w.answer.None?
  {
    forall key | key in s.pending && s.pending[key] == conn
      ensures key == (s.conns[conn].phase.w.client, s.conns[conn].phase.w.authId) && s.conns[conn].phase.w.answer.None?
    {
      assert PendingAt(s, key);
    }
  }

  lemma LetInKeeps(k: Checks, s: State, conn: nat)
    requires Inv(k, s) && conn in s.conns && s.conns[conn].phase.Waits? && s.conns[conn].phase.w.answer == Some(true)
    ensures Inv(k, LetIn(s, conn, s.conns[conn].phase.w.client))
  {
    var w := s.conns[conn].phase.w;
    var t := LetIn(s, conn, w.client);
    assert ConnAt(s, conn);
    AwaitedOnce(k, s, conn);
    var i :| 0 <= i < |s.trace| && s.trace[i] == Asked(conn, w.request, w.client, w.authId)
             && AnsweredAfter(s.trace, i, w.client, w.authId, true);
    var j :| i < j < |s.trace| && s.trace[j] == Answered(w.client, w.authId, true);
    assert Approves(t.trace, i, j, conn, w.client);
    assert t.trace[|s.trace|] == Succeeded(conn, w.client);
    OneMovedKeeps(k, s, t, conn);
  }

  // No two connections wait for the same id of the same client.
  lemma OneWaiter(k: Checks, s: State, conn: nat)
    requires Inv(k, s) && conn in s.conns && s.conns[conn].phase.Waits?
    ensures var key := (s.conns[conn].phase.w.client, s.conns[conn].phase.w.authId); key in s.pending ==> s.pending[key] == conn
  {
    var w := s.conns[conn].phase.w;
    var key := (w.client, w.authId);
    if key in s.pending {
      assert PendingAt(s, key);
      var other := s.pending[key];
      var v := s.conns[other].phase.w;
      assert ConnAt(s, conn) && ConnAt(s, other);
      var i :| 0 <= i < |s.trace| && s.trace[i] == Asked(conn, w.request, w.client, w.authId);
      var j :| 0 <= j < |s.trace| && s.trace[j] == Asked(other, v.request, v.client, v.authId);
      assert i < j ==> InOrder(s.trace[i], s.trace[j]);
      assert j < i ==> InOrder(s.trace[j], s.trace[i]);
    }
  }

  lemma RefusedMoves(s: State, conn: nat, timedOut: bool)
    requires conn in s.conns && s.conns[conn].phase.Waits?
    requires var key := (s.conns[conn].phase.w.client, s.conns[conn].phase.w.authId); key in s.pending ==> s.pending[key] == conn
    ensures OneMoved(s, Refused(s, conn, timedOut), conn)
  {}

  lemma RefusedKeeps(k: Checks, s: State, conn: nat, timedOut: bool)
    requires Inv(k, s) && conn in s.conns && s.conns[conn].phase.Waits? && (timedOut || s.conns[conn].phase.w.answer.Some?)
    ensures Inv(k, Refused(s, conn, timedOut))
  {
    AwaitedOnce(k, s, conn);
    OneWaiter(k, s, conn);
    RefusedMoves(s, conn, timedOut);
    OneMovedKeeps(k, s, Refused(s, conn, timedOut), conn);
  }

  lemma WakeKeeps(k: Checks, s: State, conn: nat, timedOut: bool)
    requires Inv(k, s) && Enabled(s, Wake(conn, timedOut))
    ensures Inv(k, OnWake(s, conn, timedOut))
  {
    if !timedOut && s.conns[conn].phase.w.answer == Some(true) {
      LetInKeeps(k, s, conn);
    } else {
      RefusedKeeps(k, s, conn, timedOut);
    }
  }

  // Connections and waits are not touched.
  lemma QuietKeeps(k: Checks, s: State, t: State)
    requires Inv(k, s) && Continues(s, t) && t.pending == s.pending
    requires forall conn :: conn in t.conns ==> if conn in s.conns then t.conns[conn] == s.conns[conn] else t.conns[conn].phase.Start?
    requires forall i :: |s.trace| <= i < |t.trace| ==> t.trace[i].Registered?
    requires forall name :: name in t.registry ==> RegisteredBefore(t.trace, |t.trace|, name, t.registry[name])
    ensures Inv(k, t)
  {
    EntriesStay(k, s, t);
    forall i, j | 0 <= i < j < |t.trace|
      ensures InOrder(t.trace[i], t.trace[j])
    {
      if j < |s.trace| { assert InOrder(s.trace[i], s.trace[j]); }
    }
    forall other | other in t.conns
      ensures ConnAt(t, other)
    {
      if other in s.conns {
        assert ConnAt(s, other);
        ConnStays(s, t, other);
      }
    }
    forall key | key in t.pending
      ensures PendingAt(t, key)
    {
      assert PendingAt(s, key);
    }
  }

  lemma RegisterKeeps(k: Checks, s: State, e: Event)
    requires Inv(k, s) && Enabled(s, e) && (e.Register? || e.Lost? || e.Accept?)
    ensures Inv(k, Next(k, s, e))
  {
    var t := Next(k, s, e);
    forall name | name in t.registry
      ensures RegisteredBefore(t.trace, |t.trace|, name, t.registry[name])
    {
      if name in s.registry && s.registry[name] == t.registry[name] {
        RegisteredStays(s.trace, t.trace, |s.trace|, |t.trace|, name, t.registry[name]);
      } else {
        assert t.trace[|s.trace|] == Registered(name, t.registry[name]);
      }
    }
    QuietKeeps(k, s, t);
  }

  lemma NextKeeps(k: Checks, s: State, e: Event)
    requires Inv(k, s) && Enabled(s, e)
    ensures Inv(k, Next(k, s, e))
  {
    match e {
      case Got(conn, m) => MessageKeeps(k, s, conn, m);
      case Respond(client, authId, ok) => ResponseKeeps(k, s, client, authId, ok);
      case Wake(conn, timedOut) => WakeKeeps(k, s, conn, timedOut);
      case _ => RegisterKeeps(k, s, e);
    }
  }

  // ------------------------------------------------------------------ runs

  lemma GateConsistent(k: Checks, events: seq<Event>)
    requires Possible(Gate(k), START, events)
    ensures Inv(k, After(Gate(k), START, events).s)
  {
    var inv, m := (s: State) => Inv(k, s), Gate(k);
    forall s, e | inv(s) && m.enabled(s, e)
      ensures inv(m.step(s, e).s)
    {
      NextKeeps(k, s, e);
    }
    RunKeeps(m, inv, START, events);
  }

  // Entry number n lets a connection in, or opens a channel for it, only when there are before
  // it, in this order: the registration of a client, a request of this connection with a valid
  // signature over its own session, for the name of that client, passed on to that client
  // under a fresh id, and that client's approval of this very id.
  ghost predicate LetInProperly(k: Checks, s: State, conn: nat, client: nat, n: nat) {
    exists h, i, j :: 0 <= h < i < j < n <= |s.trace| && Proper(k, s, conn, client, h, i, j)
  }

  ghost predicate Proper(k: Checks, s: State, conn: nat, client: nat, h: nat, i: nat, j: nat)
    requires h < |s.trace| && i < |s.trace| && j < |s.trace|
  {
    && conn in s.conns && s.trace[i].Asked? && s.trace[i].conn == conn && s.trace[i].client == client
    && s.trace[h] == Registered(s.trace[i].request.username, client)
    && SignatureValid(k, s.conns[conn].session, s.trace[i].request)
    && s.trace[j] == Answered(client, s.trace[i].authId, true)
    && forall other :: 0 <= other < |s.trace| && other != i && s.trace[other].Asked? && s.trace[other].client == client ==>
         s.trace[other].authId != s.trace[i].authId
  }

  lemma ApprovedIsProper(k: Checks, s: State, conn: nat, client: nat, n: nat)
    requires Inv(k, s) && ApprovedBefore(s.trace, n, conn, client)
    ensures LetInProperly(k, s, conn, client, n)
  {
    var i, j :| 0 <= i < j < n <= |s.trace| && Approves(s.trace, i, j, conn, client);
    assert EntryAt(k, s, i);
    var h :| 0 <= h < i && s.trace[h] == Registered(s.trace[i].request.username, client);
    forall other | 0 <= other < |s.trace| && other != i && s.trace[other].Asked? && s.trace[other].client == client
      ensures s.trace[other].authId != s.trace[i].authId
    {
      assert other < i ==> InOrder(s.trace[other], s.trace[i]);
      assert i < other ==> InOrder(s.trace[i], s.trace[other]);
    }
    assert Proper(k, s, conn, client, h, i, j);
  }

  lemma EntryIsProper(k: Checks, s: State, n: nat)
    requires Inv(k, s) && n < |s.trace| && (s.trace[n].Succeeded? || s.trace[n].Opened?)
    ensures LetInProperly(k, s, s.trace[n].conn, s.trace[n].client, n)
  {
    var conn, client := s.trace[n].conn, s.trace[n].client;
    assert EntryAt(k, s, n);
    if s.trace[n].Succeeded? {
      ApprovedIsProper(k, s, conn, client, n);
    } else {
      var i :| 0 <= i < n && s.trace[i] == Succeeded(conn, client);
      assert EntryAt(k, s, i);
      ApprovedIsProper(k, s, conn, client, i);
      var a, b, c :| 0 <= a < b < c < i <= |s.trace| && Proper(k, s, conn, client, a, b, c);
      assert 0 <= a < b < c < n;
    }
  }

  // In every run, with any number of connections and clients interleaved: USERAUTH_SUCCESS ...
  lemma SuccessIsApproved(k: Checks, events: seq<Event>, n: nat)
    requires Possible(Gate(k), START, events)
    requires var s := After(Gate(k), START, events).s; n < |s.trace| && s.trace[n].Succeeded?
    ensures var s := After(Gate(k), START, events).s; LetInProperly(k, s, s.trace[n].conn, s.trace[n].client, n)
  {
    GateConsistent(k, events);
    EntryIsProper(k, After(Gate(k), START, events).s, n);
  }

  // ... and every OPEN_CHANNEL.
  lemma OpenIsApproved(k: Checks, events: seq<Event>, n: nat)
    requires Possible(Gate(k), START, events)
    requires var s := After(Gate(k), START, events).s; n < |s.trace| && s.trace[n].Opened?
    ensures var s := After(Gate(k), START, events).s; LetInProperly(k, s, s.trace[n].conn, s.trace[n].client, n)
  {
    GateConsistent(k, events);
    EntryIsProper(k, After(Gate(k), START, events).s, n);
  }

  // An answer goes to no other waiter: at most the connection that waits for this id of this
  // client moves, and late or repeated answers move none.
  lemma AnswersReachTheirAsker(k: Checks, events: seq<Event>, client: nat, authId: nat, ok: bool, conn: nat)
    requires Possible(Gate(k), START, events)
    requires conn in After(Gate(k), START, events).s.conns
    ensures var s := After(Gate(k), START, events).s; var t := OnResponse(s, client, authId, ok);
      && conn in t.conns && t.registry == s.registry
      && (t.conns[conn] != s.conns[conn] ==>
            && s.conns[conn].phase.Waits? && s.conns[conn].phase.w.client == client && s.conns[conn].phase.w.authId == authId
            && t.conns[conn].phase == Waits(s.conns[conn].phase.w.(answer := Some(ok))))
      && ((client, authId) !in s.pending ==> t == s.(trace := s.trace + [Answered(client, authId, ok)]))
  {
    GateConsistent(k, events);
    var s := After(Gate(k), START, events).s;
    if (client, authId) in s.pending { assert PendingAt(s, (client, authId)); }
  }

  // Section 11.2 of RFC 4253 wants an ignorable message to be ignored at any time.  It is, except
  // between the service request and the end of authentication, where it ends the connection.
  lemma IgnorableIsIgnored(k: Checks, s: State, conn: nat)
    requires Enabled(s, Got(conn, Ignorable))
    ensures Next(k, s, Got(conn, Ignorable)) == s <==> !s.conns[conn].phase.Authenticating?
    ensures s.conns[conn].phase.Authenticating? ==> Next(k, s, Got(conn, Ignorable)).conns[conn].phase.Ended?
  {
    var t := Next(k, s, Got(conn, Ignorable));
    assert s.conns[conn].phase.Authenticating? ==> |t.trace| == |s.trace| + 1;
  }

  // -------------------------------------------------------------- allowlists

  // A client that approves only requests it was asked for, with keys of an allowlist.
  ghost predicate ApprovesOnly(trace: seq<Entry>, client: nat, allowed: set<bytes>) {
    forall j :: 0 <= j < |trace| && trace[j].Answered? && trace[j].client == client && trace[j].ok ==>
      exists i :: 0 <= i < j && AsksAllowed(trace[i], client, trace[j].authId, allowed)
  }

  predicate AsksAllowed(entry: Entry, client: nat, authId: nat, allowed: set<bytes>) {
    entry.Asked? && entry.client == client && entry.authId == authId && entry.request.keyBlob in allowed
  }

  // A request of this connection with a valid signature over its session and an allowed key.
  ghost predicate AllowedRequest(k: Checks, s: State, conn: nat, allowed: set<bytes>, i: nat)
    requires i < |s.trace|
  {
    && s.trace[i].Asked? && s.trace[i].conn == conn && s.trace[i].request.keyBlob in allowed
    && conn in s.conns && SignatureValid(k, s.conns[conn].session, s.trace[i].request)
  }

  lemma AllowedBefore(k: Checks, s: State, n: nat, allowed: set<bytes>)
    requires Inv(k, s) && n < |s.trace| && (s.trace[n].Succeeded? || s.trace[n].Opened?)
    requires ApprovesOnly(s.trace, s.trace[n].client, allowed)
    ensures exists i :: 0 <= i < n && AllowedRequest(k, s, s.trace[n].conn, allowed, i)
  {
    EntryIsProper(k, s, n);
    var conn, client := s.trace[n].conn, s.trace[n].client;
    var h, i, j :| 0 <= h < i < j < n <= |s.trace| && Proper(k, s, conn, client, h, i, j);
    var asked :| 0 <= asked < j && AsksAllowed(s.trace[asked], client, s.trace[j].authId, allowed);
    assert asked == i;
    assert AllowedRequest(k, s, conn, allowed, i);
  }

  // With such a client, only operators with a key of the allowlist are let in.
  lemma StrictClientsKeepOut(k: Checks, events: seq<Event>, n: nat, allowed: set<bytes>)
    requires Possible(Gate(k), START, events)
    requires var s := After(Gate(k), START, events).s;
      n < |s.trace| && (s.trace[n].Succeeded? || s.trace[n].Opened?) && ApprovesOnly(s.trace, s.trace[n].client, allowed)
    ensures var s := After(Gate(k), START, events).s;
      exists i :: 0 <= i < n && AllowedRequest(k, s, s.trace[n].conn, allowed, i)
  {
    GateConsistent(k, events);
    AllowedBefore(k, After(Gate(k), START, events).s, n, allowed);
  }
}
