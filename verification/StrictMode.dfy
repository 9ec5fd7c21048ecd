/** The gate of relay.py and one reverse client in strict mode (REVERSH_OPERATOR_KEYS),
    joined by the frames between them: every request that the gate passes on travels to the
    client, which decides it by its allowlist, and the decision travels back.  Everything else, other
    clients included, is up to the schedule. */
module StrictMode {
  import opened Wrappers
  import opened Bits
  import opened Runs
  import opened AuthGate
  import opened AuthHistory
  import opened ReverseClient

  // AUTH_REQUEST
  datatype AuthFrame = AuthFrame(authId: nat, keyBlob: bytes)

  datatype Both = Both(gate: State, inbox: seq<AuthFrame>, outbox: seq<AuthResponse>)

  datatype Joint = OfGate(e: Event) | ClientDecides | AnswerArrives

  const TOGETHER := Both(START, [], [])

  predicate CanHappen(client: nat, s: Both, e: Joint) {
    match e
    case OfGate(g) => Enabled(s.gate, g) && !(g.Respond? && g.client == client)
    case ClientDecides => s.inbox != []
    case AnswerArrives => s.outbox != [] && client in s.gate.counters
  }

  // The frame that request_auth has sent to this client in a step.
  function PassedOn(s: State, t: State, client: nat): seq<AuthFrame> {
    if |t.trace| == |s.trace| + 1 && t.trace[|s.trace|].Asked? && t.trace[|s.trace|].client == client
    then [AuthFrame(t.trace[|s.trace|].authId, t.trace[|s.trace|].request.keyBlob)] else []
  }

  // What HandleAuthRequest answers under an allowlist.
  function StrictAnswer(allowed: set<bytes>, f: AuthFrame): AuthResponse {
    AuthResponse(f.authId, StrictDecision(allowed, f.keyBlob))
  }

  function Happens(k: Checks, client: nat, allowed: set<bytes>, s: Both, e: Joint): Both
    requires CanHappen(client, s, e)
  {
    match e
    case OfGate(g) =>
      var t := Next(k, s.gate, g);
      Both(t, s.inbox + PassedOn(s.gate, t, client), s.outbox)
    case ClientDecides => Both(s.gate, s.inbox[1..], s.outbox + [StrictAnswer(allowed, s.inbox[0])])
    case AnswerArrives => Both(Next(k, s.gate, Respond(client, s.outbox[0].authId, s.outbox[0].decision.ok)), s.inbox, s.outbox[1..])
  }

  function Together(k: Checks, client: nat, allowed: set<bytes>): System<Both, Joint, Entry> {
    System((s: Both, e: Joint) => CanHappen(client, s, e),
           (s: Both, e: Joint) => Effect(if CanHappen(client, s, e) then Happens(k, client, allowed, s, e) else s, []))
  }

  // ------------------------------------------------------------- invariant

  // Among the first n entries: this request to the client, with this key.
  ghost predicate AskedBefore(trace: seq<Entry>, n: nat, client: nat, authId: nat, keyBlob: bytes) {
    exists i :: 0 <= i < n <= |trace| && AsksFor(trace[i], client, authId, keyBlob)
  }

  predicate AsksFor(entry: Entry, client: nat, authId: nat, keyBlob: bytes) {
    entry.Asked? && entry.client == client && entry.authId == authId && entry.request.keyBlob == keyBlob
  }

  ghost predicate DecidedFor(trace: seq<Entry>, n: nat, client: nat, allowed: set<bytes>, authId: nat, ok: bool) {
    exists keyBlob :: AskedBefore(trace, n, client, authId, keyBlob) && (ok <==> keyBlob in allowed)
  }

  // Every answer of the client is to a request that was passed on to it, and says whether the
  // key of that request is allowed.
  ghost predicate AnswersStrictly(trace: seq<Entry>, client: nat, allowed: set<bytes>) {
    forall j :: 0 <= j < |trace| && trace[j].Answered? && trace[j].client == client ==>
      DecidedFor(trace, j, client, allowed, trace[j].authId, trace[j].ok)
  }

  ghost predicate Underway(client: nat, allowed: set<bytes>, s: Both) {
    var trace, n := s.gate.trace, |s.gate.trace|;
    && (forall i :: 0 <= i < |s.inbox| ==> AskedBefore(trace, n, client, s.inbox[i].authId, s.inbox[i].keyBlob))
    && (forall i :: 0 <= i < |s.outbox| ==> DecidedFor(trace, n, client, allowed, s.outbox[i].authId, s.outbox[i].decision.ok))
  }

  ghost predicate JointInv(k: Checks, client: nat, allowed: set<bytes>, s: Both) {
    Inv(k, s.gate) && Underway(client, allowed, s) && AnswersStrictly(s.gate.trace, client, allowed)
  }

  lemma AskedStays(trace: seq<Entry>, longer: seq<Entry>, n: nat, m: nat, client: nat, authId: nat, keyBlob: bytes)
    requires trace <= longer && n <= m <= |longer| && AskedBefore(trace, n, client, authId, keyBlob)
    ensures AskedBefore(longer, m, client, authId, keyBlob)
  {
    var i :| 0 <= i < n <= |trace| && AsksFor(trace[i], client, authId, keyBlob);
    assert longer[i] == trace[i];
  }

  lemma DecidedStays(trace: seq<Entry>, longer: seq<Entry>, n: nat, m: nat, client: nat, allowed: set<bytes>, authId: nat, ok: bool)
    requires trace <= longer && n <= m <= |longer| && DecidedFor(trace, n, client, allowed, authId, ok)
    ensures DecidedFor(longer, m, client, allowed, authId, ok)
  {
    var keyBlob :| AskedBefore(trace, n, client, authId, keyBlob) && (ok <==> keyBlob in allowed);
    AskedStays(trace, longer, n, m, client, authId, keyBlob);
  }

  // A step of the gate writes one entry at most, and an answer only when one arrives.
  predicate WritesOne(s: State, t: State) {
    t.trace == s.trace || (|t.trace| == |s.trace| + 1 && t.trace[..|s.trace|] == s.trace && !t.trace[|s.trace|].Answered?)
  }

  predicate WritesFor(s: State, t: State, e: Event) {
    s.trace <= t.trace && if e.Respond? then t.trace == s.trace + [Answered(e.client, e.authId, e.ok)] else WritesOne(s, t)
  }

  lemma SignedWritesOne(k: Checks, s: State, conn: nat, r: AuthRequest)
    requires conn in s.conns
    ensures WritesOne(s, OnSigned(k, s, conn, r))
  {}

  lemma UserAuthWritesOne(k: Checks, s: State, conn: nat, body: bytes)
    requires conn in s.conns
    ensures WritesOne(s, OnUserAuth(k, s, conn, body))
  {
    if ReadRequest(k, body).Signing? { SignedWritesOne(k, s, conn, ReadRequest(k, body).request); }
  }

  lemma MessageWritesOne(k: Checks, s: State, conn: nat, m: Message)
    requires Enabled(s, Got(conn, m))
    ensures WritesOne(s, OnMessage(k, s, conn, m))
  {
    if m.UserAuth? { UserAuthWritesOne(k, s, conn, m.body); }
  }

  lemma TraceGrows(k: Checks, s: State, e: Event)
    requires Enabled(s, e)
    ensures WritesFor(s, Next(k, s, e), e)
  {
    if e.Got? { MessageWritesOne(k, s, e.conn, e.m); }
  }

  // What is written behind a trace has to be strict, what is in it stays so.
  lemma AnswersStay(trace: seq<Entry>, longer: seq<Entry>, client: nat, allowed: set<bytes>)
    requires trace <= longer && AnswersStrictly(trace, client, allowed)
    requires forall j :: |trace| <= j < |longer| && longer[j].Answered? && longer[j].client == client ==>
      DecidedFor(longer, j, client, allowed, longer[j].authId, longer[j].ok)
    ensures AnswersStrictly(longer, client, allowed)
  {
    forall j | 0 <= j < |trace| && trace[j].Answered? && trace[j].client == client
      ensures DecidedFor(longer, j, client, allowed, longer[j].authId, longer[j].ok)
    {
      DecidedStays(trace, longer, j, j, client, allowed, trace[j].authId, trace[j].ok);
    }
  }

  lemma NoAnswerOf(client: nat, s: State, t: State, e: Event)
    requires WritesFor(s, t, e) && !(e.Respond? && e.client == client)
    ensures forall j :: |s.trace| <= j < |t.trace| ==> !(t.trace[j].Answered? && t.trace[j].client == client)
  {}

  lemma GateStepStrict(k: Checks, client: nat, allowed: set<bytes>, s: Both, e: Event)
    requires JointInv(k, client, allowed, s) && CanHappen(client, s, OfGate(e))
    ensures JointInv(k, client, allowed, Happens(k, client, allowed, s, OfGate(e)))
  {
    var t := Happens(k, client, allowed, s, OfGate(e));
    NextKeeps(k, s.gate, e);
    TraceGrows(k, s.gate, e);
    UnderwayStays(client, allowed, s, t);
    NoAnswerOf(client, s.gate, t.gate, e);
    AnswersStay(s.gate.trace, t.gate.trace, client, allowed);
  }

  lemma UnderwayStays(client: nat, allowed: set<bytes>, s: Both, t: Both)
    requires Underway(client, allowed, s) && s.gate.trace <= t.gate.trace && t.outbox == s.outbox
    requires t.inbox == s.inbox + PassedOn(s.gate, t.gate, client)
    ensures Underway(client, allowed, t)
  {
    var trace, longer := s.gate.trace, t.gate.trace;
    forall i | 0 <= i < |t.inbox|
      ensures AskedBefore(longer, |longer|, client, t.inbox[i].authId, t.inbox[i].keyBlob)
    {
      if i < |s.inbox| {
        AskedStays(trace, longer, |trace|, |longer|, client, s.inbox[i].authId, s.inbox[i].keyBlob);
      } else {
        assert AsksFor(longer[|trace|], client, t.inbox[i].authId, t.inbox[i].keyBlob);
      }
    }
    forall i | 0 <= i < |t.outbox|
      ensures DecidedFor(longer, |longer|, client, allowed, t.outbox[i].authId, t.outbox[i].decision.ok)
    {
      DecidedStays(trace, longer, |trace|, |longer|, client, allowed, s.outbox[i].authId, s.outbox[i].decision.ok);
    }
  }

  lemma DecisionStrict(k: Checks, client: nat, allowed: set<bytes>, s: Both)
    requires JointInv(k, client, allowed, s) && s.inbox != []
    ensures JointInv(k, client, allowed, Happens(k, client, allowed, s, ClientDecides))
  {
    var t, n, f := Happens(k, client, allowed, s, ClientDecides), |s.gate.trace|, s.inbox[0];
    forall i | 0 <= i < |t.outbox|
      ensures DecidedFor(t.gate.trace, n, client, allowed, t.outbox[i].authId, t.outbox[i].decision.ok)
    {
      if i == |s.outbox| { assert AskedBefore(s.gate.trace, n, client, f.authId, f.keyBlob); }
    }
  }

  lemma ArrivalStrict(k: Checks, client: nat, allowed: set<bytes>, s: Both)
    requires JointInv(k, client, allowed, s) && CanHappen(client, s, AnswerArrives)
    ensures JointInv(k, client, allowed, Happens(k, client, allowed, s, AnswerArrives))
  {
    var t, a := Happens(k, client, allowed, s, AnswerArrives), s.outbox[0];
    var e := Respond(client, a.authId, a.decision.ok);
    var trace, longer := s.gate.trace, t.gate.trace;
    NextKeeps(k, s.gate, e);
    TraceGrows(k, s.gate, e);
    UnderwayStays(client, allowed, s, Both(t.gate, s.inbox, s.outbox));
    assert forall i :: 0 <= i < |t.outbox| ==> t.outbox[i] == s.outbox[i + 1];
    DecidedStays(trace, longer, |trace|, |trace|, client, allowed, a.authId, a.decision.ok);
    AnswersStay(trace, longer, client, allowed);
  }

  lemma TogetherConsistent(k: Checks, client: nat, allowed: set<bytes>, events: seq<Joint>)
    requires Possible(Together(k, client, allowed), TOGETHER, events)
    ensures JointInv(k, client, allowed, After(Together(k, client, allowed), TOGETHER, events).s)
  {
    var m, inv := Together(k, client, allowed), (s: Both) => JointInv(k, client, allowed, s);
    forall s, e | inv(s) && m.enabled(s, e)
      ensures inv(m.step(s, e).s)
    {
      match e {
        case OfGate(g) => GateStepStrict(k, client, allowed, s, g);
        case ClientDecides => DecisionStrict(k, client, allowed, s);
        case AnswerArrives => ArrivalStrict(k, client, allowed, s);
      }
    }
    RunKeeps(m, inv, TOGETHER, events);
  }

  // ------------------------------------------------------------------ runs

  // In every run of both together, every answer of the client is its decision on a request that
  // was passed on to it.
  lemma ClientIsStrict(k: Checks, client: nat, allowed: set<bytes>, events: seq<Joint>)
    requires Possible(Together(k, client, allowed), TOGETHER, events)
    ensures AnswersStrictly(After(Together(k, client, allowed), TOGETHER, events).s.gate.trace, client, allowed)
  {
    TogetherConsistent(k, client, allowed, events);
  }

  // In every run of both together, an operator is let in to a client in strict mode, or gets a
  // channel of it, only behind a validly signed request of its own with a key of the allowlist.
  lemma StrictModeHolds(k: Checks, client: nat, allowed: set<bytes>, events: seq<Joint>, n: nat)
    requires Possible(Together(k, client, allowed), TOGETHER, events)
    requires var s := After(Together(k, client, allowed), TOGETHER, events).s.gate;
      n < |s.trace| && (s.trace[n].Succeeded? || s.trace[n].Opened?) && s.trace[n].client == client
    ensures var s := After(Together(k, client, allowed), TOGETHER, events).s.gate;
      exists i :: 0 <= i < n && AllowedRequest(k, s, s.trace[n].conn, allowed, i)
  {
    TogetherConsistent(k, client, allowed, events);
    var s := After(Together(k, client, allowed), TOGETHER, events).s.gate;
    StrictApproves(s.trace, client, allowed);
    AllowedBefore(k, s, n, allowed);
  }

  lemma StrictApproves(trace: seq<Entry>, client: nat, allowed: set<bytes>)
    requires AnswersStrictly(trace, client, allowed)
    ensures ApprovesOnly(trace, client, allowed)
  {
    forall j | 0 <= j < |trace| && trace[j].Answered? && trace[j].client == client && trace[j].ok
      ensures exists i :: 0 <= i < j && AsksAllowed(trace[i], client, trace[j].authId, allowed)
    {
      var keyBlob :| AskedBefore(trace, j, client, trace[j].authId, keyBlob) && keyBlob in allowed;
      var i :| 0 <= i < j && AsksFor(trace[i], client, trace[j].authId, keyBlob);
      assert AsksAllowed(trace[i], client, trace[j].authId, allowed);
    }
  }
}
