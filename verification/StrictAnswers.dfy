/** What becomes of a request that waits for a client in strict mode: it is let in exactly if its
    key is on the allowlist, whatever else is on the way between the gate and the client. */
module StrictAnswers {
  import opened Wrappers
  import opened Bits
  import opened Runs
  import opened AuthGate
  import opened AuthHistory
  import opened ReverseClient
  import opened StrictMode

  // The connection waits for the client's answer to this request.
  predicate WaitsFor(s: State, conn: nat, client: nat, authId: nat, keyBlob: bytes) {
    conn in s.conns && s.conns[conn].phase.Waits?
    && var w := s.conns[conn].phase.w; w.client == client && w.authId == authId && w.request.keyBlob == keyBlob
  }

  predicate Unanswered(s: State, conn: nat, client: nat) {
    conn in s.conns && s.conns[conn].phase.Waits? && s.conns[conn].phase.w.client == client && s.conns[conn].phase.w.answer.None?
  }

  predicate OnTheWay(s: Both, authId: nat) {
    (exists i :: 0 <= i < |s.inbox| && s.inbox[i].authId == authId) || (exists i :: 0 <= i < |s.outbox| && s.outbox[i].authId == authId)
  }

  // Nothing is lost: a request that has no answer is on the way to the client, or its answer is on
  // the way back.
  ghost predicate Queued(client: nat, s: Both) {
    forall conn :: Unanswered(s.gate, conn, client) ==> OnTheWay(s, s.gate.conns[conn].phase.w.authId)
  }

  ghost predicate Good(k: Checks, client: nat, allowed: set<bytes>, s: Both) {
    JointInv(k, client, allowed, s) && Queued(client, s)
  }

  // -------------------------------------------------------- nothing is lost

  // After a step of the gate, an unanswered request is an old one or has just been passed on.
  predicate OldOrPassedOn(s: State, t: State, conn: nat, client: nat)
    requires Unanswered(t, conn, client)
  {
    (Unanswered(s, conn, client) && t.conns[conn].phase == s.conns[conn].phase)
    || PassedOn(s, t, client) == [AuthFrame(t.conns[conn].phase.w.authId, t.conns[conn].phase.w.request.keyBlob)]
  }

  lemma MovedAsksNothing(s: State, asker: nat, phase: Phase, entry: Entry, conn: nat, client: nat)
    requires asker in s.conns && !phase.Waits? && Unanswered(Moved(s, asker, phase, entry), conn, client)
    ensures OldOrPassedOn(s, Moved(s, asker, phase, entry), conn, client)
  {}

  lemma AskAsksOnce(s: State, asker: nat, r: AuthRequest, asked: nat, conn: nat, client: nat)
    requires asker in s.conns && asked in s.counters && Unanswered(Ask(s, asker, r, asked), conn, client)
    ensures OldOrPassedOn(s, Ask(s, asker, r, asked), conn, client)
  {}

  lemma SignedAsksOnce(k: Checks, s: State, asker: nat, r: AuthRequest, conn: nat, client: nat)
    requires asker in s.conns && Unanswered(OnSigned(k, s, asker, r), conn, client)
    ensures OldOrPassedOn(s, OnSigned(k, s, asker, r), conn, client)
  {
    if OnSigned(k, s, asker, r) == Moved(s, asker, Authenticating, Replied(asker, Failure)) {
      MovedAsksNothing(s, asker, Authenticating, Replied(asker, Failure), conn, client);
    } else {
      AskAsksOnce(s, asker, r, Lookup(s, r.username).value, conn, client);
    }
  }

  lemma UserAuthAsksOnce(k: Checks, s: State, asker: nat, body: bytes, conn: nat, client: nat)
    requires asker in s.conns && Unanswered(OnUserAuth(k, s, asker, body), conn, client)
    ensures OldOrPassedOn(s, OnUserAuth(k, s, asker, body), conn, client)
  {
    match ReadRequest(k, body) {
      case Broken => MovedAsksNothing(s, asker, Ended, Replied(asker, Disconnect), conn, client);
      case Unsuitable => MovedAsksNothing(s, asker, Authenticating, Replied(asker, Failure), conn, client);
      case Probe(keyBlob) => MovedAsksNothing(s, asker, Authenticating, Replied(asker, PkOk(keyBlob)), conn, client);
      case Signing(r) => SignedAsksOnce(k, s, asker, r, conn, client);
    }
  }

  lemma MessageAsksOnce(k: Checks, s: State, asker: nat, m: Message, conn: nat, client: nat)
    requires Enabled(s, Got(asker, m)) && Unanswered(OnMessage(k, s, asker, m), conn, client)
    ensures OldOrPassedOn(s, OnMessage(k, s, asker, m), conn, client)
  {
    if s.conns[asker].phase.Authenticating? && m.UserAuth? { UserAuthAsksOnce(k, s, asker, m.body, conn, client); }
  }

  lemma GateAsksOnce(k: Checks, s: State, e: Event, conn: nat, client: nat)
    requires Enabled(s, e) && Unanswered(Next(k, s, e), conn, client)
    ensures OldOrPassedOn(s, Next(k, s, e), conn, client)
  {
    if e.Got? { MessageAsksOnce(k, s, e.conn, e.m, conn, client); }
  }

  lemma GateQueues(k: Checks, client: nat, allowed: set<bytes>, s: Both, e: Event)
    requires Queued(client, s) && CanHappen(client, s, OfGate(e))
    ensures Queued(client, Happens(k, client, allowed, s, OfGate(e)))
  {
    var t := Happens(k, client, allowed, s, OfGate(e));
    forall conn | Unanswered(t.gate, conn, client)
      ensures OnTheWay(t, t.gate.conns[conn].phase.w.authId)
    {
      GateAsksOnce(k, s.gate, e, conn, client);
      StillQueued(s, t, t.gate.conns[conn].phase.w.authId, PassedOn(s.gate, t.gate, client));
    }
  }

  lemma StillQueued(s: Both, t: Both, authId: nat, more: seq<AuthFrame>)
    requires t.inbox == s.inbox + more && t.outbox == s.outbox
    requires OnTheWay(s, authId) || (|more| == 1 && more[0].authId == authId)
    ensures OnTheWay(t, authId)
  {
    if i :| 0 <= i < |s.inbox| && s.inbox[i].authId == authId {
      assert t.inbox[i].authId == authId;
    } else if |more| == 1 && more[0].authId == authId {
      assert t.inbox[|s.inbox|].authId == authId;
    }
  }

  lemma DecisionQueues(k: Checks, client: nat, allowed: set<bytes>, s: Both)
    requires Queued(client, s) && s.inbox != []
    ensures Queued(client, Happens(k, client, allowed, s, ClientDecides))
  {
    var t := Happens(k, client, allowed, s, ClientDecides);
    forall conn | Unanswered(t.gate, conn, client)
      ensures OnTheWay(t, t.gate.conns[conn].phase.w.authId)
    {
      var id := s.gate.conns[conn].phase.w.authId;
      if i :| 0 <= i < |s.inbox| && s.inbox[i].authId == id {
        if i == 0 { assert t.outbox[|s.outbox|].authId == id; } else { assert t.inbox[i - 1].authId == id; }
      } else {
        var i :| 0 <= i < |s.outbox| && s.outbox[i].authId == id;
        assert t.outbox[i].authId == id;
      }
    }
  }

  // The answer that arrives is noted for whoever waits for it.
  lemma ArrivalQueues(k: Checks, client: nat, allowed: set<bytes>, s: Both)
    requires Inv(k, s.gate) && Queued(client, s) && CanHappen(client, s, AnswerArrives)
    ensures Queued(client, Happens(k, client, allowed, s, AnswerArrives))
  {
    var t := Happens(k, client, allowed, s, AnswerArrives);
    forall conn | Unanswered(t.gate, conn, client)
      ensures OnTheWay(t, t.gate.conns[conn].phase.w.authId)
    {
      assert ConnAt(s.gate, conn);
      var id := s.gate.conns[conn].phase.w.authId;
      if i :| 0 <= i < |s.inbox| && s.inbox[i].authId == id {
        assert t.inbox[i].authId == id;
      } else {
        var i :| 0 <= i < |s.outbox| && s.outbox[i].authId == id;
        assert t.outbox[i - 1].authId == id;
      }
    }
  }

  lemma GoodStays(k: Checks, client: nat, allowed: set<bytes>, s: Both, e: Joint)
    requires Good(k, client, allowed, s) && CanHappen(client, s, e)
    ensures Good(k, client, allowed, Happens(k, client, allowed, s, e))
  {
    match e {
      case OfGate(g) => GateStepStrict(k, client, allowed, s, g); GateQueues(k, client, allowed, s, g);
      case ClientDecides => DecisionStrict(k, client, allowed, s); DecisionQueues(k, client, allowed, s);
      case AnswerArrives => ArrivalStrict(k, client, allowed, s); ArrivalQueues(k, client, allowed, s);
    }
  }

  lemma GoodInRuns(k: Checks, client: nat, allowed: set<bytes>, events: seq<Joint>)
    requires Possible(Together(k, client, allowed), TOGETHER, events)
    ensures Good(k, client, allowed, After(Together(k, client, allowed), TOGETHER, events).s)
  {
    var m, inv := Together(k, client, allowed), (s: Both) => Good(k, client, allowed, s);
    forall s, e | inv(s) && m.enabled(s, e)
      ensures inv(m.step(s, e).s)
    {
      GoodStays(k, client, allowed, s, e);
    }
    RunKeeps(m, inv, TOGETHER, events);
  }

  // ------------------------------------------------- every answer is right

  // An id stands for one request.
  lemma OneRequest(k: Checks, s: State, conn: nat, w: Waiting, keyBlob: bytes)
    requires Inv(k, s) && conn in s.conns && s.conns[conn].phase == Waits(w)
    requires AskedBefore(s.trace, |s.trace|, w.client, w.authId, keyBlob)
    ensures keyBlob == w.request.keyBlob && w.client in s.counters
  {
    assert ConnAt(s, conn);
    var i :| 0 <= i < |s.trace| && s.trace[i] == Asked(conn, w.request, w.client, w.authId);
    var j :| 0 <= j < |s.trace| && AsksFor(s.trace[j], w.client, w.authId, keyBlob);
    assert EntryAt(k, s, i);
    assert i < j ==> InOrder(s.trace[i], s.trace[j]);
    assert j < i ==> InOrder(s.trace[j], s.trace[i]);
  }

  // In every reachable state, the answer that a connection has got is whether the key of its own
  // request is on the list.
  lemma AnswerIsTheList(k: Checks, client: nat, allowed: set<bytes>, s: Both, conn: nat, w: Waiting)
    requires JointInv(k, client, allowed, s)
    requires conn in s.gate.conns && s.gate.conns[conn].phase == Waits(w) && w.client == client && w.answer.Some?
    ensures w.answer == Some(w.request.keyBlob in allowed)
  {
    var trace := s.gate.trace;
    assert ConnAt(s.gate, conn);
    var i :| 0 <= i < |trace| && trace[i] == Asked(conn, w.request, client, w.authId) && AnsweredAfter(trace, i, client, w.authId, w.answer.value);
    var j :| i < j < |trace| && trace[j] == Answered(client, w.authId, w.answer.value);
    assert DecidedFor(trace, j, client, allowed, w.authId, w.answer.value);
    var keyBlob :| AskedBefore(trace, j, client, w.authId, keyBlob) && (w.answer.value <==> keyBlob in allowed);
    AskedStays(trace, trace, j, |trace|, client, w.authId, keyBlob);
    OneRequest(k, s.gate, conn, w, keyBlob);
  }

  // Under every schedule, a connection whose wait for a strict client ends is let in if and only
  // if the wait did not run out and its key is on the list.
  lemma LetInExactly(k: Checks, client: nat, allowed: set<bytes>, events: seq<Joint>, conn: nat, w: Waiting, timedOut: bool)
    requires Possible(Together(k, client, allowed), TOGETHER, events)
    requires var s := After(Together(k, client, allowed), TOGETHER, events).s.gate;
      conn in s.conns && s.conns[conn].phase == Waits(w) && w.client == client && Enabled(s, Wake(conn, timedOut))
    ensures var t := Next(k, After(Together(k, client, allowed), TOGETHER, events).s.gate, Wake(conn, timedOut));
      conn in t.conns && t.conns[conn].phase == if !timedOut && w.request.keyBlob in allowed then Bound(client) else Authenticating
  {
    GoodInRuns(k, client, allowed, events);
    var s := After(Together(k, client, allowed), TOGETHER, events).s;
    if !timedOut { AnswerIsTheList(k, client, allowed, s, conn, w); }
  }

  // ------------------------------------------------------ the queues empty

  lemma DecisionWaits(k: Checks, client: nat, allowed: set<bytes>, s: Both, conn: nat, authId: nat, keyBlob: bytes)
    requires s.inbox != [] && WaitsFor(s.gate, conn, client, authId, keyBlob)
    ensures WaitsFor(Happens(k, client, allowed, s, ClientDecides).gate, conn, client, authId, keyBlob)
  {}

  lemma ArrivalWaits(k: Checks, client: nat, allowed: set<bytes>, s: Both, conn: nat, authId: nat, keyBlob: bytes)
    requires CanHappen(client, s, AnswerArrives) && WaitsFor(s.gate, conn, client, authId, keyBlob)
    ensures WaitsFor(Happens(k, client, allowed, s, AnswerArrives).gate, conn, client, authId, keyBlob)
  {}

  lemma WaitsKnown(k: Checks, s: State, conn: nat, client: nat, authId: nat, keyBlob: bytes)
    requires Inv(k, s) && WaitsFor(s, conn, client, authId, keyBlob)
    ensures client in s.counters
  {
    var w := s.conns[conn].phase.w;
    assert ConnAt(s, conn);
    var i :| 0 <= i < |s.trace| && s.trace[i] == Asked(conn, w.request, w.client, w.authId);
    assert EntryAt(k, s, i);
  }

  // Everything on the way to the client is decided, and everything on the way back arrives.
  lemma {:induction false} QueuesEmpty(k: Checks, client: nat, allowed: set<bytes>, s: Both, conn: nat, authId: nat, keyBlob: bytes)
    returns (events: seq<Joint>)
    requires Good(k, client, allowed, s) && WaitsFor(s.gate, conn, client, authId, keyBlob)
    ensures Possible(Together(k, client, allowed), s, events) && forall e :: e in events ==> !e.OfGate?
    ensures var t := After(Together(k, client, allowed), s, events).s;
      Good(k, client, allowed, t) && WaitsFor(t.gate, conn, client, authId, keyBlob) && t.inbox == [] && t.outbox == []
    decreases |s.inbox|, |s.outbox|
  {
    var m := Together(k, client, allowed);
    if s.inbox == [] && s.outbox == [] {
      events := [];
    } else {
      WaitsKnown(k, s.gate, conn, client, authId, keyBlob);
      var e := if s.inbox != [] then ClientDecides else AnswerArrives;
      var t := Happens(k, client, allowed, s, e);
      GoodStays(k, client, allowed, s, e);
      if s.inbox != [] {
        DecisionWaits(k, client, allowed, s, conn, authId, keyBlob);
      } else {
        ArrivalWaits(k, client, allowed, s, conn, authId, keyBlob);
      }
      var more := QueuesEmpty(k, client, allowed, t, conn, authId, keyBlob);
      StepFirst(m, s, e, more);
      events := [e] + more;
    }
  }

  lemma AnsweredWhenEmpty(client: nat, s: Both, conn: nat, authId: nat, keyBlob: bytes)
    requires Queued(client, s) && s.inbox == [] && s.outbox == [] && WaitsFor(s.gate, conn, client, authId, keyBlob)
    ensures s.gate.conns[conn].phase.w.answer.Some?
  {
    assert !OnTheWay(s, authId);
  }

  lemma LetInFrom(k: Checks, client: nat, allowed: set<bytes>, s: Both, conn: nat, w: Waiting) returns (more: seq<Joint>)
    requires Good(k, client, allowed, s) && conn in s.gate.conns && s.gate.conns[conn].phase == Waits(w) && w.client == client
    ensures Possible(Together(k, client, allowed), s, more)
    ensures forall e :: e in more ==> e == ClientDecides || e == AnswerArrives || e == OfGate(Wake(conn, false))
    ensures var t := After(Together(k, client, allowed), s, more).s.gate;
      conn in t.conns && t.conns[conn].phase == if w.request.keyBlob in allowed then Bound(client) else Authenticating
  {
    var m := Together(k, client, allowed);
    var drain := QueuesEmpty(k, client, allowed, s, conn, w.authId, w.request.keyBlob);
    var t := After(m, s, drain).s;
    AnsweredWhenEmpty(client, t, conn, w.authId, w.request.keyBlob);
    AnswerIsTheList(k, client, allowed, t, conn, t.gate.conns[conn].phase.w);
    StepLast(m, s, drain, OfGate(Wake(conn, false)));
    more := drain + [OfGate(Wake(conn, false))];
  }

  // Whatever is in the queues and whatever else is pending: once the client has decided what is on
  // the way to it, and its answers have arrived, an operator that waits for it is let in exactly if
  // its key is on the list.
  lemma AllowedIsLetIn(k: Checks, client: nat, allowed: set<bytes>, events: seq<Joint>, conn: nat, w: Waiting) returns (more: seq<Joint>)
    requires Possible(Together(k, client, allowed), TOGETHER, events)
    requires var s := After(Together(k, client, allowed), TOGETHER, events).s.gate;
      conn in s.conns && s.conns[conn].phase == Waits(w) && w.client == client
    ensures Possible(Together(k, client, allowed), TOGETHER, events + more)
    ensures forall e :: e in more ==> e == ClientDecides || e == AnswerArrives || e == OfGate(Wake(conn, false))
    ensures var t := After(Together(k, client, allowed), TOGETHER, events + more).s.gate;
      conn in t.conns && t.conns[conn].phase == if w.request.keyBlob in allowed then Bound(client) else Authenticating
  {
    GoodInRuns(k, client, allowed, events);
    more := LetInFrom(k, client, allowed, After(Together(k, client, allowed), TOGETHER, events).s, conn, w);
    RunAppend(Together(k, client, allowed), TOGETHER, events, more);
  }
}
