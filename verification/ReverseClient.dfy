/** The reverse side, client.py: approval of operators, the dispatch of frames from the relay,
    and the threads that send channel data, as they change the dictionary and the channels.  Each
    turn is proved to be one step of the state machine in ClientChannels. */
module ReverseClient {
  import opened Wrappers
  import opened Bits
  import opened Framing
  import opened Runs
  import opened ClientChannels
  import opened ClientTraces
  import ClientTranscript

  // --------------------------------------------------------------- approval

  datatype Decision = Decision(ok: bool, persist: bool)

  // In strict mode, an allowlist of key blobs decides alone.
  function StrictDecision(allowed: set<bytes>, keyBlob: bytes): Decision {
    Decision(keyBlob in allowed, false)
  }

  // The meaning of one line at the prompt, stripped and in lower case.
  function Meaning(answer: string): Option<Decision> {
    if answer in {"o", "once", "y", "yes"} then Some(Decision(true, false))
    else if answer in {"t", "trust"} then Some(Decision(true, true))
    else if answer in {"r", "reject", "n", "no", ""} then Some(Decision(false, false))
    else None
  }

  const APPROVE_ONCE: set<string> := {"o", "once", "y", "yes"}
  const APPROVE_ALWAYS: set<string> := {"t", "trust"}
  const REJECT: set<string> := {"r", "reject", "n", "no", ""}

  // The decision at the prompt is that of the first line that is one of these words.
  ghost predicate DecidedBy(answers: seq<string>, d: Option<Decision>) {
    if d.Some? then
      exists i :: 0 <= i < |answers| && FirstChoice(answers, i)
                  && d.value == Decision(answers[i] !in REJECT, answers[i] in APPROVE_ALWAYS)
    else forall i :: 0 <= i < |answers| ==> !IsChoice(answers[i])
  }

  predicate IsChoice(answer: string) {
    answer in APPROVE_ONCE + APPROVE_ALWAYS + REJECT
  }

  ghost predicate FirstChoice(answers: seq<string>, n: nat) {
    n < |answers| && IsChoice(answers[n]) && forall i :: 0 <= i < n ==> !IsChoice(answers[i])
  }

  // What is decided of an operator: an allowlist decides alone; without one, known operators are
  // approved, and others only by a person.
  ghost predicate Decides(allowed: Option<set<bytes>>, known: set<bytes>, fingerprint: bytes, keyBlob: bytes,
                          interactive: bool, answers: seq<string>, d: Option<Decision>) {
    match allowed
    case Some(keys) => d == Some(Decision(keyBlob in keys, false))
    case None =>
      if fingerprint in known then d == Some(Decision(true, false))
      else if !interactive then d == Some(Decision(false, false))
      else DecidedBy(answers, d)
  }

  class OperatorApproval {
    const allowed: Option<set<bytes>>
    var known: set<bytes>

    constructor (known: set<bytes>, allowed: Option<set<bytes>>)
      ensures this.known == known && this.allowed == allowed
    {
      this.known, this.allowed := known, allowed;
    }

    // approve, with the lines that will be typed at the prompt; none when they end without a
    // decision.
    method Approve(fingerprint: bytes, keyBlob: bytes, interactive: bool, answers: seq<string>) returns (d: Option<Decision>)
      ensures allowed.Some? ==> d == Some(StrictDecision(allowed.value, keyBlob))
      ensures d.Some? && d.value.persist ==> d.value.ok && allowed.None? && interactive
      ensures Decides(allowed, known, fingerprint, keyBlob, interactive, answers, d)
    {
      if allowed.Some? {
        return Some(StrictDecision(allowed.value, keyBlob));
      }
      if fingerprint in known {
        return Some(Decision(true, false));
      }
      if !interactive {
        return Some(Decision(false, false));
      }
      for i := 0 to |answers|
        invariant forall j :: 0 <= j < i ==> !IsChoice(answers[j])
      {
        d := Meaning(answers[i]);
        if d.Some? {
          assert FirstChoice(answers, i);
          return d;
        }
      }
      return None;
    }

    // persist: nothing is remembered under an allowlist.
    method Persist(fingerprint: bytes)
      modifies this
      ensures known == if allowed.Some? then old(known) else old(known) + {fingerprint}
    {
      if allowed.Some? {
        return;
      }
      known := known + {fingerprint};
    }
  }

  // ----------------------------------------------------------------- chunks

  // Chunks of the maximum size, and one smaller one when something is left.
  ghost predicate ChunksOf(data: bytes, chunks: seq<bytes>) {
    && Concat(chunks) == data
    && |chunks| == (|data| + CHANNEL_MAX_PACKET - 1) / CHANNEL_MAX_PACKET
    && forall i :: 0 <= i < |chunks| ==> 1 <= |chunks[i]| <= CHANNEL_MAX_PACKET && (i < |chunks| - 1 ==> |chunks[i]| == CHANNEL_MAX_PACKET)
  }

  // The loop of send_channel_data and send_extended_data.
  method Chunks(data: bytes) returns (chunks: seq<bytes>)
    ensures ChunksOf(data, chunks)
  {
    chunks := [];
    var pos := 0;
    while pos < |data|
      invariant 0 <= pos <= |data| && Concat(chunks) == data[..pos]
      invariant pos == |chunks| * CHANNEL_MAX_PACKET || (pos == |data| && |chunks| > 0 && (|chunks| - 1) * CHANNEL_MAX_PACKET < pos < |chunks| * CHANNEL_MAX_PACKET)
      invariant forall i :: 0 <= i < |chunks| ==> 1 <= |chunks[i]| <= CHANNEL_MAX_PACKET
      invariant forall i :: 0 <= i < |chunks| && (i < |chunks| - 1 || pos < |data|) ==> |chunks[i]| == CHANNEL_MAX_PACKET
      decreases |data| - pos
    {
      var end := if pos + CHANNEL_MAX_PACKET <= |data| then pos + CHANNEL_MAX_PACKET else |data|;
      ConcatSnoc(chunks, data[pos..end]);
      assert data[..pos] + data[pos..end] == data[..end];
      chunks := chunks + [data[pos..end]];
      pos := end;
    }
    assert data[..|data|] == data;
  }

  // ------------------------------------------------------------- connection

  // AUTH_RESPONSE
  datatype AuthResponse = AuthResponse(authId: nat, decision: Decision)

  // The turns of a thread that sends these pieces.
  function Sending(i: nat, chunks: seq<bytes>): seq<Event> {
    seq(|chunks|, k requires 0 <= k < |chunks| => Turn(i, Got(chunks[k])))
  }

  class ReverseClientConnection {
    const approval: OperatorApproval
    var listed: map<nat, nat>
    var chans: seq<Channel>
    var threads: seq<Thread>
    var main: Option<nat>
    var sent: seq<Output>
    var responses: seq<AuthResponse>

    ghost var history: seq<Event>

    ghost function Now(): State
      reads this
    {
      State(listed, chans, threads, main)
    }

    twostate predicate Did(e: Event)
      reads this
      requires Enabled(old(Now()), e)
    {
      Now() == Handle(old(Now()), e).s && sent == old(sent) + Handle(old(Now()), e).outputs
    }

    // The fields and the log are what a run of the state machine leads to.
    ghost predicate Valid()
      reads this
    {
      Inv(Now()) && Possible(CLIENT, START, history) && After(CLIENT, START, history) == Effect(Now(), sent)
    }

    constructor (approval: OperatorApproval)
      ensures Valid() && this.approval == approval && history == [] && sent == [] && responses == [] && Now() == START
    {
      this.approval := approval;
      listed, chans, threads, main, sent, responses := map[], [], [], None, [], [];
      history := [];
      new;
      StartConsistent();
    }

    // One step behind the run that led here.
    lemma Recorded(s: State, log: seq<Output>, events: seq<Event>, e: Event)
      requires Inv(s) && Possible(CLIENT, START, events) && After(CLIENT, START, events) == Effect(s, log) && Enabled(s, e)
      requires history == events + [e] && Now() == Handle(s, e).s && sent == log + Handle(s, e).outputs
      ensures Valid()
    {
      HandleKeeps(s, e);
      StepLast(CLIENT, START, events, e);
    }

    // AUTH_REQUEST: one answer, under the id of the request, with what approve decides.
    method HandleAuthRequest(authId: nat, fingerprint: bytes, keyBlob: bytes, interactive: bool, answers: seq<string>)
      returns (answered: bool)
      requires Idle(Now())
      modifies `responses, approval
      ensures !answered ==> responses == old(responses) && approval.known == old(approval.known)
      ensures !answered ==> Decides(approval.allowed, old(approval.known), fingerprint, keyBlob, interactive, answers, None)
      ensures answered ==> |responses| == |old(responses)| + 1 && responses[..|old(responses)|] == old(responses)
      ensures answered ==> var a := responses[|old(responses)|];
        && a.authId == authId && (a.decision.persist ==> a.decision.ok)
        && Decides(approval.allowed, old(approval.known), fingerprint, keyBlob, interactive, answers, Some(a.decision))
        && approval.known == old(approval.known) + if a.decision.persist then {fingerprint} else {}
      ensures approval.allowed.Some? ==> answered && approval.known == old(approval.known)
      ensures approval.allowed.Some? ==>
        responses == old(responses) + [AuthResponse(authId, StrictDecision(approval.allowed.value, keyBlob))]
    {
      var d := approval.Approve(fingerprint, keyBlob, interactive, answers);
      if d.None? { return false; }
      if d.value.ok && d.value.persist {
        approval.Persist(fingerprint);
      }
      responses := responses + [AuthResponse(authId, d.value)];
      return true;
    }

    method Send(owner: Option<nat>, frame: Frame)
      modifies `sent
      ensures sent == old(sent) + [Sent(owner, frame)]
    {
      sent := sent + [Sent(owner, frame)];
    }

    // threading.Thread(...).start()
    method StartThread(ref: nat, place: Place, code: Option<nat>)
      modifies `threads
      ensures Now() == Started(old(Now()), ref, place, code)
    {
      threads := threads + [Thread(ref, place, code)];
    }

    // The reader of frames calls a method of a channel itself.
    method Call(ref: nat, place: Place)
      modifies `threads, `main
      ensures Now() == Busy(old(Now()), ref, place)
    {
      main := Some(|threads|);
      StartThread(ref, place, None);
    }

    // _handle_open_channel: exactly one confirmation; `connected` is what the TCP connection
    // attempt gives.  An id that is in use goes to the new channel.
    method HandleOpenChannel(id: nat, kind: Option<Kind>, connected: bool)
      requires Idle(Now())
      modifies `listed, `chans, `threads, `sent
      ensures Did(Relay(OpenChannel(id, kind, connected)))
    {
      var ref := |chans|;
      match kind {
        case Some(Session) =>
          chans := chans + [Channel(id, Session, false, NotStarted, false)];
          listed := listed[id := ref];
          Send(None, OpenConfirm(id, true));
        case Some(DirectTcp) =>
          if connected {
            chans := chans + [Channel(id, DirectTcp, false, NotStarted, false)];
            listed := listed[id := ref];
          }
          Send(None, OpenConfirm(id, connected));
          if connected { StartThread(ref, Loop, None); }
        case None =>
          Send(None, OpenConfirm(id, false));
      }
    }

    // SessionChannel.on_data
    method HandleData(id: nat, fails: bool)
      requires Inv(Now()) && Idle(Now())
      modifies `threads, `main
      ensures Did(Relay(GotData(id, fails)))
    {
      if id !in listed { return; }
      assert ListedAt(Now(), id);
      var ref := listed[id];
      if chans[ref].kind.DirectTcp? { return; }
      if chans[ref].sftp {
        Call(ref, Feeding);
      } else if chans[ref].process.Terminal? && fails {
        Call(ref, Test(true));
      }
    }

    // _start_process
    method Spawn(ref: nat, terminal: bool)
      requires ref < |chans|
      modifies `chans, `threads
      ensures Now() == WithProcess(old(Now()), ref, terminal)
    {
      if !chans[ref].process.NotStarted? { return; }
      chans := chans[ref := chans[ref].(process := if terminal then Terminal else Pipes)];
      StartThread(ref, Loop, None);
      if !terminal { StartThread(ref, Loop, Some(EXTENDED_DATA_STDERR)); }
      StartThread(ref, Waiting, None);
    }

    // SessionChannel.on_request
    method HandleRequest(id: nat, request: Request)
      requires Inv(Now()) && Idle(Now())
      modifies `chans, `threads, `main
      ensures Did(Relay(GotRequest(id, request)))
    {
      if id !in listed { return; }
      assert ListedAt(Now(), id);
      var ref := listed[id];
      if chans[ref].kind.DirectTcp? { return; }
      match request {
        case StartProcess(terminal) => Spawn(ref, terminal);
        case StartSftp => chans := chans[ref := chans[ref].(sftp := true)];
        case Failing => Call(ref, Finish(1));
        case Harmless =>
      }
    }

    // SessionChannel.on_eof
    method HandleEof(id: nat)
      requires Inv(Now()) && Idle(Now())
      modifies `chans, `threads, `main
      ensures Did(Relay(GotEof(id)))
    {
      if id !in listed { return; }
      assert ListedAt(Now(), id);
      var ref := listed[id];
      if chans[ref].kind.Session? && chans[ref].sftp {
        chans := chans[ref := chans[ref].(sftp := false)];
        Call(ref, Finish(0));
      }
    }

    // CHANNEL_CLOSE: on_close(send_close=False) answers nothing.
    method HandleChannelClose(id: nat)
      requires Inv(Now()) && Idle(Now())
      modifies `listed, `threads, `main
      ensures Did(Relay(GotClose(id)))
    {
      if id !in listed { return; }
      assert ListedAt(Now(), id);
      var ref := listed[id];
      listed := listed - {id};
      Call(ref, Test(false));
    }

    method GoTo(i: nat, place: Place)
      requires i < |threads|
      modifies `threads
      ensures threads == old(threads)[i := old(threads)[i].(place := place)]
    {
      threads := threads[i := threads[i].(place := place)];
    }

    // One turn of _pty_reader, _pipe_reader, the reader loop of a TCP connection, or feed.
    method ReaderTurn(i: nat, choice: Choice)
      requires Enabled(Now(), Turn(i, choice)) && (threads[i].place.Loop? || threads[i].place.Reading? || threads[i].place.Feeding?)
      modifies `threads, `sent
      ensures Did(Turn(i, choice))
    {
      var t := threads[i];
      var ch := chans[t.ref];
      if t.place.Loop? {
        GoTo(i, if ch.closed then Left(ch.kind) else Reading);
      } else if choice.Ends? {
        GoTo(i, if t.place.Reading? then Left(ch.kind) else Stopped);
      } else {
        Send(Some(t.ref), DataFrame(ch.id, t.code, choice.data));
        GoTo(i, if t.place.Reading? then Loop else Feeding);
      }
    }

    // One line of _waiter and _finish_with_status.
    method FinishTurn(i: nat, choice: Choice)
      requires Enabled(Now(), Turn(i, choice))
      requires threads[i].place.Waiting? || threads[i].place.Finish? || threads[i].place.SendStatus? || threads[i].place.SendEof?
      modifies `threads, `sent
      ensures Did(Turn(i, choice))
    {
      var t := threads[i];
      var ch := chans[t.ref];
      match t.place {
        case Waiting => GoTo(i, Finish(choice.status));
        case Finish(status) => GoTo(i, if ch.closed then Stopped else SendStatus(status));
        case SendStatus(status) =>
          Send(Some(t.ref), ExitStatus(ch.id, status % 0x1_0000_0000));
          GoTo(i, SendEof);
        case SendEof =>
          Send(Some(t.ref), ChannelEof(ch.id));
          GoTo(i, Test(true));
      }
    }

    // One line of on_close and send_channel_close.
    method CloseTurn(i: nat)
      requires Enabled(Now(), Turn(i, Goes))
      requires threads[i].place.Test? || threads[i].place.Mark? || threads[i].place.SendClose? || threads[i].place.Pop?
      modifies `threads, `chans, `listed, `sent
      ensures Did(Turn(i, Goes))
    {
      var t := threads[i];
      var ch := chans[t.ref];
      match t.place {
        case Test(send) => GoTo(i, if ch.closed then Stopped else Mark(send));
        case Mark(send) =>
          chans := chans[t.ref := ch.(closed := true)];
          GoTo(i, if send then SendClose else Stopped);
        case SendClose =>
          Send(Some(t.ref), ChannelClose(ch.id));
          GoTo(i, Pop);
        case Pop =>
          listed := listed - {ch.id};
          GoTo(i, Stopped);
      }
    }

    method RunThread(i: nat, choice: Choice)
      requires Enabled(Now(), Turn(i, choice))
      modifies `threads, `chans, `listed, `sent
      ensures Did(Turn(i, choice))
    {
      match threads[i].place {
        case Loop => ReaderTurn(i, choice);
        case Reading => ReaderTurn(i, choice);
        case Feeding => ReaderTurn(i, choice);
        case Test(_) => CloseTurn(i);
        case Mark(_) => CloseTurn(i);
        case SendClose => CloseTurn(i);
        case Pop => CloseTurn(i);
        case _ => FinishTurn(i, choice);
      }
    }

    method Dispatch(e: Event)
      requires Inv(Now()) && Enabled(Now(), e)
      modifies `listed, `chans, `threads, `main, `sent
      ensures Did(e)
    {
      match e {
        case Turn(i, choice) => RunThread(i, choice);
        case Relay(OpenChannel(id, kind, connected)) => HandleOpenChannel(id, kind, connected);
        case Relay(GotData(id, fails)) => HandleData(id, fails);
        case Relay(GotRequest(id, request)) => HandleRequest(id, request);
        case Relay(GotEof(id)) => HandleEof(id);
        case Relay(GotClose(id)) => HandleChannelClose(id);
      }
    }

    method Step(e: Event)
      requires Valid() && Enabled(Now(), e)
      modifies `listed, `chans, `threads, `main, `sent, `history
      ensures Valid() && history == old(history) + [e] && Did(e)
    {
      ghost var s, log, before := Now(), sent, history;
      Dispatch(e);
      history := before + [e];
      Recorded(s, log, before, e);
    }

    lemma NextIsEnabled(all: seq<Event>, k: nat)
      requires Valid() && Possible(CLIENT, START, all) && k < |all| && history == all[..k]
      ensures Enabled(Now(), all[k])
    {
      EnabledBefore(CLIENT, START, all, k);
    }

    // Frames of the relay and turns of threads, in any order: the methods run the state machine.
    method Serve(events: seq<Event>)
      requires Valid() && Possible(CLIENT, START, history + events)
      modifies `listed, `chans, `threads, `main, `sent, `history
      ensures Valid() && history == old(history) + events
    {
      ghost var all, done := history + events, |history|;
      for i := 0 to |events|
        invariant Valid() && history == all[..done + i]
      {
        NextIsEnabled(all, done + i);
        Step(events[i]);
        assert all[..done + i] + [all[done + i]] == all[..done + i + 1];
      }
    }

    // send_channel_data, for an answer of the SFTP server: cut into pieces, even when the channel
    // is closed.
    method SendChannelData(i: nat, data: bytes)
      requires Valid() && i < |threads| && threads[i].place.Feeding?
      modifies `listed, `chans, `threads, `main, `sent, `history
      ensures Valid() && i < |threads| && threads[i] == old(threads[i])
      ensures exists chunks :: ChunksOf(data, chunks) && history == old(history) + Sending(i, chunks)
    {
      var chunks := Chunks(data);
      ghost var turns := Sending(i, chunks);
      for k := 0 to |chunks|
        invariant Valid() && i < |threads| && threads[i] == old(threads[i])
        invariant history == old(history) + turns[..k]
      {
        assert ThreadAt(Now(), i);
        Step(Turn(i, Got(chunks[k])));
        assert turns[..k + 1] == turns[..k] + [turns[k]];
      }
      assert turns[..|chunks|] == turns;
    }

    // Everything a connection has sent, at any time: its frames carry the ids of their channels,
    // the data for a channel is what its threads have read, and behind a CLOSE something can still
    // follow if and only if a thread of the channel is in flight.
    lemma LogIsSafe(k: nat, ref: nat)
      requires Valid() && k < |sent|
      ensures OnTheWire(Now(), sent[k])
      ensures Gathered((o: Output) => DataOf(o, ref), sent) == Taken(CLIENT, (s: State, e: Event) => DataRead(s, e, ref), START, history)
      ensures IsClose(sent[k], ref) ==> IsClosed(Now(), ref) && (HasIdAlone(Now(), ref) ==> (CanSpeak(Now(), ref) <==> InFlight(Now(), ref)))
    {
      OnTheWireInRun(history, k);
      DataComesFromItsThreads(history, ref);
      if IsClose(sent[k], ref) { BehindClose(history, k, ref); }
    }

    // Every frame in the log is the one its step called for, and all that were called for are there.
    lemma LogIsDue(i: nat, o: Output)
      requires Valid()
      ensures (i < |sent| && sent[i] == o) <==>
        exists a: nat :: a < |history| && DueAt(CLIENT, ClientTranscript.IsDue, START, history, a, i, o)
    {
      ClientTranscript.FramesExactly(history, i, o);
    }
  }
}
