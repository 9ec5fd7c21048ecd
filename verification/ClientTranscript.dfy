/** What the reverse client sends, over whole runs: every frame is the one that its step calls for,
    and what each frame of the relay sets going. */
module ClientTranscript {
  import opened Wrappers
  import opened Bits
  import opened Runs
  import opened ClientChannels
  import opened ClientTraces

  // ------------------------------------------------------------ frame by frame

  // Thread i of this channel takes its turn there.
  predicate TakesTurn(s: State, e: Event, ref: nat, id: nat) {
    && e.Turn? && e.thread < |s.threads| && s.threads[e.thread].ref == ref && ref < |s.chans| && s.chans[ref].id == id
  }

  // It has read this, from a process or a TCP connection, or as an answer of the SFTP server.
  predicate HasRead(s: State, e: Event, data: bytes) {
    && e.Turn? && e.thread < |s.threads| && e.choice == Got(data)
    && (s.threads[e.thread].place == Reading || s.threads[e.thread].place == Feeding)
  }

  predicate StandsAt(s: State, e: Event, place: Place) {
    e.Turn? && e.thread < |s.threads| && s.threads[e.thread].place == place
  }

  // The event makes the client send this frame for this channel.
  ghost predicate IsDue(s: State, e: Event, o: Output) {
    match o.frame
    case OpenConfirm(id, ok) =>
      && o.owner == None && e.Relay? && e.frame.OpenChannel? && e.frame.id == id
      && (ok <==> e.frame.kind == Some(Session) || (e.frame.kind == Some(DirectTcp) && e.frame.connected))
    case ChannelData(id, data) =>
      o.owner.Some? && TakesTurn(s, e, o.owner.value, id) && HasRead(s, e, data) && s.threads[e.thread].code == None
    case ChannelExtended(id, code, data) =>
      o.owner.Some? && TakesTurn(s, e, o.owner.value, id) && HasRead(s, e, data) && s.threads[e.thread].code == Some(code)
    case ExitStatus(id, status) =>
      o.owner.Some? && TakesTurn(s, e, o.owner.value, id)
      && exists n: int :: StandsAt(s, e, SendStatus(n)) && status as int == n % 0x1_0000_0000
    case ChannelEof(id) => o.owner.Some? && TakesTurn(s, e, o.owner.value, id) && StandsAt(s, e, SendEof)
    case ChannelClose(id) => o.owner.Some? && TakesTurn(s, e, o.owner.value, id) && StandsAt(s, e, SendClose)
  }

  lemma OneFrame(a: Output, b: Output)
    ensures [a] == [b] <==> a == b
    ensures [a] != []
  {
    assert [a][0] == a && [b][0] == b;
  }

  lemma StepIsDue(s: State, e: Event, o: Output)
    requires Enabled(s, e)
    ensures |Handle(s, e).outputs| <= 1 && (Handle(s, e).outputs == [o] <==> IsDue(s, e, o))
  {
    match e {
      case Relay(f) => OneFrame(o, o);
      case Turn(i, choice) => TurnIsDue(s, i, choice, o);
    }
  }

  lemma TurnIsDue(s: State, i: nat, choice: Choice, o: Output)
    requires Enabled(s, Turn(i, choice))
    ensures |OnTurn(s, i, choice).outputs| <= 1 && (OnTurn(s, i, choice).outputs == [o] <==> IsDue(s, Turn(i, choice), o))
  {
    var t := s.threads[i];
    var ch := s.chans[t.ref];
    var m := Moves(ch, t.place, t.code, choice);
    if m.frames != [] {
      assert OnTurn(s, i, choice).outputs == [Sent(Some(t.ref), m.frames[0])];
      OneFrame(Sent(Some(t.ref), m.frames[0]), o);
    }
  }

  // Frame number i of a run is this one if and only if the step behind i frames called for it.
  lemma FramesExactly(events: seq<Event>, i: nat, o: Output)
    requires Possible(CLIENT, START, events)
    ensures var outputs := After(CLIENT, START, events).outputs;
      (i < |outputs| && outputs[i] == o) <==>
      exists a: nat :: a < |events| && DueAt(CLIENT, IsDue, START, events, a, i, o)
  {
    StartConsistent();
    forall s, e, o | Inv(s) && CLIENT.enabled(s, e)
      ensures SendsDueNow(CLIENT, IsDue, s, e, o)
    {
      StepIsDue(s, e, o);
    }
    var outputs := After(CLIENT, START, events).outputs;
    if i < |outputs| && outputs[i] == o {
      var a := SentIsDue(CLIENT, Inv, IsDue, START, events, i, o);
    }
    forall a: nat | a < |events| && DueAt(CLIENT, IsDue, START, events, a, i, o)
      ensures i < |outputs| && outputs[i] == o
    {
      DueIsSent(CLIENT, Inv, IsDue, START, events, a, i, o);
    }
  }

  // ------------------------------------------------------ how a channel ends

  lemma OneStep(s: State, e: Event)
    requires Enabled(s, e)
    ensures Possible(CLIENT, s, [e]) && After(CLIENT, s, [e]) == Handle(s, e)
  {
    StepFirst(CLIENT, s, e, []);
    assert [e] + [] == [e] && Handle(s, e).outputs + [] == Handle(s, e).outputs;
  }

  // The run with these events is possible, sends this, and leads there.
  ghost predicate Leads(s: State, events: seq<Event>, outputs: seq<Output>, t: State) {
    Possible(CLIENT, s, events) && After(CLIENT, s, events) == Effect(t, outputs)
  }

  lemma LeadsOn(s: State, a: seq<Event>, x: seq<Output>, t: State, b: seq<Event>, y: seq<Output>, u: State)
    requires Leads(s, a, x, t) && Leads(t, b, y, u)
    ensures Leads(s, a + b, x + y, u)
  {
    RunAppend(CLIENT, s, a, b);
  }

  function MovedTo(s: State, i: nat, place: Place): State
    requires i < |s.threads|
  {
    s.(threads := s.threads[i := s.threads[i].(place := place)])
  }

  // The channel closed and out of the dictionary, with its thread at an end.
  function Ended(s: State, i: nat): State
    requires i < |s.threads| && s.threads[i].ref < |s.chans|
  {
    var ref := s.threads[i].ref;
    State(s.listed - {s.chans[ref].id}, s.chans[ref := s.chans[ref].(closed := true)],
          s.threads[i := s.threads[i].(place := Stopped)], s.main)
  }

  predicate OpenAt(s: State, i: nat, place: Place) {
    i < |s.threads| && s.threads[i].ref < |s.chans| && s.threads[i].place == place && !s.chans[s.threads[i].ref].closed
  }

  // EOF, then CLOSE, and the channel is gone.
  lemma EndRuns(s: State, i: nat) returns (events: seq<Event>)
    requires OpenAt(s, i, SendEof)
    ensures forall e :: e in events ==> e == Turn(i, Goes)
    ensures var ref := s.threads[i].ref;
      Leads(s, events, [Sent(Some(ref), ChannelEof(s.chans[ref].id)), Sent(Some(ref), ChannelClose(s.chans[ref].id))], Ended(s, i))
  {
    var g, ref := Turn(i, Goes), s.threads[i].ref;
    var a := [g] + ([g] + ([g] + ([g] + [])));
    EndIsTold(s, i);
    var t := After(CLIENT, s, a).s;
    OneStep(t, g);
    var frames := Owned(ref, [ChannelEof(s.chans[ref].id), ChannelClose(s.chans[ref].id)]);
    assert Handle(t, g).outputs == [] && frames + [] == frames;
    assert Handle(t, g).s == Ended(s, i);
    LeadsOn(s, a, frames, t, [g], [], Ended(s, i));
    events := a + [g];
    assert frames == [Sent(Some(ref), ChannelEof(s.chans[ref].id)), Sent(Some(ref), ChannelClose(s.chans[ref].id))];
  }

  function Farewell(s: State, i: nat, status: int): seq<Output>
    requires i < |s.threads| && s.threads[i].ref < |s.chans|
  {
    var ref, id := s.threads[i].ref, s.chans[s.threads[i].ref].id;
    [Sent(Some(ref), ExitStatus(id, status % 0x1_0000_0000)), Sent(Some(ref), ChannelEof(id)), Sent(Some(ref), ChannelClose(id))]
  }

  // _finish_with_status on an open channel: the status, EOF and CLOSE.
  lemma FinishRuns(s: State, i: nat, status: int) returns (events: seq<Event>)
    requires OpenAt(s, i, Finish(status))
    ensures forall e :: e in events ==> e == Turn(i, Goes)
    ensures Leads(s, events, Farewell(s, i, status), Ended(s, i))
  {
    var g, ref := Turn(i, Goes), s.threads[i].ref;
    var s1 := MovedTo(s, i, SendStatus(status));
    var s2 := MovedTo(s1, i, SendEof);
    OneStep(s, g);
    assert Handle(s, g).s == s1 && Handle(s, g).outputs == [];
    OneStep(s1, g);
    var told := [Sent(Some(ref), ExitStatus(s.chans[ref].id, status % 0x1_0000_0000))];
    assert Handle(s1, g).s == s2 && Handle(s1, g).outputs == told;
    var rest := EndRuns(s2, i);
    assert Ended(s2, i) == Ended(s, i);
    var frames := [Sent(Some(ref), ChannelEof(s.chans[ref].id)), Sent(Some(ref), ChannelClose(s.chans[ref].id))];
    LeadsOn(s1, [g], told, s2, rest, frames, Ended(s, i));
    LeadsOn(s, [g], [], s1, [g] + rest, told + frames, Ended(s, i));
    events := [g] + ([g] + rest);
    assert [] + (told + frames) == Farewell(s, i, status);
  }

  // A process that exits while its channel is open: its status in 32 bits, EOF and CLOSE.
  lemma ProcessExitIsTold(s: State, i: nat, status: int) returns (events: seq<Event>)
    requires OpenAt(s, i, Waiting)
    ensures Leads(s, [Turn(i, Exits(status))] + events, Farewell(s, i, status), Ended(s, i))
    ensures forall e :: e in events ==> e == Turn(i, Goes)
  {
    var s1 := MovedTo(s, i, Finish(status));
    OneStep(s, Turn(i, Exits(status)));
    assert Handle(s, Turn(i, Exits(status))).s == s1 && Handle(s, Turn(i, Exits(status))).outputs == [];
    events := FinishRuns(s1, i, status);
    assert Ended(s1, i) == Ended(s, i) && [] + Farewell(s, i, status) == Farewell(s, i, status);
    LeadsOn(s, [Turn(i, Exits(status))], [], s1, events, Farewell(s, i, status), Ended(s, i));
  }

  // The reader of a TCP connection that comes to its end: EOF and CLOSE.
  lemma TcpEndIsTold(s: State, i: nat) returns (events: seq<Event>)
    requires OpenAt(s, i, Reading) && s.chans[s.threads[i].ref].kind == DirectTcp
    ensures var ref := s.threads[i].ref;
      Leads(s, [Turn(i, Ends)] + events,
            [Sent(Some(ref), ChannelEof(s.chans[ref].id)), Sent(Some(ref), ChannelClose(s.chans[ref].id))], Ended(s, i))
    ensures forall e :: e in events ==> e == Turn(i, Goes)
  {
    var ref, s1 := s.threads[i].ref, MovedTo(s, i, SendEof);
    OneStep(s, Turn(i, Ends));
    assert Handle(s, Turn(i, Ends)).s == s1 && Handle(s, Turn(i, Ends)).outputs == [];
    events := EndRuns(s1, i);
    var frames := [Sent(Some(ref), ChannelEof(s.chans[ref].id)), Sent(Some(ref), ChannelClose(s.chans[ref].id))];
    assert Ended(s1, i) == Ended(s, i) && [] + frames == frames;
    LeadsOn(s, [Turn(i, Ends)], [], s1, events, frames, Ended(s, i));
  }

  // A session is listed under the id, and open.
  predicate OpenSession(s: State, id: nat) {
    id in s.listed && s.listed[id] < |s.chans| && s.chans[s.listed[id]].kind == Session && s.chans[s.listed[id]].id == id
    && !s.chans[s.listed[id]].closed
  }

  // What a channel that ends says, and how it is left.
  ghost predicate EndsWith(s: State, id: nat, status: int, outputs: seq<Output>, t: State)
    requires OpenSession(s, id)
  {
    var ref := s.listed[id];
    && outputs == [Sent(Some(ref), ExitStatus(id, status % 0x1_0000_0000)), Sent(Some(ref), ChannelEof(id)), Sent(Some(ref), ChannelClose(id))]
    && t.listed == s.listed - {id} && |t.chans| == |s.chans| && t.chans[ref].closed
    && (forall k :: 0 <= k < |s.chans| && k != ref ==> t.chans[k] == s.chans[k])
    && |t.threads| == |s.threads| + 1 && t.threads[..|s.threads|] == s.threads && t.threads[|s.threads|].place == Stopped
  }

  // A request that fails, an unknown subsystem included, ends the session with status 1 ...
  lemma FailingRequestEnds(s: State, id: nat) returns (events: seq<Event>, t: State, outputs: seq<Output>)
    requires Idle(s) && OpenSession(s, id)
    ensures Leads(s, [Relay(GotRequest(id, Failing))] + events, outputs, t) && EndsWith(s, id, 1, outputs, t)
    ensures forall e :: e in events ==> e == Turn(|s.threads|, Goes)
  {
    var e, i := Relay(GotRequest(id, Failing)), |s.threads|;
    OneStep(s, e);
    var s1 := Handle(s, e).s;
    events := FinishRuns(s1, i, 1);
    t, outputs := Ended(s1, i), Farewell(s1, i, 1);
    assert [] + outputs == outputs;
    LeadsOn(s, [e], [], s1, events, outputs, t);
  }

  // ... and the end of the input of the SFTP server ends it with status 0.
  lemma SftpEndEnds(s: State, id: nat) returns (events: seq<Event>, t: State, outputs: seq<Output>)
    requires Idle(s) && OpenSession(s, id) && s.chans[s.listed[id]].sftp
    ensures Leads(s, [Relay(GotEof(id))] + events, outputs, t) && EndsWith(s, id, 0, outputs, t) && !t.chans[s.listed[id]].sftp
    ensures forall e :: e in events ==> e == Turn(|s.threads|, Goes)
  {
    var e, i := Relay(GotEof(id)), |s.threads|;
    OneStep(s, e);
    var s1 := Handle(s, e).s;
    events := FinishRuns(s1, i, 0);
    t, outputs := Ended(s1, i), Farewell(s1, i, 0);
    assert [] + outputs == outputs;
    LeadsOn(s, [e], [], s1, events, outputs, t);
  }

  // A CLOSE of the relay is not answered: the channel is closed and out of the dictionary.
  lemma CloseIsNotAnswered(s: State, id: nat)
    requires Idle(s) && id in s.listed && s.listed[id] < |s.chans| && !s.chans[s.listed[id]].closed
    ensures var i, ref := |s.threads|, s.listed[id];
      Leads(s, [Relay(GotClose(id))] + ([Turn(i, Goes)] + [Turn(i, Goes)]), [],
            State(s.listed - {id}, s.chans[ref := s.chans[ref].(closed := true)], s.threads + [Thread(ref, Stopped, None)], Some(i)))
  {
    var e, i, ref := Relay(GotClose(id)), |s.threads|, s.listed[id];
    var g := Turn(i, Goes);
    OneStep(s, e);
    var s1 := Handle(s, e).s;
    OneStep(s1, g);
    var s2 := Handle(s1, g).s;
    OneStep(s2, g);
    var s3 := State(s.listed - {id}, s.chans[ref := s.chans[ref].(closed := true)], s.threads + [Thread(ref, Stopped, None)], Some(i));
    assert Handle(s2, g).s == s3 && Handle(s2, g).outputs == [];
    LeadsOn(s1, [g], [], s2, [g], [], s3);
    LeadsOn(s, [e], [], s1, [g] + [g], [] + [], s3);
  }

  // ---------------------------------------------------- what frames set going

  // The threads that a frame starts, with their channel.
  function StartedBy(s: State, f: FromRelay): seq<Thread> {
    if f.OpenChannel? then
      if f.kind == Some(DirectTcp) && f.connected then [Thread(|s.chans|, Loop, None)] else []
    else if f.id !in s.listed || s.listed[f.id] >= |s.chans| then []
    else
      var ref := s.listed[f.id];
      var ch := s.chans[ref];
      if f == GotClose(f.id) then [Thread(ref, Test(false), None)]
      else if ch.kind == DirectTcp then []
      else if f.GotData? && ch.sftp then [Thread(ref, Feeding, None)]
      else if f.GotData? && f.fails && ch.process == Terminal then [Thread(ref, Test(true), None)]
      else if f == GotRequest(f.id, StartProcess(true)) && ch.process == NotStarted then
        [Thread(ref, Loop, None), Thread(ref, Waiting, None)]
      else if f == GotRequest(f.id, StartProcess(false)) && ch.process == NotStarted then
        [Thread(ref, Loop, None), Thread(ref, Loop, Some(1)), Thread(ref, Waiting, None)]
      else if f == GotRequest(f.id, Failing) then [Thread(ref, Finish(1), None)]
      else if f == GotEof(f.id) && ch.sftp then [Thread(ref, Finish(0), None)]
      else []
  }

  lemma FrameStarts(s: State, f: FromRelay)
    requires Idle(s)
    ensures Handle(s, Relay(f)).s.threads == s.threads + StartedBy(s, f)
  {
    assert s.threads + [] == s.threads;
    if f.GotRequest? && f.id in s.listed && s.listed[f.id] < |s.chans| && s.chans[s.listed[f.id]].kind == Session && f.request.StartProcess? {
      ProcessStarts(s, s.listed[f.id], f.request.terminal);
    }
  }

  lemma ProcessStarts(s: State, ref: nat, terminal: bool)
    requires ref < |s.chans|
    ensures WithProcess(s, ref, terminal).threads == s.threads +
      if s.chans[ref].process != NotStarted then []
      else if terminal then [Thread(ref, Loop, None), Thread(ref, Waiting, None)]
      else [Thread(ref, Loop, None), Thread(ref, Loop, Some(1)), Thread(ref, Waiting, None)]
  {
    assert s.threads + [] == s.threads;
  }

  // Which channels there are, and which is listed under an id: the newest one that was opened under
  // it, until the relay closes it or its own CLOSE has gone out.
  predicate Opens(e: Event) {
    e.Relay? && e.frame.OpenChannel? && (e.frame.kind == Some(Session) || (e.frame.kind == Some(DirectTcp) && e.frame.connected))
  }

  predicate Delists(s: State, e: Event, id: nat) {
    || e == Relay(GotClose(id))
    || (e.Turn? && e.thread < |s.threads| && s.threads[e.thread].place == Pop
        && s.threads[e.thread].ref < |s.chans| && s.chans[s.threads[e.thread].ref].id == id)
  }

  lemma ListedExactly(s: State, e: Event, id: nat, ref: nat)
    requires Inv(s) && Enabled(s, e)
    ensures var t := Handle(s, e).s;
      && |t.chans| == |s.chans| + (if Opens(e) then 1 else 0)
      && (Opens(e) ==> t.chans == s.chans + [Channel(e.frame.id, e.frame.kind.value, false, NotStarted, false)])
      && (id in t.listed && t.listed[id] == ref <==>
            if Opens(e) && e.frame.id == id then ref == |s.chans|
            else id in s.listed && s.listed[id] == ref && !Delists(s, e, id))
  {
    match e {
      case Turn(_, _) =>
      case Relay(f) => if id in s.listed { assert ListedAt(s, id); }
    }
  }
}
