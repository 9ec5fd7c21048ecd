/** What the runs of the reverse client send: whose data it is, and what can follow a CLOSE. */
module ClientTraces {
  import opened Wrappers
  import opened Bits
  import opened Runs
  import opened ClientChannels

  // The output is made for this channel.
  predicate Speaks(o: Output, ref: nat) {
    o.owner == Some(ref)
  }

  ghost predicate SomeSpeak(outputs: seq<Output>, ref: nat) {
    exists k :: 0 <= k < |outputs| && Speaks(outputs[k], ref)
  }

  predicate IsListed(s: State, ref: nat)
    requires ref < |s.chans|
  {
    s.chans[ref].id in s.listed && s.listed[s.chans[ref].id] == ref
  }

  predicate IsClosed(s: State, ref: nat) {
    ref < |s.chans| && s.chans[ref].closed
  }

  // ------------------------------------------------------- what can follow

  // A thread of a closed channel that sends something all the same: it has looked at the flag
  // before, or does not look at it.
  predicate Sends(place: Place, kind: Kind) {
    match place
    case Loop => kind.DirectTcp?
    case Reading => true
    case Feeding => true
    case SendStatus(_) => true
    case SendEof => true
    case Mark(send) => send
    case SendClose => true
    case _ => false
  }

  predicate ThreadInFlight(s: State, ref: nat, i: nat)
    requires ref < |s.chans|
  {
    i < |s.threads| && s.threads[i].ref == ref && Sends(s.threads[i].place, s.chans[ref].kind)
  }

  // The reader of frames is about to take the channel out of the dictionary.
  predicate MainPops(s: State, ref: nat) {
    s.main.Some? && s.main.value < |s.threads| && s.threads[s.main.value].ref == ref && s.threads[s.main.value].place.Pop?
  }

  // A frame of the relay can still reach the session, and start an SFTP server on it.
  predicate Reachable(s: State, ref: nat)
    requires ref < |s.chans|
  {
    s.chans[ref].kind.Session? && IsListed(s, ref) && !MainPops(s, ref)
  }

  ghost predicate InFlight(s: State, ref: nat)
    requires ref < |s.chans|
  {
    Reachable(s, ref) || exists i: nat :: ThreadInFlight(s, ref, i)
  }

  ghost predicate Silent(s: State, ref: nat) {
    IsClosed(s, ref) && !InFlight(s, ref)
  }

  // ------------------------------------------------------ silence is kept

  lemma SilentTurn(s: State, i: nat, choice: Choice, ref: nat)
    requires Inv(s) && Enabled(s, Turn(i, choice)) && Silent(s, ref)
    ensures Silent(OnTurn(s, i, choice).s, ref) && !SomeSpeak(OnTurn(s, i, choice).outputs, ref)
  {
    var t := OnTurn(s, i, choice).s;
    assert ThreadAt(s, i);
    assert s.threads[i].ref == ref ==> !ThreadInFlight(s, ref, i);
    forall k: nat
      ensures !ThreadInFlight(t, ref, k)
    {
      assert !ThreadInFlight(s, ref, k);
    }
    assert !Reachable(s, ref);
  }

  // A frame of the relay starts threads only on a channel that it opens, or on a session that it
  // reaches.
  lemma NewThreads(s: State, f: FromRelay, k: nat)
    requires Inv(s) && |s.threads| <= k < |OnRelay(s, f).s.threads|
    ensures var t := OnRelay(s, f).s; var ref := t.threads[k].ref;
      ref < |t.chans| && (ref < |s.chans| && Sends(t.threads[k].place, t.chans[ref].kind) ==> s.chans[ref].kind.Session? && IsListed(s, ref))
  {
    if !f.OpenChannel? && f.id in s.listed { assert ListedAt(s, f.id); }
  }

  lemma ListedBefore(s: State, f: FromRelay, ref: nat)
    requires Inv(s) && ref < |s.chans| && ref < |OnRelay(s, f).s.chans| && OnRelay(s, f).s.chans[ref].id == s.chans[ref].id
    ensures IsListed(OnRelay(s, f).s, ref) ==> IsListed(s, ref)
  {}

  lemma SilentRelay(s: State, f: FromRelay, ref: nat)
    requires Inv(s) && Idle(s) && Silent(s, ref)
    ensures Silent(OnRelay(s, f).s, ref) && !SomeSpeak(OnRelay(s, f).outputs, ref)
  {
    var t := OnRelay(s, f).s;
    RelayGrows(s, f);
    assert !Reachable(s, ref);
    ListedBefore(s, f, ref);
    forall k: nat
      ensures !ThreadInFlight(t, ref, k)
    {
      assert !ThreadInFlight(s, ref, k);
      if |s.threads| <= k < |t.threads| { NewThreads(s, f, k); }
    }
  }

  lemma SilentStep(s: State, e: Event, ref: nat)
    requires Inv(s) && Enabled(s, e) && Silent(s, ref)
    ensures Silent(Handle(s, e).s, ref) && !SomeSpeak(Handle(s, e).outputs, ref)
  {
    match e {
      case Relay(f) => SilentRelay(s, f, ref);
      case Turn(i, choice) => SilentTurn(s, i, choice, ref);
    }
  }

  lemma {:induction false} SilentForever(s: State, events: seq<Event>, ref: nat)
    requires Inv(s) && Possible(CLIENT, s, events) && Silent(s, ref)
    ensures !SomeSpeak(After(CLIENT, s, events).outputs, ref)
    decreases events
  {
    if events != [] {
      var first, t := Handle(s, events[0]).outputs, Handle(s, events[0]).s;
      HandleKeeps(s, events[0]);
      SilentStep(s, events[0], ref);
      SilentForever(t, events[1..], ref);
      var rest := After(CLIENT, t, events[1..]).outputs;
      forall k | 0 <= k < |first + rest|
        ensures !Speaks((first + rest)[k], ref)
      {
        assert if k < |first| then (first + rest)[k] == first[k] else (first + rest)[k] == rest[k - |first|];
      }
    }
  }

  // ------------------------------------------------------------ a way to speak

  // There is a continuation in which the channel speaks.
  ghost predicate CanSpeak(s: State, ref: nat) {
    exists events :: Possible(CLIENT, s, events) && SomeSpeak(After(CLIENT, s, events).outputs, ref)
  }

  lemma SomeSpeakIn(a: seq<Output>, b: seq<Output>, ref: nat)
    requires SomeSpeak(a, ref) || SomeSpeak(b, ref)
    ensures SomeSpeak(a + b, ref)
  {
    if k :| 0 <= k < |a| && Speaks(a[k], ref) {
      assert (a + b)[k] == a[k];
    } else {
      var k :| 0 <= k < |b| && Speaks(b[k], ref);
      assert (a + b)[|a| + k] == b[k];
    }
  }

  lemma SpeaksNow(s: State, e: Event, ref: nat)
    requires Enabled(s, e) && SomeSpeak(Handle(s, e).outputs, ref)
    ensures CanSpeak(s, ref)
  {
    StepFirst(CLIENT, s, e, []);
    SomeSpeakIn(Handle(s, e).outputs, [], ref);
    assert Possible(CLIENT, s, [e] + []);
  }

  lemma SpeaksLater(s: State, e: Event, ref: nat)
    requires Enabled(s, e) && CanSpeak(Handle(s, e).s, ref)
    ensures CanSpeak(s, ref)
  {
    var more :| Possible(CLIENT, Handle(s, e).s, more) && SomeSpeak(After(CLIENT, Handle(s, e).s, more).outputs, ref);
    StepFirst(CLIENT, s, e, more);
    SomeSpeakIn(Handle(s, e).outputs, After(CLIENT, Handle(s, e).s, more).outputs, ref);
    assert Possible(CLIENT, s, [e] + more);
  }

  lemma TurnSpeaks(s: State, i: nat, choice: Choice, ref: nat)
    requires Enabled(s, Turn(i, choice)) && s.threads[i].ref == ref
    requires Moves(s.chans[ref], s.threads[i].place, s.threads[i].code, choice).frames != []
    ensures CanSpeak(s, ref)
  {
    var outputs := Handle(s, Turn(i, choice)).outputs;
    assert Speaks(outputs[0], ref);
    SpeaksNow(s, Turn(i, choice), ref);
  }

  lemma ThreadSpeaks(s: State, ref: nat, i: nat)
    requires IsClosed(s, ref) && ThreadInFlight(s, ref, i)
    ensures CanSpeak(s, ref)
  {
    match s.threads[i].place {
      case Loop =>
        TurnSpeaks(Handle(s, Turn(i, Goes)).s, i, Goes, ref);
        SpeaksLater(s, Turn(i, Goes), ref);
      case Reading => TurnSpeaks(s, i, Got([0]), ref);
      case Feeding => TurnSpeaks(s, i, Got([0]), ref);
      case Mark(_) =>
        TurnSpeaks(Handle(s, Turn(i, Goes)).s, i, Goes, ref);
        SpeaksLater(s, Turn(i, Goes), ref);
      case _ => TurnSpeaks(s, i, Goes, ref);
    }
  }

  // A session that a frame can reach: an SFTP server is started on it, and answers.
  lemma ReachedSpeaks(s: State, ref: nat)
    requires Idle(s) && ref < |s.chans| && s.chans[ref].kind.Session? && IsListed(s, ref)
    ensures CanSpeak(s, ref)
  {
    var id := s.chans[ref].id;
    var e, f := Relay(GotRequest(id, StartSftp)), Relay(GotData(id, false));
    var t := Handle(s, e).s;
    var u := Handle(t, f).s;
    assert u.threads[|s.threads|] == Thread(ref, Feeding, None);
    TurnSpeaks(u, |s.threads|, Got([0]), ref);
    SpeaksLater(t, f, ref);
    SpeaksLater(s, e, ref);
  }

  // No other channel has the id.
  predicate HasIdAlone(s: State, ref: nat)
    requires ref < |s.chans|
  {
    forall other :: 0 <= other < |s.chans| && other != ref ==> s.chans[other].id != s.chans[ref].id
  }

  function Ahead(place: Place): nat {
    match place
    case Loop => 9
    case Reading => 8
    case Waiting => 8
    case Finish(_) => 7
    case SendStatus(_) => 6
    case SendEof => 5
    case Test(_) => 4
    case Mark(_) => 3
    case SendClose => 2
    case Feeding => 1
    case Pop => 1
    case Stopped => 0
  }

  function Onward(place: Place): Choice {
    match place
    case Reading => Ends
    case Feeding => Ends
    case Waiting => Exits(0)
    case _ => Goes
  }

  // The reader of frames finishes what it is busy with; meanwhile the session stays listed.
  lemma {:induction false} ReachableSpeaks(s: State, ref: nat)
    requires Inv(s) && IsClosed(s, ref) && Reachable(s, ref) && HasIdAlone(s, ref)
    requires forall i: nat :: !ThreadInFlight(s, ref, i)
    ensures CanSpeak(s, ref)
    decreases if s.main.Some? && s.main.value < |s.threads| then Ahead(s.threads[s.main.value].place) else 0
  {
    if Idle(s) {
      ReachedSpeaks(s, ref);
    } else {
      var i := s.main.value;
      assert ThreadAt(s, i) && !ThreadInFlight(s, ref, i);
      var e := Turn(i, Onward(s.threads[i].place));
      var t := Handle(s, e).s;
      HandleKeeps(s, e);
      MainTurn(s, i, ref);
      if k: nat :| ThreadInFlight(t, ref, k) {
        ThreadSpeaks(t, ref, k);
      } else {
        ReachableSpeaks(t, ref);
      }
      SpeaksLater(s, e, ref);
    }
  }

  lemma MainTurn(s: State, i: nat, ref: nat)
    requires Inv(s) && IsClosed(s, ref) && Reachable(s, ref) && HasIdAlone(s, ref)
    requires s.main == Some(i) && i < |s.threads| && !s.threads[i].place.Stopped? && !ThreadInFlight(s, ref, i)
    ensures var e := Turn(i, Onward(s.threads[i].place));
      Enabled(s, e) && var t := Handle(s, e).s;
      && IsClosed(t, ref) && Reachable(t, ref) && HasIdAlone(t, ref) && t.main == Some(i) && i < |t.threads|
      && Ahead(t.threads[i].place) < Ahead(s.threads[i].place)
  {
    assert ThreadAt(s, i);
  }

  lemma WhatCanFollow(s: State, ref: nat)
    requires Inv(s) && IsClosed(s, ref) && HasIdAlone(s, ref)
    ensures CanSpeak(s, ref) <==> InFlight(s, ref)
  {
    if InFlight(s, ref) {
      if i: nat :| ThreadInFlight(s, ref, i) { ThreadSpeaks(s, ref, i); } else { ReachableSpeaks(s, ref); }
    } else if more :| Possible(CLIENT, s, more) && SomeSpeak(After(CLIENT, s, more).outputs, ref) {
      SilentForever(s, more, ref);
    }
  }

  // ------------------------------------------------------------- labels

  // A frame that is sent for a channel carries its id, and a CLOSE is sent only for a channel
  // that is marked closed.
  predicate OnTheWire(s: State, o: Output) {
    if o.owner.None? then o.frame.OpenConfirm?
    else
      && o.owner.value < |s.chans| && !o.frame.OpenConfirm? && o.frame.id == s.chans[o.owner.value].id
      && (o.frame.ChannelClose? ==> s.chans[o.owner.value].closed)
  }

  lemma LabelsMatchTheWire(s: State, e: Event, k: nat)
    requires Inv(s) && Enabled(s, e) && k < |Handle(s, e).outputs|
    ensures OnTheWire(Handle(s, e).s, Handle(s, e).outputs[k])
  {
    if e.Turn? { assert ThreadAt(s, e.thread); }
  }

  lemma OnTheWireInRun(events: seq<Event>, k: nat)
    requires Possible(CLIENT, START, events) && k < |After(CLIENT, START, events).outputs|
    ensures OnTheWire(After(CLIENT, START, events).s, After(CLIENT, START, events).outputs[k])
  {
    StartConsistent();
    forall s, e, i | Inv(s) && CLIENT.enabled(s, e) && 0 <= i < |CLIENT.step(s, e).outputs|
      ensures OnTheWire(CLIENT.step(s, e).s, CLIENT.step(s, e).outputs[i])
    {
      LabelsMatchTheWire(s, e, i);
    }
    forall s, e, o | Inv(s) && CLIENT.enabled(s, e) && OnTheWire(s, o)
      ensures OnTheWire(CLIENT.step(s, e).s, o)
    {
      HandleStays(s, e);
    }
    OutputsMatch(CLIENT, Inv, OnTheWire, START, events, k);
  }

  // Behind a CLOSE, in any run: something for the channel can still follow if and only if one of
  // its threads is in flight - it has looked at the `closed` flag and not sent yet, or does not
  // look - or a frame can still reach the session through the dictionary.
  lemma BehindClose(events: seq<Event>, k: nat, ref: nat)
    requires Possible(CLIENT, START, events) && k < |After(CLIENT, START, events).outputs|
    requires Speaks(After(CLIENT, START, events).outputs[k], ref) && After(CLIENT, START, events).outputs[k].frame.ChannelClose?
    ensures var s := After(CLIENT, START, events).s;
      IsClosed(s, ref) && (HasIdAlone(s, ref) ==> (CanSpeak(s, ref) <==> InFlight(s, ref)))
    // Without the condition on the id, nothing follows when nothing is in flight.
    ensures var s := After(CLIENT, START, events).s; CanSpeak(s, ref) ==> InFlight(s, ref)
  {
    StartConsistent();
    RunKeeps(CLIENT, Inv, START, events);
    OnTheWireInRun(events, k);
    var s := After(CLIENT, START, events).s;
    if HasIdAlone(s, ref) { WhatCanFollow(s, ref); }
    if !InFlight(s, ref) && CanSpeak(s, ref) {
      var more :| Possible(CLIENT, s, more) && SomeSpeak(After(CLIENT, s, more).outputs, ref);
      SilentForever(s, more, ref);
    }
  }

  // ------------------------------------------------------- a second CLOSE

  predicate IsClose(o: Output, ref: nat) {
    Speaks(o, ref) && o.frame.ChannelClose?
  }

  predicate Closing(s: State, ref: nat, i: nat) {
    i < |s.threads| && s.threads[i].ref == ref && (s.threads[i].place == Mark(true) || s.threads[i].place.SendClose?)
  }

  ghost predicate CanClose(s: State, ref: nat) {
    exists events, k :: Possible(CLIENT, s, events) && 0 <= k < |After(CLIENT, s, events).outputs| && IsClose(After(CLIENT, s, events).outputs[k], ref)
  }

  ghost predicate NoneCloses(s: State, ref: nat) {
    IsClosed(s, ref) && forall i: nat :: !Closing(s, ref, i)
  }

  lemma NoneClosesTurn(s: State, i: nat, choice: Choice, ref: nat)
    requires Inv(s) && Enabled(s, Turn(i, choice)) && NoneCloses(s, ref)
    ensures var t := OnTurn(s, i, choice); IsClosed(t.s, ref) && !Closing(t.s, ref, i) && forall k :: 0 <= k < |t.outputs| ==> !IsClose(t.outputs[k], ref)
  {
    assert !Closing(s, ref, i);
  }

  lemma NoneClosesStep(s: State, e: Event, ref: nat)
    requires Inv(s) && Enabled(s, e) && NoneCloses(s, ref)
    ensures NoneCloses(Handle(s, e).s, ref)
    ensures forall k :: 0 <= k < |Handle(s, e).outputs| ==> !IsClose(Handle(s, e).outputs[k], ref)
  {
    var t := Handle(s, e).s;
    match e {
      case Turn(i, choice) =>
        NoneClosesTurn(s, i, choice, ref);
        forall k: nat
          ensures !Closing(t, ref, k)
        {
          assert !Closing(s, ref, k);
        }
      case Relay(f) =>
        RelayGrows(s, f);
        forall k: nat
          ensures !Closing(t, ref, k)
        {
          assert !Closing(s, ref, k);
        }
    }
  }

  lemma {:induction false} NeverClosesAgain(s: State, events: seq<Event>, ref: nat, k: nat)
    requires Inv(s) && Possible(CLIENT, s, events) && NoneCloses(s, ref) && k < |After(CLIENT, s, events).outputs|
    ensures !IsClose(After(CLIENT, s, events).outputs[k], ref)
    decreases events
  {
    var n := |Handle(s, events[0]).outputs|;
    HandleKeeps(s, events[0]);
    NoneClosesStep(s, events[0], ref);
    if k >= n { NeverClosesAgain(Handle(s, events[0]).s, events[1..], ref, k - n); }
  }

  lemma ClosingCloses(s: State, ref: nat, i: nat)
    requires IsClosed(s, ref) && Closing(s, ref, i)
    ensures CanClose(s, ref)
  {
    var e := Turn(i, Goes);
    var t := Handle(s, e).s;
    if s.threads[i].place.Mark? {
      StepFirst(CLIENT, t, e, []);
      StepFirst(CLIENT, s, e, [e] + []);
      assert IsClose(After(CLIENT, s, [e] + ([e] + [])).outputs[0], ref);
    } else {
      StepFirst(CLIENT, s, e, []);
      assert IsClose(After(CLIENT, s, [e] + []).outputs[0], ref);
    }
  }

  // The test of the flag and its setting are two steps, too: another CLOSE can follow if and only
  // if another thread has made the test before the flag was set.
  lemma SecondClose(events: seq<Event>, ref: nat)
    requires Possible(CLIENT, START, events) && IsClosed(After(CLIENT, START, events).s, ref)
    ensures var s := After(CLIENT, START, events).s; CanClose(s, ref) <==> exists i: nat :: Closing(s, ref, i)
  {
    StartConsistent();
    RunKeeps(CLIENT, Inv, START, events);
    var s := After(CLIENT, START, events).s;
    if i: nat :| Closing(s, ref, i) {
      ClosingCloses(s, ref, i);
    } else if more, k :| Possible(CLIENT, s, more) && 0 <= k < |After(CLIENT, s, more).outputs| && IsClose(After(CLIENT, s, more).outputs[k], ref) {
      NeverClosesAgain(s, more, ref, k);
    }
  }

  // ---------------------------------------------------------------- data

  function DataOf(o: Output, ref: nat): bytes {
    if Speaks(o, ref) && (o.frame.ChannelData? || o.frame.ChannelExtended?) then o.frame.data else []
  }

  // What a thread of the channel has read, or its SFTP server has answered.
  function DataRead(s: State, e: Event, ref: nat): bytes {
    if e.Turn? && e.choice.Got? && e.thread < |s.threads| && s.threads[e.thread].ref == ref then e.choice.data else []
  }

  lemma StepData(s: State, e: Event, ref: nat)
    requires Enabled(s, e)
    ensures Gathered((o: Output) => DataOf(o, ref), Handle(s, e).outputs) == DataRead(s, e, ref)
  {
    var f, outputs := (o: Output) => DataOf(o, ref), Handle(s, e).outputs;
    if outputs != [] {
      assert outputs[1..] == [] && Gathered(f, outputs) == f(outputs[0]) + [];
    }
  }

  // Over every run, the data that leaves for a channel is what the threads of that channel have
  // read, byte for byte and in order, whether or not it has been closed.
  lemma DataComesFromItsThreads(events: seq<Event>, ref: nat)
    requires Possible(CLIENT, START, events)
    ensures Gathered((o: Output) => DataOf(o, ref), After(CLIENT, START, events).outputs)
      == Taken(CLIENT, (s: State, e: Event) => DataRead(s, e, ref), START, events)
  {
    StartConsistent();
    var f, take := (o: Output) => DataOf(o, ref), (s: State, e: Event) => DataRead(s, e, ref);
    forall s, e | Inv(s) && CLIENT.enabled(s, e)
      ensures Gathered(f, CLIENT.step(s, e).outputs) == take(s, e)
    {
      StepData(s, e, ref);
    }
    TotalsAgree(CLIENT, Inv, take, f, START, events);
  }

  // -------------------------------------------------------- counterexample

  // A thread that waits for its process, up to the status ...
  lemma ExitIsTold(s: State, i: nat, status: int)
    requires i < |s.threads| && s.threads[i].ref < |s.chans| && s.threads[i].place.Waiting? && !s.chans[s.threads[i].ref].closed
    ensures var ref, events := s.threads[i].ref, [Turn(i, Exits(status))] + ([Turn(i, Goes)] + ([Turn(i, Goes)] + []));
      && Possible(CLIENT, s, events)
      && After(CLIENT, s, events) == Effect(s.(threads := s.threads[i := s.threads[i].(place := SendEof)]),
                                            Owned(ref, [ExitStatus(s.chans[ref].id, status % 0x1_0000_0000)]))
  {
    var g := Turn(i, Goes);
    var s1 := Handle(s, Turn(i, Exits(status))).s;
    var s2 := Handle(s1, g).s;
    StepFirst(CLIENT, s2, g, []);
    StepFirst(CLIENT, s1, g, [g] + []);
    StepFirst(CLIENT, s, Turn(i, Exits(status)), [g] + ([g] + []));
    var t, ref := After(CLIENT, s, [Turn(i, Exits(status))] + ([g] + ([g] + []))), s.threads[i].ref;
    assert t.s.threads == s.threads[i := s.threads[i].(place := SendEof)];
    assert t.outputs == Owned(ref, [ExitStatus(s.chans[ref].id, status % 0x1_0000_0000)]);
  }

  // ... and one that ends a channel, up to the CLOSE.
  lemma EndIsTold(s: State, i: nat)
    requires i < |s.threads| && s.threads[i].ref < |s.chans| && s.threads[i].place.SendEof? && !s.chans[s.threads[i].ref].closed
    ensures var g, ref := Turn(i, Goes), s.threads[i].ref;
      var events := [g] + ([g] + ([g] + ([g] + [])));
      && Possible(CLIENT, s, events)
      && After(CLIENT, s, events) == Effect(
           s.(threads := s.threads[i := s.threads[i].(place := Pop)], chans := s.chans[ref := s.chans[ref].(closed := true)]),
           Owned(ref, [ChannelEof(s.chans[ref].id), ChannelClose(s.chans[ref].id)]))
  {
    var g := Turn(i, Goes);
    var s1 := Handle(s, g).s;
    var s2 := Handle(s1, g).s;
    var s3 := Handle(s2, g).s;
    StepFirst(CLIENT, s3, g, []);
    StepFirst(CLIENT, s2, g, [g] + []);
    StepFirst(CLIENT, s1, g, [g] + ([g] + []));
    StepFirst(CLIENT, s, g, [g] + ([g] + ([g] + [])));
    var t, ref := After(CLIENT, s, [g] + ([g] + ([g] + ([g] + [])))), s.threads[i].ref;
    assert t.s.threads == s.threads[i := s.threads[i].(place := Pop)];
    assert t.outputs == Owned(ref, [ChannelEof(s.chans[ref].id), ChannelClose(s.chans[ref].id)]);
  }

  // A shell that runs without a terminal, with a reader waiting for its output.
  const SHELL: State := State(map[1 := 0], [Channel(1, Session, false, Pipes, false)],
    [Thread(0, Reading, None), Thread(0, Loop, Some(EXTENDED_DATA_STDERR)), Thread(0, Waiting, None)], None)

  lemma ShellStarts()
    ensures var events := [Relay(OpenChannel(1, Some(Session), false))] + ([Relay(GotRequest(1, StartProcess(false)))] + ([Turn(0, Goes)] + []));
      Possible(CLIENT, START, events) && After(CLIENT, START, events) == Effect(SHELL, [Sent(None, OpenConfirm(1, true))])
  {
    var e0, e1, e2 := Relay(OpenChannel(1, Some(Session), false)), Relay(GotRequest(1, StartProcess(false))), Turn(0, Goes);
    var s1 := Handle(START, e0).s;
    var s2 := Handle(s1, e1).s;
    assert s2.threads == [Thread(0, Loop, None), Thread(0, Loop, Some(EXTENDED_DATA_STDERR)), Thread(0, Waiting, None)];
    assert Handle(s2, e2).s == SHELL;
    StepFirst(CLIENT, s2, e2, []);
    StepFirst(CLIENT, s1, e1, [e2] + []);
    StepFirst(CLIENT, START, e0, [e1] + ([e2] + []));
    assert After(CLIENT, START, [e0] + ([e1] + ([e2] + []))).outputs == [Sent(None, OpenConfirm(1, true))];
  }

  lemma LateRead(s: State, data: bytes)
    requires 1 <= |data| <= CHANNEL_MAX_PACKET
    requires s.threads != [] && s.threads[0] == Thread(0, Reading, None) && s.chans != [] && s.chans[0].id == 1
    ensures Possible(CLIENT, s, [Turn(0, Got(data))] + [])
    ensures After(CLIENT, s, [Turn(0, Got(data))] + []).outputs == Owned(0, [ChannelData(1, data)]) + []
  {
    StepFirst(CLIENT, s, Turn(0, Got(data)), []);
  }

  // The shell exits, CLOSE goes out, and what a child that keeps the output open prints then
  // follows it.
  lemma ShellEnds(data: bytes) returns (events: seq<Event>)
    requires 1 <= |data| <= CHANNEL_MAX_PACKET
    ensures Possible(CLIENT, SHELL, events)
    ensures After(CLIENT, SHELL, events).outputs
      == Owned(0, [ExitStatus(1, 0)]) + (Owned(0, [ChannelEof(1), ChannelClose(1)]) + (Owned(0, [ChannelData(1, data)]) + []))
  {
    var g := Turn(2, Goes);
    var a, b, c := [Turn(2, Exits(0))] + ([g] + ([g] + [])), [g] + ([g] + ([g] + ([g] + []))), [Turn(0, Got(data))] + [];
    ExitIsTold(SHELL, 2, 0);
    var s := After(CLIENT, SHELL, a).s;
    EndIsTold(s, 2);
    LateRead(After(CLIENT, s, b).s, data);
    RunAppend(CLIENT, s, b, c);
    RunAppend(CLIENT, SHELL, a, b + c);
    events := a + (b + c);
  }

  lemma DataBehindClose(data: bytes)
    requires 1 <= |data| <= CHANNEL_MAX_PACKET
    ensures exists events :: Possible(CLIENT, START, events) && LateData(After(CLIENT, START, events).outputs, data)
  {
    var start := [Relay(OpenChannel(1, Some(Session), false))] + ([Relay(GotRequest(1, StartProcess(false)))] + ([Turn(0, Goes)] + []));
    var end := ShellEnds(data);
    ShellStarts();
    RunAppend(CLIENT, START, start, end);
    assert Possible(CLIENT, START, start + end);
    assert LateData(After(CLIENT, START, start + end).outputs, data);
  }

  predicate LateData(outputs: seq<Output>, data: bytes) {
    outputs == [Sent(None, OpenConfirm(1, true)), Sent(Some(0), ExitStatus(1, 0)), Sent(Some(0), ChannelEof(1)),
                Sent(Some(0), ChannelClose(1)), Sent(Some(0), ChannelData(1, data))]
  }
}
