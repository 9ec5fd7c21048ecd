/** The end of a forwarded TCP channel.  Its thread sends EOF and CLOSE when the TCP connection
    ends, whether or not the operator has closed the channel before: when a second CLOSE is sent,
    and what else is sent behind a CLOSE, over all runs of the router. */
module RelayForwarded {
  import opened Wrappers
  import opened ChannelMessages
  import opened RelayMux
  import opened RelayRouting
  import opened RelayTraces
  import opened Runs

  predicate IsForwarded(s: State, ref: nat) {
    ref < |s.chans| && s.chans[ref].kind.Forwarded?
  }

  predicate HasEnded(s: State, ref: nat)
    requires ref < |s.chans|
  {
    s.chans[ref].kind == Forwarded(Ended)
  }

  // The operator's CLOSE reaches the channel, which is listed and has a recipient.
  predicate ClosedByOperator(s: State, e: Event, ref: nat) {
    && e.Operator? && e.got.GotClose? && e.conn in s.conns
    && Find(s.conns[e.conn].channels, e.got.localId) == Some(ref)
    && IsForwarded(s, ref) && s.chans[ref].recipient.Some?
  }

  // Why a CLOSE is sent for the channel: it answers the operator's, or the TCP connection ended.
  datatype Cause = Answer | End

  function Causes(s: State, e: Event, ref: nat): seq<Cause> {
    if ClosedByOperator(s, e, ref) then [Answer]
    else if e == TcpEnd(ref) && IsForwarded(s, ref) then [End]
    else []
  }

  function AllCauses(s: State, events: seq<Event>, ref: nat): seq<Cause> {
    Taken(MUX, (s: State, e: Event) => Causes(s, e, ref), s, events)
  }

  predicate Sends(o: Output, ref: nat) {
    By(o, TowardsOperator, ref)
  }

  predicate SendsClose(o: Output, ref: nat) {
    Sends(o, ref) && IsClose(o)
  }

  // ----------------------------------------------------------------- invariant

  // A forwarded channel is read from only once it has a recipient.
  ghost predicate AddressedAt(s: State, ref: nat)
    requires ref < |s.chans|
  {
    s.chans[ref].kind == Forwarded(Reading) || s.chans[ref].kind == Forwarded(Waiting(true)) ==> s.chans[ref].recipient.Some?
  }

  ghost predicate Forwards(s: State) {
    Inv(s) && forall ref :: 0 <= ref < |s.chans| ==> AddressedAt(s, ref)
  }

  lemma ForwardsFromStart()
    ensures Forwards(START) && Keeps(MUX, Forwards)
  {
    StartConsistent();
    forall s, e | Forwards(s) && Enabled(s, e)
      ensures Forwards(MUX.step(s, e).s)
    {
      ForwardsKept(s, e);
    }
  }

  // --------------------------------------------------------------------- steps

  // What a step does to a forwarded channel: it stays closed, ended or delisted once it is.
  ghost predicate ForwardedAfter(s: State, t: State, ref: nat)
    requires ref < |s.chans|
  {
    && ref < |t.chans| && (IsForwarded(t, ref) <==> IsForwarded(s, ref)) && AddressedAt(t, ref)
    && (HasEnded(s, ref) ==> HasEnded(t, ref))
    && (s.chans[ref].closed ==> t.chans[ref].closed)
    && (IsForwarded(s, ref) && !Listed(s, ref) ==> !Listed(t, ref))
  }

  lemma ForwardedStep(s: State, e: Event, ref: nat)
    requires Inv(s) && Enabled(s, e) && ref < |s.chans| && AddressedAt(s, ref)
    ensures ForwardedAfter(s, Handle(s, e).s, ref)
  {
    assert NumberedAt(s, ref);
    if Opens(s, e) {
      OpensForwarded(s, e, ref);
    } else {
      var t := Handle(s, e).s;
      OthersShrink(s, e);
      assert ChannelAfter(s.chans[ref], t.chans[ref]) && ConnectionAfter(s.conns[s.chans[ref].conn], t.conns[s.chans[ref].conn]);
      PhaseStep(s, e, ref);
    }
  }

  lemma OpensForwarded(s: State, e: Event, ref: nat)
    requires Inv(s) && Enabled(s, e) && Opens(s, e) && ref < |s.chans| && AddressedAt(s, ref) && NumberedAt(s, ref)
    ensures ForwardedAfter(s, Handle(s, e).s, ref)
  {
    match e {
      case Operator(conn, got) => StartOpenForwarded(s, conn, got.sender, ref);
      case Wake(conn, _) =>
        OpeningAs(s, conn);
        assert OpeningAt(s, conn);
        WakeForwarded(s, e, ref);
      case Accept(conn) => AcceptedForwarded(s, conn, ref);
      case _ =>
    }
  }

  lemma StartOpenForwarded(s: State, conn: nat, sender: nat, ref: nat)
    requires conn in s.conns && ref < |s.chans| && AddressedAt(s, ref) && NumberedAt(s, ref)
    ensures ForwardedAfter(s, StartOpen(s, conn, sender).s, ref)
  {}

  lemma AcceptedForwarded(s: State, conn: nat, ref: nat)
    requires conn in s.conns && ref < |s.chans| && AddressedAt(s, ref) && NumberedAt(s, ref)
    ensures ForwardedAfter(s, Accepted(s, conn).s, ref)
  {}

  lemma WakeForwarded(s: State, e: Event, ref: nat)
    requires e.Wake? && Enabled(s, e) && ref < |s.chans| && AddressedAt(s, ref) && NumberedAt(s, ref)
    requires s.conns[e.conn].opening.value.ref < |s.chans| && s.chans[s.conns[e.conn].opening.value.ref].kind.Remote?
    ensures ForwardedAfter(s, Handle(s, e).s, ref)
  {}

  lemma PhaseStep(s: State, e: Event, ref: nat)
    requires Inv(s) && Enabled(s, e) && !Opens(s, e) && ref < |s.chans| && ref < |Handle(s, e).s.chans| && AddressedAt(s, ref)
    ensures AddressedAt(Handle(s, e).s, ref) && (HasEnded(s, ref) ==> HasEnded(Handle(s, e).s, ref))
  {
    match e {
      case Operator(conn, got) =>
        if !got.ChannelOpen? && got.localId in s.conns[conn].channels {
          ListedAs(s, conn, got.localId);
          ChannelPhase(s, s.conns[conn].channels[got.localId], got, ref);
        }
      case Client(f) =>
        if !f.Confirm? && f.id in s.client { StoredAs(s, f.id); }
      case _ =>
    }
  }

  lemma ChannelPhase(s: State, other: nat, got: FromOperator, ref: nat)
    requires IsChannel(s, other) && ref < |s.chans| && AddressedAt(s, ref)
    ensures var t := OnChannel(s, other, got).s;
      ref < |t.chans| && AddressedAt(t, ref) && (HasEnded(s, ref) ==> HasEnded(t, ref))
  {}

  // Behind a cause the channel is closed and not listed, and behind the end of its TCP connection
  // its thread is done.
  lemma CauseDelists(s: State, e: Event, ref: nat)
    requires Forwards(s) && Enabled(s, e) && Causes(s, e, ref) != []
    ensures var t := Handle(s, e).s;
      IsForwarded(t, ref) && !Listed(t, ref) && t.chans[ref].closed && (e == TcpEnd(ref) ==> HasEnded(t, ref))
  {
    assert AddressedAt(s, ref) && NumberedAt(s, ref);
    if e.Operator? { ListedAs(s, e.conn, e.got.localId); }
  }

  lemma ForwardsKept(s: State, e: Event)
    requires Forwards(s) && Enabled(s, e)
    ensures Forwards(Handle(s, e).s)
  {
    HandleKeeps(s, e);
    forall ref | 0 <= ref < |Handle(s, e).s.chans|
      ensures AddressedAt(Handle(s, e).s, ref)
    {
      if ref >= |s.chans| {
        FreshIsWaiting(s, e, ref);
      } else {
        assert AddressedAt(s, ref);
        ForwardedStep(s, e, ref);
      }
    }
  }

  lemma FreshIsWaiting(s: State, e: Event, ref: nat)
    requires Inv(s) && Enabled(s, e) && |s.chans| <= ref < |Handle(s, e).s.chans|
    ensures AddressedAt(Handle(s, e).s, ref)
  {
    if Opens(s, e) {
      if e.Wake? { OpeningAs(s, e.conn); }
    } else {
      OthersShrink(s, e);
    }
  }

  lemma ForwardedAnswers(s: State, conn: nat, got: FromOperator, ref: nat, i: nat)
    requires Inv(s) && Enabled(s, Operator(conn, got)) && IsForwarded(s, ref)
    requires i < |OnOperator(s, conn, got).outputs| && Sends(OnOperator(s, conn, got).outputs[i], ref)
    ensures Listed(s, ref)
    ensures SendsClose(OnOperator(s, conn, got).outputs[i], ref) ==>
      Causes(s, Operator(conn, got), ref) != [] && i == |OnOperator(s, conn, got).outputs| - 1
  {
    if !got.ChannelOpen? && got.localId in s.conns[conn].channels { ListedAs(s, conn, got.localId); }
  }

  // Who speaks for a forwarded channel: the answers to its operator, and its own thread, which
  // ends with EOF and CLOSE.
  lemma ForwardedSpeaks(s: State, e: Event, ref: nat, i: nat)
    requires Forwards(s) && Enabled(s, e) && IsForwarded(s, ref)
    requires i < |Handle(s, e).outputs| && Sends(Handle(s, e).outputs[i], ref)
    ensures Listed(s, ref) || (e.TcpData? && e.ref == ref) || e == TcpEnd(ref)
    ensures SendsClose(Handle(s, e).outputs[i], ref) ==> Causes(s, e, ref) != [] && i == |Handle(s, e).outputs| - 1
  {
    match e {
      case Operator(conn, got) => ForwardedAnswers(s, conn, got, ref, i);
      case Client(f) => ClientSpeaks(s, f, i, TowardsOperator, ref); StoredAs(s, f.id);
      case Wake(conn, _) => OpeningAs(s, conn);
      case TcpData(from, chunks) => DataMessagesAt(To(s.chans[from]), None, chunks, i);
      case _ =>
    }
  }

  // Every cause sends one CLOSE, as the last thing of its step.
  lemma CauseCloses(s: State, e: Event, ref: nat)
    requires Forwards(s) && Enabled(s, e) && Causes(s, e, ref) != []
    ensures var outputs := Handle(s, e).outputs;
      outputs != [] && SendsClose(outputs[|outputs| - 1], ref) && forall i :: 0 <= i < |outputs| - 1 ==> !SendsClose(outputs[i], ref)
    ensures Causes(s, e, ref) == [Answer] ==> |Handle(s, e).outputs| == 1
  {
    if e.Operator? { ListedAs(s, e.conn, e.got.localId); }
    assert AddressedAt(s, ref);
  }

  // --------------------------------------------------------------------- causes

  // The causes that are possible from a state on.
  predicate MayFollow(s: State, ref: nat, causes: seq<Cause>) {
    if ref < |s.chans| && !IsForwarded(s, ref) then causes == []
    else
      && (ref < |s.chans| && !Listed(s, ref) ==> Answer !in causes)
      && (ref < |s.chans| && HasEnded(s, ref) ==> End !in causes)
      && (causes == [] || causes == [Answer] || causes == [End] || causes == [Answer, End])
  }

  lemma CausesFollow(s: State, e: Event, ref: nat, rest: seq<Cause>)
    requires Forwards(s) && Enabled(s, e) && MayFollow(Handle(s, e).s, ref, rest)
    ensures MayFollow(s, ref, Causes(s, e, ref) + rest)
  {
    if ref >= |s.chans| {
      assert [] + rest == rest;
      return;
    }
    assert AddressedAt(s, ref);
    ForwardedStep(s, e, ref);
    if Causes(s, e, ref) == [] {
      assert [] + rest == rest;
    } else {
      CauseDelists(s, e, ref);
      if ClosedByOperator(s, e, ref) { ListedAs(s, e.conn, e.got.localId); }
      assert [Answer] + [] == [Answer] && [End] + [] == [End] && [Answer] + [End] == [Answer, End];
    }
  }

  lemma {:induction false} RunCauses(s: State, events: seq<Event>, ref: nat)
    requires Forwards(s) && Possible(MUX, s, events)
    ensures MayFollow(s, ref, AllCauses(s, events, ref))
    decreases events
  {
    if events != [] {
      ForwardsKept(s, events[0]);
      RunCauses(Handle(s, events[0]).s, events[1..], ref);
      CausesFollow(s, events[0], ref, AllCauses(Handle(s, events[0]).s, events[1..], ref));
    }
  }

  // ----------------------------------------------------------------- in a run

  // Step a is one in which the operator's CLOSE reaches the channel, ...
  predicate ClosedAt(events: seq<Event>, ref: nat, a: nat) {
    a < |events| && ClosedByOperator(Before(MUX, START, events, a), events[a], ref)
  }

  // ... step b is the end of its TCP connection, ...
  predicate EndsAt(events: seq<Event>, ref: nat, b: nat) {
    b < |events| && events[b] == TcpEnd(ref)
  }

  // ... and this happens behind that.
  ghost predicate ClosedThenEnds(events: seq<Event>, ref: nat) {
    exists a: nat, b: nat :: a < b && ClosedAt(events, ref, a) && EndsAt(events, ref, b)
  }

  lemma CauseAt(events: seq<Event>, ref: nat, k: nat)
    requires Possible(MUX, START, events)
    ensures var take := (s: State, e: Event) => Causes(s, e, ref);
      && (TakenAt(MUX, take, START, events, Answer, k) <==> ClosedAt(events, ref, k))
      && (TakenAt(MUX, take, START, events, End, k) <==> EndsAt(events, ref, k))
  {
    if k < |events| { EnabledBefore(MUX, START, events, k); }
  }

  lemma WhichCauses(events: seq<Event>, ref: nat)
    requires Possible(MUX, START, events)
    ensures AllCauses(START, events, ref) in [[], [Answer], [End], [Answer, End]]
    ensures AllCauses(START, events, ref) == [Answer, End] <==> ClosedThenEnds(events, ref)
    ensures Answer in AllCauses(START, events, ref) <==> exists a: nat :: ClosedAt(events, ref, a)
    ensures End in AllCauses(START, events, ref) <==> exists b: nat :: EndsAt(events, ref, b)
  {
    var take := (s: State, e: Event) => Causes(s, e, ref);
    ForwardsFromStart();
    RunCauses(START, events, ref);
    TakenInTurn(MUX, take, START, events, Answer, End);
    TakenSomewhere(MUX, take, START, events, Answer);
    TakenSomewhere(MUX, take, START, events, End);
    forall k: nat
      ensures TakenAt(MUX, take, START, events, Answer, k) <==> ClosedAt(events, ref, k)
      ensures TakenAt(MUX, take, START, events, End, k) <==> EndsAt(events, ref, k)
    {
      CauseAt(events, ref, k);
    }
  }

  // ------------------------------------------------------------------ output

  function CloseOf(o: Output, ref: nat): seq<Output> {
    if SendsClose(o, ref) then [o] else []
  }

  function Closes(outputs: seq<Output>, ref: nat): seq<Output> {
    Gathered((o: Output) => CloseOf(o, ref), outputs)
  }

  // While it has not become a relayed channel.
  predicate NotRelayed(s: State, ref: nat) {
    ref < |s.chans| ==> IsForwarded(s, ref)
  }

  lemma {:induction false} NeverRelayed(s: State, events: seq<Event>, ref: nat)
    requires Forwards(s) && Possible(MUX, s, events) && NotRelayed(After(MUX, s, events).s, ref)
    ensures NotRelayed(s, ref)
    decreases events
  {
    if events != [] {
      ForwardsKept(s, events[0]);
      NeverRelayed(Handle(s, events[0]).s, events[1..], ref);
      if ref < |s.chans| { ChannelStays(s, events[0], ref); }
    }
  }

  lemma StepCloses(s: State, e: Event, ref: nat)
    requires Forwards(s) && Enabled(s, e) && NotRelayed(s, ref)
    ensures |Closes(Handle(s, e).outputs, ref)| == |Causes(s, e, ref)|
  {
    var f, outputs := (o: Output) => CloseOf(o, ref), Handle(s, e).outputs;
    if Causes(s, e, ref) == [] {
      forall i | 0 <= i < |outputs|
        ensures f(outputs[i]) == []
      {
        if SendsClose(outputs[i], ref) {
          if ref < |s.chans| { ForwardedSpeaks(s, e, ref, i); } else { FreshDoNotClose(s, e, i, TowardsOperator, ref); }
        }
      }
      NothingFound(f, outputs);
    } else {
      CauseCloses(s, e, ref);
      var n := |outputs| - 1;
      assert outputs == outputs[..n] + [outputs[n]];
      GatheredAppend(f, outputs[..n], [outputs[n]]);
      NothingFound(f, outputs[..n]);
      assert [outputs[n]][1..] == [];
    }
  }

  lemma {:induction false} RunCloses(s: State, events: seq<Event>, ref: nat)
    requires Forwards(s) && Possible(MUX, s, events) && NotRelayed(After(MUX, s, events).s, ref)
    ensures |Closes(After(MUX, s, events).outputs, ref)| == |AllCauses(s, events, ref)|
    decreases events
  {
    if events != [] {
      var e, t, rest := events[0], Handle(s, events[0]).s, events[1..];
      ForwardsKept(s, e);
      NeverRelayed(s, events, ref);
      RunCloses(t, rest, ref);
      StepCloses(s, e, ref);
      GatheredAppend((o: Output) => CloseOf(o, ref), Handle(s, e).outputs, After(MUX, t, rest).outputs);
    }
  }

  // A forwarded channel sends at most two CLOSEs: one when the operator's CLOSE reaches it while
  // it is listed and has a recipient, and one when its TCP connection ends.  It sends two exactly
  // when the first is followed by the second, and one when only one of them happens.
  lemma ForwardedCloses(events: seq<Event>, ref: nat)
    requires Possible(MUX, START, events) && IsForwarded(After(MUX, START, events).s, ref)
    ensures var n := |Closes(After(MUX, START, events).outputs, ref)|;
      && n <= 2
      && (n == 2 <==> ClosedThenEnds(events, ref))
      && (n >= 1 <==> (exists a: nat :: ClosedAt(events, ref, a)) || (exists b: nat :: EndsAt(events, ref, b)))
  {
    ForwardsFromStart();
    RunCloses(START, events, ref);
    WhichCauses(events, ref);
  }

  // ------------------------------------------------------- behind a CLOSE

  predicate Quiet(s: State, ref: nat) {
    IsForwarded(s, ref) && !Listed(s, ref) && s.chans[ref].closed
  }

  // A channel that is closed and delisted says nothing but at the end of its TCP connection.
  lemma QuietStays(s: State, e: Event, ref: nat)
    requires Forwards(s) && Enabled(s, e) && Quiet(s, ref)
    ensures Quiet(Handle(s, e).s, ref)
    ensures forall j :: 0 <= j < |Handle(s, e).outputs| && Sends(Handle(s, e).outputs[j], ref) ==> Causes(s, e, ref) != []
  {
    assert AddressedAt(s, ref);
    ForwardedStep(s, e, ref);
    forall j | 0 <= j < |Handle(s, e).outputs| && Sends(Handle(s, e).outputs[j], ref)
      ensures Causes(s, e, ref) != []
    {
      ForwardedSpeaks(s, e, ref, j);
    }
  }

  lemma CloseQuiets(s: State, e: Event, ref: nat, i: nat)
    requires Forwards(s) && Enabled(s, e) && NotRelayed(s, ref)
    requires i < |Handle(s, e).outputs| && SendsClose(Handle(s, e).outputs[i], ref)
    ensures i == |Handle(s, e).outputs| - 1 && Causes(s, e, ref) != [] && Quiet(Handle(s, e).s, ref)
  {
    if ref >= |s.chans| { FreshDoNotClose(s, e, i, TowardsOperator, ref); }
    ForwardedSpeaks(s, e, ref, i);
    CauseDelists(s, e, ref);
  }

  lemma ForwardedQuietens(ref: nat)
    ensures Quietening(MUX, Forwards, (o: Output) => Sends(o, ref), (o: Output) => SendsClose(o, ref),
      (s: State) => Quiet(s, ref), (s: State) => NotRelayed(s, ref), (s: State, e: Event) => Causes(s, e, ref))
  {
    ForwardsFromStart();
    var about, quiet, take := (o: Output) => Sends(o, ref), (s: State) => Quiet(s, ref), (s: State, e: Event) => Causes(s, e, ref);
    forall s, e | Forwards(s) && MUX.enabled(s, e) && !NotRelayed(s, ref)
      ensures !NotRelayed(MUX.step(s, e).s, ref)
    {
      ChannelStays(s, e, ref);
    }
    forall s, e | Forwards(s) && MUX.enabled(s, e) && quiet(s)
      ensures QuietStep(MUX, about, quiet, take, s, e)
    {
      QuietStays(s, e, ref);
    }
    forall s, e, i | Forwards(s) && MUX.enabled(s, e) && NotRelayed(s, ref) && 0 <= i < |MUX.step(s, e).outputs|
                     && SendsClose(MUX.step(s, e).outputs[i], ref)
      ensures i == |MUX.step(s, e).outputs| - 1 && take(s, e) != [] && quiet(MUX.step(s, e).s)
    {
      CloseQuiets(s, e, ref, i);
    }
  }

  lemma OnlyCausesFollow(events: seq<Event>, ref: nat, i: nat, j: nat)
    requires Possible(MUX, START, events) && IsForwarded(After(MUX, START, events).s, ref)
    requires i < j < |After(MUX, START, events).outputs|
    requires SendsClose(After(MUX, START, events).outputs[i], ref) && Sends(After(MUX, START, events).outputs[j], ref)
    ensures |AllCauses(START, events, ref)| >= 2
  {
    ForwardsFromStart();
    ForwardedQuietens(ref);
    FollowingNeedsCause(MUX, Forwards, (o: Output) => Sends(o, ref), (o: Output) => SendsClose(o, ref),
      (s: State) => Quiet(s, ref), (s: State) => NotRelayed(s, ref), (s: State, e: Event) => Causes(s, e, ref), START, events, i, j);
  }

  // Something is sent for the channel behind a CLOSE of it, ...
  ghost predicate FollowsClose(outputs: seq<Output>, ref: nat) {
    exists i, j :: 0 <= i < j < |outputs| && SendsClose(outputs[i], ref) && Sends(outputs[j], ref)
  }

  // ... and even another CLOSE.
  ghost predicate CloseFollowsClose(outputs: seq<Output>, ref: nat) {
    exists i, j :: 0 <= i < j < |outputs| && SendsClose(outputs[i], ref) && SendsClose(outputs[j], ref)
  }

  lemma TwoCloses(outputs: seq<Output>, ref: nat)
    requires |Closes(outputs, ref)| == 2
    ensures CloseFollowsClose(outputs, ref)
  {
    var i, j := FoundTwice((o: Output) => CloseOf(o, ref), outputs);
    assert SendsClose(outputs[i], ref) && SendsClose(outputs[j], ref);
  }

  lemma FollowsInOrder(events: seq<Event>, ref: nat)
    requires Possible(MUX, START, events) && IsForwarded(After(MUX, START, events).s, ref)
    requires FollowsClose(After(MUX, START, events).outputs, ref)
    ensures ClosedThenEnds(events, ref)
  {
    var outputs := After(MUX, START, events).outputs;
    var i, j :| 0 <= i < j < |outputs| && SendsClose(outputs[i], ref) && Sends(outputs[j], ref);
    OnlyCausesFollow(events, ref, i, j);
    WhichCauses(events, ref);
  }

  lemma CloseIsSent(outputs: seq<Output>, ref: nat)
    requires CloseFollowsClose(outputs, ref)
    ensures FollowsClose(outputs, ref)
  {}

  // Something is sent for a forwarded channel behind its CLOSE if and only if the operator's CLOSE
  // reaches the channel and its TCP connection ends later, and then another CLOSE is.
  lemma BehindAClose(events: seq<Event>, ref: nat)
    requires Possible(MUX, START, events) && IsForwarded(After(MUX, START, events).s, ref)
    ensures FollowsClose(After(MUX, START, events).outputs, ref) <==> ClosedThenEnds(events, ref)
    ensures CloseFollowsClose(After(MUX, START, events).outputs, ref) <==> ClosedThenEnds(events, ref)
  {
    var outputs := After(MUX, START, events).outputs;
    if ClosedThenEnds(events, ref) {
      ForwardedCloses(events, ref);
      TwoCloses(outputs, ref);
    }
    if CloseFollowsClose(outputs, ref) { CloseIsSent(outputs, ref); }
    if FollowsClose(outputs, ref) { FollowsInOrder(events, ref); }
  }

  lemma OneMoreCause(s: State, e: Event, events: seq<Event>, ref: nat)
    requires Enabled(s, e) && Possible(MUX, Handle(s, e).s, events)
    ensures Possible(MUX, s, [e] + events)
    ensures AllCauses(s, [e] + events, ref) == Causes(s, e, ref) + AllCauses(Handle(s, e).s, events, ref)
  {
    assert ([e] + events)[1..] == events;
  }

  // An open forwarded channel that the operator closes before its TCP connection ends.
  lemma OpenThenClosed(s: State, conn: nat, sender: nat)
    requires s.chans == [Channel(conn, 0, Forwarded(Reading), Some(sender), false)]
    requires conn in s.conns && s.conns[conn].opening.None? && s.conns[conn].channels == map[0 := 0]
    ensures var events := [Operator(conn, GotClose(0))] + ([TcpEnd(0)] + []);
      Possible(MUX, s, events) && AllCauses(s, events, 0) == [Answer, End]
  {
    var e0, e1 := Operator(conn, GotClose(0)), TcpEnd(0);
    var t := Handle(s, e0).s;
    assert t.chans == [Channel(conn, 0, Forwarded(Reading), Some(sender), true)];
    OneMoreCause(t, e1, [], 0);
    OneMoreCause(s, e0, [e1] + [], 0);
  }

  lemma WaitingThenClosed(s: State, conn: nat, sender: nat)
    requires s.chans == [Channel(conn, 0, Forwarded(Waiting(false)), None, false)]
    requires conn in s.conns && s.conns[conn].opening.None? && s.conns[conn].channels == map[0 := 0]
    ensures var events := [Operator(conn, GotConfirmation(0, sender))] + ([Start(0)] + ([Operator(conn, GotClose(0))] + ([TcpEnd(0)] + [])));
      Possible(MUX, s, events) && AllCauses(s, events, 0) == [Answer, End]
  {
    var e0, e1 := Operator(conn, GotConfirmation(0, sender)), Start(0);
    var end := [Operator(conn, GotClose(0))] + ([TcpEnd(0)] + []);
    var t := Handle(s, e0).s;
    assert t.chans == [Channel(conn, 0, Forwarded(Waiting(true)), Some(sender), false)];
    var u := Handle(t, e1).s;
    OpenThenClosed(u, conn, sender);
    OneMoreCause(t, e1, end, 0);
    OneMoreCause(s, e0, [e1] + end, 0);
  }

  lemma ForwardedOpens(s: State, conn: nat)
    requires s.chans == [] && s.conns == map[]
    ensures var t := Connected(s, conn); var u := Accepted(t, conn).s;
      && Enabled(s, Connect(conn)) && Enabled(t, Accept(conn))
      && u.chans == [Channel(conn, 0, Forwarded(Waiting(false)), None, false)]
      && conn in u.conns && u.conns[conn].opening.None? && u.conns[conn].channels == map[0 := 0]
  {}

  lemma NewThenClosed(s: State, conn: nat, sender: nat) returns (events: seq<Event>)
    requires s.chans == [] && s.conns == map[]
    ensures Possible(MUX, s, events) && AllCauses(s, events, 0) == [Answer, End]
  {
    var end := [Operator(conn, GotConfirmation(0, sender))] + ([Start(0)] + ([Operator(conn, GotClose(0))] + ([TcpEnd(0)] + [])));
    ForwardedOpens(s, conn);
    var t := Connected(s, conn);
    WaitingThenClosed(Accepted(t, conn).s, conn, sender);
    events := OneCauseless(t, Accept(conn), end, 0);
    events := OneCauseless(s, Connect(conn), events, 0);
  }

  lemma OneCauseless(s: State, e: Event, events: seq<Event>, ref: nat) returns (more: seq<Event>)
    requires Enabled(s, e) && Possible(MUX, Handle(s, e).s, events) && Causes(s, e, ref) == []
    ensures Possible(MUX, s, more) && AllCauses(s, more, ref) == AllCauses(Handle(s, e).s, events, ref)
  {
    more := [e] + events;
    OneMoreCause(s, e, events, ref);
    assert [] + AllCauses(Handle(s, e).s, events, ref) == AllCauses(Handle(s, e).s, events, ref);
  }

  // It happens: the operator closes an open forwarded channel before its TCP connection ends.
  lemma ForwardedClosesTwice(conn: nat, sender: nat)
    ensures exists events :: Possible(MUX, START, events) && ClosedThenEnds(events, 0)
  {
    var events := NewThenClosed(START, conn, sender);
    WhichCauses(events, 0);
  }
}
