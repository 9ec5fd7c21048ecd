/** What the runs of the channel router send to the operators, by connection and channel number,
    as an operator sees it. */
module RelayNumbers {
  import opened Wrappers
  import opened Bits
  import opened Framing
  import opened ChannelMessages
  import opened RelayMux
  import opened RelayRouting
  import opened RelayTraces
  import opened RelayForwarded
  import opened RelayWire
  import opened Runs

  // The message is addressed to this number at the operator of this connection.
  predicate ForNumber(o: Output, conn: nat, n: nat) {
    o.ToOperator? && o.conn == conn && !o.message.Open? && o.message.recipient == n
  }

  // It says that something was refused.
  predicate IsFailure(o: Output) {
    o.ToOperator? && (o.message.Failure? || o.message.OpenFailure?)
  }

  predicate HasNumber(s: State, ref: nat, conn: nat, n: nat) {
    ref < |s.chans| && s.chans[ref].conn == conn && s.chans[ref].recipient == Some(n)
  }

  // It has the number, or will have it when its open is granted.
  predicate HoldsNumber(s: State, ref: nat, conn: nat, n: nat) {
    HasNumber(s, ref, conn, n)
    || (conn in s.conns && s.conns[conn].opening.Some? && s.conns[conn].opening.value.ref == ref && s.conns[conn].opening.value.sender == n)
  }

  // The operator gives the number to a channel: to one it opens, or to one it confirms.
  predicate GivesNumber(e: Event, conn: nat, n: nat) {
    && e.Operator? && e.conn == conn
    && (e.got.ChannelOpen? || e.got.GotConfirmation?) && e.got.sender == n
  }

  function TakerOf(s: State, e: Event): nat {
    if Target(s, e).Some? then Target(s, e).value else |s.chans|
  }

  lemma UsersHold(s: State, e: Event, k: nat, ref: nat, conn: nat, n: nat)
    requires Inv(s) && Enabled(s, e) && k < |Handle(s, e).outputs|
    requires ForNumber(Handle(s, e).outputs[k], conn, n) && Handle(s, e).outputs[k].owner == Some(ref)
    ensures HoldsNumber(Handle(s, e).s, ref, conn, n)
  {
    LabelsMatchTheWire(s, e, k);
  }

  lemma ChannelHolders(s: State, listed: nat, got: FromOperator, ref: nat, conn: nat, n: nat)
    requires IsChannel(s, listed) && HoldsNumber(OnChannel(s, listed, got).s, ref, conn, n)
    ensures HoldsNumber(s, ref, conn, n) || (got.GotConfirmation? && s.chans[listed].conn == conn && got.sender == n && ref == listed)
  {}

  lemma ClientHolders(s: State, f: FromClient, ref: nat, conn: nat, n: nat)
    requires Inv(s) && HoldsNumber(OnClient(s, f).s, ref, conn, n)
    ensures HoldsNumber(s, ref, conn, n)
  {
    if !f.Confirm? && f.id in s.client { StoredAs(s, f.id); }
  }

  lemma WakeHolders(s: State, e: Event, ref: nat, conn: nat, n: nat)
    requires Inv(s) && e.Wake? && Enabled(s, e) && HoldsNumber(Handle(s, e).s, ref, conn, n)
    ensures HoldsNumber(s, ref, conn, n)
  {
    OpeningAs(s, e.conn);
    assert OpeningAt(s, e.conn);
  }

  lemma OwnHolders(s: State, e: Event, ref: nat, conn: nat, n: nat)
    requires Enabled(s, e) && !e.Operator? && !e.Client? && !e.Wake? && HoldsNumber(Handle(s, e).s, ref, conn, n)
    ensures HoldsNumber(s, ref, conn, n)
  {}

  lemma HoldersTook(s: State, e: Event, ref: nat, conn: nat, n: nat)
    requires Inv(s) && Enabled(s, e) && HoldsNumber(Handle(s, e).s, ref, conn, n)
    ensures HoldsNumber(s, ref, conn, n) || (GivesNumber(e, conn, n) && ref == TakerOf(s, e))
  {
    match e {
      case Operator(c, got) =>
        if !got.ChannelOpen? && got.localId in s.conns[c].channels {
          ListedAs(s, c, got.localId);
          ChannelHolders(s, s.conns[c].channels[got.localId], got, ref, conn, n);
        }
      case Client(f) => ClientHolders(s, f, ref, conn, n);
      case Wake(_, _) => WakeHolders(s, e, ref, conn, n);
      case _ => OwnHolders(s, e, ref, conn, n);
    }
  }

  lemma NumbersHeld(conn: nat, n: nat)
    ensures HeldByTakers(MUX, Inv, (s: State, ref: nat) => HoldsNumber(s, ref, conn, n), (e: Event) => GivesNumber(e, conn, n), TakerOf,
      (o: Output, ref: nat) => ForNumber(o, conn, n) && o.owner == Some(ref))
  {
    StartConsistent();
    var uses := (o: Output, ref: nat) => ForNumber(o, conn, n) && o.owner == Some(ref);
    forall s, e, r: nat | Inv(s) && MUX.enabled(s, e) && HoldsNumber(MUX.step(s, e).s, r, conn, n)
      ensures HoldsNumber(s, r, conn, n) || (GivesNumber(e, conn, n) && r == TakerOf(s, e))
    {
      HoldersTook(s, e, r, conn, n);
    }
    forall s, e, r: nat, k | Inv(s) && MUX.enabled(s, e) && 0 <= k < |MUX.step(s, e).outputs| && uses(MUX.step(s, e).outputs[k], r)
      ensures HoldsNumber(MUX.step(s, e).s, r, conn, n)
    {
      UsersHold(s, e, k, r, conn, n);
    }
  }

  // Only refusals are sent for no channel.
  ghost predicate Owned(s: State, o: Output) {
    o.ToOperator? ==> o.owner.Some? || IsFailure(o)
  }

  lemma OwnedInRun(events: seq<Event>, i: nat)
    requires Possible(MUX, START, events) && i < |After(MUX, START, events).outputs|
    ensures Owned(After(MUX, START, events).s, After(MUX, START, events).outputs[i])
  {
    StartConsistent();
    forall s, e, k | Inv(s) && MUX.enabled(s, e) && 0 <= k < |MUX.step(s, e).outputs|
      ensures Owned(MUX.step(s, e).s, MUX.step(s, e).outputs[k])
    {
      LabelsMatchTheWire(s, e, k);
    }
    OutputsMatch(MUX, Inv, Owned, START, events, i);
  }

  // The operator gives the number to at most one channel.
  ghost predicate GivenOnce(events: seq<Event>, conn: nat, n: nat) {
    Givings((e: Event) => GivesNumber(e, conn, n), events) <= 1
  }

  // Two messages to a number, each sent for a channel.
  lemma SameOwner(events: seq<Event>, conn: nat, n: nat, i: nat, j: nat)
    requires Possible(MUX, START, events) && GivenOnce(events, conn, n)
    requires i < |After(MUX, START, events).outputs| && ForNumber(After(MUX, START, events).outputs[i], conn, n)
    requires j < |After(MUX, START, events).outputs| && ForNumber(After(MUX, START, events).outputs[j], conn, n)
    requires After(MUX, START, events).outputs[i].owner.Some? && After(MUX, START, events).outputs[j].owner.Some?
    ensures After(MUX, START, events).outputs[i].owner == After(MUX, START, events).outputs[j].owner
  {
    var outputs := After(MUX, START, events).outputs;
    NumbersHeld(conn, n);
    OneUser(MUX, Inv, (s: State, ref: nat) => HoldsNumber(s, ref, conn, n), (e: Event) => GivesNumber(e, conn, n), TakerOf,
      (o: Output, ref: nat) => ForNumber(o, conn, n) && o.owner == Some(ref), START, events, i, outputs[i].owner.value, j, outputs[j].owner.value);
  }

  // Over every run, when an operator gives a channel number once, all messages that are addressed
  // to that number, but for refusals, are sent for one channel, ...
  lemma NumberHasOneChannel(events: seq<Event>, conn: nat, n: nat, i: nat, j: nat)
    requires Possible(MUX, START, events) && GivenOnce(events, conn, n)
    requires i < |After(MUX, START, events).outputs| && ForNumber(After(MUX, START, events).outputs[i], conn, n)
    requires j < |After(MUX, START, events).outputs| && ForNumber(After(MUX, START, events).outputs[j], conn, n)
    requires !IsFailure(After(MUX, START, events).outputs[i]) && !IsFailure(After(MUX, START, events).outputs[j])
    ensures After(MUX, START, events).outputs[i].owner.Some?
    ensures After(MUX, START, events).outputs[i].owner == After(MUX, START, events).outputs[j].owner
  {
    OwnedInRun(events, i);
    OwnedInRun(events, j);
    SameOwner(events, conn, n, i, j);
  }

  // Output i is a CLOSE that is addressed to the number and sent for a relayed channel.
  ghost predicate RelayedClose(events: seq<Event>, conn: nat, n: nat, i: nat) {
    && i < |After(MUX, START, events).outputs| && ForNumber(After(MUX, START, events).outputs[i], conn, n)
    && After(MUX, START, events).outputs[i].message.Close?
    && (After(MUX, START, events).outputs[i].owner.Some? ==>
          IsRelayed(After(MUX, START, events).s, After(MUX, START, events).outputs[i].owner.value))
  }

  // ... and none of them follows a CLOSE, if that channel is a relayed one.  What can follow is a
  // refusal that is sent for no channel at all.
  lemma CloseIsFinalForOperator(events: seq<Event>, conn: nat, n: nat, i: nat, j: nat)
    requires Possible(MUX, START, events) && GivenOnce(events, conn, n) && RelayedClose(events, conn, n, i)
    requires i < j < |After(MUX, START, events).outputs| && ForNumber(After(MUX, START, events).outputs[j], conn, n)
    ensures IsFailure(After(MUX, START, events).outputs[j]) && After(MUX, START, events).outputs[j].owner.None?
  {
    var outputs := After(MUX, START, events).outputs;
    OwnedInRun(events, i);
    OwnedInRun(events, j);
    if outputs[j].owner.Some? {
      SameOwner(events, conn, n, i, j);
      CloseIsFinal(events, TowardsOperator, outputs[i].owner.value, i, j);
    }
  }

  // ------------------------------------------------------- refusals behind a CLOSE

  // The operator asks for an answer on a channel id that the relay does not list.
  predicate StrayRequest(s: State, e: Event, conn: nat, l: nat) {
    && e.Operator? && e.conn == conn && e.got.GotRequest? && e.got.localId == l && e.got.wantReply
    && conn in s.conns && l !in s.conns[conn].channels
  }

  lemma StrayIsAnswered(s: State, e: Event, conn: nat, l: nat)
    requires Enabled(s, e) && StrayRequest(s, e, conn, l)
    ensures Handle(s, e).outputs == [ToOperator(conn, None, Failure(l))]
  {}

  lemma OnlyStraysAreAnswered(s: State, e: Event, k: nat, conn: nat, n: nat)
    requires Inv(s) && Enabled(s, e) && k < |Handle(s, e).outputs| && Handle(s, e).outputs[k] == ToOperator(conn, None, Failure(n))
    ensures StrayRequest(s, e, conn, n)
  {
    match e {
      case Operator(c, got) =>
        if !got.ChannelOpen? && got.localId in s.conns[c].channels { ListedAs(s, c, got.localId); }
      case Client(f) => if !f.Confirm? && f.id in s.client { StoredAs(s, f.id); }
      case Wake(c, _) => OpeningAs(s, c);
      case _ =>
    }
  }

  // CHANNEL_FAILURE for the number is sent behind output i, ...
  ghost predicate FailureFollows(outputs: seq<Output>, conn: nat, n: nat, i: nat) {
    exists j :: i < j < |outputs| && ForNumber(outputs[j], conn, n) && outputs[j].message.Failure?
  }

  // ... and a request for an id that is this number, and not listed, is handled behind step a.
  ghost predicate StrayFollows(events: seq<Event>, conn: nat, n: nat, a: nat) {
    exists b: nat :: a < b < |events| && StrayRequest(Before(MUX, START, events, b), events[b], conn, n)
  }

  // A forwarded channel that has sent CLOSE refuses nothing any more.
  lemma NoOwnFailure(events: seq<Event>, i: nat, j: nat, ref: nat)
    requires Possible(MUX, START, events) && IsForwarded(After(MUX, START, events).s, ref)
    requires i < j < |After(MUX, START, events).outputs|
    requires SendsClose(After(MUX, START, events).outputs[i], ref) && Sends(After(MUX, START, events).outputs[j], ref)
    ensures !IsFailure(After(MUX, START, events).outputs[j])
  {
    var a, b := StepOf(MUX, START, events, i), StepOf(MUX, START, events, j);
    var k := StepMakes(MUX, START, events, i);
    var l := StepMakes(MUX, START, events, j);
    StepsInOrder(MUX, START, events, i, j);
    ForwardedBefore(events, a, ref);
    ForwardedBefore(events, b, ref);
    QuietOrClosing(events, a, k, b, ref);
    EndsPlainly(Before(MUX, START, events, b), events[b], ref, l);
  }

  lemma QuietOrClosing(events: seq<Event>, a: nat, k: nat, b: nat, ref: nat)
    requires Possible(MUX, START, events) && a <= b < |events|
    requires Forwards(Before(MUX, START, events, a)) && Enabled(Before(MUX, START, events, a), events[a])
    requires NotRelayed(Before(MUX, START, events, a), ref)
    requires k < |MUX.step(Before(MUX, START, events, a), events[a]).outputs|
    requires SendsClose(MUX.step(Before(MUX, START, events, a), events[a]).outputs[k], ref)
    ensures var s := Before(MUX, START, events, b); Causes(s, events[b], ref) != [] || Quiet(s, ref)
  {
    var s := Before(MUX, START, events, a);
    CloseQuiets(s, events[a], ref, k);
    if a < b {
      QuietKept(ref);
      ForwardsKept(s, events[a]);
      KeptFrom(MUX, (u: State) => Forwards(u) && Quiet(u, ref), START, events, a, b);
    }
  }

  lemma ForwardedBefore(events: seq<Event>, a: nat, ref: nat)
    requires Possible(MUX, START, events) && IsForwarded(After(MUX, START, events).s, ref) && a < |events|
    ensures var s := Before(MUX, START, events, a); Forwards(s) && Enabled(s, events[a]) && NotRelayed(s, ref)
  {
    ForwardsFromStart();
    KeptBefore(MUX, Forwards, START, events, a);
    forall s, e | Forwards(s) && MUX.enabled(s, e) && !NotRelayed(s, ref)
      ensures !NotRelayed(MUX.step(s, e).s, ref)
    {
      ChannelStays(s, e, ref);
    }
    CountedAt(MUX, Forwards, (s: State) => NotRelayed(s, ref), START, events, a);
  }

  lemma QuietKept(ref: nat)
    ensures Keeps(MUX, (u: State) => Forwards(u) && Quiet(u, ref))
  {
    forall s, e | Forwards(s) && Quiet(s, ref) && MUX.enabled(s, e)
      ensures Forwards(MUX.step(s, e).s) && Quiet(MUX.step(s, e).s, ref)
    {
      ForwardsKept(s, e);
      QuietStays(s, e, ref);
    }
  }

  lemma EndsPlainly(s: State, e: Event, ref: nat, k: nat)
    requires Forwards(s) && Enabled(s, e) && NotRelayed(s, ref) && k < |Handle(s, e).outputs| && Sends(Handle(s, e).outputs[k], ref)
    requires Causes(s, e, ref) != [] || Quiet(s, ref)
    ensures !IsFailure(Handle(s, e).outputs[k])
  {
    if Quiet(s, ref) {
      ForwardedSpeaks(s, e, ref, k);
    } else if e.Operator? {
      CauseCloses(s, e, ref);
    }
  }

  // What follows a CLOSE to a number that was given once, and says that something was refused, is
  // said for no channel.
  lemma RefusalIsUnowned(events: seq<Event>, conn: nat, n: nat, i: nat, j: nat)
    requires Possible(MUX, START, events) && GivenOnce(events, conn, n) && i < j < |After(MUX, START, events).outputs|
    requires ForNumber(After(MUX, START, events).outputs[i], conn, n) && After(MUX, START, events).outputs[i].message.Close?
    requires ForNumber(After(MUX, START, events).outputs[j], conn, n) && IsFailure(After(MUX, START, events).outputs[j])
    ensures After(MUX, START, events).outputs[j].owner.None?
  {
    var outputs, s := After(MUX, START, events).outputs, After(MUX, START, events).s;
    OwnedInRun(events, i);
    if outputs[j].owner.Some? {
      SameOwner(events, conn, n, i, j);
      if IsRelayed(s, outputs[i].owner.value) {
        CloseIsFinal(events, TowardsOperator, outputs[i].owner.value, i, j);
      } else {
        ClosedAsInRun(events, i, outputs[i].owner.value);
        NoOwnFailure(events, i, j, outputs[i].owner.value);
      }
    }
  }

  // The relay answers a request for a channel it does not list under its own id for it, which the
  // operator takes for its own number (relay.py:846-849).  So, for a number that was given once:
  // CHANNEL_FAILURE follows a CLOSE to it if and only if, behind the step that sent the CLOSE, a
  // request comes in that wants a reply, for an unlisted id that equals the number.
  lemma FailureBehindClose(events: seq<Event>, conn: nat, n: nat, i: nat)
    requires Possible(MUX, START, events) && GivenOnce(events, conn, n) && i < |After(MUX, START, events).outputs|
    requires ForNumber(After(MUX, START, events).outputs[i], conn, n) && After(MUX, START, events).outputs[i].message.Close?
    ensures FailureFollows(After(MUX, START, events).outputs, conn, n, i)
      <==> StrayFollows(events, conn, n, StepOf(MUX, START, events, i))
  {
    var outputs, a := After(MUX, START, events).outputs, StepOf(MUX, START, events, i);
    if j :| i < j < |outputs| && ForNumber(outputs[j], conn, n) && outputs[j].message.Failure? {
      RefusalIsUnowned(events, conn, n, i, j);
      FailureIsStray(events, conn, n, i, j);
    }
    if b: nat :| a < b < |events| && StrayRequest(Before(MUX, START, events, b), events[b], conn, n) {
      StrayIsFailure(events, conn, n, i, b);
    }
  }

  lemma FailureIsStray(events: seq<Event>, conn: nat, n: nat, i: nat, j: nat)
    requires Possible(MUX, START, events) && i < j < |After(MUX, START, events).outputs|
    requires ForNumber(After(MUX, START, events).outputs[i], conn, n) && After(MUX, START, events).outputs[i].message.Close?
    requires After(MUX, START, events).outputs[j] == ToOperator(conn, None, Failure(n))
    ensures StrayFollows(events, conn, n, StepOf(MUX, START, events, i))
  {
    var a, b := StepOf(MUX, START, events, i), StepOf(MUX, START, events, j);
    var k := StepMakes(MUX, START, events, j);
    var k0 := StepMakes(MUX, START, events, i);
    StepsInOrder(MUX, START, events, i, j);
    InvBefore(events, b);
    var s := Before(MUX, START, events, b);
    OnlyStraysAreAnswered(s, events[b], k, conn, n);
    StrayIsAnswered(s, events[b], conn, n);
    assert a != b;
  }

  lemma StrayIsFailure(events: seq<Event>, conn: nat, n: nat, i: nat, b: nat)
    requires Possible(MUX, START, events) && i < |After(MUX, START, events).outputs|
    requires StepOf(MUX, START, events, i) < b < |events| && StrayRequest(Before(MUX, START, events, b), events[b], conn, n)
    ensures FailureFollows(After(MUX, START, events).outputs, conn, n, i)
  {
    InvBefore(events, b);
    StrayIsAnswered(Before(MUX, START, events, b), events[b], conn, n);
    var j := MadeByStep(MUX, START, events, b, 0);
    if j <= i { StepsInOrder(MUX, START, events, j, i); }
  }

  lemma InvBefore(events: seq<Event>, b: nat)
    requires Possible(MUX, START, events) && b < |events|
    ensures Inv(Before(MUX, START, events, b)) && Enabled(Before(MUX, START, events, b), events[b])
  {
    StartConsistent();
    KeptBefore(MUX, Inv, START, events, b);
  }

  // It happens, since both sides number their channels from 0: the client closes the channel, and
  // a request of the operator crosses the CLOSE.
  lemma FailureAfterClose(conn: nat, name: string) returns (events: seq<Event>)
    ensures Possible(MUX, START, events) && GivenOnce(events, conn, 0)
    ensures After(MUX, START, events).outputs
      == [ToClient(0, OpenChannel(1)), ToOperator(conn, Some(0), OpenConfirmation(0, 0, CHANNEL_WINDOW, CHANNEL_MAX_PACKET)),
          ToOperator(conn, Some(0), Close(0)), ToOperator(conn, None, Failure(0))]
  {
    var e0, e1, e2, e3 := Connect(conn), Operator(conn, ChannelOpen(true, 0)), Client(Confirm(1, true)), Wake(conn, false);
    var e4, e5 := Client(SentClose(1)), Operator(conn, GotRequest(0, name, true, []));
    var s := State(2, map[], map[1 := 0], map[conn := Connection(1, map[0 := 0], None)], [Channel(conn, 0, Remote(1), Some(0), false)]);
    ChannelOpens(conn);
    ClosedThenAsked(s, conn, name);
    var start, end := [e0] + ([e1] + ([e2] + ([e3] + []))), [e4] + ([e5] + []);
    RunAppend(MUX, START, start, end);
    events := start + end;
    assert events == [e0, e1, e2, e3, e4, e5];
    GivenInFirst(conn, name);
  }

  lemma ChannelOpens(conn: nat)
    ensures var events := [Connect(conn)] + ([Operator(conn, ChannelOpen(true, 0))] + ([Client(Confirm(1, true))] + ([Wake(conn, false)] + [])));
      Possible(MUX, START, events) && After(MUX, START, events) == Effect(
        State(2, map[], map[1 := 0], map[conn := Connection(1, map[0 := 0], None)], [Channel(conn, 0, Remote(1), Some(0), false)]),
        [ToClient(0, OpenChannel(1)), ToOperator(conn, Some(0), OpenConfirmation(0, 0, CHANNEL_WINDOW, CHANNEL_MAX_PACKET))])
  {
    var e0, e1, e2, e3 := Connect(conn), Operator(conn, ChannelOpen(true, 0)), Client(Confirm(1, true)), Wake(conn, false);
    var s1 := Handle(START, e0).s;
    var s2 := Handle(s1, e1).s;
    var s3 := Handle(s2, e2).s;
    var s4 := Handle(s3, e3).s;
    assert s3.pending == map[] && s4.client == map[1 := 0] && s4.conns[conn].channels == map[0 := 0];
    assert s4 == State(2, map[], map[1 := 0], map[conn := Connection(1, map[0 := 0], None)], [Channel(conn, 0, Remote(1), Some(0), false)]);
    OneMoreStep(s3, e3, []);
    OneMoreStep(s2, e2, [e3] + []);
    OneMoreStep(s1, e1, [e2] + ([e3] + []));
    OneMoreStep(START, e0, [e1] + ([e2] + ([e3] + [])));
    assert After(MUX, START, [e0] + ([e1] + ([e2] + ([e3] + [])))).outputs == Handle(s1, e1).outputs + Handle(s3, e3).outputs;
  }

  lemma ClosedThenAsked(s: State, conn: nat, name: string)
    requires s.client == map[1 := 0] && s.conns == map[conn := Connection(1, map[0 := 0], None)]
    requires s.chans == [Channel(conn, 0, Remote(1), Some(0), false)]
    ensures var events := [Client(SentClose(1))] + ([Operator(conn, GotRequest(0, name, true, []))] + []);
      Possible(MUX, s, events) && After(MUX, s, events).outputs == [ToOperator(conn, Some(0), Close(0)), ToOperator(conn, None, Failure(0))]
  {
    var e0, e1 := Client(SentClose(1)), Operator(conn, GotRequest(0, name, true, []));
    var t := Handle(s, e0).s;
    assert t.conns[conn].channels == map[];
    OneMoreStep(t, e1, []);
    OneMoreStep(s, e0, [e1] + []);
  }

  lemma GivenInFirst(conn: nat, name: string)
    ensures GivenOnce([Connect(conn), Operator(conn, ChannelOpen(true, 0)), Client(Confirm(1, true)), Wake(conn, false),
                       Client(SentClose(1)), Operator(conn, GotRequest(0, name, true, []))], conn, 0)
  {
    var gives := (e: Event) => GivesNumber(e, conn, 0);
    var rest := [Client(Confirm(1, true)), Wake(conn, false), Client(SentClose(1)), Operator(conn, GotRequest(0, name, true, []))];
    NoGivings(gives, rest);
    var more := [Operator(conn, ChannelOpen(true, 0))] + rest;
    assert more[1..] == rest;
    var events := [Connect(conn)] + more;
    assert events[1..] == more;
    assert events == [Connect(conn), Operator(conn, ChannelOpen(true, 0)), Client(Confirm(1, true)), Wake(conn, false),
                      Client(SentClose(1)), Operator(conn, GotRequest(0, name, true, []))];
  }

  lemma {:induction false} NoGivings(gives: Event -> bool, events: seq<Event>)
    requires forall e :: e in events ==> !gives(e)
    ensures Givings(gives, events) == 0
  {
    if events != [] { NoGivings(gives, events[1..]); }
  }

  // ------------------------------------------------ forwarded channels, by number

  // A CLOSE that has been sent for a forwarded channel was addressed to the number it has.
  ghost predicate ClosedAs(s: State, o: Output, ref: nat) {
    SendsClose(o, ref) ==>
      ref < |s.chans| && (IsForwarded(s, ref) ==> !Listed(s, ref) && HasNumber(s, ref, o.conn, o.message.recipient))
  }

  lemma UnlistedKeepsNumber(s: State, e: Event, ref: nat, conn: nat, n: nat)
    requires Inv(s) && Enabled(s, e) && IsForwarded(s, ref) && !Listed(s, ref) && HasNumber(s, ref, conn, n)
    ensures HasNumber(Handle(s, e).s, ref, conn, n)
  {
    match e {
      case Operator(c, got) =>
        if !got.ChannelOpen? && got.localId in s.conns[c].channels {
          ListedAs(s, c, got.localId);
          OtherKeepsNumber(s, s.conns[c].channels[got.localId], got, ref, conn, n);
        }
      case Client(f) => if !f.Confirm? && f.id in s.client { StoredAs(s, f.id); }
      case Wake(c, _) =>
        OpeningAs(s, c);
        assert OpeningAt(s, c);
      case _ =>
    }
  }

  lemma OtherKeepsNumber(s: State, listed: nat, got: FromOperator, ref: nat, conn: nat, n: nat)
    requires IsChannel(s, listed) && listed != ref && HasNumber(s, ref, conn, n)
    ensures HasNumber(OnChannel(s, listed, got).s, ref, conn, n)
  {}

  lemma ClosedAsStep(s: State, e: Event, k: nat, ref: nat)
    requires Forwards(s) && Enabled(s, e) && k < |Handle(s, e).outputs|
    ensures ClosedAs(Handle(s, e).s, Handle(s, e).outputs[k], ref)
  {
    if SendsClose(Handle(s, e).outputs[k], ref) {
      LabelsMatchTheWire(s, e, k);
      if IsForwarded(Handle(s, e).s, ref) {
        if ref >= |s.chans| { FreshDoNotClose(s, e, k, TowardsOperator, ref); }
        ChannelStays(s, e, ref);
        ForwardedSpeaks(s, e, ref, k);
        CauseDelists(s, e, ref);
      }
    }
  }

  lemma ClosedAsStays(s: State, e: Event, o: Output, ref: nat)
    requires Forwards(s) && Enabled(s, e) && ClosedAs(s, o, ref)
    ensures ClosedAs(Handle(s, e).s, o, ref)
  {
    if SendsClose(o, ref) {
      ChannelStays(s, e, ref);
      if IsForwarded(s, ref) {
        assert AddressedAt(s, ref);
        ForwardedStep(s, e, ref);
        UnlistedKeepsNumber(s, e, ref, o.conn, o.message.recipient);
      }
    }
  }

  lemma ClosedAsInRun(events: seq<Event>, i: nat, ref: nat)
    requires Possible(MUX, START, events) && i < |After(MUX, START, events).outputs|
    ensures ClosedAs(After(MUX, START, events).s, After(MUX, START, events).outputs[i], ref)
  {
    var matches := (s: State, o: Output) => ClosedAs(s, o, ref);
    ForwardsFromStart();
    forall s, e, k | Forwards(s) && MUX.enabled(s, e) && 0 <= k < |MUX.step(s, e).outputs|
      ensures matches(MUX.step(s, e).s, MUX.step(s, e).outputs[k])
    {
      ClosedAsStep(s, e, k, ref);
    }
    forall s, e, o | Forwards(s) && MUX.enabled(s, e) && matches(s, o)
      ensures matches(MUX.step(s, e).s, o)
    {
      ClosedAsStays(s, e, o, ref);
    }
    OutputsMatch(MUX, Forwards, matches, START, events, i);
  }

  // Some message to the number, but no refusal, follows a CLOSE to it.
  ghost predicate FollowsCloseTo(outputs: seq<Output>, conn: nat, n: nat) {
    exists i, j :: 0 <= i < j < |outputs| && ForNumber(outputs[i], conn, n) && outputs[i].message.Close?
                   && ForNumber(outputs[j], conn, n) && !IsFailure(outputs[j])
  }

  // All that is said to a number that was given once is said for the channel that has it.
  lemma HolderSpeaks(events: seq<Event>, conn: nat, n: nat, i: nat, ref: nat)
    requires Possible(MUX, START, events) && GivenOnce(events, conn, n) && HasNumber(After(MUX, START, events).s, ref, conn, n)
    requires i < |After(MUX, START, events).outputs| && ForNumber(After(MUX, START, events).outputs[i], conn, n)
    requires !IsFailure(After(MUX, START, events).outputs[i])
    ensures After(MUX, START, events).outputs[i].owner == Some(ref)
  {
    OwnedInRun(events, i);
    NumbersHeld(conn, n);
    UserHolds(MUX, Inv, (s: State, ref: nat) => HoldsNumber(s, ref, conn, n), (e: Event) => GivesNumber(e, conn, n), TakerOf,
      (o: Output, ref: nat) => ForNumber(o, conn, n) && o.owner == Some(ref), START, events, i, After(MUX, START, events).outputs[i].owner.value, ref);
  }

  // For the number of a forwarded channel, given once: something but a refusal follows a CLOSE to
  // it if and only if the operator's CLOSE reaches the channel and its TCP connection ends later.
  lemma ForwardedBehindClose(events: seq<Event>, conn: nat, n: nat, ref: nat)
    requires Possible(MUX, START, events) && GivenOnce(events, conn, n)
    requires IsForwarded(After(MUX, START, events).s, ref) && HasNumber(After(MUX, START, events).s, ref, conn, n)
    ensures FollowsCloseTo(After(MUX, START, events).outputs, conn, n) <==> ClosedThenEnds(events, ref)
  {
    var outputs := After(MUX, START, events).outputs;
    BehindAClose(events, ref);
    if i, j :| 0 <= i < j < |outputs| && ForNumber(outputs[i], conn, n) && outputs[i].message.Close?
               && ForNumber(outputs[j], conn, n) && !IsFailure(outputs[j]) {
      HolderSpeaks(events, conn, n, i, ref);
      HolderSpeaks(events, conn, n, j, ref);
      assert SendsClose(outputs[i], ref) && Sends(outputs[j], ref);
    }
    if i, j :| 0 <= i < j < |outputs| && SendsClose(outputs[i], ref) && SendsClose(outputs[j], ref) {
      ClosedAsInRun(events, i, ref);
      ClosedAsInRun(events, j, ref);
      assert ForNumber(outputs[i], conn, n) && ForNumber(outputs[j], conn, n);
    }
  }

  function DataForNumber(o: Output, conn: nat, n: nat): bytes {
    if ForNumber(o, conn, n) && (o.message.Data? || o.message.ExtendedData?) then o.message.data else []
  }

  // The channel that the other end sends data for, when it is stored and has a recipient.
  function Source(s: State, e: Event): Option<nat> {
    match e
    case Client(f) => if f.Confirm? then None else Find(s.client, f.id)
    case TcpData(ref, _) => Some(ref)
    case _ => None
  }

  function ChunksOf(e: Event): seq<bytes> {
    match e
    case Client(SentData(_, chunks)) => chunks
    case Client(SentExtended(_, _, chunks)) => chunks
    case TcpData(_, chunks) => chunks
    case _ => []
  }

  // The data that comes in for the channel with this number.
  function DataForHolder(s: State, e: Event, conn: nat, n: nat): bytes {
    if Source(s, e).Some? && HasNumber(s, Source(s, e).value, conn, n) then Concat(ChunksOf(e)) else []
  }

  // In one step of the other end, everything is for its channel.
  lemma SourceSpeaks(s: State, e: Event, i: nat)
    requires Inv(s) && Enabled(s, e) && i < |Handle(s, e).outputs| && DataForAny(Handle(s, e).outputs[i])
    ensures Source(s, e).Some? && Handle(s, e).outputs[i].owner == Some(Source(s, e).value)
  {
    match e {
      case Operator(conn, got) =>
        if !got.ChannelOpen? && got.localId in s.conns[conn].channels { ListedAs(s, conn, got.localId); }
      case Client(f) =>
        if !f.Confirm? && f.id in s.client { StoredAs(s, f.id); }
      case Wake(conn, _) => OpeningAs(s, conn);
      case _ =>
    }
  }

  predicate DataForAny(o: Output) {
    o.ToOperator? && (o.message.Data? || o.message.ExtendedData?)
  }

  lemma SourceKeepsNumber(s: State, e: Event, ref: nat)
    requires Inv(s) && Enabled(s, e) && Source(s, e) == Some(ref) && (e.TcpData? || (e.Client? && !e.frame.SentClose?))
    ensures Handle(s, e).s == s && ref < |s.chans|
  {
    if e.Client? { StoredAs(s, e.frame.id); }
  }

  lemma StepDataForNumber(s: State, e: Event, conn: nat, n: nat)
    requires Inv(s) && Enabled(s, e)
    ensures Gathered((o: Output) => DataForNumber(o, conn, n), Handle(s, e).outputs) == DataForHolder(s, e, conn, n)
  {
    var f, outputs := (o: Output) => DataForNumber(o, conn, n), Handle(s, e).outputs;
    if ChunksOf(e) == [] || Source(s, e).None? || !HasNumber(s, Source(s, e).value, conn, n) {
      forall i | 0 <= i < |outputs|
        ensures f(outputs[i]) == []
      {
        if DataForAny(outputs[i]) {
          SourceSpeaks(s, e, i);
          LabelsMatchTheWire(s, e, i);
          SourceKeepsNumber(s, e, Source(s, e).value);
        }
      }
      NothingFound(f, outputs);
    } else {
      var ref := Source(s, e).value;
      var g := (o: Output) => DataFor(o, TowardsOperator, ref);
      SourceKeepsNumber(s, e, ref);
      forall i | 0 <= i < |outputs|
        ensures f(outputs[i]) == g(outputs[i])
      {
        if DataForAny(outputs[i]) {
          SourceSpeaks(s, e, i);
          LabelsMatchTheWire(s, e, i);
        }
      }
      GatheredSame(f, g, outputs);
      StepData(s, e, TowardsOperator, ref);
    }
  }

  // Over every run and for every connection and number, the data in the messages to that number
  // is exactly the data that came in from the other end of the channel that has the number.
  lemma DataReachesItsNumber(events: seq<Event>, conn: nat, n: nat)
    requires Possible(MUX, START, events)
    ensures Gathered((o: Output) => DataForNumber(o, conn, n), After(MUX, START, events).outputs)
      == Taken(MUX, (s: State, e: Event) => DataForHolder(s, e, conn, n), START, events)
  {
    StartConsistent();
    var f, take := (o: Output) => DataForNumber(o, conn, n), (s: State, e: Event) => DataForHolder(s, e, conn, n);
    forall s, e | Inv(s) && MUX.enabled(s, e)
      ensures Gathered(f, MUX.step(s, e).outputs) == take(s, e)
    {
      StepDataForNumber(s, e, conn, n);
    }
    TotalsAgree(MUX, Inv, take, f, START, events);
  }
}
