/** What every run of the channel router sends: data stays on its channel, closing is final,
    ids are fresh, and late answers change nothing. */
module RelayTraces {
  import opened Wrappers
  import opened Bits
  import opened Framing
  import opened ChannelMessages
  import opened RelayMux
  import opened RelayRouting
  import opened Runs

  // ------------------------------------------------------- what a step says

  datatype Side = TowardsClient | TowardsOperator

  // The output is made to that side on behalf of that channel.
  predicate By(o: Output, side: Side, ref: nat) {
    match side
    case TowardsClient => o.ToClient? && o.via == ref
    case TowardsOperator => o.ToOperator? && o.owner == Some(ref)
  }

  predicate IsClose(o: Output) {
    match o
    case ToClient(_, frame) => frame.ChannelClose?
    case ToOperator(_, _, message) => message.Close?
    case ToSocket(_, _) => false
  }

  predicate Listed(s: State, ref: nat)
    requires ref < |s.chans|
  {
    var ch := s.chans[ref];
    ch.conn in s.conns && ch.localId in s.conns[ch.conn].channels && s.conns[ch.conn].channels[ch.localId] == ref
  }

  predicate BeingOpened(s: State, ref: nat)
    requires ref < |s.chans|
  {
    var ch := s.chans[ref];
    ch.conn in s.conns && s.conns[ch.conn].opening.Some? && s.conns[ch.conn].opening.value.ref == ref
  }

  // Something may still be sent to that side on behalf of a relayed channel.
  predicate Live(s: State, side: Side, ref: nat)
    requires ref < |s.chans|
  {
    var kind := s.chans[ref].kind;
    Listed(s, ref) || BeingOpened(s, ref)
    || (side.TowardsOperator? && kind.Remote? && kind.remoteId in s.client && s.client[kind.remoteId] == ref)
  }

  predicate IsRelayed(s: State, ref: nat) {
    ref < |s.chans| && s.chans[ref].kind.Remote?
  }

  // Where the operator's message leads.
  lemma ListedAs(s: State, conn: nat, l: nat)
    requires Inv(s) && conn in s.conns && l in s.conns[conn].channels
    ensures var ref := s.conns[conn].channels[l];
      IsChannel(s, ref) && s.chans[ref].conn == conn && s.chans[ref].localId == l && Listed(s, ref)
  {
    assert ListedAt(s, conn, l) && NumberedAt(s, s.conns[conn].channels[l]);
  }

  lemma StoredAs(s: State, id: nat)
    requires Inv(s) && id in s.client
    ensures IsChannel(s, s.client[id]) && s.chans[s.client[id]].kind == Remote(id)
  {
    assert ClientAt(s, id) && NumberedAt(s, s.client[id]);
  }

  lemma OpeningAs(s: State, conn: nat)
    requires Inv(s) && conn in s.conns && s.conns[conn].opening.Some?
    ensures IsChannel(s, s.conns[conn].opening.value.ref) && BeingOpened(s, s.conns[conn].opening.value.ref)
  {
    assert OpeningAt(s, conn) && NumberedAt(s, s.conns[conn].opening.value.ref);
  }

  // What is not live does not come back to life.
  lemma GoneStaysGone(s: State, e: Event, side: Side, ref: nat)
    requires Inv(s) && Enabled(s, e) && IsRelayed(s, ref) && !Live(s, side, ref)
    ensures IsRelayed(Handle(s, e).s, ref) && !Live(Handle(s, e).s, side, ref)
  {
    assert NumberedAt(s, ref);
    if Opens(s, e) {
      OpensGone(s, e, side, ref);
    } else {
      OthersShrink(s, e);
      ShrunkGone(s, Handle(s, e).s, side, ref);
    }
  }

  lemma ShrunkGone(s: State, t: State, side: Side, ref: nat)
    requires Shrunk(s, t) && IsRelayed(s, ref) && !Live(s, side, ref) && s.chans[ref].conn in s.conns
    ensures IsRelayed(t, ref) && !Live(t, side, ref)
  {
    assert ChannelAfter(s.chans[ref], t.chans[ref]) && ConnectionAfter(s.conns[s.chans[ref].conn], t.conns[s.chans[ref].conn]);
  }

  lemma OpensGone(s: State, e: Event, side: Side, ref: nat)
    requires Inv(s) && Enabled(s, e) && Opens(s, e) && IsRelayed(s, ref) && !Live(s, side, ref) && NumberedAt(s, ref)
    ensures IsRelayed(Handle(s, e).s, ref) && !Live(Handle(s, e).s, side, ref)
  {
    match e {
      case Connect(conn) =>
      case Operator(conn, got) => StartOpenGone(s, conn, got.sender, side, ref);
      case Client(f) => AnsweredGone(s, f.id, f.ok, side, ref);
      case Wake(conn, timedOut) =>
        OpeningAs(s, conn);
        OpenFailedGone(s, conn, timedOut, side, ref);
        OpenGrantedGone(s, conn, side, ref);
      case Accept(conn) => AcceptedGone(s, conn, side, ref);
    }
  }

  lemma StartOpenGone(s: State, conn: nat, sender: nat, side: Side, ref: nat)
    requires conn in s.conns && IsRelayed(s, ref) && !Live(s, side, ref) && NumberedAt(s, ref)
    ensures var t := StartOpen(s, conn, sender).s; IsRelayed(t, ref) && !Live(t, side, ref)
  {}

  lemma AnsweredGone(s: State, id: nat, ok: bool, side: Side, ref: nat)
    requires CanAnswer(s, id) && IsRelayed(s, ref) && !Live(s, side, ref)
    ensures var t := Answered(s, id, ok); IsRelayed(t, ref) && !Live(t, side, ref)
  {}

  lemma AcceptedGone(s: State, conn: nat, side: Side, ref: nat)
    requires conn in s.conns && IsRelayed(s, ref) && !Live(s, side, ref)
    ensures var t := Accepted(s, conn).s; IsRelayed(t, ref) && !Live(t, side, ref)
  {}

  lemma OpenFailedGone(s: State, conn: nat, timedOut: bool, side: Side, ref: nat)
    requires conn in s.conns && s.conns[conn].opening.Some? && s.conns[conn].opening.value.ref < |s.chans|
    requires IsRelayed(s, ref) && !Live(s, side, ref)
    ensures var t := OpenFailed(s, conn, timedOut).s; IsRelayed(t, ref) && !Live(t, side, ref)
  {}

  lemma OpenGrantedGone(s: State, conn: nat, side: Side, ref: nat)
    requires conn in s.conns && s.conns[conn].opening.Some? && s.conns[conn].opening.value.ref < |s.chans|
    requires BeingOpened(s, s.conns[conn].opening.value.ref)
    requires IsRelayed(s, ref) && !Live(s, side, ref)
    ensures var t := OpenGranted(s, conn).s; IsRelayed(t, ref) && !Live(t, side, ref)
  {}

  // Everything is sent on behalf of a live channel: through a dictionary that lists it, ...
  lemma OperatorSpeaks(s: State, conn: nat, got: FromOperator, i: nat, side: Side, ref: nat)
    requires Inv(s) && Enabled(s, Operator(conn, got)) && IsRelayed(s, ref)
    requires i < |OnOperator(s, conn, got).outputs| && By(OnOperator(s, conn, got).outputs[i], side, ref)
    ensures !got.ChannelOpen? && got.localId in s.conns[conn].channels && s.conns[conn].channels[got.localId] == ref && Listed(s, ref)
    ensures IsClose(OnOperator(s, conn, got).outputs[i]) ==> got.GotClose?
  {
    if !got.ChannelOpen? && got.localId in s.conns[conn].channels { ListedAs(s, conn, got.localId); }
  }

  lemma ClientSpeaks(s: State, f: FromClient, i: nat, side: Side, ref: nat)
    requires Inv(s) && i < |OnClient(s, f).outputs| && By(OnClient(s, f).outputs[i], side, ref)
    ensures side.TowardsOperator? && !f.Confirm? && f.id in s.client && s.client[f.id] == ref && IsChannel(s, ref)
    ensures IsClose(OnClient(s, f).outputs[i]) ==> f.SentClose?
  {
    if !f.Confirm? && f.id in s.client {
      StoredAs(s, f.id);
      match f {
        case SentData(_, chunks) => DataMessagesAt(To(s.chans[s.client[f.id]]), None, chunks, i);
        case SentExtended(_, code, chunks) => DataMessagesAt(To(s.chans[s.client[f.id]]), Some(code), chunks, i);
        case _ =>
      }
    }
  }

  // ... or by the connection that is opening it.
  lemma OnlyLiveSpeak(s: State, e: Event, i: nat, side: Side, ref: nat)
    requires Inv(s) && Enabled(s, e) && i < |Handle(s, e).outputs| && By(Handle(s, e).outputs[i], side, ref) && IsRelayed(s, ref)
    ensures Live(s, side, ref)
  {
    match e {
      case Operator(conn, got) => OperatorSpeaks(s, conn, got, i, side, ref);
      case Client(f) => ClientSpeaks(s, f, i, side, ref); StoredAs(s, f.id);
      case Wake(conn, _) => OpeningAs(s, conn);
      case _ =>
    }
  }

  // A close is the last thing a step sends for a channel, and the channel is gone behind it.
  lemma OperatorCloseEnds(s: State, conn: nat, got: FromOperator, i: nat, side: Side, ref: nat)
    requires Inv(s) && Enabled(s, Operator(conn, got)) && IsRelayed(s, ref)
    requires i < |OnOperator(s, conn, got).outputs| && By(OnOperator(s, conn, got).outputs[i], side, ref) && IsClose(OnOperator(s, conn, got).outputs[i])
    ensures var t := OnOperator(s, conn, got).s; IsRelayed(t, ref) && !Live(t, side, ref)
    ensures forall j :: i < j < |OnOperator(s, conn, got).outputs| ==> !By(OnOperator(s, conn, got).outputs[j], side, ref)
  {
    OperatorSpeaks(s, conn, got, i, side, ref);
    ListedAs(s, conn, got.localId);
    assert ListedAt(s, conn, got.localId);
    NotOpening(s, ref);
  }

  lemma ClientCloseEnds(s: State, f: FromClient, i: nat, side: Side, ref: nat)
    requires Inv(s) && IsRelayed(s, ref)
    requires i < |OnClient(s, f).outputs| && By(OnClient(s, f).outputs[i], side, ref) && IsClose(OnClient(s, f).outputs[i])
    ensures var t := OnClient(s, f).s; IsRelayed(t, ref) && !Live(t, side, ref)
    ensures |OnClient(s, f).outputs| == i + 1
  {
    ClientSpeaks(s, f, i, side, ref);
    StoredAs(s, f.id);
    NotOpening(s, ref);
  }

  lemma CloseEnds(s: State, e: Event, i: nat, side: Side, ref: nat)
    requires Inv(s) && Enabled(s, e) && i < |Handle(s, e).outputs| && IsRelayed(s, ref)
    requires By(Handle(s, e).outputs[i], side, ref) && IsClose(Handle(s, e).outputs[i])
    ensures IsRelayed(Handle(s, e).s, ref) && !Live(Handle(s, e).s, side, ref)
    ensures forall j :: i < j < |Handle(s, e).outputs| ==> !By(Handle(s, e).outputs[j], side, ref)
  {
    match e {
      case Operator(conn, got) => OperatorCloseEnds(s, conn, got, i, side, ref);
      case Client(f) => ClientCloseEnds(s, f, i, side, ref);
      case _ =>
    }
  }

  // ------------------------------------------------------------- whole runs

  lemma FreshDoNotClose(s: State, e: Event, i: nat, side: Side, ref: nat)
    requires Inv(s) && Enabled(s, e) && i < |Handle(s, e).outputs| && ref >= |s.chans|
    requires By(Handle(s, e).outputs[i], side, ref)
    ensures !IsClose(Handle(s, e).outputs[i])
  {
    match e {
      case Operator(conn, got) =>
        if !got.ChannelOpen? && got.localId in s.conns[conn].channels { ListedAs(s, conn, got.localId); }
      case Client(f) => ClientSpeaks(s, f, i, side, ref);
      case Wake(conn, _) => OpeningAs(s, conn);
      case _ =>
    }
  }

  // A channel keeps its ids, and its kind.
  lemma ChannelStays(s: State, e: Event, ref: nat)
    requires Inv(s) && Enabled(s, e) && ref < |s.chans|
    ensures var t := Handle(s, e).s;
      ref < |t.chans| && t.chans[ref].conn == s.chans[ref].conn && t.chans[ref].localId == s.chans[ref].localId
      && (s.chans[ref].kind.Remote? || t.chans[ref].kind.Remote? ==> t.chans[ref].kind == s.chans[ref].kind)
  {
    if !Opens(s, e) {
      OthersShrink(s, e);
      assert ChannelAfter(s.chans[ref], Handle(s, e).s.chans[ref]);
    }
  }

  // Section 5.3 of RFC 4254: on every relayed channel, at most one CLOSE goes to each side, and
  // nothing follows it, whichever side closes first.
  lemma CloseIsFinal(events: seq<Event>, side: Side, ref: nat, i: nat, j: nat)
    requires Possible(MUX, START, events) && IsRelayed(After(MUX, START, events).s, ref)
    requires i < j < |After(MUX, START, events).outputs|
    requires By(After(MUX, START, events).outputs[i], side, ref) && IsClose(After(MUX, START, events).outputs[i])
    ensures !By(After(MUX, START, events).outputs[j], side, ref)
  {
    var about, closes := (o: Output) => By(o, side, ref), (o: Output) => IsClose(o);
    var gone := (s: State) => IsRelayed(s, ref) && !Live(s, side, ref);
    var counts := (s: State) => ref < |s.chans| ==> IsRelayed(s, ref);
    StartConsistent();
    forall s, e | Inv(s) && MUX.enabled(s, e) && !counts(s)
      ensures !counts(MUX.step(s, e).s)
    {
      ChannelStays(s, e, ref);
    }
    forall s, e | Inv(s) && MUX.enabled(s, e) && gone(s)
      ensures GoneStep(MUX, about, gone, s, e)
    {
      GoneStaysGone(s, e, side, ref);
      forall k | 0 <= k < |Handle(s, e).outputs| && By(Handle(s, e).outputs[k], side, ref)
        ensures false
      {
        OnlyLiveSpeak(s, e, k, side, ref);
      }
    }
    forall s, e, k | Inv(s) && MUX.enabled(s, e) && counts(s) && 0 <= k < |MUX.step(s, e).outputs|
                     && about(MUX.step(s, e).outputs[k]) && closes(MUX.step(s, e).outputs[k])
      ensures CloseStep(MUX, about, gone, s, e, k)
    {
      if ref < |s.chans| {
        CloseEnds(s, e, k, side, ref);
      } else {
        FreshDoNotClose(s, e, k, side, ref);
      }
    }
    ClosingIsFinal(MUX, Inv, about, closes, gone, counts, START, events, i, j);
  }

  // ------------------------------------------------------------ data streams

  // The data an output carries towards one side for one channel.
  function DataFor(o: Output, side: Side, ref: nat): bytes {
    match o
    case ToClient(via, frame) =>
      if side.TowardsClient? && via == ref && (frame.ChannelData? || frame.ChannelExtended?) then frame.data else []
    case ToOperator(_, owner, message) =>
      if side.TowardsOperator? && owner == Some(ref) && (message.Data? || message.ExtendedData?) then message.data else []
    case ToSocket(_, _) => []
  }

  // The data an event brings in for a channel: from its operator, addressed to its local id
  // while it is listed there, ...
  function DataFromOperator(s: State, e: Event, ref: nat): bytes {
    if e.Operator? && e.conn in s.conns && (e.got.GotData? || e.got.GotExtended?)
       && Find(s.conns[e.conn].channels, e.got.localId) == Some(ref) && IsRelayed(s, ref) then e.got.data
    else []
  }

  // ... and from the other end: addressed to its remote id while it is stored there, or from
  // its TCP connection.
  function DataFromRemote(s: State, e: Event, ref: nat): bytes {
    if ref >= |s.chans| || s.chans[ref].recipient.None? then []
    else match e
      case Client(f) => if (f.SentData? || f.SentExtended?) && Find(s.client, f.id) == Some(ref) then Concat(f.chunks) else []
      case TcpData(from, chunks) => if from == ref then Concat(chunks) else []
      case _ => []
  }

  lemma {:induction false} ChunksArrive(s: State, ref: nat, code: Option<nat>, chunks: seq<bytes>, side: Side, other: nat)
    requires ref < |s.chans| && s.chans[ref].recipient.Some?
    ensures Gathered((o: Output) => DataFor(o, side, other), Tell(s, ref, DataMessages(To(s.chans[ref]), code, chunks)))
      == if side.TowardsOperator? && ref == other then Concat(chunks) else []
  {
    var told := Tell(s, ref, DataMessages(To(s.chans[ref]), code, chunks));
    if chunks != [] {
      ChunksArrive(s, ref, code, chunks[1..], side, other);
      assert told[1..] == Tell(s, ref, DataMessages(To(s.chans[ref]), code, chunks[1..]));
    }
  }

  // No data, no difference.
  lemma {:induction false} GatherNothing(outputs: seq<Output>, side: Side, ref: nat)
    requires forall o :: o in outputs ==> DataFor(o, side, ref) == []
    ensures Gathered((o: Output) => DataFor(o, side, ref), outputs) == []
  {
    if outputs != [] { GatherNothing(outputs[1..], side, ref); }
  }

  lemma {:induction false} GatherFirst(outputs: seq<Output>, side: Side, ref: nat)
    requires outputs != [] && forall i :: 1 <= i < |outputs| ==> DataFor(outputs[i], side, ref) == []
    ensures Gathered((o: Output) => DataFor(o, side, ref), outputs) == DataFor(outputs[0], side, ref)
  {
    GatherNothing(outputs[1..], side, ref);
    assert DataFor(outputs[0], side, ref) + [] == DataFor(outputs[0], side, ref);
  }

  lemma ChannelStepData(s: State, listed: nat, got: FromOperator, side: Side, ref: nat)
    requires IsChannel(s, listed) && !got.ChannelOpen?
    ensures Gathered((o: Output) => DataFor(o, side, ref), OnChannel(s, listed, got).outputs)
      == if side.TowardsClient? && (got.GotData? || got.GotExtended?) && listed == ref && IsRelayed(s, ref) then got.data else []
  {
    var outputs := OnChannel(s, listed, got).outputs;
    if outputs != [] { GatherFirst(outputs, side, ref); }
  }

  lemma OperatorStepData(s: State, conn: nat, got: FromOperator, side: Side, ref: nat)
    requires Inv(s) && Enabled(s, Operator(conn, got))
    ensures Gathered((o: Output) => DataFor(o, side, ref), OnOperator(s, conn, got).outputs)
      == if side.TowardsClient? then DataFromOperator(s, Operator(conn, got), ref) else []
  {
    if !got.ChannelOpen? && got.localId in s.conns[conn].channels {
      ListedAs(s, conn, got.localId);
      ChannelStepData(s, s.conns[conn].channels[got.localId], got, side, ref);
    } else {
      GatherNothing(OnOperator(s, conn, got).outputs, side, ref);
    }
  }

  lemma ClientStepData(s: State, f: FromClient, side: Side, ref: nat)
    requires Inv(s)
    ensures Gathered((o: Output) => DataFor(o, side, ref), OnClient(s, f).outputs)
      == if side.TowardsOperator? then DataFromRemote(s, Client(f), ref) else []
  {
    if !f.Confirm? && f.id in s.client {
      StoredAs(s, f.id);
      var to := s.client[f.id];
      match f {
        case SentData(_, chunks) => if s.chans[to].recipient.Some? { ChunksArrive(s, to, None, chunks, side, ref); }
        case SentExtended(_, code, chunks) => if s.chans[to].recipient.Some? { ChunksArrive(s, to, Some(code), chunks, side, ref); }
        case _ => GatherNothing(OnClient(s, f).outputs, side, ref);
      }
    }
  }

  function DataIn(s: State, e: Event, side: Side, ref: nat): bytes {
    if side.TowardsClient? then DataFromOperator(s, e, ref) else DataFromRemote(s, e, ref)
  }

  lemma StepData(s: State, e: Event, side: Side, ref: nat)
    requires Inv(s) && Enabled(s, e)
    ensures Gathered((o: Output) => DataFor(o, side, ref), Handle(s, e).outputs) == DataIn(s, e, side, ref)
  {
    match e {
      case Operator(conn, got) => OperatorStepData(s, conn, got, side, ref);
      case Client(f) => ClientStepData(s, f, side, ref);
      case Wake(conn, _) =>
        OpeningAs(s, conn);
        GatherNothing(Handle(s, e).outputs, side, ref);
      case TcpData(from, chunks) => if s.chans[from].recipient.Some? { ChunksArrive(s, from, None, chunks, side, ref); }
      case _ => GatherNothing(Handle(s, e).outputs, side, ref);
    }
  }

  // Over every run and for every channel, the data that leaves for the client is exactly the
  // data that came in from the operator for that channel, byte for byte and in order, and the
  // data that leaves for the operator is exactly what came in from the other end: nothing
  // crosses over to another channel, and nothing is lost or repeated while it is open.
  lemma DataStaysOnItsChannel(events: seq<Event>, side: Side, ref: nat)
    requires Possible(MUX, START, events)
    ensures Gathered((o: Output) => DataFor(o, side, ref), After(MUX, START, events).outputs)
      == Taken(MUX, (s: State, e: Event) => DataIn(s, e, side, ref), START, events)
  {
    StartConsistent();
    var f, take := (o: Output) => DataFor(o, side, ref), (s: State, e: Event) => DataIn(s, e, side, ref);
    forall s, e | Inv(s) && MUX.enabled(s, e)
      ensures Gathered(f, MUX.step(s, e).outputs) == take(s, e)
    {
      StepData(s, e, side, ref);
    }
    TotalsAgree(MUX, Inv, take, f, START, events);
  }

  // ------------------------------------------------------- ids and answers

  function OpenedId(o: Output): seq<nat> {
    if o.ToClient? && o.frame.OpenChannel? then [o.frame.id] else []
  }

  lemma {:induction false} NoOpenedId(outputs: seq<Output>)
    requires forall o :: o in outputs ==> OpenedId(o) == []
    ensures Gathered((o: Output) => OpenedId(o), outputs) == []
  {
    if outputs != [] { NoOpenedId(outputs[1..]); }
  }

  lemma StepOpens(s: State, e: Event)
    requires Inv(s) && Enabled(s, e)
    ensures CountStep(MUX, (s: State) => s.counter, (o: Output) => OpenedId(o), s, e)
  {
    var f := (o: Output) => OpenedId(o);
    if e.Operator? && e.got.ChannelOpen? && e.got.supported {
      var one := Handle(s, e).outputs;
      assert one[1..] == [];
    } else {
      if !Opens(s, e) { OthersShrink(s, e); }
      StepOpensNothing(s, e);
      NoOpenedId(Handle(s, e).outputs);
    }
  }

  lemma ChannelOpensNothing(s: State, ref: nat, got: FromOperator)
    requires IsChannel(s, ref)
    ensures forall o :: o in OnChannel(s, ref, got).outputs ==> OpenedId(o) == []
  {}

  lemma StepOpensNothing(s: State, e: Event)
    requires Inv(s) && Enabled(s, e) && !(e.Operator? && e.got.ChannelOpen? && e.got.supported)
    ensures forall o :: o in Handle(s, e).outputs ==> OpenedId(o) == []
  {
    match e {
      case Operator(conn, got) =>
        if !got.ChannelOpen? && got.localId in s.conns[conn].channels {
          ListedAs(s, conn, got.localId);
          ChannelOpensNothing(s, s.conns[conn].channels[got.localId], got);
        }
      case Client(f) =>
        if !f.Confirm? && f.id in s.client { StoredAs(s, f.id); }
      case Wake(conn, _) => OpeningAs(s, conn);
      case _ =>
    }
  }

  // The ids of the channels opened at the client are 1, 2, 3, ... in this order: none is ever
  // used again.
  lemma RemoteIdsAreFresh(events: seq<Event>)
    requires Possible(MUX, START, events)
    ensures Gathered((o: Output) => OpenedId(o), After(MUX, START, events).outputs) == Range(1, After(MUX, START, events).s.counter)
  {
    StartConsistent();
    var count, f := (s: State) => s.counter, (o: Output) => OpenedId(o);
    forall s, e | Inv(s) && MUX.enabled(s, e)
      ensures CountStep(MUX, count, f, s, e)
    {
      StepOpens(s, e);
    }
    CountedUp(MUX, Inv, count, f, START, events);
  }

  // An answer of the client reaches the one connection that is opening the channel with that
  // id; a late or repeated one changes nothing.
  lemma AnswersReachTheirOpener(events: seq<Event>, id: nat, ok: bool)
    requires Possible(MUX, START, events)
    ensures var s := After(MUX, START, events).s; var t := Handle(s, Client(Confirm(id, ok))).s;
      && (id !in s.pending ==> t == s)
      && (id in s.pending ==>
            var conn := s.pending[id];
            && conn in s.conns && s.conns[conn].opening.Some? && s.conns[conn].opening.value.ref < |s.chans|
            && s.chans[s.conns[conn].opening.value.ref].kind == Remote(id)
            && t.conns == s.conns[conn := s.conns[conn].(opening := Some(s.conns[conn].opening.value.(answer := Some(ok))))]
            && t.client == s.client && t.chans == s.chans && id !in t.pending)
  {
    StartConsistent();
    RunKeeps(MUX, Inv, START, events);
    var s := After(MUX, START, events).s;
    if id in s.pending { assert PendingAt(s, id); }
  }

  // -------------------------------------------------------- counterexamples

  lemma OneMoreStep(s: State, e: Event, events: seq<Event>)
    requires Enabled(s, e) && Possible(MUX, Handle(s, e).s, events)
    ensures Possible(MUX, s, [e] + events)
    ensures var rest := After(MUX, Handle(s, e).s, events);
      After(MUX, s, [e] + events) == Effect(rest.s, Handle(s, e).outputs + rest.outputs)
  {
    assert ([e] + events)[1..] == events;
  }

  // A client that closes a channel before it confirms it: the channel is listed for the
  // operator although it is no longer stored for the client.
  lemma ClosedBeforeConfirmed(conn: nat, sender: nat)
    ensures exists events :: Possible(MUX, START, events) && UnstoredListed(After(MUX, START, events).s)
  {
    var e0, e1, e2, e3, e4 := Connect(conn), Operator(conn, ChannelOpen(true, sender)), Client(SentClose(1)),
      Client(Confirm(1, true)), Wake(conn, false);
    var s1 := Handle(START, e0).s;
    var s2 := Handle(s1, e1).s;
    var s3 := Handle(s2, e2).s;
    assert s2.client == map[1 := 0] && s3.client == map[] && s3.pending == map[1 := conn];
    var s4 := Handle(s3, e3).s;
    var s5 := Handle(s4, e4).s;
    assert Listed(s5, 0) && s5.client == map[];
    assert s5.conns[conn].channels[0] == 0;
    OneMoreStep(s4, e4, []);
    OneMoreStep(s3, e3, [e4] + []);
    OneMoreStep(s2, e2, [e3] + ([e4] + []));
    OneMoreStep(s1, e1, [e2] + ([e3] + ([e4] + [])));
    OneMoreStep(START, e0, [e1] + ([e2] + ([e3] + ([e4] + []))));
  }

  ghost predicate UnstoredListed(s: State) {
    exists conn, l :: conn in s.conns && l in s.conns[conn].channels && RelayedButUnstored(s, s.conns[conn].channels[l])
  }

  predicate RelayedButUnstored(s: State, ref: nat) {
    IsRelayed(s, ref) && s.chans[ref].kind.remoteId !in s.client
  }
}
