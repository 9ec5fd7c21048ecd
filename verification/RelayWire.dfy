/** What the runs of the channel router look like on the wire, without the channel objects behind
    it: what every output carries, and the frames to the client by the channel ids in them. */
module RelayWire {
  import opened Wrappers
  import opened Bits
  import opened Framing
  import opened ChannelMessages
  import opened RelayMux
  import opened RelayRouting
  import opened RelayTraces
  import opened Runs

  // ------------------------------------------------------- labels and ids

  // The channel an output is made for has the id that is sent to the client, or the connection
  // and the number that the message to the operator is addressed to.
  predicate OnTheWire(t: State, o: Output) {
    match o
    case ToClient(via, frame) => via < |t.chans| && t.chans[via].kind == Remote(frame.id)
    case ToOperator(conn, Some(ref), message) =>
      && ref < |t.chans| && t.chans[ref].conn == conn
      && (message.Open? || message.OpenConfirmation? ==> message.sender == t.chans[ref].localId)
      && (!message.Open? ==> t.chans[ref].recipient == Some(message.recipient))
    case ToOperator(_, None, message) => message.OpenFailure? || message.Failure?
    case ToSocket(via, _) => via < |t.chans| && t.chans[via].kind.Forwarded?
  }

  lemma ToldOnTheWire(s: State, ref: nat, messages: seq<Message>)
    requires ref < |s.chans| && forall m :: m in messages ==> !m.Open? && !m.OpenConfirmation? && m.recipient == To(s.chans[ref])
    ensures forall o :: o in Tell(s, ref, messages) ==> OnTheWire(s, o)
  {}

  lemma DataOnTheWire(s: State, ref: nat, code: Option<nat>, chunks: seq<bytes>)
    requires ref < |s.chans|
    ensures forall o :: o in Tell(s, ref, DataMessages(To(s.chans[ref]), code, chunks)) ==> OnTheWire(s, o)
  {
    var to := To(s.chans[ref]);
    forall m | m in DataMessages(to, code, chunks)
      ensures !m.Open? && !m.OpenConfirmation? && m.recipient == to
    {
      var i :| 0 <= i < |chunks| && DataMessages(to, code, chunks)[i] == m;
      DataMessagesAt(to, code, chunks, i);
    }
    ToldOnTheWire(s, ref, DataMessages(to, code, chunks));
  }

  lemma ChannelOnTheWire(s: State, ref: nat, got: FromOperator, i: nat)
    requires IsChannel(s, ref) && i < |OnChannel(s, ref, got).outputs|
    ensures OnTheWire(OnChannel(s, ref, got).s, OnChannel(s, ref, got).outputs[i])
  {}

  lemma OperatorOnTheWire(s: State, conn: nat, got: FromOperator, i: nat)
    requires Inv(s) && Enabled(s, Operator(conn, got)) && i < |OnOperator(s, conn, got).outputs|
    ensures OnTheWire(OnOperator(s, conn, got).s, OnOperator(s, conn, got).outputs[i])
  {
    if !got.ChannelOpen? && got.localId in s.conns[conn].channels {
      ListedAs(s, conn, got.localId);
      ChannelOnTheWire(s, s.conns[conn].channels[got.localId], got, i);
    }
  }

  lemma ClientOnTheWire(s: State, f: FromClient, i: nat)
    requires Inv(s) && i < |OnClient(s, f).outputs|
    ensures OnTheWire(OnClient(s, f).s, OnClient(s, f).outputs[i])
  {
    StoredAs(s, f.id);
    var ref := s.client[f.id];
    match f {
      case SentData(_, chunks) => DataOnTheWire(s, ref, None, chunks);
      case SentExtended(_, code, chunks) => DataOnTheWire(s, ref, Some(code), chunks);
      case _ =>
    }
  }

  lemma TcpOnTheWire(s: State, e: Event, i: nat)
    requires Enabled(s, e) && (e.TcpData? || e.TcpEnd?) && i < |Handle(s, e).outputs|
    ensures OnTheWire(Handle(s, e).s, Handle(s, e).outputs[i])
  {
    if e.TcpData? { DataOnTheWire(s, e.ref, None, e.chunks); }
  }

  // Every output of every step carries the ids of the channel that it is made for.
  lemma LabelsMatchTheWire(s: State, e: Event, i: nat)
    requires Inv(s) && Enabled(s, e) && i < |Handle(s, e).outputs|
    ensures OnTheWire(Handle(s, e).s, Handle(s, e).outputs[i])
  {
    match e {
      case Operator(conn, got) => OperatorOnTheWire(s, conn, got, i);
      case Client(f) => ClientOnTheWire(s, f, i);
      case Wake(conn, _) => OpeningAs(s, conn);
      case TcpData(_, _) => TcpOnTheWire(s, e, i);
      case TcpEnd(_) => TcpOnTheWire(s, e, i);
      case _ =>
    }
  }

  // --------------------------------------------------------- towards the client

  // The frame is for the channel with this id at the client.
  predicate ForId(o: Output, id: nat) {
    o.ToClient? && o.frame.id == id
  }

  ghost predicate ClientLabel(s: State, o: Output) {
    o.ToClient? ==> o.via < |s.chans| && s.chans[o.via].kind == Remote(o.frame.id)
  }

  lemma ClientLabelInRun(events: seq<Event>, i: nat)
    requires Possible(MUX, START, events) && i < |After(MUX, START, events).outputs|
    ensures ClientLabel(After(MUX, START, events).s, After(MUX, START, events).outputs[i])
  {
    StartConsistent();
    forall s, e, k | Inv(s) && MUX.enabled(s, e) && 0 <= k < |MUX.step(s, e).outputs|
      ensures ClientLabel(MUX.step(s, e).s, MUX.step(s, e).outputs[k])
    {
      LabelsMatchTheWire(s, e, k);
    }
    forall s, e, o | Inv(s) && MUX.enabled(s, e) && ClientLabel(s, o)
      ensures ClientLabel(MUX.step(s, e).s, o)
    {
      if o.ToClient? { ChannelStays(s, e, o.via); }
    }
    OutputsMatch(MUX, Inv, ClientLabel, START, events, i);
  }

  // Over every run, no frame with a channel id follows a CHANNEL_CLOSE with that id.
  lemma CloseIsFinalForClient(events: seq<Event>, id: nat, i: nat, j: nat)
    requires Possible(MUX, START, events) && i < j < |After(MUX, START, events).outputs|
    requires ForId(After(MUX, START, events).outputs[i], id) && After(MUX, START, events).outputs[i].frame.ChannelClose?
    ensures !ForId(After(MUX, START, events).outputs[j], id)
  {
    var s, outputs := After(MUX, START, events).s, After(MUX, START, events).outputs;
    StartConsistent();
    RunKeeps(MUX, Inv, START, events);
    ClientLabelInRun(events, i);
    ClientLabelInRun(events, j);
    CloseIsFinal(events, TowardsClient, outputs[i].via, i, j);
    if ForId(outputs[j], id) { SameRemoteId(s, outputs[i].via, outputs[j].via); }
  }

  function DataForId(o: Output, id: nat): bytes {
    if ForId(o, id) && (o.frame.ChannelData? || o.frame.ChannelExtended?) then o.frame.data else []
  }

  // The channel a message of the operator is addressed to, if it is listed.
  function Target(s: State, e: Event): Option<nat> {
    if e.Operator? && e.conn in s.conns && !e.got.ChannelOpen? then
      match Find(s.conns[e.conn].channels, e.got.localId)
      case Some(ref) => if ref < |s.chans| then Some(ref) else None
      case None => None
    else None
  }

  // The data an operator sends to a channel that has this id at the client.
  function DataForClientId(s: State, e: Event, id: nat): bytes {
    if Target(s, e).Some? && s.chans[Target(s, e).value].kind == Remote(id) && (e.got.GotData? || e.got.GotExtended?) then e.got.data else []
  }

  predicate HasId(s: State, ref: nat, id: nat) {
    ref < |s.chans| && s.chans[ref].kind == Remote(id)
  }

  lemma IdStays(s: State, e: Event, ref: nat, id: nat)
    requires Inv(s) && Enabled(s, e) && ref < |s.chans|
    ensures HasId(s, ref, id) <==> HasId(Handle(s, e).s, ref, id)
  {
    ChannelStays(s, e, ref);
  }

  lemma SameId(s: State, a: nat, b: nat, id: nat)
    requires Inv(s) && HasId(s, a, id) && HasId(s, b, id)
    ensures a == b
  {
    SameRemoteId(s, a, b);
  }

  lemma FrameHasId(s: State, e: Event, id: nat, i: nat)
    requires Inv(s) && Enabled(s, e) && i < |Handle(s, e).outputs| && ForId(Handle(s, e).outputs[i], id)
    ensures HasId(Handle(s, e).s, Handle(s, e).outputs[i].via, id)
  {
    LabelsMatchTheWire(s, e, i);
  }

  // In one step the frames with an id are those that are made for the channel that has it.
  lemma IdIsLabel(s: State, e: Event, id: nat, ref: nat)
    requires Inv(s) && Enabled(s, e) && HasId(Handle(s, e).s, ref, id)
    ensures Gathered((o: Output) => DataForId(o, id), Handle(s, e).outputs)
      == Gathered((o: Output) => DataFor(o, TowardsClient, ref), Handle(s, e).outputs)
  {
    var f, g, outputs := (o: Output) => DataForId(o, id), (o: Output) => DataFor(o, TowardsClient, ref), Handle(s, e).outputs;
    HandleKeeps(s, e);
    forall i | 0 <= i < |outputs|
      ensures f(outputs[i]) == g(outputs[i])
    {
      if outputs[i].ToClient? {
        FrameHasId(s, e, outputs[i].frame.id, i);
        if ForId(outputs[i], id) { SameId(Handle(s, e).s, ref, outputs[i].via, id); }
      }
    }
    GatheredSame(f, g, outputs);
  }

  lemma TargetHasId(s: State, e: Event, id: nat, ref: nat)
    requires Inv(s) && Enabled(s, e) && HasId(Handle(s, e).s, ref, id)
    ensures DataForClientId(s, e, id) == DataFromOperator(s, e, ref)
  {
    HandleKeeps(s, e);
    if Target(s, e).Some? {
      var to := Target(s, e).value;
      IdStays(s, e, to, id);
      if HasId(s, to, id) { SameId(Handle(s, e).s, ref, to, id); }
    }
  }

  lemma StepDataForId(s: State, e: Event, id: nat)
    requires Inv(s) && Enabled(s, e)
    ensures Gathered((o: Output) => DataForId(o, id), Handle(s, e).outputs) == DataForClientId(s, e, id)
  {
    if ref: nat :| HasId(Handle(s, e).s, ref, id) {
      IdIsLabel(s, e, id, ref);
      StepData(s, e, TowardsClient, ref);
      TargetHasId(s, e, id, ref);
    } else {
      forall i | 0 <= i < |Handle(s, e).outputs|
        ensures DataForId(Handle(s, e).outputs[i], id) == []
      {
        if ForId(Handle(s, e).outputs[i], id) { FrameHasId(s, e, id, i); }
      }
      NothingFound((o: Output) => DataForId(o, id), Handle(s, e).outputs);
      if Target(s, e).Some? { IdStays(s, e, Target(s, e).value, id); }
    }
  }

  // Over every run and for every id, the data in the frames with that id is exactly the data
  // that operators sent to the channel that has this id, byte for byte and in order.
  lemma DataReachesItsId(events: seq<Event>, id: nat)
    requires Possible(MUX, START, events)
    ensures Gathered((o: Output) => DataForId(o, id), After(MUX, START, events).outputs)
      == Taken(MUX, (s: State, e: Event) => DataForClientId(s, e, id), START, events)
  {
    StartConsistent();
    var f, take := (o: Output) => DataForId(o, id), (s: State, e: Event) => DataForClientId(s, e, id);
    forall s, e | Inv(s) && MUX.enabled(s, e)
      ensures Gathered(f, MUX.step(s, e).outputs) == take(s, e)
    {
      StepDataForId(s, e, id);
    }
    TotalsAgree(MUX, Inv, take, f, START, events);
  }
}
